/** The API token as the client keeps it: stripped of surrounding
    whitespace, and shown in logs only through a redacted preview. */
module Token {

  /** `c.isspace()` in Python: the characters `str.strip()` removes. */
  predicate IsSpace(c: char) {
    var n := c as int;
    (0x09 <= n <= 0x0d) || (0x1c <= n <= 0x20) || n == 0x85 || n == 0xa0 ||
    n == 0x1680 || (0x2000 <= n <= 0x200a) || n == 0x2028 || n == 0x2029 ||
    n == 0x202f || n == 0x205f || n == 0x3000
  }

  predicate AllSpace(s: string) {
    forall i :: 0 <= i < |s| ==> IsSpace(s[i])
  }

  /** How many whitespace characters `s` starts with. */
  function LeadingSpaces(s: string): (n: nat)
    ensures n <= |s| && AllSpace(s[..n])
    ensures n < |s| ==> !IsSpace(s[n])
  {
    if s == [] || !IsSpace(s[0]) then 0
    else
      var n := LeadingSpaces(s[1..]);
      assert s[..n + 1] == [s[0]] + s[1..][..n];
      n + 1
  }

  /** How many whitespace characters `s` ends with. */
  function TrailingSpaces(s: string): (n: nat)
    ensures n <= |s| && AllSpace(s[|s| - n..])
    ensures n < |s| ==> !IsSpace(s[|s| - n - 1])
  {
    if s == [] || !IsSpace(s[|s| - 1]) then 0
    else
      var n := TrailingSpaces(s[..|s| - 1]);
      TrailingStep(s, n);
      n + 1
  }

  /** Whitespace ending `s` minus its last character, followed by that
      last character when it is whitespace too, is whitespace ending `s`. */
  lemma TrailingStep(s: string, n: nat)
    requires s != [] && IsSpace(s[|s| - 1]) && n < |s| && AllSpace(s[..|s| - 1][|s| - 1 - n..])
    ensures AllSpace(s[|s| - (n + 1)..])
  {
    var tail, shorter := s[|s| - (n + 1)..], s[..|s| - 1][|s| - 1 - n..];
    forall i | 0 <= i < |tail|
      ensures IsSpace(tail[i])
    {
      if i < n {
        assert tail[i] == shorter[i];
      }
    }
  }

  /** A string that is not all whitespace has its last non-whitespace character
      after its first one. */
  lemma SpacesDoNotOverlap(s: string)
    requires LeadingSpaces(s) < |s|
    ensures LeadingSpaces(s) + TrailingSpaces(s) < |s|
  {
  }

  /** `s.strip()`: `s` with leading and trailing whitespace removed. What is
      removed is whitespace, what is kept is one contiguous piece of `s` that
      neither starts nor ends with whitespace. */
  function Strip(s: string): (r: string)
    ensures r == [] <==> LeadingSpaces(s) == |s|
    ensures var i := LeadingSpaces(s);
      i + |r| <= |s| && r == s[i..i + |r|] && AllSpace(s[..i]) && AllSpace(s[i + |r|..])
    ensures r == [] || (!IsSpace(r[0]) && !IsSpace(r[|r| - 1]))
  {
    var i := LeadingSpaces(s);
    if i == |s| then []
    else
      SpacesDoNotOverlap(s);
      s[i..|s| - TrailingSpaces(s)]
  }

  /** A stripped token is empty exactly when the raw token was all whitespace,
      which is when construction fails. */
  lemma StripEmptyIffBlank(s: string)
    ensures Strip(s) == [] <==> AllSpace(s)
  {
    if LeadingSpaces(s) == |s| {
      assert s[..|s|] == s;
    }
  }

  /** Stripping twice is stripping once: the stored token is already stripped. */
  lemma StripIdempotent(s: string)
    ensures Strip(Strip(s)) == Strip(s)
  {
    var t := Strip(s);
    if t != [] {
      assert LeadingSpaces(t) == 0;
      assert TrailingSpaces(t) == 0;
    }
  }

  /** A string that neither starts nor ends with whitespace is its own strip. */
  lemma StripKeepsTrimmed(s: string)
    requires s == [] || (!IsSpace(s[0]) && !IsSpace(s[|s| - 1]))
    ensures Strip(s) == s
  {
    if s != [] {
      assert LeadingSpaces(s) == 0 && TrailingSpaces(s) == 0;
      assert s[0..|s|] == s;
    }
  }

  /** The redacted form of a token written to the log: its first four and
      last four characters around `...` when it is longer than eight
      characters, `***` otherwise. */
  function TokenPreview(t: string): (p: string)
    ensures |t| > 8 ==> |p| == 11 && p[..4] == t[..4] && p[4..7] == "..." && p[7..] == t[|t| - 4..]
    ensures |t| <= 8 ==> p == "***"
  {
    if |t| > 8 then t[..4] + "..." + t[|t| - 4..] else "***"
  }

  /** The preview shows at most eight characters of the token, always fewer than
      the token has: a token's preview never reveals the whole token. */
  lemma PreviewRevealsLess(t: string)
    ensures |t| > 8 ==> multiset(TokenPreview(t)) - multiset("...") <= multiset(t) && |TokenPreview(t)| - 3 < |t|
    ensures |t| <= 8 ==> TokenPreview(t) == "***"
  {
    if |t| > 8 {
      var p := TokenPreview(t);
      assert p == t[..4] + "..." + t[|t| - 4..];
      assert t == t[..4] + t[4..|t| - 4] + t[|t| - 4..];
      assert multiset(p) == multiset(t[..4]) + multiset("...") + multiset(t[|t| - 4..]);
      assert multiset(t) == multiset(t[..4]) + multiset(t[4..|t| - 4]) + multiset(t[|t| - 4..]);
    }
  }

  /** Two tokens that share their first four and last four characters, and are
      both long enough to be previewed, cannot be told apart by their previews. */
  lemma PreviewDependsOnlyOnEnds(t: string, u: string)
    requires |t| > 8 && |u| > 8
    requires t[..4] == u[..4] && t[|t| - 4..] == u[|u| - 4..]
    ensures TokenPreview(t) == TokenPreview(u)
  {
  }
}
