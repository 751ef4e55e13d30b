/** The query strings sent for a date range: a date written as
    `date.isoformat()` does (`YYYY-MM-DD`), followed by a fixed UTC time of
    day, which makes an RFC 3339 (section 5.6) `date-time`. A parser for the
    same restricted form, `YYYY-MM-DDTHH:MM:SSZ`, reads the strings back. */
module IsoFormat {
  import opened Wrappers
  import opened Calendar

  predicate IsDigit(c: char) {
    '0' <= c <= '9'
  }

  function DigitChar(d: int): (c: char)
    requires 0 <= d < 10
    ensures IsDigit(c)
  {
    ('0' as int + d) as char
  }

  function Pow10(k: nat): (p: nat)
    ensures p >= 1
  {
    if k == 0 then 1 else 10 * Pow10(k - 1)
  }

  /** `n` written in exactly `width` decimal digits, with leading zeros
      (Python's `%0<width>d` for a value that fits). */
  function FormatFixed(n: nat, width: nat): (s: string)
    requires n < Pow10(width)
    ensures |s| == width
    ensures forall i :: 0 <= i < |s| ==> IsDigit(s[i])
    decreases width
  {
    if width == 0 then [] else FormatFixed(n / 10, width - 1) + [DigitChar(n % 10)]
  }

  /** The value of a string of decimal digits; `None` if any character is not a digit. */
  function ParseDigits(s: string): (r: Option<nat>)
    ensures r.Some? <==> forall i :: 0 <= i < |s| ==> IsDigit(s[i])
    ensures r.Some? ==> r.value < Pow10(|s|)
  {
    if s == [] then Some(0)
    else
      var last := s[|s| - 1];
      match ParseDigits(s[..|s| - 1])
      case None => None
      case Some(v) =>
        if IsDigit(last) then Some(v * 10 + (last as int - '0' as int)) else None
  }

  /** Reading a fixed-width number back gives the number. */
  lemma {:induction false} ParseFormatFixed(n: nat, width: nat)
    requires n < Pow10(width)
    ensures ParseDigits(FormatFixed(n, width)) == Some(n)
    decreases width
  {
    if width > 0 {
      var s := FormatFixed(n, width);
      assert s[..|s| - 1] == FormatFixed(n / 10, width - 1);
      ParseFormatFixed(n / 10, width - 1);
    }
  }

  /** Writing a parsed digit string back at the same width gives the string:
      the digit form has exactly one spelling per width. */
  lemma {:induction false} FormatParseDigits(s: string)
    requires ParseDigits(s).Some?
    ensures FormatFixed(ParseDigits(s).value, |s|) == s
  {
    if s != [] {
      var init := s[..|s| - 1];
      var v := ParseDigits(init).value;
      FormatParseDigits(init);
      var n := ParseDigits(s).value;
      assert n / 10 == v && n % 10 == s[|s| - 1] as int - '0' as int;
      assert s == init + [s[|s| - 1]];
    }
  }

  /** `date.isoformat()`: `YYYY-MM-DD`. */
  function IsoDate(d: Date): (s: string)
    requires ValidDate(d)
    ensures |s| == 10 && s[4] == '-' && s[7] == '-'
  {
    FormatFixed(d.year, 4) + "-" + FormatFixed(d.month, 2) + "-" + FormatFixed(d.day, 2)
  }

  /** The lower bound of an inclusive range: the first second of `d` in UTC. */
  function RangeStart(d: Date): string
    requires ValidDate(d)
  {
    IsoDate(d) + "T00:00:00Z"
  }

  /** The upper bound of an inclusive range: the last whole second of `d` in UTC. */
  function RangeEnd(d: Date): string
    requires ValidDate(d)
  {
    IsoDate(d) + "T23:59:59Z"
  }

  /** The `start_date` and `end_date` parameters of a time-entries request. */
  datatype Query = Query(startDate: string, endDate: string)

  /** The parameters asking for every entry from `start` to `end`, both days included. */
  function RangeQuery(start: Date, end: Date): (q: Query)
    requires ValidDate(start) && ValidDate(end)
    ensures ParseUtc(q.startDate) == Some(DateTime(start, 0, 0, 0, 0, Some(0)))
    ensures ParseUtc(q.endDate) == Some(DateTime(end, 23, 59, 59, 0, Some(0)))
  {
    RangeStartParses(start);
    RangeEndParses(end);
    Query(RangeStart(start), RangeEnd(end))
  }

  /** The RFC 3339 `date-time` form `YYYY-MM-DDTHH:MM:SSZ` (no fraction, UTC),
      read into a valid date-time with offset 0; anything else is `None`. */
  function ParseUtc(s: string): (r: Option<DateTime>)
    ensures r.Some? ==> ValidDateTime(r.value) && r.value.utcOffset == Some(0) && r.value.microsecond == 0
    ensures r.Some? ==> |s| == 20
  {
    if |s| == 20 && s[4] == '-' && s[7] == '-' && s[10] == 'T' && s[13] == ':' && s[16] == ':' && s[19] == 'Z' then
      var y, mo, d := ParseDigits(s[0..4]), ParseDigits(s[5..7]), ParseDigits(s[8..10]);
      var h, mi, se := ParseDigits(s[11..13]), ParseDigits(s[14..16]), ParseDigits(s[17..19]);
      if y.Some? && mo.Some? && d.Some? && h.Some? && mi.Some? && se.Some? then
        var t := DateTime(Date(y.value, mo.value, d.value), h.value, mi.value, se.value, 0, Some(0));
        if ValidDateTime(t) then Some(t) else None
      else None
    else None
  }

  /** The pieces of a date's ISO form, where they sit in a longer string. */
  lemma IsoDatePieces(d: Date, rest: string)
    requires ValidDate(d)
    ensures var s := IsoDate(d) + rest;
      s[0..4] == FormatFixed(d.year, 4) && s[5..7] == FormatFixed(d.month, 2) &&
      s[8..10] == FormatFixed(d.day, 2) && s[10..] == rest
  {
  }

  /** Pieces of a fixed time-of-day suffix `Thh:mm:ssZ`. */
  lemma SuffixPieces(d: Date, suffix: string, hh: string, mm: string, ss: string)
    requires ValidDate(d)
    requires |hh| == 2 && |mm| == 2 && |ss| == 2
    requires suffix == "T" + hh + ":" + mm + ":" + ss + "Z"
    ensures var s := IsoDate(d) + suffix;
      |s| == 20 && s[10] == 'T' && s[13] == ':' && s[16] == ':' && s[19] == 'Z' &&
      s[11..13] == hh && s[14..16] == mm && s[17..19] == ss
  {
    var s := IsoDate(d) + suffix;
    assert s[10..] == suffix;
  }

  lemma DatePartParses(d: Date, s: string)
    requires ValidDate(d) && |s| >= 10
    requires s[0..10] == IsoDate(d)
    ensures ParseDigits(s[0..4]) == Some(d.year)
    ensures ParseDigits(s[5..7]) == Some(d.month)
    ensures ParseDigits(s[8..10]) == Some(d.day)
  {
    IsoDatePieces(d, s[10..]);
    assert s == IsoDate(d) + s[10..];
    ParseFormatFixed(d.year, 4);
    ParseFormatFixed(d.month, 2);
    ParseFormatFixed(d.day, 2);
  }

  /** The range's lower bound is a well-formed RFC 3339 date-time naming midnight UTC of `d`. */
  lemma RangeStartParses(d: Date)
    requires ValidDate(d)
    ensures ParseUtc(RangeStart(d)) == Some(DateTime(d, 0, 0, 0, 0, Some(0)))
  {
    var s := RangeStart(d);
    SuffixPieces(d, "T00:00:00Z", "00", "00", "00");
    assert s[0..10] == IsoDate(d);
    DatePartParses(d, s);
    assert ParseDigits("00") == Some(0);
  }

  /** The range's upper bound is a well-formed RFC 3339 date-time naming 23:59:59 UTC of `d`. */
  lemma RangeEndParses(d: Date)
    requires ValidDate(d)
    ensures ParseUtc(RangeEnd(d)) == Some(DateTime(d, 23, 59, 59, 0, Some(0)))
  {
    var s := RangeEnd(d);
    SuffixPieces(d, "T23:59:59Z", "23", "59", "59");
    assert s[0..10] == IsoDate(d);
    DatePartParses(d, s);
    assert ParseDigits("23") == Some(23) by {
      assert "23"[..1] == "2";
    }
    assert ParseDigits("59") == Some(59) by {
      assert "59"[..1] == "5";
    }
  }

  /** Different days give different query strings, so a request names its range exactly. */
  lemma RangeQueryInjective(a: Date, b: Date, c: Date, d: Date)
    requires ValidDate(a) && ValidDate(b) && ValidDate(c) && ValidDate(d)
    requires RangeQuery(a, b) == RangeQuery(c, d)
    ensures a == c && b == d
  {
    var q := RangeQuery(a, b);
    assert ParseUtc(q.startDate).value.date == a;
    assert ParseUtc(q.startDate).value.date == c;
  }

  /** For an ordered pair of days, the range's two bounds are ordered too. */
  lemma RangeBoundsOrdered(start: Date, end: Date)
    requires ValidDate(start) && ValidDate(end) && DateLe(start, end)
    ensures var q := RangeQuery(start, end);
      NaiveLe(ParseUtc(q.startDate).value, ParseUtc(q.endDate).value)
  {
  }
}
