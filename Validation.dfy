/** `validate_api_token`: ask the API who the token belongs to and look for
    the configured workspace in the answer. The answer is untyped JSON, and
    the client recognises three layouts of it, tried in order; Python's own
    rules for `in`, `[]`, `.get` and `==` decide what happens on any other
    layout, including the exceptions that escape. */
module Validation {
  import opened Wrappers
  import opened Token
  import opened IsoFormat
  import opened Transport

  /** A decoded JSON document (numbers are integers here). */
  datatype Json =
    | Null
    | Bool(b: bool)
    | Num(n: int)
    | Str(s: string)
    | Arr(items: seq<Json>)
    | Obj(fields: map<string, Json>)

  /** The Python exceptions validation can raise besides the caught
      `TogglApiError`. */
  datatype PyError = TypeError | AttributeError | ValueError

  /** Python truthiness of a decoded JSON value. */
  predicate Truthy(j: Json) {
    match j
    case Null => false
    case Bool(b) => b
    case Num(n) => n != 0
    case Str(s) => s != []
    case Arr(items) => items != []
    case Obj(fields) => fields != map[]
  }

  /** `sub` occurs somewhere in `s`. */
  predicate Contains(s: string, sub: string)
    decreases |s|
  {
    |sub| <= |s| && (s[..|sub|] == sub || (s != [] && Contains(s[1..], sub)))
  }

  /** Python's `key in j`: a key of a dict, an element of a list, a substring
      of a string; numbers, booleans and `None` are not containers. */
  function In(key: string, j: Json): (r: Result<bool, PyError>)
    ensures r.Failure? <==> j.Null? || j.Bool? || j.Num?
    ensures r.Failure? ==> r.error == TypeError
    ensures j.Obj? ==> r == Success(key in j.fields)
    ensures j.Arr? ==> r == Success(Str(key) in j.items)
  {
    match j
    case Obj(fields) => Success(key in fields)
    case Arr(items) => Success(Str(key) in items)
    case Str(s) => Success(Contains(s, key))
    case _ => Failure(TypeError)
  }

  /** Python's `v == n` for a JSON value and an int: `True == 1` and
      `False == 0` hold, values of other types never equal an int. */
  predicate EqualsInt(v: Json, n: int) {
    (v.Num? && v.n == n) || (v.Bool? && (if v.b then 1 else 0) == n)
  }

  /** `d.get(key, default)` on a dict. */
  function Get(fields: map<string, Json>, key: string, default: Json): (v: Json)
    ensures key in fields ==> v == fields[key]
    ensures key !in fields ==> v == default
  {
    if key in fields then fields[key] else default
  }

  /** At least one character, every one an ASCII digit. */
  predicate AllDigits(d: string) {
    d != [] && forall i :: 0 <= i < |d| ==> IsDigit(d[i])
  }

  /** The shape of an integer literal: an optional `-` or `+` sign followed
      by at least one ASCII digit. */
  predicate IsIntLiteral(t: string) {
    AllDigits(t) || (t != [] && (t[0] == '-' || t[0] == '+') && AllDigits(t[1..]))
  }

  /** Python's `int(s)` on a string: surrounding whitespace, then an
      integer literal; `None` where Python raises `ValueError`. */
  function PyInt(s: string): (r: Option<int>)
    ensures r.Some? <==> IsIntLiteral(Strip(s))
  {
    IntLiteral(Strip(s))
  }

  /** An integer literal read with its sign; `None` on any other shape. */
  function IntLiteral(t: string): (r: Option<int>)
    ensures r.Some? <==> IsIntLiteral(t)
  {
    if t == [] then None
    else
      var neg := t[0] == '-';
      var digits := if t[0] == '-' || t[0] == '+' then t[1..] else t;
      if digits == [] then None
      else
        match ParseDigits(digits)
        case None => None
        case Some(v) => Some(if neg then 0 - v as int else v as int)
  }

  /** Digits are read as their decimal value, after a `+` unchanged and
      after a `-` negated. */
  lemma IntLiteralSigned(d: string)
    requires AllDigits(d)
    ensures IntLiteral(d) == Some(ParseDigits(d).value as int)
    ensures IntLiteral("+" + d) == Some(ParseDigits(d).value as int)
    ensures IntLiteral("-" + d) == Some(0 - ParseDigits(d).value as int)
  {
    assert IsDigit(d[0]);
    assert ("+" + d)[1..] == d;
    assert ("-" + d)[1..] == d;
  }

  /** A string of ASCII digits is read as its decimal value. */
  lemma PyIntOfDigits(s: string)
    requires s != [] && ParseDigits(s).Some?
    ensures PyInt(s) == Some(ParseDigits(s).value)
  {
    assert IsDigit(s[0]) && IsDigit(s[|s| - 1]);
    StripKeepsTrimmed(s);
  }

  /** `int()` ignores the whitespace around its argument. */
  lemma PyIntIgnoresSurroundingSpace(s: string)
    ensures PyInt(Strip(s)) == PyInt(s)
  {
    StripIdempotent(s);
  }

  /** One element of the workspace list matches: it is a dict whose `key`
      entry equals the workspace id. */
  predicate MatchesWorkspace(ws: Json, key: string, n: int) {
    ws.Obj? && key in ws.fields && EqualsInt(ws.fields[key], n)
  }

  /** `any(ws.get(key) == int(workspace_id) for ws in items)`: scanned left to
      right and stopped at the first match; an element that is not a dict
      raises `AttributeError` (`.get`), and an id `int()` rejects raises
      `ValueError` once the first element is compared. */
  function AnyWorkspace(items: seq<Json>, key: string, id: Option<int>): (r: Result<bool, PyError>)
    ensures items == [] ==> r == Success(false)
  {
    if items == [] then Success(false)
    else if !items[0].Obj? then Failure(AttributeError)
    else if id.None? then Failure(ValueError)
    else if MatchesWorkspace(items[0], key, id.value) then Success(true)
    else AnyWorkspace(items[1..], key, id)
  }

  /** The scan answers `True` exactly when some element matches and every
      element before it is a dict. */
  lemma {:induction false} AnyWorkspaceTrueIff(items: seq<Json>, key: string, n: int)
    ensures AnyWorkspace(items, key, Some(n)) == Success(true) <==>
      exists k :: 0 <= k < |items| && MatchesWorkspace(items[k], key, n) &&
        forall j :: 0 <= j < k ==> items[j].Obj?
  {
    if items != [] && items[0].Obj? && !MatchesWorkspace(items[0], key, n) {
      AnyWorkspaceTrueIff(items[1..], key, n);
      if AnyWorkspace(items, key, Some(n)) == Success(true) {
        var k :| 0 <= k < |items[1..]| && MatchesWorkspace(items[1..][k], key, n) &&
          forall j :: 0 <= j < k ==> items[1..][j].Obj?;
        assert forall j :: 0 <= j < k + 1 ==> items[j].Obj? by {
          forall j | 0 <= j < k + 1 ensures items[j].Obj? {
            if j > 0 { assert items[j] == items[1..][j - 1]; }
          }
        }
        assert MatchesWorkspace(items[k + 1], key, n);
      }
      if exists k :: 0 <= k < |items| && MatchesWorkspace(items[k], key, n) &&
          forall j :: 0 <= j < k ==> items[j].Obj? {
        var k :| 0 <= k < |items| && MatchesWorkspace(items[k], key, n) &&
          forall j :: 0 <= j < k ==> items[j].Obj?;
        assert k > 0;
        assert MatchesWorkspace(items[1..][k - 1], key, n);
        assert forall j :: 0 <= j < k - 1 ==> items[1..][j].Obj? by {
          forall j | 0 <= j < k - 1 ensures items[1..][j].Obj? {
            assert items[1..][j] == items[j + 1];
          }
        }
      }
    }
  }

  /** A list of dicts is scanned without raising once the id is an int, and a
      scan raises only because of an element that is not a dict or an id
      `int()` rejects. */
  lemma {:induction false} AnyWorkspaceRaises(items: seq<Json>, key: string, id: Option<int>)
    ensures (forall j :: 0 <= j < |items| ==> items[j].Obj?) && id.Some? ==>
      AnyWorkspace(items, key, id).Success?
    ensures AnyWorkspace(items, key, id).Failure? ==>
      (exists j :: 0 <= j < |items| && !items[j].Obj?) || (items != [] && id.None?)
  {
    if items != [] && items[0].Obj? && id.Some? && !MatchesWorkspace(items[0], key, id.value) {
      AnyWorkspaceRaises(items[1..], key, id);
      if AnyWorkspace(items, key, id).Failure? {
        var j :| 0 <= j < |items[1..]| && !items[1..][j].Obj?;
        assert !items[j + 1].Obj?;
      }
    }
  }

  /** `for ws in workspaces`, checking each with `key`: a list is scanned as
      above; iterating a dict or a string yields strings, whose missing `.get`
      raises as soon as there is one; other values are not iterable. */
  function AnyInWorkspaces(workspaces: Json, key: string, id: Option<int>): (r: Result<bool, PyError>)
    ensures workspaces.Arr? ==> r == AnyWorkspace(workspaces.items, key, id)
    ensures workspaces.Null? || workspaces.Bool? || workspaces.Num? ==> r == Failure(TypeError)
  {
    match workspaces
    case Arr(items) => AnyWorkspace(items, key, id)
    case Obj(fields) => if fields == map[] then Success(false) else Failure(AttributeError)
    case Str(s) => if s == [] then Success(false) else Failure(AttributeError)
    case _ => Failure(TypeError)
  }

  /** Which of the three recognised layouts the answer has, as the `if`/`elif`
      chain decides it. */
  datatype Layout =
    | NestedMe(user: map<string, Json>)    // `{"me": {...}}`
    | UserList(first: Json)                // `[user, ...]`
    | FlatDefault(defaultId: Json)         // `{"default_workspace_id": ...}`
    | Unrecognised

  /** The conditions of the three branches, evaluated in order and with
      Python's short-circuit `and`: `response['me']` on a list or a string
      raises `TypeError`, `response.get` on a string raises `AttributeError`,
      `in` on a number raises `TypeError`. */
  function Classify(r: Json): (l: Result<Layout, PyError>)
    ensures !Truthy(r) ==> l == Success(Unrecognised)
    ensures r.Obj? ==> l.Success?
    ensures l.Success? && l.value.NestedMe? ==>
      r.Obj? && "me" in r.fields && r.fields["me"] == Obj(l.value.user)
    ensures l.Success? && l.value.UserList? ==> r.Arr? && r.items != [] && l.value.first == r.items[0]
    ensures l.Success? && l.value.FlatDefault? ==>
      r.Obj? && "default_workspace_id" in r.fields && l.value.defaultId == r.fields["default_workspace_id"] &&
      !("me" in r.fields && r.fields["me"].Obj?)
  {
    if !Truthy(r) then Success(Unrecognised)
    else
      match In("me", r)
      case Failure(e) => Failure(e)
      case Success(hasMe) =>
        if hasMe && !r.Obj? then Failure(TypeError)
        else if hasMe && r.fields["me"].Obj? then Success(NestedMe(r.fields["me"].fields))
        else if r.Arr? && r.items != [] then Success(UserList(r.items[0]))
        else
          match In("default_workspace_id", r)
          case Failure(e) => Failure(e)
          case Success(hasDefault) =>
            if !hasDefault then Success(Unrecognised)
            else if r.Obj? then Success(FlatDefault(r.fields["default_workspace_id"]))
            else Failure(AttributeError)
  }

  /** The body of the branch the layout selects. A branch whose test fails
      answers `False` without trying the later layouts. */
  function CheckLayout(l: Layout, id: Option<int>): (r: Result<bool, PyError>)
    ensures l.Unrecognised? ==> r == Success(false)
    ensures l.NestedMe? ==> r == AnyInWorkspaces(Get(l.user, "workspaces", Arr([])), "id", id)
    ensures l.UserList? && !l.first.Obj? ==> r == Failure(AttributeError)
    ensures l.UserList? && l.first.Obj? ==>
      r == AnyInWorkspaces(Get(l.first.fields, "workspaces", Arr([])), "workspace_id", id)
    ensures l.FlatDefault? && id.Some? ==> r == Success(EqualsInt(l.defaultId, id.value))
    ensures l.FlatDefault? && id.None? ==> r == Failure(ValueError)
  {
    match l
    case NestedMe(user) => AnyInWorkspaces(Get(user, "workspaces", Arr([])), "id", id)
    case UserList(first) =>
      if !first.Obj? then Failure(AttributeError)
      else AnyInWorkspaces(Get(first.fields, "workspaces", Arr([])), "workspace_id", id)
    case FlatDefault(v) => if id.None? then Failure(ValueError) else Success(EqualsInt(v, id.value))
    case Unrecognised => Success(false)
  }

  /** What validation makes of one decoded answer (`None` for an empty one). */
  function CheckResponse(response: Json, id: Option<int>): (r: Result<bool, PyError>)
    ensures !Truthy(response) ==> r == Success(false)
  {
    match Classify(response)
    case Failure(e) => Failure(e)
    case Success(l) => CheckLayout(l, id)
  }

  /** `validate_api_token`: `False` whenever the request fails, since only
      `TogglApiError` is caught; otherwise the verdict on the answer, or the
      Python exception that escapes. */
  function ValidateApiToken(workspaceId: string, me: HttpOutcome<Json>): (r: Result<bool, PyError>)
    ensures MakeRequest(me).Failure? ==> r == Success(false)
    ensures MakeRequest(me).Success? ==> r == CheckResponse(MakeRequest(me).value.GetOr(Null), PyInt(workspaceId))
  {
    match MakeRequest(me)
    case Failure(_) => Success(false)
    case Success(body) => CheckResponse(body.GetOr(Null), PyInt(workspaceId))
  }

  /** With a `me` object in the answer, only its workspaces are consulted: the
      token is accepted exactly when one of them, after only dicts, carries the
      id, whatever else the answer holds (a flat `default_workspace_id` included). */
  lemma NestedMeDecides(response: Json, n: int)
    requires response.Obj? && "me" in response.fields && response.fields["me"].Obj?
    requires Get(response.fields["me"].fields, "workspaces", Arr([])).Arr?
    ensures var items := Get(response.fields["me"].fields, "workspaces", Arr([])).items;
      CheckResponse(response, Some(n)) == Success(true) <==>
        exists k :: 0 <= k < |items| && MatchesWorkspace(items[k], "id", n) &&
          forall j :: 0 <= j < k ==> items[j].Obj?
  {
    var items := Get(response.fields["me"].fields, "workspaces", Arr([])).items;
    assert Truthy(response) by {
      assert "me" in response.fields;
    }
    AnyWorkspaceTrueIff(items, "id", n);
  }

  /** A list answer without the string `"me"` consults only its first user's
      workspaces, by their `workspace_id`: the token is accepted exactly when
      one of them, after only dicts, carries the id. */
  lemma UserListDecides(response: Json, n: int)
    requires response.Arr? && response.items != [] && Str("me") !in response.items
    requires response.items[0].Obj?
    requires Get(response.items[0].fields, "workspaces", Arr([])).Arr?
    ensures var ws := Get(response.items[0].fields, "workspaces", Arr([])).items;
      CheckResponse(response, Some(n)) == Success(true) <==>
        exists k :: 0 <= k < |ws| && MatchesWorkspace(ws[k], "workspace_id", n) &&
          forall j :: 0 <= j < k ==> ws[j].Obj?
  {
    var ws := Get(response.items[0].fields, "workspaces", Arr([])).items;
    assert Truthy(response);
    assert In("me", response) == Success(false);
    AnyWorkspaceTrueIff(ws, "workspace_id", n);
  }

  /** A flat answer is accepted exactly when its default workspace id equals
      the configured one. */
  lemma FlatDefaultDecides(response: Json, n: int)
    requires response.Obj? && "default_workspace_id" in response.fields
    requires !("me" in response.fields && response.fields["me"].Obj?)
    ensures CheckResponse(response, Some(n)) == Success(EqualsInt(response.fields["default_workspace_id"], n))
  {
    assert Truthy(response) by {
      assert "default_workspace_id" in response.fields;
    }
  }

  /** A failed request never raises out of validation: it answers `False`. */
  lemma FailedRequestIsInvalid(workspaceId: string, me: HttpOutcome<Json>)
    requires MakeRequest(me).Failure?
    ensures ValidateApiToken(workspaceId, me) == Success(false)
  {
  }

  /** An answer without content, or one that is empty, answers `False`. */
  lemma EmptyAnswersAreInvalid(workspaceId: string)
    ensures ValidateApiToken(workspaceId, Response(204, NoContent)) == Success(false)
    ensures ValidateApiToken(workspaceId, Response(200, Json(Obj(map[])))) == Success(false)
    ensures ValidateApiToken(workspaceId, Response(200, Json(Arr([])))) == Success(false)
  {
  }

  /** The configured workspace id of the examples, read by `int()`. */
  lemma ExampleId()
    ensures PyInt("1234567") == Some(1234567)
  {
    var s := "1234567";
    assert ParseDigits(s[..1]) == Some(1);
    assert ParseDigits(s[..2]) == Some(12) by { assert s[..2][..1] == s[..1]; }
    assert ParseDigits(s[..3]) == Some(123) by { assert s[..3][..2] == s[..2]; }
    assert ParseDigits(s[..4]) == Some(1234) by { assert s[..4][..3] == s[..3]; }
    assert ParseDigits(s[..5]) == Some(12345) by { assert s[..5][..4] == s[..4]; }
    assert ParseDigits(s[..6]) == Some(123456) by { assert s[..6][..5] == s[..5]; }
    assert ParseDigits(s) == Some(1234567) by { assert s[..6] == s[..|s| - 1]; }
    PyIntOfDigits(s);
  }

  /** An answer holding only a `me` object is read by the nested layout. */
  lemma OnlyMeAnswer(user: map<string, Json>, id: Option<int>)
    ensures CheckResponse(Obj(map["me" := Obj(user)]), id) == CheckLayout(NestedMe(user), id)
  {
    var r := Obj(map["me" := Obj(user)]);
    assert Truthy(r) by { assert "me" in r.fields; }
  }

  /** A list of one user is read by the list layout. */
  lemma OneUserAnswer(user: map<string, Json>, id: Option<int>)
    ensures CheckResponse(Arr([Obj(user)]), id) == CheckLayout(UserList(Obj(user)), id)
  {
    assert Str("me") !in [Obj(user)];
  }

  /** The nested layout, with a workspace that matches the configured id
      1234567 (as `ExampleId` reads it) and with one that does not. */
  lemma NestedMeExamples()
    ensures CheckResponse(Obj(map["me" := Obj(map["id" := Num(1), "workspaces" := Arr([Obj(map["id" := Num(1234567), "name" := Str("Test")])])])]), Some(1234567)) == Success(true)
    ensures CheckResponse(Obj(map["me" := Obj(map["id" := Num(1), "workspaces" := Arr([Obj(map["id" := Num(7654321), "name" := Str("Other")])])])]), Some(1234567)) == Success(false)
  {
    OnlyMeAnswer(map["id" := Num(1), "workspaces" := Arr([Obj(map["id" := Num(1234567), "name" := Str("Test")])])], Some(1234567));
    OnlyMeAnswer(map["id" := Num(1), "workspaces" := Arr([Obj(map["id" := Num(7654321), "name" := Str("Other")])])], Some(1234567));
    var found := Obj(map["id" := Num(1234567), "name" := Str("Test")]);
    var other := Obj(map["id" := Num(7654321), "name" := Str("Other")]);
    assert AnyWorkspace([found], "id", Some(1234567)) == Success(true) by {
      assert MatchesWorkspace(found, "id", 1234567);
    }
    assert AnyWorkspace([other], "id", Some(1234567)) == Success(false) by {
      assert !MatchesWorkspace(other, "id", 1234567);
      assert [other][1..] == [];
    }
  }

  /** The list layout, with a matching workspace and with one that does not match. */
  lemma UserListExamples()
    ensures CheckResponse(Arr([Obj(map["id" := Num(1), "workspaces" := Arr([Obj(map["workspace_id" := Num(1234567), "name" := Str("Test")])])])]), Some(1234567)) == Success(true)
    ensures CheckResponse(Arr([Obj(map["id" := Num(1), "workspaces" := Arr([Obj(map["workspace_id" := Num(7654321), "name" := Str("Other")])])])]), Some(1234567)) == Success(false)
  {
    OneUserAnswer(map["id" := Num(1), "workspaces" := Arr([Obj(map["workspace_id" := Num(1234567), "name" := Str("Test")])])], Some(1234567));
    OneUserAnswer(map["id" := Num(1), "workspaces" := Arr([Obj(map["workspace_id" := Num(7654321), "name" := Str("Other")])])], Some(1234567));
    var found := Obj(map["workspace_id" := Num(1234567), "name" := Str("Test")]);
    var other := Obj(map["workspace_id" := Num(7654321), "name" := Str("Other")]);
    assert AnyWorkspace([found], "workspace_id", Some(1234567)) == Success(true) by {
      assert MatchesWorkspace(found, "workspace_id", 1234567);
    }
    assert AnyWorkspace([other], "workspace_id", Some(1234567)) == Success(false) by {
      assert !MatchesWorkspace(other, "workspace_id", 1234567);
      assert [other][1..] == [];
    }
  }

  /** The flat layout, with the matching default workspace and with another one. */
  lemma FlatDefaultExamples()
    ensures CheckResponse(Obj(map["id" := Num(1), "default_workspace_id" := Num(1234567)]), Some(1234567)) == Success(true)
    ensures CheckResponse(Obj(map["id" := Num(1), "default_workspace_id" := Num(7654321)]), Some(1234567)) == Success(false)
  {
    FlatDefaultDecides(Obj(map["id" := Num(1), "default_workspace_id" := Num(1234567)]), 1234567);
    FlatDefaultDecides(Obj(map["id" := Num(1), "default_workspace_id" := Num(7654321)]), 1234567);
  }

  /** Answers with no user data: an empty dict, a `me` without workspaces, an empty list. */
  lemma NoUserDataExamples(id: Option<int>)
    ensures CheckResponse(Obj(map[]), id) == Success(false)
    ensures CheckResponse(Obj(map["me" := Obj(map[])]), id) == Success(false)
    ensures CheckResponse(Arr([]), id) == Success(false)
  {
  }
}
