/**
 Normalization of creation requests (internal/queue/store.go:121-157): defaults,
 limits and the canonical input text that makes retries idempotent.
 */
module Requests {
  import opened Basics
  import opened Strings
  import opened Json
  import opened JsonRoundTrip
  import opened JsonSize
  import opened JsonGrammar
  import opened JsonSpelling
  import opened JsonCanonical
  import opened Tasks

  /** A request as it arrives; a missing dependency list is None. */
  datatype Raw = Raw(
    key: string, title: string, kind: string, input: string, deps: Option<seq<string>>, maxAttempts: int)

  const MAX_OBJECT := 8192

  /** At most 8192 bytes that decode to a JSON object. */
  predicate ValidObject(s: string) {
    Utf8Length(s) <= MAX_OBJECT && Decode(s).Decoded? && Decode(s).value.Object?
  }

  // strings.TrimSpace

  predicate IsGoSpace(c: char) {
    || '\t' <= c <= '\r' || c == ' ' || c == '\U{85}' || c == '\U{A0}' || c == '\U{1680}'
    || '\U{2000}' <= c <= '\U{200A}' || c == '\U{2028}' || c == '\U{2029}' || c == '\U{202F}'
    || c == '\U{205F}' || c == '\U{3000}'
  }

  function TrimLeft(s: string): (r: string)
    ensures r == "" || !IsGoSpace(r[0])
    ensures s == "" || IsGoSpace(s[0]) || r == s
  {
    if s != "" && IsGoSpace(s[0]) then TrimLeft(s[1..]) else s
  }

  function TrimRight(s: string): (r: string)
    ensures r <= s
    ensures r == "" || !IsGoSpace(r[|r| - 1])
    ensures s == "" || IsGoSpace(s[|s| - 1]) || r == s
  {
    if s != "" && IsGoSpace(s[|s| - 1]) then TrimRight(s[..|s| - 1]) else s
  }

  function TrimSpace(s: string): string { TrimRight(TrimLeft(s)) }

  lemma TrimTwice(s: string)
    ensures TrimSpace(TrimSpace(s)) == TrimSpace(s)
  {
    var l := TrimLeft(s);
    var t := TrimRight(l);
    assert t == "" || t[0] == l[0];
  }

  // The specification

  function Title(r: Raw): string { TrimSpace(r.title) }
  function Kind(r: Raw): string { if r.kind == "" then "demo" else r.kind }
  function Attempts(r: Raw): int { if r.maxAttempts == 0 then 3 else r.maxAttempts }
  function Input(r: Raw): string { if r.input == "" then "{}" else r.input }
  function Deps(r: Raw): seq<string> { if r.deps.None? then [] else r.deps.value }

  /** The limits tested in one condition. */
  predicate Within(key: string, title: string, kind: string, input: string, deps: seq<string>, maxAttempts: int) {
    && 1 <= Utf8Length(key) <= 128
    && 1 <= Utf8Length(title) <= 200
    && Utf8Length(kind) <= 64
    && 1 <= maxAttempts <= 5
    && |deps| <= 32
    && ValidObject(input)
  }

  predicate Acceptable(r: Raw) {
    && Within(r.key, Title(r), Kind(r), Input(r), Deps(r), Attempts(r))
    && (forall d :: d in Deps(r) ==> Utf8Length(d) == 32)
    && Distinct(Deps(r))
  }

  /** The stored form of a request, or None where the store answers "invalid request". */
  function Normalized(r: Raw): Option<Request> {
    if !Acceptable(r) then None
    else Some(Request(r.key, Title(r), Kind(r), Marshal(Decode(Input(r)).value), Deps(r), Attempts(r)))
  }

  // What is accepted, in terms of the texts themselves

  /** What strings.TrimSpace takes for white space. */
  ghost const WHITE: set<char> :=
    {'\t', '\n', '\U{0B}', '\U{0C}', '\r', ' ', '\U{85}', '\U{A0}', '\U{1680}', '\U{2000}', '\U{2001}', '\U{2002}',
     '\U{2003}', '\U{2004}', '\U{2005}', '\U{2006}', '\U{2007}', '\U{2008}', '\U{2009}', '\U{200A}', '\U{2028}',
     '\U{2029}', '\U{202F}', '\U{205F}', '\U{3000}'}

  ghost predicate Blank(s: string) { forall i :: 0 <= i < |s| ==> s[i] in WHITE }

  /** `t` is `s` without the white space at both ends. */
  ghost predicate Trims(s: string, t: string) {
    (t == "" || (t[0] !in WHITE && t[|t| - 1] !in WHITE)) && exists a, z :: TrimParts(s, t, a, z)
  }

  ghost predicate TrimParts(s: string, t: string, a: string, z: string) { Blank(a) && Blank(z) && s == a + t + z }

  lemma WhiteIsGoSpace(c: char)
    ensures c in WHITE <==> IsGoSpace(c)
  {
  }

  lemma {:induction false} TrimLeftParts(s: string) returns (a: string)
    ensures Blank(a) && s == a + TrimLeft(s)
  {
    hide IsGoSpace;
    if s != "" && IsGoSpace(s[0]) {
      WhiteIsGoSpace(s[0]);
      var b := TrimLeftParts(s[1..]);
      a := [s[0]] + b;
    } else {
      a := "";
    }
  }

  lemma {:induction false} TrimRightParts(s: string) returns (z: string)
    ensures Blank(z) && s == TrimRight(s) + z
  {
    hide IsGoSpace;
    if s != "" && IsGoSpace(s[|s| - 1]) {
      WhiteIsGoSpace(s[|s| - 1]);
      var b := TrimRightParts(s[..|s| - 1]);
      z := b + [s[|s| - 1]];
    } else {
      z := "";
    }
  }

  lemma TrimSpaceTrims(s: string)
    ensures Trims(s, TrimSpace(s))
  {
    hide IsGoSpace;
    var a := TrimLeftParts(s);
    var l, t := TrimLeft(s), TrimSpace(s);
    var z := TrimRightParts(l);
    if t != "" {
      assert t[0] == l[0];
      WhiteIsGoSpace(t[0]);
      WhiteIsGoSpace(t[|t| - 1]);
    }
    assert TrimParts(s, t, a, z);
  }

  lemma {:induction false} LeftSkips(a: string, rest: string)
    requires Blank(a) && (rest == "" || rest[0] !in WHITE)
    ensures TrimLeft(a + rest) == rest
  {
    hide IsGoSpace, WHITE;
    if a == "" {
      assert a + rest == rest;
      if rest != "" { WhiteIsGoSpace(rest[0]); }
    } else {
      assert (a + rest)[1..] == a[1..] + rest;
      WhiteIsGoSpace(a[0]);
      LeftSkips(a[1..], rest);
    }
  }

  lemma {:induction false} RightSkips(rest: string, z: string)
    requires Blank(z) && (rest == "" || rest[|rest| - 1] !in WHITE)
    ensures TrimRight(rest + z) == rest
  {
    hide IsGoSpace, WHITE;
    if z == "" {
      assert rest + z == rest;
      if rest != "" { WhiteIsGoSpace(rest[|rest| - 1]); }
    } else {
      var n := |z| - 1;
      assert (rest + z)[..|rest| + n] == rest + z[..n];
      WhiteIsGoSpace(z[n]);
      RightSkips(rest, z[..n]);
    }
  }

  /** Trimming has one result. */
  lemma TrimsOnce(s: string, t: string)
    requires Trims(s, t)
    ensures t == TrimSpace(s)
  {
    hide WHITE, TrimLeft, TrimRight;
    var a, z :| TrimParts(s, t, a, z);
    if t == "" {
      assert s == (a + z) + "";
      LeftSkips(a + z, "");
      RightSkips("", "");
      assert "" + "" == "";
    } else {
      assert s == a + (t + z);
      LeftSkips(a, t + z);
      RightSkips(t, z);
    }
  }

  /** A JSON object of at most 8192 bytes, however it is laid out. */
  ghost predicate ObjectText(s: string) { Utf8Length(s) <= 8192 && exists v: Value :: v.Object? && Spells(s, v) }

  lemma ValidObjectExactly(s: string)
    ensures ValidObject(s) <==> ObjectText(s)
  {
    hide Decode, Spells;
    if ValidObject(s) { DecodesExactly(s, Decode(s).value); }
    forall v: Value | v.Object? && Spells(s, v) ensures Decode(s) == Decoded(v) { DecodesExactly(s, v); }
  }

  /** The limits on a request. */
  ghost predicate Fits(r: Raw) {
    && 1 <= Utf8Length(r.key) <= 128
    && (exists t :: Trims(r.title, t) && 1 <= Utf8Length(t) <= 200)
    && Utf8Length(if r.kind == "" then "demo" else r.kind) <= 64
    && (r.maxAttempts == 0 || 1 <= r.maxAttempts <= 5)
    && ObjectText(if r.input == "" then "{}" else r.input)
    && (r.deps.Some? ==>
          && |r.deps.value| <= 32 && (forall d :: d in r.deps.value ==> Utf8Length(d) == 32)
          && forall i, j :: 0 <= i < j < |r.deps.value| ==> r.deps.value[i] != r.deps.value[j])
  }

  lemma AcceptableExactly(r: Raw)
    ensures Acceptable(r) <==> Fits(r)
  {
    hide Utf8Length, ValidObject, ObjectText, Trims, TrimSpace;
    TrimSpaceTrims(r.title);
    forall t | Trims(r.title, t) ensures t == TrimSpace(r.title) { TrimsOnce(r.title, t); }
    ValidObjectExactly(Input(r));
  }

  /** What an accepted request becomes. */
  ghost predicate Normalizes(r: Raw, q: Request) {
    && q.key == r.key && Trims(r.title, q.title) && q.kind == (if r.kind == "" then "demo" else r.kind)
    && q.maxAttempts == (if r.maxAttempts == 0 then 3 else r.maxAttempts)
    && q.deps == (if r.deps.None? then [] else r.deps.value)
    && exists v: Value ::
         && v.Object? && Spells(if r.input == "" then "{}" else r.input, v)
         && q.input == Marshal(v) && Canonical(q.input, v)
  }

  lemma NormalizedExactly(r: Raw)
    ensures Normalized(r).Some? <==> Fits(r)
    ensures Normalized(r).Some? ==> Normalizes(r, Normalized(r).value)
  {
    AcceptableExactly(r);
    hide Utf8Length, ObjectText, Trims, TrimSpace, Fits, Spells, Decode, Marshal, Canonical, WellFormed;
    if Normalized(r).Some? {
      var v := Decode(Input(r)).value;
      TrimSpaceTrims(r.title);
      DecodesExactly(Input(r), v);
      DecodeWellFormed(Input(r));
      MarshalIsCanonical(v);
    }
  }

  /**
   Two layouts of one value - white space, escapes, order of members - make the same
   request, with the same fingerprint.
   */
  lemma LayoutsAgree(a: Raw, b: Raw, v: Value)
    requires Normalized(a).Some? && b == a.(input := b.input) && a.input != "" && b.input != ""
    requires Spells(a.input, v) && Spells(b.input, v) && Utf8Length(b.input) <= 8192
    ensures Normalized(b) == Normalized(a)
    ensures Sha256(Normalized(b).value) == Sha256(Normalized(a).value)
  {
    hide Utf8Length, TrimSpace, Spells, Decode, Marshal;
    DecodesExactly(a.input, v);
    DecodesExactly(b.input, v);
  }

  // The method, field by field

  class CreateRequest {
    var key: string
    var title: string
    var kind: string
    var input: string
    var deps: Option<seq<string>>
    var maxAttempts: int

    constructor (r: Raw)
      ensures Value() == r
    {
      key, title, kind, input, deps, maxAttempts := r.key, r.title, r.kind, r.input, r.deps, r.maxAttempts;
    }

    function Value(): Raw
      reads this
    {
      Raw(key, title, kind, input, deps, maxAttempts)
    }

    /** Rewrites the fields in place; on success they are the normalized request. */
    method Normalize() returns (ok: bool)
      modifies this
      ensures ok == Normalized(old(Value())).Some?
      ensures ok ==> Value() == Resubmit(Normalized(old(Value())).value)
      ensures ok <==> Fits(old(Value()))
      ensures ok ==> deps.Some? && Normalizes(old(Value()), Request(key, title, kind, input, deps.value, maxAttempts))
    {
      NormalizedExactly(Value());
      hide Fits, Normalizes, Utf8Length, Decode, Marshal, TrimSpace, Distinct;
      title := TrimSpace(title);
      if kind == "" { kind := "demo"; }
      if maxAttempts == 0 { maxAttempts := 3; }
      if input == "" { input := "{}"; }
      if deps.None? { deps := Some([]); }
      if !Within(key, title, kind, input, deps.value, maxAttempts) {
        return false;
      }
      ok := CheckDependencies(deps.value);
      if !ok { return; }
      var obj := Decode(input).value;
      input := Marshal(obj);
    }
  }

  /** The loop over the dependency ids: all 32 bytes long and no repetition. */
  method CheckDependencies(ids: seq<string>) returns (ok: bool)
    ensures ok <==> (forall d :: d in ids ==> Utf8Length(d) == 32) && Distinct(ids)
  {
    var seen: set<string> := {};
    for i := 0 to |ids|
      invariant forall d :: d in seen <==> d in ids[..i]
      invariant forall d :: d in ids[..i] ==> Utf8Length(d) == 32
      invariant Distinct(ids[..i])
    {
      if Utf8Length(ids[i]) != 32 {
        assert ids[i] in ids;
        return false;
      }
      if ids[i] in seen {
        var j :| 0 <= j < i && ids[..i][j] == ids[i];
        assert ids[j] == ids[i];
        return false;
      }
      assert ids[..i + 1] == ids[..i] + [ids[i]];
      seen := seen + {ids[i]};
    }
    assert ids[..|ids|] == ids;
    return true;
  }

  /** A normalized request sent again. */
  function Resubmit(q: Request): Raw {
    Raw(q.key, q.title, q.kind, q.input, Some(q.deps), q.maxAttempts)
  }

  // Canonical input

  /** Requests get one fingerprint exactly when they agree up to title padding, defaults and JSON layout. */
  lemma SameFingerprint(a: Raw, b: Raw)
    requires Normalized(a).Some? && Normalized(b).Some?
    ensures Sha256(Normalized(a).value) == Sha256(Normalized(b).value)
        <==> (a.key == b.key && Title(a) == Title(b) && Kind(a) == Kind(b) && Deps(a) == Deps(b)
              && Attempts(a) == Attempts(b) && Decode(Input(a)) == Decode(Input(b)))
  {
    CanonicalIffEqual(Input(a), Input(b));
  }

  /**
   Normalizing a normalized request changes nothing, unless escaping made its
   input text longer than the limit; then the second pass rejects it.
   */
  lemma NormalizeTwice(r: Raw)
    requires Normalized(r).Some?
    ensures Utf8Length(Normalized(r).value.input) <= MAX_OBJECT
        ==> Normalized(Resubmit(Normalized(r).value)) == Normalized(r)
    ensures Utf8Length(Normalized(r).value.input) > MAX_OBJECT
        ==> Normalized(Resubmit(Normalized(r).value)) == None
  {
    TrimTwice(r.title);
    var v := Decode(Input(r)).value;
    DecodeWellFormed(Input(r));
    DecodeMarshal(v);
    PrintStarts(v, "");
  }

  /** An input without literal `<`, `>`, `&`, U+2028 and U+2029 can always be normalized again. */
  lemma PlainNormalizesTwice(r: Raw)
    requires Normalized(r).Some? && Plain(r.input)
    ensures Utf8Length(Normalized(r).value.input) <= Utf8Length(Input(r))
    ensures Normalized(Resubmit(Normalized(r).value)) == Normalized(r)
  {
    hide Utf8Length, Decode, Marshal, Resubmit, TrimSpace;
    PlainCanonical(Input(r));
    NormalizeTwice(r);
  }

  // Escaping can make the input too long

  function Angles(n: nat): string { if n == 0 then "" else "<" + Angles(n - 1) }

  function Bloated(n: nat): string { "{\"a\":\"" + Angles(n) + "\"}" }

  lemma {:induction false} AnglesLength(n: nat)
    ensures |Angles(n)| == n == Utf8Length(Angles(n))
  {
    if n == 0 {
    } else {
      AnglesLength(n - 1);
    }
  }

  lemma {:induction false} ReadAngles(n: nat, rest: string)
    ensures ReadBody(Angles(n) + ("\"" + rest)) == ReadText(Angles(n), rest)
  {
    if n == 0 {
      assert Angles(0) + ("\"" + rest) == "\"" + rest;
    } else {
      var s := Angles(n) + ("\"" + rest);
      assert s[1..] == Angles(n - 1) + ("\"" + rest);
      ReadAngles(n - 1, rest);
    }
  }

  lemma {:induction false} EscapedAngles(n: nat, rest: string)
    ensures Utf8Length(EscapeAll(Angles(n), rest)) == 6 * n + Utf8Length(rest)
  {
    if n == 0 {
    } else {
      EscapedAngles(n - 1, rest);
      assert Angles(n)[0] == '<' && Angles(n)[1..] == Angles(n - 1);
      assert Escape('<') == "\\u003c";
      Utf8Append("\\u003c", EscapeAll(Angles(n - 1), rest));
      Utf8Ascii("\\u003c");
    }
  }

  /** {"a":"<<...<"} decodes to one field; its canonical text spends six bytes on each `<`. */
  lemma BloatedCanonical(n: nat)
    ensures Decode(Bloated(n)) == Decoded(Object(map["a" := Text(Angles(n))]))
    ensures Utf8Length(Marshal(Decode(Bloated(n)).value)) >= 6 * n
  {
    hide Angles, ReadValue, ReadBody, Marshal, Utf8Length;
    var body := Angles(n) + ("\"" + "}");
    assert Bloated(n) == "{" + ("\"a\":" + ("\"" + body));
    ReadAngles(n, "}");
    BloatedRead(body, Angles(n));
    BloatedPrint(n);
  }

  lemma QuotedRead(body: string, text: string, rest: string)
    requires ReadBody(body) == ReadText(text, rest)
    ensures ReadValue("\"" + body) == Read(Text(text), rest)
  {
    hide ReadBody, ReadElements, ReadMembers, NumberLength;
    var value := "\"" + body;
    assert value[1..] == body;
    assert Skip(value) == value;
  }

  lemma PrintKey(rest: string)
    ensures PrintText("a", rest) == "\"a\"" + rest
  {
    assert "a"[1..] == "";
    assert EscapeAll("", "\"" + rest) == "\"" + rest;
    assert Escape('a') == "a";
  }

  lemma BloatedRead(body: string, text: string)
    requires ReadBody(body) == ReadText(text, "}")
    ensures ReadValue("{" + ("\"a\":" + ("\"" + body))) == Read(Object(map["a" := Text(text)]), "")
  {
    hide ReadValue, ReadBody, ReadMembers, PrintText;
    var value, fields := "\"" + body, map["a" := Text(text)];
    QuotedRead(body, text, "}");
    var colon := ":" + value;
    assert colon[1..] == value;
    PrintKey(colon);
    assert "\"a\"" + colon == "\"a\":" + value;
    MembersStep("a", colon, Text(text), "}", map[], "");
    assert fields + map[] == fields;
    ReadObject("\"a\":" + value, fields, "");
  }

  lemma BloatedPrint(n: nat)
    ensures Utf8Length(Marshal(Object(map["a" := Text(Angles(n))]))) >= 6 * n
  {
    hide Utf8Length, Angles, MembersSize, Size, Print, EscapeAll;
    var m := map["a" := Text(Angles(n))];
    assert "a" in m;
    ObjectSize(m);
    MembersRemove(m, "a");
    TextValueSize(Angles(n));
    EscapedAngles(n, "");
    MarshalSize(Object(m));
  }

  lemma TextValueSize(s: string)
    ensures Size(Text(s)) == TextSize(s)
  {
    hide EscapeAll, PrintText;
    PrintTextSize(s, "");
    Utf8Ascii("");
  }

  lemma MarshalSize(v: Value)
    ensures Utf8Length(Marshal(v)) == Size(v)
  {
    hide Utf8Length, Print;
  }

  lemma BloatedAccepted(n: nat)
    requires n <= 8184
    ensures var r := Raw("k", "t", "", Bloated(n), None, 0);
      Acceptable(r) && Normalized(r).value.input == Marshal(Decode(Bloated(n)).value)
  {
    hide Utf8Length, Decode, Marshal, Bloated, TrimSpace;
    ShortFields();
    BloatedCanonical(n);
    BloatedLength(n);
    NotEmpty(n);
  }

  lemma ShortFields()
    ensures Utf8Length("k") == 1 && Utf8Length("t") == 1 && Utf8Length("demo") == 4 && TrimSpace("t") == "t"
  {
    Utf8Ascii("k");
    Utf8Ascii("t");
    Utf8Ascii("demo");
  }

  lemma NotEmpty(n: nat)
    ensures Bloated(n) != ""
  {
  }

  /** Requests that are accepted once and, in their normalized form, rejected. */
  lemma NormalizeTwiceCanFail(n: nat)
    requires 1366 <= n <= 8184
    ensures var r := Raw("k", "t", "", Bloated(n), None, 0);
      Normalized(r).Some? && Normalized(Resubmit(Normalized(r).value)) == None
  {
    hide Utf8Length, Decode, Marshal, Bloated, Acceptable;
    var r := Raw("k", "t", "", Bloated(n), None, 0);
    BloatedAccepted(n);
    BloatedCanonical(n);
    NormalizeTwice(r);
  }

  lemma BloatedLength(n: nat)
    ensures Utf8Length(Bloated(n)) == n + 8
  {
    var open := "{\"a\":\"";
    AnglesLength(n);
    Utf8Append(open + Angles(n), "\"}");
    Utf8Append(open, Angles(n));
    Utf8Ascii(open);
    Utf8Ascii("\"}");
  }
}
