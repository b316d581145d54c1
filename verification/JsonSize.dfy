/**
 How long canonical JSON can get (internal/queue/store.go:121-124, 150-156): a text
 without the characters that json.Marshal escapes although a reader accepts them
 never grows.
 */
module JsonSize {
  import opened Basics
  import opened Strings
  import opened Json

  /** No literal `<`, `>`, `&`, U+2028 or U+2029. */
  predicate IsPlain(c: char) { c != '<' && c != '>' && c != '&' && c != '\U{2028}' && c != '\U{2029}' }

  predicate Plain(s: string) { forall i :: 0 <= i < |s| ==> IsPlain(s[i]) }

  lemma Utf8Split(s: string, n: nat)
    requires n <= |s|
    ensures Utf8Length(s) == Utf8Length(s[..n]) + Utf8Length(s[n..])
  {
    hide Utf8Length;
    assert s == s[..n] + s[n..];
    Utf8Append(s[..n], s[n..]);
  }

  lemma {:induction false} Utf8AtLeast(s: string)
    ensures Utf8Length(s) >= |s|
  {
    if s == "" {
    } else {
      Utf8AtLeast(s[1..]);
    }
  }

  lemma PlainTail(s: string, n: nat)
    requires Plain(s) && n <= |s|
    ensures Plain(s[n..])
  {
  }

  // The printer appends

  lemma {:induction false} EscapeAppend(s: string, a: string, b: string)
    ensures EscapeAll(s, a + b) == EscapeAll(s, a) + b
  {
    if s == "" {
    } else {
      EscapeAppend(s[1..], a, b);
      assert Escape(s[0]) + (EscapeAll(s[1..], a) + b) == Escape(s[0]) + EscapeAll(s[1..], a) + b;
    }
  }

  lemma TextAppend(s: string, a: string, b: string)
    ensures PrintText(s, a + b) == PrintText(s, a) + b
  {
    hide EscapeAll;
    EscapeAppend(s, "\"" + a, b);
    assert "\"" + (a + b) == ("\"" + a) + b;
  }

  lemma {:induction false} PrintAppend(v: Value, a: string, b: string)
    ensures Print(v, a + b) == Print(v, a) + b
    decreases v, Width(v) + 1
  {
    match v
    case Null =>
    case Bool(_) =>
    case Number(text) => assert text + (a + b) == text + a + b;
    case Text(s) => TextAppend(s, a, b);
    case Array(_) => ItemsAppend(v, 0, a, b);
    case Object(fields) => FieldsAppend(v, Sorted(fields.Keys), a, b);
  }

  lemma {:induction false} ItemsAppend(v: Value, i: nat, a: string, b: string)
    requires v.Array? && i <= |v.items|
    ensures PrintItems(v, i, a + b) == PrintItems(v, i, a) + b
    decreases v, |v.items| - i
  {
    if i == |v.items| {
      assert "]" + (a + b) == "]" + a + b;
    } else if i == |v.items| - 1 {
      PrintAppend(v.items[i], "]" + a, b);
      assert "]" + (a + b) == "]" + a + b;
    } else {
      ItemsAppend(v, i + 1, a, b);
      PrintAppend(v.items[i], "," + PrintItems(v, i + 1, a), b);
      assert "," + (PrintItems(v, i + 1, a) + b) == "," + PrintItems(v, i + 1, a) + b;
    }
  }

  lemma {:induction false} FieldsAppend(v: Value, keys: seq<string>, a: string, b: string)
    requires v.Object? && forall k :: k in keys ==> k in v.fields
    ensures PrintFields(v, keys, a + b) == PrintFields(v, keys, a) + b
    decreases v, |keys|
  {
    if keys == [] {
      assert "}" + (a + b) == "}" + a + b;
    } else {
      var x := v.fields[keys[0]];
      var after := if |keys| == 1 then "}" + a else "," + PrintFields(v, keys[1..], a);
      var after' := if |keys| == 1 then "}" + (a + b) else "," + PrintFields(v, keys[1..], a + b);
      if |keys| > 1 { FieldsAppend(v, keys[1..], a, b); }
      assert after' == after + b;
      PrintAppend(x, after, b);
      assert ":" + (Print(x, after) + b) == ":" + Print(x, after) + b;
      TextAppend(keys[0], ":" + Print(x, after), b);
    }
  }

  // Sizes

  function Size(v: Value): nat { Utf8Length(Print(v, "")) }

  function EscapedSize(s: string): nat { Utf8Length(EscapeAll(s, "")) }

  function TextSize(s: string): nat { EscapedSize(s) + 2 }

  lemma PrintSize(v: Value, rest: string)
    ensures Utf8Length(Print(v, rest)) == Size(v) + Utf8Length(rest)
  {
    hide Utf8Length, Print;
    PrintAppend(v, "", rest);
    assert "" + rest == rest;
    Utf8Append(Print(v, ""), rest);
  }

  lemma PrintTextSize(s: string, rest: string)
    ensures Utf8Length(PrintText(s, rest)) == TextSize(s) + Utf8Length(rest)
  {
    hide Utf8Length, EscapeAll;
    EscapeAppend(s, "", "\"" + rest);
    assert "" + ("\"" + rest) == "\"" + rest;
    Utf8Append("\"", EscapeAll(s, "\"" + rest));
    Utf8Append(EscapeAll(s, ""), "\"" + rest);
    Utf8Append("\"", rest);
    Utf8Ascii("\"");
  }

  /** Array elements, each with the comma or bracket after it. */
  function ItemsSize(items: seq<Value>): nat {
    if items == [] then 0 else Size(items[0]) + 1 + ItemsSize(items[1..])
  }

  lemma OneByte(c: char, rest: string)
    requires c < '\U{80}'
    ensures Utf8Length([c] + rest) == 1 + Utf8Length(rest)
  {
    assert ([c] + rest)[1..] == rest;
  }

  lemma {:induction false} PrintItemsSize(v: Value, i: nat)
    requires v.Array? && i < |v.items|
    ensures Utf8Length(PrintItems(v, i, "")) == ItemsSize(v.items[i..])
    decreases |v.items| - i
  {
    hide Utf8Length, Print, Size;
    assert v.items[i..][1..] == v.items[i + 1..];
    if i == |v.items| - 1 {
      assert "]" + "" == "]" && "]" == ["]"[0]] + "";
      PrintSize(v.items[i], "]");
      Utf8Ascii("]");
    } else {
      PrintItemsSize(v, i + 1);
      PrintSize(v.items[i], "," + PrintItems(v, i + 1, ""));
      OneByte(',', PrintItems(v, i + 1, ""));
    }
  }

  lemma ArraySize(items: seq<Value>)
    requires items != []
    ensures Size(Array(items)) == 1 + ItemsSize(items)
  {
    hide Utf8Length, PrintItems, ItemsSize;
    PrintItemsSize(Array(items), 0);
    assert items[0..] == items;
    OneByte('[', PrintItems(Array(items), 0, ""));
  }

  /** A member with its colon and the comma or brace after it. */
  function EntrySize(k: string, x: Value): nat { TextSize(k) + 2 + Size(x) }

  function Pairs(m: map<string, Value>): map<string, (string, Value)> { map k | k in m :: (k, m[k]) }

  function EntryWeight(): ((string, Value)) -> nat { (p: (string, Value)) => EntrySize(p.0, p.1) }

  ghost function MembersSize(m: map<string, Value>): nat { Sum(Pairs(m), EntryWeight()) }

  lemma MembersRemove(m: map<string, Value>, k: string)
    requires k in m
    ensures MembersSize(m) == EntrySize(k, m[k]) + MembersSize(m - {k})
  {
    hide EntrySize;
    SumRemove(Pairs(m), EntryWeight(), k);
    assert Pairs(m) - {k} == Pairs(m - {k});
  }

  /** A member before others adds at most its own size, and nothing if its key comes again. */
  lemma MembersAdd(k: string, x: Value, m: map<string, Value>)
    ensures MembersSize(map[k := x] + m) <= EntrySize(k, x) + MembersSize(m)
  {
    hide EntrySize, Sum;
    var all := map[k := x] + m;
    if k in m {
      assert all == m;
    } else {
      MembersRemove(all, k);
      assert all - {k} == m;
    }
  }

  lemma {:induction false} PrintFieldsSize(v: Value, keys: seq<string>, m: map<string, Value>)
    requires v.Object? && keys != [] && Distinct(keys) && m.Keys == (set k | k in keys)
    requires forall k :: k in m ==> k in v.fields && v.fields[k] == m[k]
    ensures Utf8Length(PrintFields(v, keys, "")) == MembersSize(m)
    decreases |keys|
  {
    hide Utf8Length, Print, Size, TextSize, PrintText, MembersSize;
    var k := keys[0];
    assert k in m;
    var after := if |keys| == 1 then "}" else "," + PrintFields(v, keys[1..], "");
    assert "}" + "" == "}";
    MembersRemove(m, k);
    TailKeys(keys, m);
    PrintTextSize(k, ":" + Print(m[k], after));
    OneByte(':', Print(m[k], after));
    PrintSize(m[k], after);
    if |keys| == 1 {
      assert m - {k} == map[];
      NoMembers();
      Utf8Ascii("}");
    } else {
      PrintFieldsSize(v, keys[1..], m - {k});
      OneByte(',', PrintFields(v, keys[1..], ""));
    }
  }

  lemma NoMembers()
    ensures MembersSize(map[]) == 0
  {
    assert Pairs(map[]) == map[];
  }

  lemma TailKeys(keys: seq<string>, m: map<string, Value>)
    requires keys != [] && Distinct(keys) && m.Keys == (set k | k in keys)
    ensures Distinct(keys[1..]) && (m - {keys[0]}).Keys == (set k | k in keys[1..])
  {
    var k, tail := keys[0], keys[1..];
    forall i | 0 <= i < |tail| ensures tail[i] == keys[i + 1] && tail[i] != k {}
    forall x ensures x in keys <==> x == k || x in tail {
      assert keys == [k] + tail;
    }
    forall x ensures x in m - {k} <==> x in tail {
      assert x in m <==> x in keys;
    }
  }

  lemma ObjectSize(m: map<string, Value>)
    requires m != map[]
    ensures Size(Object(m)) == 1 + MembersSize(m)
  {
    hide Utf8Length, PrintFields, MembersSize;
    var keys := Sorted(m.Keys);
    SortedDistinct(m.Keys);
    assert keys != [] by { assert m.Keys != {}; }
    PrintFieldsSize(Object(m), keys, m);
    OneByte('{', PrintFields(Object(m), keys, ""));
  }

  lemma SortedDistinct(s: set<string>)
    ensures Distinct(Sorted(s))
  {
    forall i, j | 0 <= i < j < |Sorted(s)| ensures Sorted(s)[i] != Sorted(s)[j] { SortedIsAscending(s, i, j); }
  }

  // Reading never takes less than printing gives back

  lemma {:induction false} SkipSize(s: string)
    ensures Utf8Length(Skip(s)) <= Utf8Length(s) && (Plain(s) ==> Plain(Skip(s)))
  {
    if s != "" && IsSpace(s[0]) {
      SkipSize(s[1..]);
    } else {
    }
  }

  lemma EscapeSize(c: char)
    ensures Utf8Length(Escape(c)) <= 6
    ensures IsPlain(c) && c >= ' ' && c != '"' && c != '\\' ==> Escape(c) == [c]
    ensures ShortEscaped(c) ==> Utf8Length(Escape(c)) <= 2
  {
    Utf8Few(Escape(c));
  }

  predicate ShortEscaped(c: char) {
    c == '"' || c == '\\' || c == '/' || c == '\U{8}' || c == '\U{C}' || c == '\n' || c == '\r' || c == '\t'
  }

  lemma Utf8Few(s: string)
    ensures |s| == 1 ==> Utf8Length(s) <= 4
    ensures (forall i :: 0 <= i < |s| ==> s[i] < '\U{80}') ==> Utf8Length(s) == |s|
  {
    if forall i :: 0 <= i < |s| ==> s[i] < '\U{80}' { Utf8Ascii(s); }
    if |s| == 1 { assert s[1..] == ""; }
  }

  lemma UnitSize(s: string)
    requires s != "" && Plain(s) && ReadUnit(s).Unit?
    ensures Utf8Length(Escape(ReadUnit(s).c)) <= Utf8Length(s[..ReadUnit(s).used])
  {
    hide Utf8Length, Escape, Hex4;
    var u := ReadUnit(s);
    EscapeSize(u.c);
    Utf8AtLeast(s[..u.used]);
    if s[0] != '\\' {
      assert s[..1] == [s[0]];
    }
  }

  lemma {:induction false} BodySize(s: string)
    requires Plain(s) && ReadBody(s).ReadText?
    ensures EscapedSize(ReadBody(s).text) + 1 + Utf8Length(ReadBody(s).rest) <= Utf8Length(s) && Plain(ReadBody(s).rest)
    decreases |s|
  {
    hide Utf8Length, Escape, ReadUnit;
    var r := ReadBody(s);
    if s[0] == '"' {
      assert s == ['"'] + s[1..];
      OneByte('"', s[1..]);
      Utf8Ascii("");
    } else {
      var u := ReadUnit(s);
      PlainTail(s, u.used);
      BodySize(s[u.used..]);
      UnitSize(s);
      Utf8Split(s, u.used);
      var text := ReadBody(s[u.used..]).text;
      assert r.text[1..] == text;
      Utf8Append(Escape(u.c), EscapeAll(text, ""));
    }
  }

  lemma QuotedSize(t: string)
    requires Plain(t) && t != "" && t[0] == '"' && ReadBody(t[1..]).ReadText?
    ensures var b := ReadBody(t[1..]); TextSize(b.text) + Utf8Length(b.rest) <= Utf8Length(t) && Plain(b.rest)
  {
    hide Utf8Length, ReadBody;
    assert t == ['"'] + t[1..];
    BodySize(t[1..]);
    OneByte('"', t[1..]);
  }

  /** Dropping the first, one-byte, character. */
  lemma DropByte(t: string)
    requires t != "" && t[0] < '\U{80}'
    ensures Utf8Length(t) == 1 + Utf8Length(t[1..]) && (Plain(t) ==> Plain(t[1..]))
  {
    assert t == [t[0]] + t[1..];
  }

  lemma WordSize(word: string, t: string, v: Value)
    requires word <= t && Print(v, "") == word && Plain(t)
    ensures Size(v) + Utf8Length(t[|word|..]) <= Utf8Length(t) && Plain(t[|word|..])
  {
    hide Utf8Length, Print;
    assert t[..|word|] == word;
    Utf8Split(t, |word|);
  }

  lemma {:induction false} ReadSize(s: string)
    requires Plain(s) && ReadValue(s).Read?
    ensures Size(ReadValue(s).value) + Utf8Length(ReadValue(s).rest) <= Utf8Length(s) && Plain(ReadValue(s).rest)
    decreases |s|, 1
  {
    hide Utf8Length, NumberLength, ReadBody;
    var t := Skip(s);
    SkipSize(s);
    if t[0] == '"' {
      QuotedSize(t);
      PrintTextSize(ReadBody(t[1..]).text, "");
      Utf8Ascii("");
    } else if t[0] == '[' {
      ReadArraySize(t);
    } else if t[0] == '{' {
      ReadObjectSize(t);
    } else if "null" <= t {
      WordSize("null", t, Null);
    } else if "true" <= t {
      WordSize("true", t, Bool(true));
    } else if "false" <= t {
      WordSize("false", t, Bool(false));
    } else {
      var n := NumberLength(t);
      assert t[..n] + "" == t[..n];
      WordSize(t[..n], t, Number(t[..n]));
    }
  }

  lemma {:induction false} ReadArraySize(t: string)
    requires Plain(t) && t != "" && t[0] == '[' && ReadValue(t).Read?
    ensures Size(ReadValue(t).value) + Utf8Length(ReadValue(t).rest) <= Utf8Length(t) && Plain(ReadValue(t).rest)
    decreases |t|, 0
  {
    hide Utf8Length, ReadElements;
    assert Skip(t) == t;
    var u := Skip(t[1..]);
    DropByte(t);
    SkipSize(t[1..]);
    if u != "" && u[0] == ']' {
      DropByte(u);
      EmptyArray();
    } else {
      ReadElementsSize(u);
      ArraySize(ReadElements(u).items);
    }
  }

  lemma {:induction false} ReadObjectSize(t: string)
    requires Plain(t) && t != "" && t[0] == '{' && ReadValue(t).Read?
    ensures Size(ReadValue(t).value) + Utf8Length(ReadValue(t).rest) <= Utf8Length(t) && Plain(ReadValue(t).rest)
    decreases |t|, 0
  {
    hide Utf8Length, ReadMembers;
    assert Skip(t) == t;
    var u := Skip(t[1..]);
    DropByte(t);
    SkipSize(t[1..]);
    if u != "" && u[0] == '}' {
      DropByte(u);
      EmptyObject();
    } else {
      ReadMembersSize(u);
      ObjectSize(ReadMembers(u).fields);
    }
  }

  lemma EmptyArray()
    ensures Size(Array([])) == 2
  {
    assert Print(Array([]), "") == "[]";
    Utf8Ascii("[]");
  }

  lemma EmptyObject()
    ensures Size(Object(map[])) == 2
  {
    assert Sorted({}) == [];
    assert Print(Object(map[]), "") == "{}";
    Utf8Ascii("{}");
  }

  lemma {:induction false} ReadElementsSize(s: string)
    requires Plain(s) && ReadElements(s).ReadItems?
    ensures ReadElements(s).items != []
    ensures ItemsSize(ReadElements(s).items) + Utf8Length(ReadElements(s).rest) <= Utf8Length(s)
    ensures Plain(ReadElements(s).rest)
    decreases |s|, 2
  {
    hide Utf8Length, Size, ReadValue;
    var v := ReadValue(s);
    ReadSize(s);
    var t := Skip(v.rest);
    SkipSize(v.rest);
    DropByte(t);
    if t[0] == ',' {
      ReadElementsSize(t[1..]);
      assert ([v.value] + ReadElements(t[1..]).items)[1..] == ReadElements(t[1..]).items;
    } else {
      assert [v.value][1..] == [];
    }
  }

  lemma {:induction false} ReadMembersSize(s: string)
    requires Plain(s) && ReadMembers(s).ReadFields?
    ensures ReadMembers(s).fields != map[]
    ensures MembersSize(ReadMembers(s).fields) + Utf8Length(ReadMembers(s).rest) <= Utf8Length(s)
    ensures Plain(ReadMembers(s).rest)
    decreases |s|, 2
  {
    hide Utf8Length, Size, TextSize, ReadValue, ReadBody, MembersSize;
    var q := Skip(s);
    SkipSize(s);
    QuotedSize(q);
    var b := ReadBody(q[1..]);
    var c := Skip(b.rest);
    SkipSize(b.rest);
    DropByte(c);
    ReadSize(c[1..]);
    var v := ReadValue(c[1..]);
    var t := Skip(v.rest);
    SkipSize(v.rest);
    DropByte(t);
    if t[0] == ',' {
      ReadMembersSize(t[1..]);
      MembersAdd(b.text, v.value, ReadMembers(t[1..]).fields);
      assert b.text in map[b.text := v.value] + ReadMembers(t[1..]).fields;
    } else {
      MembersAdd(b.text, v.value, map[]);
      assert map[b.text := v.value] + map[] == map[b.text := v.value];
      assert b.text in map[b.text := v.value];
      NoMembers();
    }
  }

  /** The canonical text of a plain text is not longer than it. */
  lemma PlainCanonical(s: string)
    requires Plain(s) && Decode(s).Decoded?
    ensures Utf8Length(Marshal(Decode(s).value)) <= Utf8Length(s)
  {
    hide Utf8Length, ReadValue, Print;
    ReadSize(s);
  }
}
