/**
 The one spelling that json.Marshal chooses among those of a value
 (internal/queue/store.go:150-156): no white space, keys in ascending order, and
 for each character a fixed form.
 */
module JsonCanonical {
  import opened Strings
  import opened Json
  import opened JsonGrammar
  import opened JsonReading
  import opened JsonSpelling
  import opened JsonRoundTrip

  predicate LowerHex(h: Hex) { !h.a.upper && !h.b.upper && !h.c.upper && !h.d.upper }

  /** Escapes only where they are needed or where a page could misread the text, short ones where there are any. */
  predicate CanonicalForm(f: Form) {
    match f
    case Literal(c) => c !in {'<', '>', '&', '\U{2028}', '\U{2029}'}
    case Short(mark) => mark != '/'
    case Escaped(hex) =>
      && LowerHex(hex)
      && ((hex.Code() < 0x20 && hex.Code() !in {0x8, 0x9, 0xA, 0xC, 0xD})
          || hex.Code() in {0x26, 0x3C, 0x3E, 0x2028, 0x2029})
    case Pair(_, _, _) => false
    case Lone(_) => false
  }

  predicate CanonicalForms(forms: seq<Form>) { forall i :: 0 <= i < |forms| ==> CanonicalForm(forms[i]) }

  /** Each key before the next, so that no key comes twice. */
  predicate AscendingKeys(members: seq<Member>)
    requires forall i :: 0 <= i < |members| ==> ValidForms(members[i].key)
  {
    forall i, j :: 0 <= i < j < |members| ==>
      Leq(FormText(members[i].key), FormText(members[j].key)) && FormText(members[i].key) != FormText(members[j].key)
  }

  predicate CanonicalDoc(d: Doc)
    requires ValidDoc(d)
    decreases d
  {
    match d
    case TextDoc(forms) => CanonicalForms(forms)
    case ArrayDoc(gap, items) =>
      && gap == ""
      && forall i :: 0 <= i < |items| ==> items[i].before == "" == items[i].after && CanonicalDoc(items[i].value)
    case ObjectDoc(gap, members) =>
      && gap == "" && AscendingKeys(members)
      && forall i :: 0 <= i < |members| ==>
           && members[i].before == "" && members[i].gap == "" && members[i].lead == "" && members[i].after == ""
           && CanonicalForms(members[i].key) && CanonicalDoc(members[i].value)
    case _ => true
  }

  // Characters

  lemma CharCanonical(c: char) returns (f: Form)
    ensures f.Valid() && CanonicalForm(f) && f.Chars() == Escape(c) && f.Means() == c
  {
    if c == '"' || c == '\\' {
      f := Short(c);
    } else if c == '\U{8}' {
      f := Short('b');
    } else if c == '\U{C}' {
      f := Short('f');
    } else if c == '\n' {
      f := Short('n');
    } else if c == '\r' {
      f := Short('r');
    } else if c == '\t' {
      f := Short('t');
    } else if c < ' ' || c == '<' || c == '>' || c == '&' || c == '\U{2028}' || c == '\U{2029}' {
      f := EscapeCanonical(c);
    } else {
      f := Literal(c);
    }
  }

  lemma EscapeCanonical(c: char) returns (f: Form)
    requires (c < ' ' && c !in {'\U{8}', '\U{C}', '\n', '\r', '\t'}) || c in {'<', '>', '&', '\U{2028}', '\U{2029}'}
    ensures f.Valid() && CanonicalForm(f) && f.Chars() == Escape(c) && f.Means() == c
  {
    var n := c as int;
    if n < 0x100 {
      f := Escaped(LowHex(0, 0, n / 16, n % 16));
      HexCanonical(0, 0, n / 16, n % 16);
    } else {
      f := Escaped(LowHex(2, 0, 2, n % 16));
      HexCanonical(2, 0, 2, n % 16);
    }
    hide Hex.Chars, Hex.Code, HexChar;
  }

  function LowHex(a: nat, b: nat, c: nat, d: nat): Hex {
    Hex(HexDigit(a, false), HexDigit(b, false), HexDigit(c, false), HexDigit(d, false))
  }

  lemma HexCanonical(a: nat, b: nat, c: nat, d: nat)
    requires a < 16 && b < 16 && c < 16 && d < 16
    ensures var h := LowHex(a, b, c, d);
      && h.Valid() && LowerHex(h) && h.Code() == a * 0x1000 + b * 0x100 + c * 0x10 + d
      && h.Chars() == [HexChar(a), HexChar(b), HexChar(c), HexChar(d)]
    ensures HexChar(0) == '0' && HexChar(2) == '2' && HexChar(8) == '8' && HexChar(9) == '9'
  {
    DigitCanonical(HexDigit(a, false));
    DigitCanonical(HexDigit(b, false));
    DigitCanonical(HexDigit(c, false));
    DigitCanonical(HexDigit(d, false));
    hide HexDigit.Char;
  }

  lemma DigitCanonical(h: HexDigit)
    requires h.Valid() && !h.upper
    ensures h.Char() == HexChar(h.n)
  {
    assert h.n < 10 ==> "0123456789"[h.n] == ('0' as int + h.n) as char;
  }

  lemma {:induction false} TextCanonical(s: string, rest: string) returns (forms: seq<Form>)
    ensures ValidForms(forms) && CanonicalForms(forms) && FormText(forms) == s
    ensures FormChars(forms, rest) == EscapeAll(s, rest)
  {
    hide Form.Valid, Form.Chars, Form.Means, Escape;
    if s == "" {
      forms := [];
    } else {
      var f := CharCanonical(s[0]);
      var tail := TextCanonical(s[1..], rest);
      forms := [f] + tail;
      assert forms[1..] == tail && s == [s[0]] + s[1..];
    }
  }

  lemma QuoteCanonical(s: string, rest: string) returns (forms: seq<Form>)
    ensures ValidForms(forms) && CanonicalForms(forms) && FormText(forms) == s
    ensures Quote(forms, rest) == PrintText(s, rest)
  {
    hide CanonicalForms, FormText, FormChars, EscapeAll;
    forms := TextCanonical(s, "\"" + rest);
  }

  // Values

  lemma {:induction false} ValueCanonical(v: Value, rest: string) returns (d: Doc)
    requires WellFormed(v)
    ensures ValidDoc(d) && CanonicalDoc(d) && Meaning(d) == v && Spell(d, rest) == Print(v, rest)
    decreases v, Width(v) + 1
  {
    hide ValidDoc, CanonicalDoc, Meaning, Spell, Print, WellFormed;
    match v
    case Array(_) => d := ArrayCanonical(v, rest);
    case Object(_) => d := ObjectCanonical(v, rest);
    case _ => d := LeafCanonical(v, rest);
  }

  lemma LeafCanonical(v: Value, rest: string) returns (d: Doc)
    requires WellFormed(v) && !v.Array? && !v.Object?
    ensures ValidDoc(d) && CanonicalDoc(d) && Meaning(d) == v && Spell(d, rest) == Print(v, rest)
  {
    hide NumberForm.Chars, NumberForm.Valid, Quote, PrintText, FormText, NumberLength, ValidForms, CanonicalForms;
    match v
    case Null => d := NullDoc;
    case Bool(b) => d := BoolDoc(b);
    case Number(text) =>
      var n := NumberSpelled(text);
      assert text[..NumberLength(text)] == text;
      d := NumberDoc(n);
    case Text(s) =>
      var forms := QuoteCanonical(s, rest);
      d := TextDoc(forms);
  }

  lemma {:induction false} ArrayCanonical(v: Value, rest: string) returns (d: Doc)
    requires v.Array? && WellFormed(v)
    ensures ValidDoc(d) && CanonicalDoc(d) && Meaning(d) == v && Spell(d, rest) == Print(v, rest)
    decreases v, Width(v), 1
  {
    if v.items == [] {
      d := ArrayDoc("", []);
      EmptyCanonical(rest);
    } else {
      var items := ItemsCanonical(v, 0, rest);
      d := ArrayDoc("", items);
      assert v.items[0..] == v.items;
      hide CanonicalDoc, WellFormed, ValidDoc, SpellItems, PrintItems, ItemsFrom;
      ArrayWhole(d, rest);
    }
  }

  lemma EmptyCanonical(rest: string)
    ensures ValidDoc(ArrayDoc("", [])) && CanonicalDoc(ArrayDoc("", []))
    ensures Spell(ArrayDoc("", []), rest) == Print(Array([]), rest) && Meaning(ArrayDoc("", [])) == Array([])
    ensures ValidDoc(ObjectDoc("", [])) && CanonicalDoc(ObjectDoc("", []))
    ensures Spell(ObjectDoc("", []), rest) == Print(Object(map[]), rest) && Meaning(ObjectDoc("", [])) == Object(map[])
  {
    EmptyArray("", rest);
    EmptyObject("", rest);
    assert "" + ("]" + rest) == "]" + rest && "" + ("}" + rest) == "}" + rest;
    assert Sorted({}) == [];
  }

  lemma ArrayWhole(d: Doc, rest: string)
    requires ValidDoc(d) && d.ArrayDoc? && d.items != []
    ensures Spell(d, rest) == "[" + SpellItems(d, 0, rest) && Meaning(d) == Array(ItemsFrom(d, 0))
  {
    ItemsJoin(d, 0);
    assert [] + ItemsFrom(d, 0) == ItemsFrom(d, 0);
    hide SpellItems, ItemsFrom, ValidDoc;
  }

  lemma {:induction false} ItemsCanonical(v: Value, i: nat, rest: string) returns (items: seq<Item>)
    requires v.Array? && WellFormed(v) && i < |v.items|
    ensures items != [] && ValidDoc(ArrayDoc("", items)) && CanonicalDoc(ArrayDoc("", items))
    ensures SpellItems(ArrayDoc("", items), 0, rest) == PrintItems(v, i, rest)
    ensures ItemsFrom(ArrayDoc("", items), 0) == v.items[i..]
    decreases v, |v.items| - i, 0
  {
    hide ValidDoc, CanonicalDoc, Spell, SpellItems, Meaning, ItemsFrom, Print;
    var x := v.items[i];
    var after := if i == |v.items| - 1 then "]" + rest else "," + PrintItems(v, i + 1, rest);
    var d := ValueCanonical(x, after);
    var item := Item("", d, "");
    if i == |v.items| - 1 {
      items := [item];
      LastItem(item, rest);
      assert v.items[i..] == [x];
    } else {
      var tail := ItemsCanonical(v, i + 1, rest);
      items := [item] + tail;
      ItemsAdd(item, tail, rest);
      CanonicalItem(item, tail);
      assert v.items[i..] == [x] + v.items[i + 1..];
      assert "" + ("," + SpellItems(ArrayDoc("", tail), 0, rest)) == after;
      assert "" + Spell(d, after) == Spell(d, after);
    }
  }

  lemma LastItem(item: Item, rest: string)
    requires item.before == "" == item.after && ValidDoc(item.value) && CanonicalDoc(item.value)
    ensures var d := ArrayDoc("", [item]);
      && ValidDoc(d) && CanonicalDoc(d) && ItemsFrom(d, 0) == [Meaning(item.value)]
      && SpellItems(d, 0, rest) == Spell(item.value, "]" + rest)
  {
    var d := ArrayDoc("", [item]);
    assert "" + ("]" + rest) == "]" + rest;
    assert ItemsFrom(d, 1) == [];
    hide Spell, Meaning;
  }

  lemma CanonicalItem(item: Item, tail: seq<Item>)
    requires item.before == "" == item.after && ValidDoc(item.value) && CanonicalDoc(item.value)
    requires ValidDoc(ArrayDoc("", tail)) && CanonicalDoc(ArrayDoc("", tail)) && ValidDoc(ArrayDoc("", [item] + tail))
    ensures CanonicalDoc(ArrayDoc("", [item] + tail))
  {
    var all := [item] + tail;
    forall i | 0 <= i < |all| ensures all[i].before == "" == all[i].after && CanonicalDoc(all[i].value) {
      assert i > 0 ==> all[i] == tail[i - 1];
    }
  }

  lemma {:induction false} ObjectCanonical(v: Value, rest: string) returns (d: Doc)
    requires v.Object? && WellFormed(v)
    ensures ValidDoc(d) && CanonicalDoc(d) && Meaning(d) == v && Spell(d, rest) == Print(v, rest)
    decreases v, Width(v), 1
  {
    hide Leq, Spell, SpellMembers, Meaning, MembersFrom, CanonicalDoc, ValidDoc, PrintFields, KeysOf;
    hide WellFormed, Restrict;
    var keys := Sorted(v.fields.Keys);
    if keys == [] {
      d := ObjectDoc("", []);
      assert v.fields == map[];
      EmptyCanonical(rest);
    } else {
      forall i, j | 0 <= i < j < |keys| ensures Leq(keys[i], keys[j]) && keys[i] != keys[j] {
        SortedIsAscending(v.fields.Keys, i, j);
      }
      var members := MembersCanonical(v, keys, rest);
      d := ObjectDoc("", members);
      RestrictAll(v.fields, keys);
      ObjectWhole(d, rest);
    }
  }

  lemma RestrictAll(m: map<string, Value>, keys: seq<string>)
    requires forall k :: k in keys <==> k in m
    ensures Restrict(m, keys) == m
  {
  }

  predicate KeysOf(members: seq<Member>, keys: seq<string>) {
    && |members| == |keys|
    && forall i :: 0 <= i < |members| ==> ValidForms(members[i].key) && FormText(members[i].key) == keys[i]
  }

  lemma {:induction false} MembersCanonical(v: Value, keys: seq<string>, rest: string) returns (members: seq<Member>)
    requires v.Object? && WellFormed(v) && keys != [] && |keys| <= Width(v) && forall k :: k in keys ==> k in v.fields
    requires forall i, j :: 0 <= i < j < |keys| ==> Leq(keys[i], keys[j]) && keys[i] != keys[j]
    ensures members != [] && KeysOf(members, keys)
    ensures ValidDoc(ObjectDoc("", members)) && CanonicalDoc(ObjectDoc("", members))
    ensures SpellMembers(ObjectDoc("", members), 0, rest) == PrintFields(v, keys, rest)
    ensures MembersFrom(ObjectDoc("", members), 0) == Restrict(v.fields, keys)
    decreases v, |keys|, 0
  {
    hide Leq;
    var k, x, after := keys[0], v.fields[keys[0]], AfterField(v, keys, rest);
    var d := ValueCanonical(x, after);
    var forms := QuoteCanonical(k, ":" + Print(x, after));
    var m := Member("", forms, "", "", d, "");
    RestrictFirst(v.fields, keys);
    if |keys| == 1 {
      members := [m];
      OneMember(m, rest);
    } else {
      var tail := MembersCanonical(v, keys[1..], rest);
      members := [m] + tail;
      MoreMembers(m, tail, keys, rest);
    }
  }

  /** A member without white space. */
  predicate Tight(m: Member) {
    && m.before == "" && m.gap == "" && m.lead == "" && m.after == "" && ValidForms(m.key) && CanonicalForms(m.key)
    && ValidDoc(m.value) && CanonicalDoc(m.value)
  }

  lemma OneMember(m: Member, rest: string)
    requires Tight(m)
    ensures var d := ObjectDoc("", [m]);
      && ValidDoc(d) && CanonicalDoc(d) && KeysOf([m], [FormText(m.key)])
      && MembersFrom(d, 0) == map[FormText(m.key) := Meaning(m.value)]
      && SpellMembers(d, 0, rest) == Quote(m.key, ":" + Spell(m.value, "}" + rest))
  {
    LastMember(m, rest);
    TightText(m, "}" + rest);
    hide Spell, Quote, Meaning, FormText, SpellMembers;
  }

  lemma TightText(m: Member, tail: string)
    requires Tight(m)
    ensures m.before + Quote(m.key, m.gap + (":" + (m.lead + Spell(m.value, m.after + tail))))
         == Quote(m.key, ":" + Spell(m.value, tail))
  {
    hide Spell, Quote, CanonicalDoc, ValidDoc;
    assert "" + tail == tail;
    assert "" + Spell(m.value, tail) == Spell(m.value, tail);
    assert "" + (":" + Spell(m.value, tail)) == ":" + Spell(m.value, tail);
    assert "" + Quote(m.key, ":" + Spell(m.value, tail)) == Quote(m.key, ":" + Spell(m.value, tail));
  }

  lemma MoreMembers(m: Member, tail: seq<Member>, keys: seq<string>, rest: string)
    requires Tight(m) && keys != [] && FormText(m.key) == keys[0] && KeysOf(tail, keys[1..]) && tail != []
    requires forall i, j :: 0 <= i < j < |keys| ==> Leq(keys[i], keys[j]) && keys[i] != keys[j]
    requires ValidDoc(ObjectDoc("", tail)) && CanonicalDoc(ObjectDoc("", tail))
    ensures var d := ObjectDoc("", [m] + tail);
      && ValidDoc(d) && CanonicalDoc(d) && KeysOf([m] + tail, keys)
      && MembersFrom(d, 0) == map[keys[0] := Meaning(m.value)] + MembersFrom(ObjectDoc("", tail), 0)
      && SpellMembers(d, 0, rest)
         == Quote(m.key, ":" + Spell(m.value, "," + SpellMembers(ObjectDoc("", tail), 0, rest)))
  {
    hide Leq, FormText, ValidForms, CanonicalForms, Meaning, Spell, Quote, SpellMembers, MembersFrom;
    var all := [m] + tail;
    forall i | 0 <= i < |all| ensures ValidForms(all[i].key) && FormText(all[i].key) == keys[i] {
      if i > 0 { assert all[i] == tail[i - 1] && keys[i] == keys[1..][i - 1]; }
    }
    forall i | 0 <= i < |all| ensures Tight(all[i]) {
      if i > 0 { assert all[i] == tail[i - 1]; }
    }
    hide ValidDoc, CanonicalDoc, Tight;
    MembersAdd(m, tail, rest);
    TightText(m, "," + SpellMembers(ObjectDoc("", tail), 0, rest));
    AllTight(all);
  }

  lemma AllTight(members: seq<Member>)
    requires forall i :: 0 <= i < |members| ==> Tight(members[i])
    requires ValidDoc(ObjectDoc("", members)) && AscendingKeys(members)
    ensures CanonicalDoc(ObjectDoc("", members))
  {
    hide AscendingKeys;
    forall i | 0 <= i < |members| ensures
      && members[i].before == "" && members[i].gap == "" && members[i].lead == "" && members[i].after == ""
      && CanonicalForms(members[i].key) && CanonicalDoc(members[i].value)
    {
      assert Tight(members[i]);
    }
  }

  ghost predicate Canonical(s: string, v: Value) { exists d :: SpellsAs(s, v, d, "", "") && CanonicalDoc(d) }

  /** Marshal writes a value in canonical form. */
  lemma MarshalIsCanonical(v: Value)
    requires WellFormed(v)
    ensures Canonical(Marshal(v), v)
  {
    hide ValidDoc, CanonicalDoc, Spell, Meaning, Print, WellFormed;
    var d := ValueCanonical(v, "");
    assert "" + Spell(d, "") == Spell(d, "");
    assert SpellsAs(Marshal(v), v, d, "", "");
  }
}
