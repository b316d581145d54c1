/**
 Every text the decoder accepts is one of the grammar, so that a text decodes to a
 value if and only if it spells that value (internal/queue/store.go:121-124, 150-156).
 */
module JsonSpelling {
  import opened Basics
  import opened Json
  import opened JsonGrammar
  import opened JsonReading

  // Characters

  lemma DigitSpelled(c: char) returns (h: HexDigit)
    requires HexValue(c) >= 0
    ensures h.Valid() && h.Char() == c && h.n == HexValue(c)
  {
    h := HexDigit(HexValue(c), 'A' <= c <= 'F');
  }

  lemma HexSpelled(s: string) returns (h: Hex)
    requires Hex4(s) >= 0
    ensures |s| >= 4 && h.Valid() && h.Chars() == s[..4] && h.Code() == Hex4(s)
  {
    var a := DigitSpelled(s[0]);
    var b := DigitSpelled(s[1]);
    var c := DigitSpelled(s[2]);
    var d := DigitSpelled(s[3]);
    hide HexDigit.Char, HexValue;
    h := Hex(a, b, c, d);
  }

  /** Every unit the reader takes is a form. */
  lemma UnitSpelled(s: string) returns (f: Form)
    requires s != "" && ReadUnit(s).Unit?
    ensures f.Valid() && Apart(f, s[ReadUnit(s).used..])
    ensures f.Chars() == s[..ReadUnit(s).used] && f.Means() == ReadUnit(s).c
  {
    if s[0] != '\\' {
      f := Literal(s[0]);
      assert s[..1] == [s[0]];
    } else if s[1] != 'u' {
      f := ShortSpelled(s);
    } else {
      f := EscapeSpelled(s);
    }
  }

  lemma ShortSpelled(s: string) returns (f: Form)
    requires s != "" && ReadUnit(s).Unit? && s[0] == '\\' && s[1] != 'u'
    ensures f.Short? && f.Valid() && f.Chars() == s[..2] && f.Means() == ReadUnit(s).c && ReadUnit(s).used == 2
  {
    f := Short(s[1]);
    assert s[..2] == ['\\', s[1]];
  }

  lemma EscapeSpelled(s: string) returns (f: Form)
    requires |s| >= 2 && ReadUnit(s).Unit? && s[0] == '\\' && s[1] == 'u'
    ensures f.Valid() && Apart(f, s[ReadUnit(s).used..])
    ensures f.Chars() == s[..ReadUnit(s).used] && f.Means() == ReadUnit(s).c
  {
    var v := Hex4(s[2..]);
    var h := HexSpelled(s[2..]);
    hide Hex4, Hex.Chars, Hex.Code;
    assert s[..6] == "\\u" + s[2..][..4];
    if v < 0xD800 || v >= 0xE000 {
      f := Escaped(h);
    } else if v < 0xDC00 && |s| >= 12 && s[6] == '\\' && s[7] == 'u' && 0xDC00 <= Hex4(s[8..]) < 0xE000 {
      var l := HexSpelled(s[8..]);
      assert s[..12] == ("\\u" + s[2..][..4]) + ("\\u" + s[8..][..4]);
      var code := 0x10000 + (v - 0xD800) * 0x400 + (Hex4(s[8..]) - 0xDC00);
      PairCode(v, Hex4(s[8..]), code);
      f := Pair(code as char, h, l);
    } else {
      f := Lone(h);
      var rest := s[6..];
      if |rest| >= 6 { assert rest[2..] == s[8..] && rest[0] == s[6] && rest[1] == s[7]; }
    }
  }

  lemma PairCode(v: int, w: int, code: int)
    requires 0xD800 <= v < 0xDC00 <= w < 0xE000 && code == 0x10000 + (v - 0xD800) * 0x400 + (w - 0xDC00)
    ensures 0x10000 <= code < 0x110000
    ensures v == 0xD800 + (code - 0x10000) / 0x400 && w == 0xDC00 + (code - 0x10000) % 0x400
  {
  }

  /** A second half in front shows in the text. */
  lemma LowStarts(forms: seq<Form>, rest: string)
    requires ValidForms(forms) && forms != [] && forms[0].Low()
    ensures var s := FormChars(forms, rest);
      |s| >= 6 && s[0] == '\\' && s[1] == 'u' && 0xDC00 <= Hex4(s[2..]) < 0xE000
  {
    CodeStart(forms[0].hex, FormChars(forms[1..], rest));
  }

  lemma FormsAdd(f: Form, tail: seq<Form>, rest: string)
    requires f.Valid() && ValidForms(tail) && Apart(f, FormChars(tail, rest))
    ensures ValidForms([f] + tail) && FormChars([f] + tail, rest) == f.Chars() + FormChars(tail, rest)
    ensures FormText([f] + tail) == [f.Means()] + FormText(tail)
  {
    var all := [f] + tail;
    assert all[1..] == tail;
    if f.High() && tail != [] && tail[0].Low() { LowStarts(tail, rest); }
    forall i | 0 <= i < |all| - 1 ensures !(all[i].High() && all[i + 1].Low()) {
      if i > 0 { assert all[i] == tail[i - 1] && all[i + 1] == tail[i]; }
    }
  }

  lemma {:induction false} BodySpelled(s: string) returns (forms: seq<Form>)
    requires ReadBody(s).ReadText?
    ensures ValidForms(forms) && s == FormChars(forms, "\"" + ReadBody(s).rest) && FormText(forms) == ReadBody(s).text
    decreases |s|
  {
    hide ReadUnit, Form.Chars, Form.Means, Form.Valid, Apart;
    if s[0] == '"' {
      forms := [];
      assert s == "\"" + s[1..];
    } else {
      var f := UnitSpelled(s);
      var rest := s[ReadUnit(s).used..];
      var tail := BodySpelled(rest);
      FormsAdd(f, tail, "\"" + ReadBody(s).rest);
      forms := [f] + tail;
      assert s == s[..ReadUnit(s).used] + rest;
    }
  }

  // Numbers

  lemma {:induction false} DigitsSpelled(s: string)
    ensures forall i :: 0 <= i < Digits(s) ==> '0' <= s[i] <= '9'
  {
    if s != "" && IsDigit(s[0]) {
      DigitsSpelled(s[1..]);
      assert forall i :: 0 < i < Digits(s) ==> s[i] == s[1..][i - 1];
    } else {
    }
  }

  lemma WholeSpelled(s: string) returns (whole: string)
    requires IntegerLength(s) > 0
    ensures whole == s[..IntegerLength(s)] && DigitString(whole) && (whole == "0" || whole[0] != '0')
  {
    whole := s[..IntegerLength(s)];
    DigitsSpelled(s);
    if s[0] == '0' { assert whole == "0"; }
  }

  lemma FractionSpelled(s: string) returns (fraction: Option<string>)
    ensures fraction.Some? ==> DigitString(fraction.value)
    ensures (if fraction.Some? then "." + fraction.value else "") == s[..FractionLength(s)]
  {
    var n := FractionLength(s);
    if n == 0 {
      fraction := None;
      assert s[..0] == "";
    } else {
      DigitsSpelled(s[1..]);
      fraction := Some(s[1..n]);
      assert forall i :: 0 <= i < n - 1 ==> s[1..n][i] == s[1..][i];
      assert s[..n] == "." + s[1..n];
    }
  }

  lemma ExponentSpelled(s: string) returns (exponent: Option<Exponent>)
    ensures NumberForm(false, "1", None, exponent).Valid()
    ensures NumberForm(false, "1", None, exponent).ExponentChars() == s[..ExponentLength(s)]
  {
    var n := ExponentLength(s);
    if n == 0 {
      exponent := None;
      assert s[..0] == "";
    } else {
      var sign := if |s| > 1 && (s[1] == '+' || s[1] == '-') then 1 else 0;
      DigitsSpelled(s[1 + sign..]);
      var digits := s[1 + sign..n];
      assert forall i :: 0 <= i < |digits| ==> digits[i] == s[1 + sign..][i];
      exponent := Some(Exponent(s[0], s[1..1 + sign], digits));
      assert sign == 1 ==> s[1..2] == [s[1]];
      assert s[..n] == [s[0]] + s[1..1 + sign] + digits;
    }
  }

  lemma NumberSpelled(s: string) returns (n: NumberForm)
    requires NumberLength(s) > 0
    ensures n.Valid() && n.Chars() == s[..NumberLength(s)]
  {
    hide IntegerLength, FractionLength, ExponentLength, NumberForm.FractionChars, NumberForm.ExponentChars;
    var sign := if s[0] == '-' then 1 else 0;
    var whole := WholeSpelled(s[sign..]);
    var i := |whole|;
    var fraction := FractionSpelled(s[sign + i..]);
    var f := FractionLength(s[sign + i..]);
    var exponent := ExponentSpelled(s[sign + i + f..]);
    var e := ExponentLength(s[sign + i + f..]);
    n := NumberForm(sign == 1, whole, fraction, exponent);
    NumberParts(n);
    NumberCuts(s, sign, i, f, e);
    assert s[..sign] == if sign == 1 then "-" else "";
  }

  lemma NumberParts(n: NumberForm)
    requires DigitString(n.whole) && (n.whole == "0" || n.whole[0] != '0')
    requires n.fraction.Some? ==> DigitString(n.fraction.value)
    requires NumberForm(false, "1", None, n.exponent).Valid()
    ensures n.Valid() && n.FractionChars() == (if n.fraction.Some? then "." + n.fraction.value else "")
    ensures n.ExponentChars() == NumberForm(false, "1", None, n.exponent).ExponentChars()
  {
  }

  lemma NumberCuts(s: string, sign: nat, i: nat, f: nat, e: nat)
    requires sign + i + f + e <= |s|
    ensures s[..sign + i + f + e] == s[..sign] + (s[sign..][..i] + (s[sign + i..][..f] + s[sign + i + f..][..e]))
  {
  }

  // Values

  /** A document put in front of the elements of an array. */
  lemma {:induction false} ItemsShift(item: Item, tail: seq<Item>, i: nat, rest: string)
    requires ValidDoc(ArrayDoc("", tail)) && ValidDoc(ArrayDoc("", [item] + tail)) && i <= |tail|
    ensures ItemsFrom(ArrayDoc("", [item] + tail), i + 1) == ItemsFrom(ArrayDoc("", tail), i)
    ensures i < |tail| ==>
      SpellItems(ArrayDoc("", [item] + tail), i + 1, rest) == SpellItems(ArrayDoc("", tail), i, rest)
    decreases |tail| - i
  {
    hide Spell, Meaning, ValidDoc;
    if i == |tail| {
    } else {
      ItemsShift(item, tail, i + 1, rest);
      assert ([item] + tail)[i + 1] == tail[i];
    }
  }

  lemma {:induction false} MembersShift(m: Member, tail: seq<Member>, i: nat, rest: string)
    requires ValidDoc(ObjectDoc("", tail)) && ValidDoc(ObjectDoc("", [m] + tail)) && i <= |tail|
    ensures MembersFrom(ObjectDoc("", [m] + tail), i + 1) == MembersFrom(ObjectDoc("", tail), i)
    ensures i < |tail| ==>
      SpellMembers(ObjectDoc("", [m] + tail), i + 1, rest) == SpellMembers(ObjectDoc("", tail), i, rest)
    decreases |tail| - i
  {
    hide Spell, Meaning, Quote, FormText;
    if i == |tail| {
    } else {
      MembersShift(m, tail, i + 1, rest);
      assert ([m] + tail)[i + 1] == tail[i];
    }
  }

  /** Everything but arrays and objects. */
  lemma LeafSpelled(t: string) returns (d: Doc)
    requires t != "" && !IsSpace(t[0]) && t[0] != '[' && t[0] != '{' && ReadValue(t).Read?
    ensures ValidDoc(d) && t == Spell(d, ReadValue(t).rest) && Meaning(d) == ReadValue(t).value
  {
    hide ReadBody, NumberLength, FormChars, FormText;
    assert Skip(t) == t;
    if t[0] == '"' {
      var forms := BodySpelled(t[1..]);
      KeySpelled(t, forms, ReadBody(t[1..]).rest);
      d := TextDoc(forms);
    } else if "null" <= t {
      d := NullDoc;
      assert t == "null" + t[4..];
    } else if "true" <= t {
      d := BoolDoc(true);
      assert t == "true" + t[4..];
    } else if "false" <= t {
      d := BoolDoc(false);
      assert t == "false" + t[5..];
    } else {
      var n := NumberSpelled(t);
      hide NumberForm.Chars;
      d := NumberDoc(n);
      assert t == t[..NumberLength(t)] + t[NumberLength(t)..];
    }
  }

  lemma NotBlank(s: string)
    requires ReadValue(s).Read?
    ensures Skip(s) != ""
  {
  }

  lemma {:induction false} ValueSpelled(s: string) returns (ws: string, d: Doc)
    requires ReadValue(s).Read?
    ensures Spaces(ws) && ValidDoc(d) && s == ws + Spell(d, ReadValue(s).rest) && Meaning(d) == ReadValue(s).value
    decreases |s|, 1
  {
    NotBlank(s);
    hide ReadValue, Spell, Meaning, ValidDoc, Skip;
    ws := Skipped(s);
    var t := Skip(s);
    ReadSkips(ws, t);
    if t[0] == '[' {
      d := ArraySpelled(t);
    } else if t[0] == '{' {
      d := ObjectSpelled(t);
    } else {
      d := LeafSpelled(t);
    }
  }

  lemma ReadArrayIs(t: string)
    requires t != "" && t[0] == '[' && ReadValue(t).Read?
    ensures var u := Skip(t[1..]);
      if u != "" && u[0] == ']' then ReadValue(t) == Read(Array([]), u[1..])
      else ReadElements(u).ReadItems? && ReadValue(t) == Read(Array(ReadElements(u).items), ReadElements(u).rest)
  {
    hide ReadElements;
    assert Skip(t) == t;
  }

  lemma EmptyArray(gap: string, rest: string)
    requires Spaces(gap)
    ensures var d := ArrayDoc(gap, []);
      ValidDoc(d) && Spell(d, rest) == "[" + (gap + ("]" + rest)) && Meaning(d) == Array([])
  {
  }

  lemma {:induction false} ArraySpelled(t: string) returns (d: Doc)
    requires t != "" && t[0] == '[' && ReadValue(t).Read?
    ensures ValidDoc(d) && t == Spell(d, ReadValue(t).rest) && Meaning(d) == ReadValue(t).value
    decreases |t|, 0
  {
    hide ReadElements, ReadValue, Spell, Meaning, ValidDoc, Skip, Spaces, SpellItems;
    ReadArrayIs(t);
    assert t == "[" + t[1..];
    var gap := Skipped(t[1..]);
    var u := Skip(t[1..]);
    if u != "" && u[0] == ']' {
      d := ArrayDoc(gap, []);
      EmptyArray(gap, u[1..]);
      assert u == "]" + u[1..];
    } else {
      var items := ElementsSpelled(u);
      d := ArrayGap(gap, items, u, ReadElements(u).rest);
    }
  }

  /** White space after the opening bracket belongs to the first element. */
  lemma ArrayGap(gap: string, items: seq<Item>, u: string, rest: string) returns (d: Doc)
    requires Spaces(gap) && items != [] && ValidDoc(ArrayDoc("", items))
    requires u == SpellItems(ArrayDoc("", items), 0, rest)
    ensures ValidDoc(d) && "[" + (gap + u) == Spell(d, rest)
    ensures Meaning(d) == Array(ItemsFrom(ArrayDoc("", items), 0))
  {
    var first, tail := items[0], items[1..];
    var item := first.(before := gap + first.before);
    d := ArrayDoc("", [item] + tail);
    assert items == [first] + tail;
    forall i | 0 <= i < |d.items| ensures
      Spaces(d.items[i].before) && Spaces(d.items[i].after) && ValidDoc(d.items[i].value)
    {
      assert i > 0 ==> d.items[i] == items[i];
    }
    forall i | 0 <= i < |tail| ensures tail[i] == items[i + 1] {}
    assert ValidDoc(ArrayDoc("", tail));
    hide ValidDoc;
    ItemsShift(item, tail, 0, rest);
    ItemsShift(first, tail, 0, rest);
    ItemsJoin(d, 0);
    assert [] + ItemsFrom(d, 0) == ItemsFrom(d, 0);
    GapMoves(gap, first, tail, rest);
  }

  function AfterItem(d: Doc, i: nat, rest: string): string
    requires ValidDoc(d) && d.ArrayDoc? && i < |d.items|
  {
    if i == |d.items| - 1 then "]" + rest else "," + SpellItems(d, i + 1, rest)
  }

  lemma ItemsUnfold(d: Doc, i: nat, rest: string)
    requires ValidDoc(d) && d.ArrayDoc? && i < |d.items|
    ensures SpellItems(d, i, rest)
         == d.items[i].before + Spell(d.items[i].value, d.items[i].after + AfterItem(d, i, rest))
  {
    hide Spell;
  }

  lemma SameAfterItem(d: Doc, e: Doc, rest: string)
    requires ValidDoc(d) && d.ArrayDoc? && d.items != [] && ValidDoc(e) && e.ArrayDoc? && |e.items| == |d.items|
    requires |d.items| > 1 ==> SpellItems(d, 1, rest) == SpellItems(e, 1, rest)
    ensures AfterItem(d, 0, rest) == AfterItem(e, 0, rest)
  {
    hide SpellItems;
  }

  lemma GapMoves(gap: string, first: Item, tail: seq<Item>, rest: string)
    requires var item := first.(before := gap + first.before);
      && ValidDoc(ArrayDoc("", [first] + tail)) && ValidDoc(ArrayDoc("", [item] + tail)) && ValidDoc(ArrayDoc("", tail))
    ensures var item := first.(before := gap + first.before);
      SpellItems(ArrayDoc("", [item] + tail), 0, rest) == gap + SpellItems(ArrayDoc("", [first] + tail), 0, rest)
  {
    var item := first.(before := gap + first.before);
    var d, e := ArrayDoc("", [item] + tail), ArrayDoc("", [first] + tail);
    assert ValidDoc(e.items[0].value) && e.items[0] == first && d.items[0] == item;
    hide Spell, SpellItems, AfterItem, ValidDoc;
    ItemsUnfold(d, 0, rest);
    ItemsUnfold(e, 0, rest);
    ItemsShift(item, tail, 0, rest);
    ItemsShift(first, tail, 0, rest);
    SameAfterItem(d, e, rest);
    var value := Spell(first.value, first.after + AfterItem(e, 0, rest));
    assert (gap + first.before) + value == gap + (first.before + value);
  }

  lemma {:induction false} ElementsSpelled(s: string) returns (items: seq<Item>)
    requires ReadElements(s).ReadItems?
    ensures items != [] && ValidDoc(ArrayDoc("", items))
    ensures s == SpellItems(ArrayDoc("", items), 0, ReadElements(s).rest)
    ensures ItemsFrom(ArrayDoc("", items), 0) == ReadElements(s).items
    decreases |s|, 2
  {
    hide ReadValue;
    var v := ReadValue(s);
    var ws, d := ValueSpelled(s);
    var after := Skipped(v.rest);
    var t := Skip(v.rest);
    var item := Item(ws, d, after);
    var rest := ReadElements(s).rest;
    if t[0] == ']' {
      items := [item];
      assert t == "]" + t[1..];
      assert ItemsFrom(ArrayDoc("", items), 1) == [];
    } else {
      var tail := ElementsSpelled(t[1..]);
      assert t == "," + t[1..];
      items := [item] + tail;
      ItemsAdd(item, tail, rest);
    }
  }

  lemma ItemsAdd(item: Item, tail: seq<Item>, rest: string)
    requires ValidDoc(ArrayDoc("", tail)) && tail != []
    requires Spaces(item.before) && Spaces(item.after) && ValidDoc(item.value)
    ensures var d := ArrayDoc("", [item] + tail);
      && ValidDoc(d) && ItemsFrom(d, 0) == [Meaning(item.value)] + ItemsFrom(ArrayDoc("", tail), 0)
      && SpellItems(d, 0, rest)
         == item.before + Spell(item.value, item.after + ("," + SpellItems(ArrayDoc("", tail), 0, rest)))
  {
    var d := ArrayDoc("", [item] + tail);
    forall i | 0 <= i < |d.items| ensures
      Spaces(d.items[i].before) && Spaces(d.items[i].after) && ValidDoc(d.items[i].value)
    {
      assert i > 0 ==> d.items[i] == tail[i - 1];
    }
    assert ValidDoc(d);
    hide ValidDoc, Spell, Meaning;
    ItemsShift(item, tail, 0, rest);
  }

  lemma ReadObjectIs(t: string)
    requires t != "" && t[0] == '{' && ReadValue(t).Read?
    ensures var u := Skip(t[1..]);
      if u != "" && u[0] == '}' then ReadValue(t) == Read(Object(map[]), u[1..])
      else ReadMembers(u).ReadFields? && ReadValue(t) == Read(Object(ReadMembers(u).fields), ReadMembers(u).rest)
  {
    hide ReadMembers;
    assert Skip(t) == t;
  }

  lemma EmptyObject(gap: string, rest: string)
    requires Spaces(gap)
    ensures var d := ObjectDoc(gap, []);
      ValidDoc(d) && Spell(d, rest) == "{" + (gap + ("}" + rest)) && Meaning(d) == Object(map[])
  {
  }

  lemma {:induction false} ObjectSpelled(t: string) returns (d: Doc)
    requires t != "" && t[0] == '{' && ReadValue(t).Read?
    ensures ValidDoc(d) && t == Spell(d, ReadValue(t).rest) && Meaning(d) == ReadValue(t).value
    decreases |t|, 0
  {
    hide ReadMembers, ReadValue, Spell, Meaning, ValidDoc, Skip, Spaces, SpellMembers;
    ReadObjectIs(t);
    assert t == "{" + t[1..];
    var gap := Skipped(t[1..]);
    var u := Skip(t[1..]);
    if u != "" && u[0] == '}' {
      d := ObjectDoc(gap, []);
      EmptyObject(gap, u[1..]);
      assert u == "}" + u[1..];
    } else {
      var members := MembersSpelled(u);
      d := ObjectGap(gap, members, u, ReadMembers(u).rest);
    }
  }

  lemma ObjectGap(gap: string, members: seq<Member>, u: string, rest: string) returns (d: Doc)
    requires Spaces(gap) && members != [] && ValidDoc(ObjectDoc("", members))
    requires u == SpellMembers(ObjectDoc("", members), 0, rest)
    ensures ValidDoc(d) && "{" + (gap + u) == Spell(d, rest)
    ensures Meaning(d) == Object(MembersFrom(ObjectDoc("", members), 0))
  {
    var first, tail := members[0], members[1..];
    var m := first.(before := gap + first.before);
    d := ObjectDoc("", [m] + tail);
    assert members == [first] + tail;
    GapValid(gap, first, tail);
    hide ValidDoc, SpellMembers, FormText, MembersFrom, Meaning, Spell;
    MemberGapMoves(gap, first, tail, rest);
    GapMeaning(m, first, tail);
    ObjectWhole(d, rest);
  }

  lemma GapMeaning(m: Member, first: Member, tail: seq<Member>)
    requires ValidDoc(ObjectDoc("", [first] + tail)) && ValidDoc(ObjectDoc("", [m] + tail))
    requires ValidDoc(ObjectDoc("", tail))
    requires m.key == first.key && m.value == first.value
    ensures MembersFrom(ObjectDoc("", [m] + tail), 0) == MembersFrom(ObjectDoc("", [first] + tail), 0)
  {
    hide FormText, Meaning, Spell, SpellMembers, ValidDoc;
    MembersShift(m, tail, 0, "");
    MembersShift(first, tail, 0, "");
  }

  lemma ObjectWhole(d: Doc, rest: string)
    requires ValidDoc(d) && d.ObjectDoc? && d.members != []
    ensures Spell(d, rest) == "{" + SpellMembers(d, 0, rest) && Meaning(d) == Object(MembersFrom(d, 0))
  {
    MembersJoin(d, 0);
    assert map[] + MembersFrom(d, 0) == MembersFrom(d, 0);
    hide SpellMembers, FormText, MembersFrom, ValidDoc;
  }

  lemma GapValid(gap: string, first: Member, tail: seq<Member>)
    requires Spaces(gap) && ValidDoc(ObjectDoc("", [first] + tail))
    ensures ValidDoc(ObjectDoc("", [first.(before := gap + first.before)] + tail)) && ValidDoc(ObjectDoc("", tail))
  {
    var all := [first] + tail;
    forall i | 0 <= i < |all| ensures ValidMember(all[i]) { assert all[i] == ObjectDoc("", all).members[i]; }
    var more := [first.(before := gap + first.before)] + tail;
    assert ValidMember(all[0]);
    forall i | 0 <= i < |tail| ensures ValidMember(tail[i]) { assert all[i + 1] == tail[i]; }
    forall i | 0 <= i < |more| ensures ValidMember(more[i]) { assert i > 0 ==> more[i] == all[i]; }
    MembersValid(tail);
    MembersValid(more);
  }

  predicate ValidMember(m: Member) {
    && Spaces(m.before) && ValidForms(m.key) && Spaces(m.gap) && Spaces(m.lead) && ValidDoc(m.value) && Spaces(m.after)
  }

  lemma MembersValid(members: seq<Member>)
    requires forall i :: 0 <= i < |members| ==> ValidMember(members[i])
    ensures ValidDoc(ObjectDoc("", members))
  {
    forall i | 0 <= i < |members| ensures
      && Spaces(members[i].before) && ValidForms(members[i].key) && Spaces(members[i].gap)
      && Spaces(members[i].lead) && ValidDoc(members[i].value) && Spaces(members[i].after)
    {
      assert ValidMember(members[i]);
    }
  }

  lemma MemberGapMoves(gap: string, first: Member, tail: seq<Member>, rest: string)
    requires var m := first.(before := gap + first.before);
      && ValidDoc(ObjectDoc("", [first] + tail)) && ValidDoc(ObjectDoc("", [m] + tail)) && ValidDoc(ObjectDoc("", tail))
    ensures var m := first.(before := gap + first.before);
      SpellMembers(ObjectDoc("", [m] + tail), 0, rest) == gap + SpellMembers(ObjectDoc("", [first] + tail), 0, rest)
  {
    hide Spell, Quote, SpellMembers, AfterMember;
    var m := first.(before := gap + first.before);
    var d, e := ObjectDoc("", [m] + tail), ObjectDoc("", [first] + tail);
    MembersUnfold(d, 0, rest);
    MembersUnfold(e, 0, rest);
    MembersShift(m, tail, 0, rest);
    MembersShift(first, tail, 0, rest);
    SameAfterMember(d, e, rest);
    assert AfterKey(d, 0, rest) == AfterKey(e, 0, rest);
    assert (gap + first.before) + Quote(first.key, AfterKey(e, 0, rest))
        == gap + (first.before + Quote(first.key, AfterKey(e, 0, rest)));
  }

  lemma SameAfterMember(d: Doc, e: Doc, rest: string)
    requires ValidDoc(d) && d.ObjectDoc? && d.members != [] && ValidDoc(e) && e.ObjectDoc? && |e.members| == |d.members|
    requires |d.members| > 1 ==> SpellMembers(d, 1, rest) == SpellMembers(e, 1, rest)
    ensures AfterMember(d, 0, rest) == AfterMember(e, 0, rest)
  {
    hide SpellMembers;
  }

  lemma {:induction false} MembersSpelled(s: string) returns (members: seq<Member>)
    requires ReadMembers(s).ReadFields?
    ensures members != [] && ValidDoc(ObjectDoc("", members))
    ensures s == SpellMembers(ObjectDoc("", members), 0, ReadMembers(s).rest)
    ensures MembersFrom(ObjectDoc("", members), 0) == ReadMembers(s).fields
    decreases |s|, 2
  {
    hide ReadValue, ReadBody, Spell, Quote, SpellMembers, FormText, Meaning, FormChars;
    var before := Skipped(s);
    var k := Skip(s);
    var forms := BodySpelled(k[1..]);
    var b := ReadBody(k[1..]);
    var gap := Skipped(b.rest);
    var c := Skip(b.rest);
    var lead, value := ValueSpelled(c[1..]);
    var v := ReadValue(c[1..]);
    var after := Skipped(v.rest);
    var t := Skip(v.rest);
    var m := Member(before, forms, gap, lead, value, after);
    var rest := ReadMembers(s).rest;
    assert c == ":" + c[1..];
    KeySpelled(k, forms, b.rest);
    if t[0] == '}' {
      members := [m];
      assert t == "}" + t[1..];
      LastMember(m, rest);
    } else {
      var tail := MembersSpelled(t[1..]);
      assert t == "," + t[1..];
      members := [m] + tail;
      MembersAdd(m, tail, rest);
    }
  }

  lemma KeySpelled(k: string, forms: seq<Form>, rest: string)
    requires ValidForms(forms) && k != "" && k[0] == '"' && k[1..] == FormChars(forms, "\"" + rest)
    ensures k == Quote(forms, rest)
  {
    hide FormChars;
    assert k == "\"" + k[1..];
  }

  lemma LastMember(m: Member, rest: string)
    requires ValidMember(m)
    ensures var d := ObjectDoc("", [m]);
      && ValidDoc(d) && MembersFrom(d, 0) == map[FormText(m.key) := Meaning(m.value)]
      && SpellMembers(d, 0, rest)
         == m.before + Quote(m.key, m.gap + (":" + (m.lead + Spell(m.value, m.after + ("}" + rest)))))
  {
    MembersValid([m]);
    hide ValidDoc, Spell, Quote, Meaning, FormText;
    var d := ObjectDoc("", [m]);
    assert MembersFrom(d, 1) == map[];
  }

  lemma MembersAdd(m: Member, tail: seq<Member>, rest: string)
    requires ValidDoc(ObjectDoc("", tail)) && tail != [] && ValidMember(m)
    ensures var d := ObjectDoc("", [m] + tail);
      && ValidDoc(d)
      && MembersFrom(d, 0) == map[FormText(m.key) := Meaning(m.value)] + MembersFrom(ObjectDoc("", tail), 0)
      && SpellMembers(d, 0, rest)
         == m.before + Quote(m.key, m.gap + (":" + (m.lead + Spell(m.value, m.after
              + ("," + SpellMembers(ObjectDoc("", tail), 0, rest))))))
  {
    var d := ObjectDoc("", [m] + tail);
    forall i | 0 <= i < |d.members| ensures ValidMember(d.members[i]) {
      if i > 0 { assert d.members[i] == tail[i - 1]; }
    }
    MembersValid(d.members);
    hide ValidDoc, Spell, Quote, Meaning, FormText;
    MembersShift(m, tail, 0, rest);
  }

  /** A text decodes to a value if and only if it spells that value. */
  lemma DecodesExactly(s: string, v: Value)
    ensures Decode(s) == Decoded(v) <==> Spells(s, v)
  {
    hide ReadValue, Spell, Meaning, ValidDoc, Skip;
    if Spells(s, v) { SpelledDecodes(s, v); }
    if Decode(s) == Decoded(v) {
      var lead, d := ValueSpelled(s);
      var trail := Skipped(ReadValue(s).rest);
      assert trail + "" == trail;
      assert SpellsAs(s, v, d, lead, trail);
    }
  }

  // The order of members

  /** Keys and values of the members, in their order. */
  function Pairs(d: Doc): seq<(string, Value)>
    requires ValidDoc(d) && d.ObjectDoc?
  {
    seq(|d.members|, i requires 0 <= i < |d.members| => (FormText(d.members[i].key), Meaning(d.members[i].value)))
  }

  function Entries(ps: seq<(string, Value)>): map<string, Value> {
    if ps == [] then map[] else Entries(ps[..|ps| - 1])[ps[|ps| - 1].0 := ps[|ps| - 1].1]
  }

  predicate DistinctKeys(ps: seq<(string, Value)>) { forall i, j :: 0 <= i < j < |ps| ==> ps[i].0 != ps[j].0 }

  lemma {:induction false} MeansPairs(d: Doc, n: nat)
    requires ValidDoc(d) && d.ObjectDoc? && n <= |d.members|
    ensures MemberMeanings(d, n) == Entries(Pairs(d)[..n])
    decreases n
  {
    hide FormText, Meaning;
    if n == 0 {
      assert Pairs(d)[..0] == [];
    } else {
      MeansPairs(d, n - 1);
      assert Pairs(d)[..n][..n - 1] == Pairs(d)[..n - 1];
    }
  }

  /** With distinct keys the entries are exactly the members. */
  lemma {:induction false} EntriesAre(ps: seq<(string, Value)>, k: string, x: Value)
    requires DistinctKeys(ps)
    ensures (k in Entries(ps) && Entries(ps)[k] == x) <==> (k, x) in ps
  {
    if ps == [] {
    } else {
      var n, last := |ps| - 1, ps[|ps| - 1];
      assert DistinctKeys(ps[..n]);
      EntriesAre(ps[..n], k, x);
      assert ps == ps[..n] + [last];
      assert k == last.0 ==> (k, x) !in ps[..n];
    }
  }

  lemma SameEntries(ps: seq<(string, Value)>, qs: seq<(string, Value)>)
    requires DistinctKeys(ps) && DistinctKeys(qs) && forall p :: p in ps <==> p in qs
    ensures Entries(ps) == Entries(qs)
  {
    hide DistinctKeys;
    var m, w := Entries(ps), Entries(qs);
    forall k ensures k in m <==> k in w {
      if k in m { EntriesAre(ps, k, m[k]); EntriesAre(qs, k, m[k]); }
      if k in w { EntriesAre(ps, k, w[k]); EntriesAre(qs, k, w[k]); }
    }
    forall k | k in m ensures m[k] == w[k] {
      EntriesAre(ps, k, m[k]);
      EntriesAre(qs, k, m[k]);
    }
  }

  /** Objects with the same members, in any order and however written, mean the same. */
  lemma AnyOrder(d: Doc, e: Doc)
    requires ValidDoc(d) && d.ObjectDoc? && ValidDoc(e) && e.ObjectDoc?
    requires DistinctKeys(Pairs(d)) && DistinctKeys(Pairs(e)) && forall p :: p in Pairs(d) <==> p in Pairs(e)
    ensures Meaning(d) == Meaning(e)
  {
    hide DistinctKeys, Entries, FormText;
    MeansPairs(d, |d.members|);
    MeansPairs(e, |e.members|);
    assert Pairs(d)[..|d.members|] == Pairs(d) && Pairs(e)[..|e.members|] == Pairs(e);
    SameEntries(Pairs(d), Pairs(e));
  }
}
