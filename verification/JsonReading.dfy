/**
 Every text of the grammar decodes to the value it spells
 (internal/queue/store.go:121-124, 150-156).
 */
module JsonReading {
  import opened Json
  import opened JsonGrammar

  // White space

  lemma {:induction false} SkipSpaces(ws: string, rest: string)
    requires Spaces(ws) && (rest == "" || !IsSpace(rest[0]))
    ensures Skip(ws + rest) == rest
  {
    if ws == "" {
      assert ws + rest == rest;
    } else {
      assert (ws + rest)[1..] == ws[1..] + rest;
      SkipSpaces(ws[1..], rest);
    }
  }

  /** What the reader skips is white space. */
  lemma {:induction false} Skipped(s: string) returns (ws: string)
    ensures Spaces(ws) && s == ws + Skip(s) && (Skip(s) == "" || !IsSpace(Skip(s)[0]))
  {
    if s != "" && IsSpace(s[0]) {
      var tail := Skipped(s[1..]);
      ws := [s[0]] + tail;
    } else {
      ws := "";
    }
  }

  // Characters

  lemma DigitValue(h: HexDigit)
    requires h.Valid()
    ensures HexValue(h.Char()) == h.n
  {
  }

  lemma HexRead(h: Hex, rest: string)
    requires h.Valid()
    ensures Hex4(h.Chars() + rest) == h.Code() && h.Code() < 0x10000
  {
    DigitValue(h.a);
    DigitValue(h.b);
    DigitValue(h.c);
    DigitValue(h.d);
    hide HexDigit.Char, HexValue;
    var s := h.Chars() + rest;
    assert s[0] == h.a.Char() && s[1] == h.b.Char() && s[2] == h.c.Char() && s[3] == h.d.Char();
  }

  /** Half a pair is not followed by its other half. */
  ghost predicate Apart(f: Form, rest: string) {
    f.High() ==> !(|rest| >= 6 && rest[0] == '\\' && rest[1] == 'u' && 0xDC00 <= Hex4(rest[2..]) < 0xE000)
  }

  lemma CodeStart(h: Hex, rest: string)
    requires h.Valid()
    ensures var s := ("\\u" + h.Chars()) + rest;
      |s| >= 6 && s[0] == '\\' && s[1] == 'u' && Hex4(s[2..]) == h.Code() < 0x10000 && s[6..] == rest
  {
    HexRead(h, rest);
    hide Hex4, Hex.Code;
    var s := ("\\u" + h.Chars()) + rest;
    assert s[2..] == h.Chars() + rest;
  }

  lemma UnicodeRead(h: Hex, rest: string)
    requires h.Valid() && !(0xD800 <= h.Code() < 0xE000)
    ensures ReadUnit(("\\u" + h.Chars()) + rest) == Unit(h.Code() as char, 6)
  {
    hide Hex4, Hex.Chars, Hex.Code;
    CodeStart(h, rest);
  }

  lemma PairRead(of: char, high: Hex, low: Hex, rest: string)
    requires Pair(of, high, low).Valid()
    ensures ReadUnit(Pair(of, high, low).Chars() + rest) == Unit(of, 12)
  {
    PairValue(of, high.Code(), low.Code());
    hide Hex4, Hex.Chars, Hex.Code;
    var tail := ("\\u" + low.Chars()) + rest;
    var s := ("\\u" + high.Chars()) + tail;
    assert Pair(of, high, low).Chars() + rest == s;
    CodeStart(high, tail);
    CodeStart(low, rest);
    assert s[6..] == tail && s[8..] == tail[2..] && s[6] == tail[0] && s[7] == tail[1];
  }

  lemma PairValue(of: char, v: int, w: int)
    requires of as int >= 0x10000
    requires v == 0xD800 + (of as int - 0x10000) / 0x400 && w == 0xDC00 + (of as int - 0x10000) % 0x400
    ensures 0xD800 <= v < 0xDC00 <= w < 0xE000 && 0x10000 + (v - 0xD800) * 0x400 + (w - 0xDC00) == of as int
  {
  }

  lemma LoneRead(h: Hex, rest: string)
    requires Lone(h).Valid() && Apart(Lone(h), rest)
    ensures ReadUnit(Lone(h).Chars() + rest) == Unit('\U{FFFD}', 6)
  {
    var s := ("\\u" + h.Chars()) + rest;
    CodeStart(h, rest);
    hide Hex4, Hex.Chars, Hex.Code;
    if |s| >= 12 { assert s[8..] == rest[2..] && s[6] == rest[0] && s[7] == rest[1]; }
  }

  lemma FormRead(f: Form, rest: string)
    requires f.Valid() && Apart(f, rest)
    ensures ReadUnit(f.Chars() + rest) == Unit(f.Means(), |f.Chars()|) && f.Chars()[0] != '"'
  {
    match f
    case Literal(_) =>
    case Short(_) =>
    case Escaped(hex) => UnicodeRead(hex, rest);
    case Pair(of, high, low) => PairRead(of, high, low, rest);
    case Lone(hex) => LoneRead(hex, rest);
  }

  /** The forms that follow do not complete a half, and neither does the closing quote. */
  lemma FormsApart(forms: seq<Form>, rest: string)
    requires ValidForms(forms) && forms != []
    ensures ValidForms(forms[1..]) && Apart(forms[0], FormChars(forms[1..], "\"" + rest))
  {
    var tail := forms[1..];
    forall i | 0 <= i < |tail| ensures tail[i] == forms[i + 1] {}
    if forms[0].High() {
      if tail != [] {
        NotLow(forms[1], FormChars(tail[1..], "\"" + rest));
      }
    }
  }

  lemma NotLow(f: Form, rest: string)
    requires f.Valid() && !f.Low()
    ensures var s := f.Chars() + rest; !(|s| >= 6 && s[0] == '\\' && s[1] == 'u' && 0xDC00 <= Hex4(s[2..]) < 0xE000)
  {
    hide Hex4, Hex.Chars, Hex.Code;
    match f
    case Literal(_) =>
    case Short(_) =>
    case Escaped(hex) => CodeStart(hex, rest);
    case Pair(of, high, low) => PairNotLow(of, high, low, rest);
    case Lone(hex) => CodeStart(hex, rest);
  }

  lemma PairNotLow(of: char, high: Hex, low: Hex, rest: string)
    requires Pair(of, high, low).Valid()
    ensures var s := Pair(of, high, low).Chars() + rest; |s| >= 6 && Hex4(s[2..]) < 0xDC00
  {
    HighIsHigh(of, high, low);
    hide Hex4, Hex.Chars, Hex.Code;
    var tail := ("\\u" + low.Chars()) + rest;
    assert Pair(of, high, low).Chars() + rest == ("\\u" + high.Chars()) + tail;
    CodeStart(high, tail);
  }

  lemma HighIsHigh(of: char, high: Hex, low: Hex)
    requires Pair(of, high, low).Valid()
    ensures high.Code() < 0xDC00
  {
    PairValue(of, high.Code(), low.Code());
  }

  lemma {:induction false} FormsRead(forms: seq<Form>, rest: string)
    requires ValidForms(forms)
    ensures ReadBody(FormChars(forms, "\"" + rest)) == ReadText(FormText(forms), rest)
    decreases |forms|
  {
    if forms == [] {
      assert ("\"" + rest)[1..] == rest;
    } else {
      var tail := FormChars(forms[1..], "\"" + rest);
      FormsApart(forms, rest);
      FormRead(forms[0], tail);
      FormsRead(forms[1..], rest);
      hide ReadUnit, Form.Chars, Form.Means;
      assert (forms[0].Chars() + tail)[|forms[0].Chars()|..] == tail;
    }
  }

  // Numbers

  lemma {:induction false} DigitsRead(ds: string, rest: string)
    requires (forall i :: 0 <= i < |ds| ==> '0' <= ds[i] <= '9') && (rest == "" || !IsDigit(rest[0]))
    ensures Digits(ds + rest) == |ds|
  {
    if ds == "" {
      assert ds + rest == rest;
    } else {
      assert (ds + rest)[1..] == ds[1..] + rest;
      DigitsRead(ds[1..], rest);
    }
  }

  /** What may follow a number. */
  predicate Ends(rest: string) {
    rest == "" || (!IsDigit(rest[0]) && rest[0] != '.' && rest[0] != 'e' && rest[0] != 'E')
  }

  lemma WholeRead(n: NumberForm, rest: string)
    requires n.Valid() && (rest == "" || !IsDigit(rest[0]))
    ensures IntegerLength(n.whole + rest) == |n.whole|
  {
    if n.whole[0] != '0' {
      DigitsRead(n.whole, rest);
    }
  }

  lemma FractionRead(n: NumberForm, rest: string)
    requires n.Valid() && (rest == "" || (!IsDigit(rest[0]) && rest[0] != '.'))
    ensures FractionLength(n.FractionChars() + rest) == |n.FractionChars()|
  {
    if n.fraction.Some? {
      var s := n.FractionChars() + rest;
      assert s[1..] == n.fraction.value + rest;
      DigitsRead(n.fraction.value, rest);
    } else {
      assert "" + rest == rest;
    }
  }

  lemma ExponentRead(n: NumberForm, rest: string)
    requires n.Valid() && Ends(rest)
    ensures ExponentLength(n.ExponentChars() + rest) == |n.ExponentChars()|
  {
    if n.exponent.Some? {
      var x := n.exponent.value;
      var s := n.ExponentChars() + rest;
      DigitsRead(x.digits, rest);
      if x.sign == "" {
        assert s[1..] == x.digits + rest && s[1] == x.digits[0];
      } else {
        assert s[2..] == x.digits + rest && s[1] == x.sign[0];
      }
    } else {
      assert "" + rest == rest;
    }
  }

  lemma NumberPieces(sign: string, whole: string, f: string, e: string, rest: string)
    ensures var s := (sign + (whole + (f + e))) + rest;
      && s[|sign|..] == whole + (f + (e + rest)) && s[|sign| + |whole|..] == f + (e + rest)
      && s[|sign| + |whole| + |f|..] == e + rest
  {
    assert (sign + (whole + (f + e))) + rest == sign + (whole + (f + (e + rest)));
  }

  lemma FractionStarts(n: NumberForm, rest: string)
    requires n.Valid() && (rest == "" || !IsDigit(rest[0]))
    ensures var s := n.FractionChars() + rest; s == "" || !IsDigit(s[0])
  {
  }

  lemma ExponentStarts(n: NumberForm, rest: string)
    requires n.Valid() && Ends(rest)
    ensures var s := n.ExponentChars() + rest; s == "" || (!IsDigit(s[0]) && s[0] != '.')
  {
  }

  lemma NumberLengthIs(s: string, sign: nat, i: nat, f: nat, e: nat)
    requires s != "" && sign == (if s[0] == '-' then 1 else 0) && sign + i + f <= |s|
    requires IntegerLength(s[sign..]) == i > 0 && FractionLength(s[sign + i..]) == f
    requires ExponentLength(s[sign + i + f..]) == e
    ensures NumberLength(s) == sign + i + f + e
  {
    hide IntegerLength, FractionLength, ExponentLength;
  }

  lemma NumberRead(n: NumberForm, rest: string)
    requires n.Valid() && Ends(rest)
    ensures NumberLength(n.Chars() + rest) == |n.Chars()|
    ensures n.Chars()[0] == '-' || IsDigit(n.Chars()[0])
  {
    hide IntegerLength, FractionLength, ExponentLength, NumberLength;
    hide NumberForm.FractionChars, NumberForm.ExponentChars;
    var f, e := n.FractionChars(), n.ExponentChars();
    var sign := if n.minus then "-" else "";
    ExponentStarts(n, rest);
    FractionStarts(n, e + rest);
    WholeRead(n, f + (e + rest));
    FractionRead(n, e + rest);
    ExponentRead(n, rest);
    NumberPieces(sign, n.whole, f, e, rest);
    var s := n.Chars() + rest;
    assert s[0] == if n.minus then '-' else n.whole[0];
    NumberLengthIs(s, |sign|, |n.whole|, |f|, |e|);
  }

  // Values

  lemma EndsAfter(ws: string, rest: string)
    requires Spaces(ws) && (rest == "" || rest[0] == ',' || rest[0] == ']' || rest[0] == '}' || Ends(rest))
    ensures Ends(ws + rest)
  {
    if ws == "" { assert ws + rest == rest; }
  }

  /** A document starts with a character that is neither white space nor a closing bracket. */
  lemma DocStarts(d: Doc, rest: string)
    requires ValidDoc(d)
    ensures var s := Spell(d, rest); s != "" && !IsSpace(s[0]) && s[0] != ']' && s[0] != '}'
  {
    if d.NumberDoc? {
      var n := d.number;
      assert n.whole[0] != ' ';
    }
  }

  lemma QuoteReads(forms: seq<Form>, rest: string)
    requires ValidForms(forms)
    ensures var s := Quote(forms, rest);
      s != "" && s[0] == '"' && ReadBody(s[1..]) == ReadText(FormText(forms), rest)
  {
    hide ReadBody, FormChars, FormText;
    FormsRead(forms, rest);
    assert Quote(forms, rest)[1..] == FormChars(forms, "\"" + rest);
  }

  lemma WordReads(word: string, rest: string)
    requires word == "null" || word == "true" || word == "false"
    ensures ReadValue(word + rest) == Read(if word == "null" then Null else Bool(word == "true"), rest)
  {
    var t := word + rest;
    assert Skip(t) == t && word <= t && t[|word|..] == rest;
  }

  /** White space in front of a value is skipped. */
  lemma ReadSkips(ws: string, t: string)
    requires Spaces(ws) && t != "" && !IsSpace(t[0])
    ensures ReadValue(ws + t) == ReadValue(t)
  {
    hide ReadBody, ReadElements, ReadMembers, NumberLength;
    SkipSpaces(ws, t);
    assert Skip(t) == t;
  }

  lemma NumberReads(n: NumberForm, rest: string)
    requires n.Valid() && Ends(rest)
    ensures ReadValue(n.Chars() + rest) == Read(Number(n.Chars()), rest)
  {
    var s := n.Chars() + rest;
    NumberRead(n, rest);
    hide NumberLength, ReadBody, ReadElements, ReadMembers;
    assert s[0] == n.Chars()[0] && Skip(s) == s;
    assert s[..|n.Chars()|] == n.Chars() && s[|n.Chars()|..] == rest;
    NotAWord(s);
  }

  lemma NotAWord(s: string)
    requires s != "" && (s[0] == '-' || IsDigit(s[0]))
    ensures !("null" <= s) && !("true" <= s) && !("false" <= s)
  {
    assert "null"[0] == 'n' && "true"[0] == 't' && "false"[0] == 'f';
  }

  lemma TextReads(forms: seq<Form>, rest: string)
    requires ValidForms(forms)
    ensures ReadValue(Quote(forms, rest)) == Read(Text(FormText(forms)), rest)
  {
    hide ReadBody, FormText, Quote;
    QuoteReads(forms, rest);
    assert Skip(Quote(forms, rest)) == Quote(forms, rest);
  }

  lemma ArrayReads(u: string, xs: seq<Value>, rest: string)
    requires Skip(u) != ""
    requires if Skip(u)[0] == ']' then xs == [] && rest == Skip(u)[1..]
             else ReadElements(Skip(u)) == ReadItems(xs, rest)
    ensures ReadValue("[" + u) == Read(Array(xs), rest)
  {
    hide ReadElements;
    assert ("[" + u)[1..] == u && Skip("[" + u) == "[" + u;
  }

  lemma ObjectReads(u: string, m: map<string, Value>, rest: string)
    requires Skip(u) != ""
    requires if Skip(u)[0] == '}' then m == map[] && rest == Skip(u)[1..]
             else ReadMembers(Skip(u)) == ReadFields(m, rest)
    ensures ReadValue("{" + u) == Read(Object(m), rest)
  {
    hide ReadMembers;
    assert ("{" + u)[1..] == u && Skip("{" + u) == "{" + u;
  }

  /** One element and what comes after it. */
  lemma ElementReads(s: string, x: Value, after: string, t: string, xs: seq<Value>, rest: string)
    requires ReadValue(s) == Read(x, after) && t == Skip(after) && t != "" && (t[0] == ']' || t[0] == ',')
    requires if t[0] == ']' then xs == [] && rest == t[1..] else ReadElements(t[1..]) == ReadItems(xs, rest)
    ensures ReadElements(s) == ReadItems([x] + xs, rest)
  {
    hide ReadValue;
  }

  lemma MemberReads(s: string, k: string, colon: string, x: Value, after: string, t: string, m: map<string, Value>,
                    rest: string)
    requires var q := Skip(s); q != "" && q[0] == '"' && ReadBody(q[1..]) == ReadText(k, colon)
    requires var c := Skip(colon); c != "" && c[0] == ':' && ReadValue(c[1..]) == Read(x, after)
    requires t == Skip(after) && t != "" && (t[0] == '}' || t[0] == ',')
    requires if t[0] == '}' then m == map[] && rest == t[1..] else ReadMembers(t[1..]) == ReadFields(m, rest)
    ensures ReadMembers(s) == ReadFields(map[k := x] + m, rest)
  {
    hide ReadValue, ReadBody, Skip;
    assert map[k := x] + map[] == map[k := x];
  }

  /** White space before the elements does not matter. */
  lemma ElementsSkip(ws: string, t: string)
    requires Spaces(ws) && t != "" && !IsSpace(t[0])
    ensures ReadElements(ws + t) == ReadElements(t)
  {
    hide ReadValue;
    ReadSkips(ws, t);
  }

  lemma MembersSkip(ws: string, t: string)
    requires Spaces(ws) && t != "" && !IsSpace(t[0])
    ensures ReadMembers(ws + t) == ReadMembers(t)
  {
    hide ReadValue, ReadBody;
    SkipSpaces(ws, t);
    assert Skip(t) == t;
  }

  /** The meanings of the elements from `i` on. */
  function ItemsFrom(d: Doc, i: nat): seq<Value>
    requires ValidDoc(d) && d.ArrayDoc? && i <= |d.items|
    decreases |d.items| - i
  {
    if i == |d.items| then [] else [Meaning(d.items[i].value)] + ItemsFrom(d, i + 1)
  }

  function MembersFrom(d: Doc, i: nat): map<string, Value>
    requires ValidDoc(d) && d.ObjectDoc? && i <= |d.members|
    decreases |d.members| - i
  {
    if i == |d.members| then map[]
    else map[FormText(d.members[i].key) := Meaning(d.members[i].value)] + MembersFrom(d, i + 1)
  }

  lemma {:induction false} ItemsJoin(d: Doc, i: nat)
    requires ValidDoc(d) && d.ArrayDoc? && i <= |d.items|
    ensures ItemMeanings(d, i) + ItemsFrom(d, i) == ItemMeanings(d, |d.items|)
    decreases |d.items| - i
  {
    hide Meaning, ValidDoc;
    if i == |d.items| {
    } else {
      ItemsJoin(d, i + 1);
    }
  }

  lemma {:induction false} MembersJoin(d: Doc, i: nat)
    requires ValidDoc(d) && d.ObjectDoc? && i <= |d.members|
    ensures MemberMeanings(d, i) + MembersFrom(d, i) == MemberMeanings(d, |d.members|)
    decreases |d.members| - i
  {
    hide Meaning, FormText;
    if i == |d.members| {
    } else {
      MembersJoin(d, i + 1);
      MergeOne(MemberMeanings(d, i), FormText(d.members[i].key), Meaning(d.members[i].value), MembersFrom(d, i + 1));
    }
  }

  lemma MergeOne(a: map<string, Value>, k: string, x: Value, m: map<string, Value>)
    ensures a + (map[k := x] + m) == a[k := x] + m
  {
  }

  /** Reading a document gives its meaning and leaves what follows. */
  lemma {:induction false} DocReads(d: Doc, rest: string)
    requires ValidDoc(d) && Ends(rest)
    ensures ReadValue(Spell(d, rest)) == Read(Meaning(d), rest)
    decreases d, Parts(d) + 1
  {
    hide ReadValue, ReadElements, ReadMembers, Quote;
    match d
    case NullDoc => WordReads("null", rest);
    case BoolDoc(b) => WordReads(if b then "true" else "false", rest);
    case NumberDoc(number) => NumberReads(number, rest);
    case TextDoc(forms) => TextReads(forms, rest);
    case ArrayDoc(gap, items) => ArrayDocReads(d, rest);
    case ObjectDoc(gap, members) => ObjectDocReads(d, rest);
  }

  lemma {:induction false} ArrayDocReads(d: Doc, rest: string)
    requires ValidDoc(d) && d.ArrayDoc? && Ends(rest)
    ensures ReadValue(Spell(d, rest)) == Read(Meaning(d), rest)
    decreases d, Parts(d), 1
  {
    hide ReadValue, ReadElements;
    if d.items == [] {
      SkipSpaces(d.gap, "]" + rest);
      assert ("]" + rest)[1..] == rest;
      ArrayReads(d.gap + ("]" + rest), [], rest);
    } else {
      var u := SpellItems(d, 0, rest);
      ItemsRead(d, 0, rest);
      ItemsJoin(d, 0);
      assert [] + ItemsFrom(d, 0) == ItemsFrom(d, 0);
      ItemsStart(d, 0, rest);
      ArrayReads(u, ItemsFrom(d, 0), rest);
    }
  }

  /** The elements start with white space and the first of them. */
  lemma ItemsStart(d: Doc, i: nat, rest: string)
    requires ValidDoc(d) && d.ArrayDoc? && i < |d.items|
    ensures var u := SpellItems(d, i, rest);
      Skip(u) != "" && Skip(u)[0] != ']' && ReadElements(Skip(u)) == ReadElements(u)
  {
    hide Spell, ReadElements;
    var item := d.items[i];
    var tail := if i == |d.items| - 1 then "]" + rest else "," + SpellItems(d, i + 1, rest);
    var value := Spell(item.value, item.after + tail);
    DocStarts(item.value, item.after + (if i == |d.items| - 1 then "]" + rest else "," + SpellItems(d, i + 1, rest)));
    SkipSpaces(item.before, value);
    ElementsSkip(item.before, value);
  }

  lemma {:induction false} ItemsRead(d: Doc, i: nat, rest: string)
    requires ValidDoc(d) && d.ArrayDoc? && i < |d.items| && Ends(rest)
    ensures ReadElements(SpellItems(d, i, rest)) == ReadItems(ItemsFrom(d, i), rest)
    decreases d, |d.items| - i, 0
  {
    hide ReadValue, ReadElements, Spell, Meaning;
    var item := d.items[i];
    var tail := if i == |d.items| - 1 then "]" + rest else "," + SpellItems(d, i + 1, rest);
    var value := Spell(item.value, item.after + tail);
    EndsAfter(item.after, tail);
    DocReads(item.value, item.after + tail);
    DocStarts(item.value, item.after + tail);
    ReadSkips(item.before, value);
    SkipSpaces(item.after, tail);
    if i == |d.items| - 1 {
      assert tail[1..] == rest;
    } else {
      ItemsRead(d, i + 1, rest);
      assert tail[1..] == SpellItems(d, i + 1, rest);
    }
    ElementReads(item.before + value, Meaning(item.value), item.after + tail, tail, ItemsFrom(d, i + 1), rest);
  }

  lemma {:induction false} ObjectDocReads(d: Doc, rest: string)
    requires ValidDoc(d) && d.ObjectDoc? && Ends(rest)
    ensures ReadValue(Spell(d, rest)) == Read(Meaning(d), rest)
    decreases d, Parts(d), 1
  {
    hide ReadValue, ReadMembers;
    if d.members == [] {
      SkipSpaces(d.gap, "}" + rest);
      assert ("}" + rest)[1..] == rest;
      ObjectReads(d.gap + ("}" + rest), map[], rest);
    } else {
      var u := SpellMembers(d, 0, rest);
      MembersRead(d, 0, rest);
      MembersJoin(d, 0);
      assert map[] + MembersFrom(d, 0) == MembersFrom(d, 0);
      MembersStart(d, 0, rest);
      ObjectReads(u, MembersFrom(d, 0), rest);
    }
  }

  /** What follows a key. */
  function AfterKey(d: Doc, i: nat, rest: string): string
    requires ValidDoc(d) && d.ObjectDoc? && i < |d.members|
  {
    var m := d.members[i];
    m.gap + (":" + (m.lead + Spell(m.value, m.after + AfterMember(d, i, rest))))
  }

  function AfterMember(d: Doc, i: nat, rest: string): string
    requires ValidDoc(d) && d.ObjectDoc? && i < |d.members|
  {
    if i == |d.members| - 1 then "}" + rest else "," + SpellMembers(d, i + 1, rest)
  }

  lemma MembersUnfold(d: Doc, i: nat, rest: string)
    requires ValidDoc(d) && d.ObjectDoc? && i < |d.members|
    ensures SpellMembers(d, i, rest) == d.members[i].before + Quote(d.members[i].key, AfterKey(d, i, rest))
    ensures AfterMember(d, i, rest) != "" && AfterMember(d, i, rest)[0] == (if i == |d.members| - 1 then '}' else ',')
    ensures AfterMember(d, i, rest)[1..] == if i == |d.members| - 1 then rest else SpellMembers(d, i + 1, rest)
  {
    hide Spell, Quote;
  }

  lemma MembersStart(d: Doc, i: nat, rest: string)
    requires ValidDoc(d) && d.ObjectDoc? && i < |d.members|
    ensures var u := SpellMembers(d, i, rest);
      Skip(u) != "" && Skip(u)[0] == '"' && ReadMembers(Skip(u)) == ReadMembers(u)
  {
    hide Spell, ReadMembers, AfterKey, FormChars;
    MembersUnfold(d, i, rest);
    hide SpellMembers;
    var q := Quote(d.members[i].key, AfterKey(d, i, rest));
    SkipSpaces(d.members[i].before, q);
    MembersSkip(d.members[i].before, q);
  }

  lemma {:induction false} MembersRead(d: Doc, i: nat, rest: string)
    requires ValidDoc(d) && d.ObjectDoc? && i < |d.members| && Ends(rest)
    ensures ReadMembers(SpellMembers(d, i, rest)) == ReadFields(MembersFrom(d, i), rest)
    decreases d, |d.members| - i, 0
  {
    hide ReadValue, ReadMembers, ReadBody, Spell, Meaning, SpellMembers, Quote, AfterMember, FormText;
    var m := d.members[i];
    var tail := AfterMember(d, i, rest);
    var value := Spell(m.value, m.after + tail);
    MembersUnfold(d, i, rest);
    MembersStart(d, i, rest);
    QuoteReads(m.key, AfterKey(d, i, rest));
    SkipSpaces(m.before, Quote(m.key, AfterKey(d, i, rest)));
    SkipSpaces(m.gap, ":" + (m.lead + value));
    assert (":" + (m.lead + value))[1..] == m.lead + value;
    EndsAfter(m.after, tail);
    DocReads(m.value, m.after + tail);
    DocStarts(m.value, m.after + tail);
    ReadSkips(m.lead, value);
    SkipSpaces(m.after, tail);
    if i < |d.members| - 1 { MembersRead(d, i + 1, rest); }
    MemberReads(SpellMembers(d, i, rest), FormText(m.key), AfterKey(d, i, rest), Meaning(m.value), m.after + tail,
                tail, MembersFrom(d, i + 1), rest);
  }

  /** Every text that spells a value decodes to it. */
  lemma SpelledDecodes(s: string, v: Value)
    requires Spells(s, v)
    ensures Decode(s) == Decoded(v)
  {
    hide ReadValue, Spell, Meaning, ValidDoc;
    var d, lead, trail :| SpellsAs(s, v, d, lead, trail);
    EndsAfter(trail, "");
    assert trail + "" == trail;
    DocStarts(d, trail);
    ReadSkips(lead, Spell(d, trail));
    DocReads(d, trail);
    SkipSpaces(trail, "");
  }
}
