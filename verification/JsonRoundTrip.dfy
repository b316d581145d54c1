/**
 Reading back what was printed: the canonical text of a value decodes to that
 value, so two inputs get one canonical text exactly when they decode to equal
 trees (internal/queue/store.go:150-156).
 */
module JsonRoundTrip {
  import opened Strings
  import opened Json

  /** Values whose numbers are spelled as JSON numbers: all that the decoder makes. */
  predicate WellFormed(v: Value)
    decreases v
  {
    match v
    case Number(text) => ValidNumber(text)
    case Array(items) => forall i :: 0 <= i < |items| ==> WellFormed(items[i])
    case Object(fields) => forall k :: k in fields ==> WellFormed(fields[k])
    case _ => true
  }

  /** What may follow a value inside printed text. */
  predicate Stops(rest: string) {
    rest == "" || rest[0] == ',' || rest[0] == ']' || rest[0] == '}'
  }

  // Strings

  lemma HexRoundTrip(n: nat)
    requires n < 16
    ensures HexValue(HexChar(n)) == n
  {
    var c := HexChar(n);
    if n < 10 { assert "0123456789"[n] == c; }
  }

  lemma ReadShort(c: char, e: char, rest: string)
    requires e != 'u' && ShortEscape(e) == [c]
    ensures ReadUnit(['\\', e] + rest) == Unit(c, 2)
  {
  }

  lemma ReadHex(a: char, b: char, c: char, d: char, rest: string)
    requires HexValue(a) >= 0 && HexValue(b) >= 0 && HexValue(c) >= 0 && HexValue(d) >= 0
    requires ((HexValue(a) * 16 + HexValue(b)) * 16 + HexValue(c)) * 16 + HexValue(d) < 0xD800
    ensures ReadUnit(['\\', 'u', a, b, c, d] + rest)
         == Unit((((HexValue(a) * 16 + HexValue(b)) * 16 + HexValue(c)) * 16 + HexValue(d)) as char, 6)
  {
    var s := ['\\', 'u', a, b, c, d] + rest;
    assert s[2..][0] == a && s[2..][1] == b && s[2..][2] == c && s[2..][3] == d;
  }

  /** Whatever Escape writes for a character is read back as that character, whole. */
  lemma EscapeRoundTrip(c: char, rest: string)
    ensures ReadUnit(Escape(c) + rest) == Unit(c, |Escape(c)|)
    ensures Escape(c)[0] != '"'
  {
    hide ReadUnit, HexChar, HexValue;
    var e := Escape(c);
    if c == '"' || c == '\\' || c == '\U{8}' || c == '\U{C}' || c == '\n' || c == '\r' || c == '\t' {
      assert e == ['\\', e[1]];
      ReadShort(c, e[1], rest);
    } else if c < ' ' || c == '<' || c == '>' || c == '&' {
      var hi, lo := c as int / 16, c as int % 16;
      HexRoundTrip(hi);
      HexRoundTrip(lo);
      assert e == ['\\', 'u', '0', '0', HexChar(hi), HexChar(lo)];
      DigitValues();
      ReadHex('0', '0', HexChar(hi), HexChar(lo), rest);
      assert (((0 * 16 + 0) * 16 + hi) * 16 + lo) as char == c;
    } else if c == '\U{2028}' {
      assert e == ['\\', 'u', '2', '0', '2', '8'];
      DigitValues();
      ReadHex('2', '0', '2', '8', rest);
    } else if c == '\U{2029}' {
      assert e == ['\\', 'u', '2', '0', '2', '9'];
      DigitValues();
      ReadHex('2', '0', '2', '9', rest);
    } else {
      ReadPlain(c, rest);
    }
  }

  lemma DigitValues()
    ensures HexValue('0') == 0 && HexValue('2') == 2 && HexValue('8') == 8 && HexValue('9') == 9
  {
  }

  lemma ReadPlain(c: char, rest: string)
    requires c != '\\' && c >= ' ' && c != '"'
    ensures ReadUnit([c] + rest) == Unit(c, 1)
  {
  }

  lemma {:induction false} BodyRoundTrip(s: string, rest: string)
    ensures ReadBody(EscapeAll(s, "\"" + rest)) == ReadText(s, rest)
    decreases |s|
  {
    if s == "" {
      assert ("\"" + rest)[1..] == rest;
    } else {
      var tail := EscapeAll(s[1..], "\"" + rest);
      EscapeRoundTrip(s[0], tail);
      BodyRoundTrip(s[1..], rest);
      assert (Escape(s[0]) + tail)[|Escape(s[0])|..] == tail;
      assert s == [s[0]] + s[1..];
    }
  }

  // Numbers

  lemma {:induction false} DigitsExtend(s: string, rest: string)
    requires rest == "" || !IsDigit(rest[0])
    ensures Digits(s + rest) == Digits(s)
    decreases |s|
  {
    if s == "" {
      assert s + rest == rest;
    } else {
      assert (s + rest)[1..] == s[1..] + rest;
      DigitsExtend(s[1..], rest);
    }
  }

  lemma FractionExtend(s: string, rest: string)
    requires Stops(rest)
    ensures FractionLength(s + rest) == FractionLength(s)
  {
    hide Digits;
    if s == "" {
      assert s + rest == rest;
    } else {
      assert (s + rest)[1..] == s[1..] + rest;
      DigitsExtend(s[1..], rest);
    }
  }

  lemma ExponentExtend(s: string, rest: string)
    requires Stops(rest)
    ensures ExponentLength(s + rest) == ExponentLength(s)
  {
    hide Digits;
    if s == "" {
      assert s + rest == rest;
    } else {
      assert (s + rest)[1..] == s[1..] + rest;
      DigitsExtend(s[1..], rest);
      if |s| > 1 {
        assert (s + rest)[2..] == s[2..] + rest;
        DigitsExtend(s[2..], rest);
      } else if rest != "" {
        assert (s + rest)[1] == rest[0];
      }
    }
  }

  lemma PartsExtend(s: string, rest: string)
    requires Stops(rest)
    ensures IntegerLength(s + rest) == IntegerLength(s)
    ensures FractionLength(s + rest) == FractionLength(s)
    ensures ExponentLength(s + rest) == ExponentLength(s)
  {
    DigitsExtend(s, rest);
    FractionExtend(s, rest);
    ExponentExtend(s, rest);
    if s == "" { assert s + rest == rest; }
  }

  lemma NumberExtend(s: string, rest: string)
    requires Stops(rest)
    ensures NumberLength(s + rest) == NumberLength(s)
  {
    hide IntegerLength, FractionLength, ExponentLength;
    var sign := if s != "" && s[0] == '-' then 1 else 0;
    if s == "" {
      assert s + rest == rest;
      PartsExtend("", rest);
      assert "" + rest == rest;
      if rest != "" { assert rest[0..] == rest; }
    } else {
      assert (s + rest)[sign..] == s[sign..] + rest;
      PartsExtend(s[sign..], rest);
      var i := IntegerLength(s[sign..]);
      assert (s + rest)[sign + i..] == s[sign + i..] + rest;
      PartsExtend(s[sign + i..], rest);
      var f := FractionLength(s[sign + i..]);
      assert (s + rest)[sign + i + f..] == s[sign + i + f..] + rest;
      PartsExtend(s[sign + i + f..], rest);
    }
  }

  lemma NumberStarts(s: string)
    requires NumberLength(s) > 0
    ensures s[0] == '-' || IsDigit(s[0])
  {
  }

  lemma ReadNumber(t: string)
    requires NumberLength(t) > 0
    ensures ReadValue(t) == Read(Number(t[..NumberLength(t)]), t[NumberLength(t)..])
  {
    NumberStarts(t);
    hide NumberLength, ReadBody, ReadElements, ReadMembers;
    assert Skip(t) == t;
    assert !("null" <= t) && !("true" <= t) && !("false" <= t) by { FirstLetters(t); }
  }

  lemma FirstLetters(t: string)
    requires t != "" && (t[0] == '-' || IsDigit(t[0]))
    ensures !("null" <= t) && !("true" <= t) && !("false" <= t)
  {
    assert "null"[0] == 'n' && "true"[0] == 't' && "false"[0] == 'f';
  }

  lemma NumberRoundTrip(s: string, rest: string)
    requires ValidNumber(s) && Stops(rest)
    ensures ReadValue(s + rest) == Read(Number(s), rest)
  {
    NumberExtend(s, rest);
    ReadNumber(s + rest);
    assert (s + rest)[..|s|] == s && (s + rest)[|s|..] == rest;
  }

  // Values

  /** Printed values start with a character that is neither white space nor a closing bracket. */
  lemma PrintStarts(v: Value, rest: string)
    requires WellFormed(v)
    ensures Print(v, rest) != ""
    ensures !IsSpace(Print(v, rest)[0]) && Print(v, rest)[0] != ']' && Print(v, rest)[0] != '}'
  {
    if v.Number? { NumberStarts(v.text); }
  }

  lemma WordRoundTrip(word: string, rest: string)
    requires word == "null" || word == "true" || word == "false"
    ensures ReadValue(word + rest) == Read(if word == "null" then Null else Bool(word == "true"), rest)
  {
    var t := word + rest;
    assert Skip(t) == t && word <= t && t[|word|..] == rest;
  }

  lemma TextRoundTrip(s: string, rest: string)
    ensures ReadValue(PrintText(s, rest)) == Read(Text(s), rest)
  {
    BodyRoundTrip(s, rest);
    assert PrintText(s, rest)[1..] == EscapeAll(s, "\"" + rest);
  }

  lemma ReadArray(u: string, xs: seq<Value>, rest: string)
    requires u != "" && !IsSpace(u[0])
    requires u[0] == ']' ==> xs == [] && rest == u[1..]
    requires u[0] != ']' ==> ReadElements(u) == ReadItems(xs, rest)
    ensures ReadValue("[" + u) == Read(Array(xs), rest)
  {
    assert ("[" + u)[1..] == u;
    assert Skip(u) == u && Skip("[" + u) == "[" + u;
  }

  lemma ReadObject(u: string, m: map<string, Value>, rest: string)
    requires u != "" && !IsSpace(u[0])
    requires u[0] == '}' ==> m == map[] && rest == u[1..]
    requires u[0] != '}' ==> ReadMembers(u) == ReadFields(m, rest)
    ensures ReadValue("{" + u) == Read(Object(m), rest)
  {
    assert ("{" + u)[1..] == u;
    assert Skip(u) == u && Skip("{" + u) == "{" + u;
  }

  lemma ElementsStep(s: string, x: Value, after: string, xs: seq<Value>, rest: string)
    requires ReadValue(s) == Read(x, after) && after != ""
    requires after[0] == ']' || after[0] == ','
    requires after[0] == ']' ==> xs == [] && rest == after[1..]
    requires after[0] == ',' ==> ReadElements(after[1..]) == ReadItems(xs, rest)
    ensures ReadElements(s) == ReadItems([x] + xs, rest)
  {
    assert Skip(after) == after;
  }

  lemma MembersStep(k: string, colon: string, x: Value, after: string, m: map<string, Value>, rest: string)
    requires colon != "" && colon[0] == ':' && ReadValue(colon[1..]) == Read(x, after)
    requires after != "" && (after[0] == '}' || after[0] == ',')
    requires after[0] == '}' ==> m == map[] && rest == after[1..]
    requires after[0] == ',' ==> ReadMembers(after[1..]) == ReadFields(m, rest)
    ensures ReadMembers(PrintText(k, colon)) == ReadFields(map[k := x] + m, rest)
  {
    hide PrintText, ReadBody, ReadValue;
    MemberKey(k, colon);
    assert Skip(colon) == colon && Skip(after) == after;
    assert after[0] == '}' ==> map[k := x] + m == map[k := x];
  }

  lemma MemberKey(k: string, colon: string)
    ensures var s := PrintText(k, colon);
      s != "" && s[0] == '"' && Skip(s) == s && ReadBody(s[1..]) == ReadText(k, colon)
  {
    hide ReadBody, EscapeAll;
    BodyRoundTrip(k, colon);
    assert PrintText(k, colon)[1..] == EscapeAll(k, "\"" + colon);
  }

  /** Reading a printed value gives the value and leaves what followed it. */
  lemma {:induction false} ValueRoundTrip(v: Value, rest: string)
    requires WellFormed(v) && Stops(rest)
    ensures ReadValue(Print(v, rest)) == Read(v, rest)
    decreases v, Width(v) + 1
  {
    hide ReadValue, ReadElements, ReadMembers;
    match v
    case Null => WordRoundTrip("null", rest);
    case Bool(b) => WordRoundTrip(if b then "true" else "false", rest);
    case Number(text) => NumberRoundTrip(text, rest);
    case Text(s) => TextRoundTrip(s, rest);
    case Array(items) =>
      var u := PrintItems(v, 0, rest);
      ItemsRoundTrip(v, 0, rest);
      if items != [] {
        PrintStarts(items[0], if |items| == 1 then "]" + rest else "," + PrintItems(v, 1, rest));
        assert items[0..] == items;
      }
      ReadArray(u, items, rest);
    case Object(fields) =>
      var keys := Sorted(fields.Keys);
      FieldsRoundTrip(v, keys, rest);
      assert fields == Restrict(fields, keys);
      ReadObject(PrintFields(v, keys, rest), fields, rest);
  }

  lemma {:induction false} ItemsRoundTrip(v: Value, i: nat, rest: string)
    requires v.Array? && WellFormed(v) && i <= |v.items|
    ensures i < |v.items| ==> ReadElements(PrintItems(v, i, rest)) == ReadItems(v.items[i..], rest)
    ensures i == |v.items| ==> PrintItems(v, i, rest)[1..] == rest
    decreases v, |v.items| - i
  {
    hide ReadValue, ReadElements, Print, PrintItems;
    if i == |v.items| {
      ItemsEnd(v, rest);
    } else {
      var x, after := v.items[i], AfterItem(v, i, rest);
      ItemsUnfold(v, i, rest);
      ValueRoundTrip(x, after);
      ItemsRoundTrip(v, i + 1, rest);
      ElementsStep(PrintItems(v, i, rest), x, after, v.items[i + 1..], rest);
      assert v.items[i..] == [x] + v.items[i + 1..];
    }
  }

  function AfterItem(v: Value, i: nat, rest: string): string
    requires v.Array? && i < |v.items|
  {
    if i == |v.items| - 1 then "]" + rest else "," + PrintItems(v, i + 1, rest)
  }

  lemma ItemsUnfold(v: Value, i: nat, rest: string)
    requires v.Array? && i < |v.items|
    ensures PrintItems(v, i, rest) == Print(v.items[i], AfterItem(v, i, rest))
    ensures var after := AfterItem(v, i, rest);
      after != "" && after[0] == (if i == |v.items| - 1 then ']' else ',')
      && after[1..] == if i == |v.items| - 1 then rest else PrintItems(v, i + 1, rest)
  {
    hide Print;
  }

  lemma ItemsEnd(v: Value, rest: string)
    requires v.Array?
    ensures PrintItems(v, |v.items|, rest)[1..] == rest
  {
  }

  function Restrict(m: map<string, Value>, keys: seq<string>): map<string, Value>
    requires forall k :: k in keys ==> k in m
  {
    map k | k in keys :: m[k]
  }

  lemma RestrictFirst(m: map<string, Value>, keys: seq<string>)
    requires keys != [] && forall k :: k in keys ==> k in m
    ensures Restrict(m, keys) == map[keys[0] := m[keys[0]]] + Restrict(m, keys[1..])
  {
  }

  function AfterField(v: Value, keys: seq<string>, rest: string): (r: string)
    requires v.Object? && keys != [] && forall k :: k in keys ==> k in v.fields
  {
    if |keys| == 1 then "}" + rest else "," + PrintFields(v, keys[1..], rest)
  }

  lemma {:induction false} FieldsRoundTrip(v: Value, keys: seq<string>, rest: string)
    requires v.Object? && WellFormed(v) && |keys| <= Width(v) && forall k :: k in keys ==> k in v.fields
    ensures keys != [] ==> ReadMembers(PrintFields(v, keys, rest)) == ReadFields(Restrict(v.fields, keys), rest)
    ensures keys == [] ==> PrintFields(v, keys, rest)[1..] == rest
    decreases v, |keys|
  {
    hide ReadValue, ReadMembers;
    if keys == [] {
    } else {
      var k, x, others := keys[0], v.fields[keys[0]], Restrict(v.fields, keys[1..]);
      var after := AfterField(v, keys, rest);
      ValueRoundTrip(x, after);
      FieldsRoundTrip(v, keys[1..], rest);
      var colon := ":" + Print(x, after);
      assert colon[1..] == Print(x, after);
      if |keys| == 1 {
        assert after[1..] == rest;
      } else {
        assert after[1..] == PrintFields(v, keys[1..], rest);
      }
      MembersStep(k, colon, x, after, others, rest);
      RestrictFirst(v.fields, keys);
    }
  }

  // What the decoder makes is well formed

  lemma {:induction false} DigitsCut(s: string, n: nat)
    requires Digits(s) <= n <= |s|
    ensures Digits(s[..n]) == Digits(s)
    decreases |s|
  {
    if n > 0 && IsDigit(s[0]) {
      DigitsCut(s[1..], n - 1);
      assert s[..n][1..] == s[1..][..n - 1];
    }
  }

  lemma IntegerCut(s: string, n: nat)
    requires IntegerLength(s) <= n <= |s|
    ensures IntegerLength(s[..n]) == IntegerLength(s)
  {
    if Digits(s) <= n { DigitsCut(s, n); }
  }

  lemma FractionCut(s: string, n: nat)
    requires FractionLength(s) <= n <= |s|
    ensures FractionLength(s[..n]) == FractionLength(s)
  {
    if n >= 1 {
      assert s[..n][1..] == s[1..][..n - 1];
      if Digits(s[1..]) <= n - 1 { DigitsCut(s[1..], n - 1); }
    }
  }

  lemma ExponentCut(s: string)
    ensures ExponentLength(s[..ExponentLength(s)]) == ExponentLength(s)
  {
    var n := ExponentLength(s);
    if n > 0 {
      var sign := if |s| > 1 && (s[1] == '+' || s[1] == '-') then 1 else 0;
      assert s[..n][1 + sign..] == s[1 + sign..][..n - 1 - sign];
      DigitsCut(s[1 + sign..], n - 1 - sign);
    }
  }

  lemma NumberCutParts(s: string, n: nat, sign: nat, i: nat, f: nat)
    requires sign + i + f <= n <= |s|
    requires i == IntegerLength(s[sign..]) && f == FractionLength(s[sign + i..])
    requires ExponentLength(s[sign + i + f..]) == n - sign - i - f
    ensures IntegerLength(s[..n][sign..]) == i
    ensures FractionLength(s[..n][sign + i..]) == f
    ensures ExponentLength(s[..n][sign + i + f..]) == n - sign - i - f
  {
    hide IntegerLength, FractionLength, ExponentLength;
    assert s[..n][sign..] == s[sign..][..n - sign];
    IntegerCut(s[sign..], n - sign);
    assert s[..n][sign + i..] == s[sign + i..][..n - sign - i];
    FractionCut(s[sign + i..], n - sign - i);
    assert s[..n][sign + i + f..] == s[sign + i + f..][..n - sign - i - f];
    ExponentCut(s[sign + i + f..]);
  }

  /** A number cut out of a text is a number by itself. */
  lemma NumberCut(s: string)
    requires NumberLength(s) > 0
    ensures ValidNumber(s[..NumberLength(s)])
  {
    hide IntegerLength, FractionLength, ExponentLength;
    var sign := if s[0] == '-' then 1 else 0;
    var i := IntegerLength(s[sign..]);
    assert i > 0;
    NumberCutParts(s, NumberLength(s), sign, i, FractionLength(s[sign + i..]));
  }

  lemma {:induction false} ReadWellFormed(s: string)
    ensures ReadValue(s).Read? ==> WellFormed(ReadValue(s).value)
    decreases |s|, 1
  {
    var t := Skip(s);
    if ReadValue(s).Read? {
      if t[0] == '[' {
        ElementsWellFormed(Skip(t[1..]));
      } else if t[0] == '{' {
        MembersWellFormed(Skip(t[1..]));
      } else if NumberLength(t) > 0 {
        NumberCut(t);
      }
    }
  }

  lemma {:induction false} ElementsWellFormed(s: string)
    ensures ReadElements(s).ReadItems? ==>
      forall i :: 0 <= i < |ReadElements(s).items| ==> WellFormed(ReadElements(s).items[i])
    decreases |s|, 2
  {
    var v := ReadValue(s);
    ReadWellFormed(s);
    if v.Read? {
      var t := Skip(v.rest);
      if t != "" && t[0] == ',' { ElementsWellFormed(t[1..]); }
    }
  }

  lemma {:induction false} MembersWellFormed(s: string)
    ensures ReadMembers(s).ReadFields? ==>
      forall k :: k in ReadMembers(s).fields ==> WellFormed(ReadMembers(s).fields[k])
    decreases |s|, 2
  {
    if ReadMembers(s).ReadFields? {
      var c := Skip(ReadBody(Skip(s)[1..]).rest);
      ReadWellFormed(c[1..]);
      var t := Skip(ReadValue(c[1..]).rest);
      if t[0] == ',' { MembersWellFormed(t[1..]); }
    }
  }

  // The canonical text

  lemma DecodeWellFormed(s: string)
    ensures Decode(s).Decoded? ==> WellFormed(Decode(s).value)
  {
    ReadWellFormed(s);
  }

  /** Decoding undoes printing. */
  lemma DecodeMarshal(v: Value)
    requires WellFormed(v)
    ensures Decode(Marshal(v)) == Decoded(v)
  {
    ValueRoundTrip(v, "");
  }

  /** Two inputs get the same canonical text exactly when they decode to equal trees. */
  lemma CanonicalIffEqual(a: string, b: string)
    requires Decode(a).Decoded? && Decode(b).Decoded?
    ensures Marshal(Decode(a).value) == Marshal(Decode(b).value) <==> Decode(a) == Decode(b)
  {
    DecodeWellFormed(a);
    DecodeWellFormed(b);
    DecodeMarshal(Decode(a).value);
    DecodeMarshal(Decode(b).value);
  }

  // No printed value holds a line break

  predicate OneLine(s: string) { '\n' !in s && '\r' !in s }

  lemma NumberOneLine(s: string)
    requires ValidNumber(s)
    ensures OneLine(s)
  {
    hide IntegerLength, FractionLength, ExponentLength, OneLine;
    var sign := if s[0] == '-' then 1 else 0;
    var i := IntegerLength(s[sign..]);
    var f := FractionLength(s[sign + i..]);
    var a, b, c := s[sign..], s[sign + i..], s[sign + i + f..];
    PartsOneLine(a);
    PartsOneLine(b);
    PartsOneLine(c);
    assert ExponentLength(c) == |c| && c[..|c|] == c;
    OneLineJoin(b, f, c);
    OneLineJoin(a, i, b);
    OneLineSign(s, sign, a);
  }

  lemma OneLineJoin(s: string, n: nat, tail: string)
    requires n <= |s| && OneLine(s[..n]) && tail == s[n..] && OneLine(tail)
    ensures OneLine(s)
  {
    assert s == s[..n] + tail;
  }

  lemma OneLineSign(s: string, sign: nat, tail: string)
    requires s != "" && sign == (if s[0] == '-' then 1 else 0) && tail == s[sign..] && OneLine(tail)
    ensures OneLine(s)
  {
    assert s == s[..sign] + tail;
  }

  lemma PartsOneLine(s: string)
    ensures OneLine(s[..IntegerLength(s)]) && OneLine(s[..FractionLength(s)]) && OneLine(s[..ExponentLength(s)])
  {
    DigitsOneLine(s);
    if FractionLength(s) > 0 {
      DigitsOneLine(s[1..]);
      assert s[..FractionLength(s)] == ['.'] + s[1..][..Digits(s[1..])];
    }
    if ExponentLength(s) > 0 {
      var sign := if |s| > 1 && (s[1] == '+' || s[1] == '-') then 1 else 0;
      var rest := s[1 + sign..];
      DigitsOneLine(rest);
      assert s[..ExponentLength(s)] == s[..1 + sign] + rest[..Digits(rest)];
    }
  }

  lemma {:induction false} DigitsOneLine(s: string)
    ensures OneLine(s[..Digits(s)])
  {
    if s != "" && IsDigit(s[0]) {
      DigitsOneLine(s[1..]);
      assert s[..Digits(s)] == [s[0]] + s[1..][..Digits(s[1..])];
    }
  }

  lemma {:induction false} EscapeOneLine(s: string, rest: string)
    requires OneLine(rest)
    ensures OneLine(EscapeAll(s, rest))
    decreases |s|
  {
    if s == "" {
    } else {
      EscapeOneLine(s[1..], rest);
      assert OneLine(Escape(s[0])) by { EscapeCharOneLine(s[0]); }
    }
  }

  lemma EscapeCharOneLine(c: char)
    ensures OneLine(Escape(c))
  {
    hide HexChar;
    if c < ' ' || c == '<' || c == '>' || c == '&' {
      HexOneLine(c as int / 16);
      HexOneLine(c as int % 16);
    }
  }

  lemma HexOneLine(n: nat)
    requires n < 16
    ensures HexChar(n) != '\n' && HexChar(n) != '\r'
  {
    HexRoundTrip(n);
  }

  lemma {:induction false} PrintOneLine(v: Value, rest: string)
    requires WellFormed(v) && OneLine(rest)
    ensures OneLine(Print(v, rest))
    decreases v, Width(v) + 1
  {
    match v
    case Null =>
    case Bool(_) =>
    case Number(text) => NumberOneLine(text);
    case Text(s) => EscapeOneLine(s, "\"" + rest);
    case Array(_) => ItemsOneLine(v, 0, rest);
    case Object(fields) => FieldsOneLine(v, Sorted(fields.Keys), rest);
  }

  lemma {:induction false} ItemsOneLine(v: Value, i: nat, rest: string)
    requires v.Array? && WellFormed(v) && i <= |v.items| && OneLine(rest)
    ensures OneLine(PrintItems(v, i, rest))
    decreases v, |v.items| - i
  {
    if i < |v.items| {
      ItemsOneLine(v, i + 1, rest);
      PrintOneLine(v.items[i], if i == |v.items| - 1 then "]" + rest else "," + PrintItems(v, i + 1, rest));
    }
  }

  lemma {:induction false} FieldsOneLine(v: Value, keys: seq<string>, rest: string)
    requires v.Object? && WellFormed(v) && |keys| <= Width(v) && OneLine(rest)
    requires forall k :: k in keys ==> k in v.fields
    ensures OneLine(PrintFields(v, keys, rest))
    decreases v, |keys|
  {
    if keys == [] {
    } else {
      FieldsOneLine(v, keys[1..], rest);
      var after := AfterField(v, keys, rest);
      PrintOneLine(v.fields[keys[0]], after);
      EscapeOneLine(keys[0], "\"" + (":" + Print(v.fields[keys[0]], after)));
    }
  }
}
