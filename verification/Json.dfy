/**
 JSON as the coordinator reads and writes it: Go's decoder with UseNumber, and
 json.Marshal, which sorts keys and escapes `<`, `>`, `&`, U+2028 and U+2029
 (internal/queue/store.go:121-124, 150-156). Text is a sequence of code points;
 a number keeps its spelling and an object is an unordered map.
 */
module Json {
  import opened Strings

  datatype Value =
    | Null
    | Bool(b: bool)
    | Number(text: string)
    | Text(s: string)
    | Array(items: seq<Value>)
    | Object(fields: map<string, Value>)

  // Numbers

  predicate IsDigit(c: char) { '0' <= c <= '9' }

  function Digits(s: string): (n: nat)
    ensures n <= |s|
  {
    if s != "" && IsDigit(s[0]) then 1 + Digits(s[1..]) else 0
  }

  function FractionLength(s: string): (n: nat)
    ensures n <= |s|
  {
    if s != "" && s[0] == '.' && Digits(s[1..]) > 0 then 1 + Digits(s[1..]) else 0
  }

  function ExponentLength(s: string): (n: nat)
    ensures n <= |s|
  {
    if s == "" || (s[0] != 'e' && s[0] != 'E') then 0
    else
      var sign := if |s| > 1 && (s[1] == '+' || s[1] == '-') then 1 else 0;
      var tail := s[1 + sign..];
      var d := Digits(tail);
      if d > 0 then 1 + sign + d else 0
  }

  function IntegerLength(s: string): (n: nat)
    ensures n <= |s|
  {
    if s != "" && s[0] == '0' then 1 else Digits(s)
  }

  /** Length of the longest number at the front, 0 if there is none. */
  function NumberLength(s: string): (n: nat)
    ensures n <= |s|
  {
    var sign := if s != "" && s[0] == '-' then 1 else 0;
    var i := IntegerLength(s[sign..]);
    if i == 0 then 0
    else
      var f := FractionLength(s[sign + i..]);
      sign + i + f + ExponentLength(s[sign + i + f..])
  }

  predicate ValidNumber(s: string) { s != "" && NumberLength(s) == |s| }

  // Strings

  function HexChar(n: nat): char
    requires n < 16
  {
    "0123456789abcdef"[n]
  }

  function HexValue(c: char): int {
    if '0' <= c <= '9' then c as int - '0' as int
    else if 'a' <= c <= 'f' then c as int - 'a' as int + 10
    else if 'A' <= c <= 'F' then c as int - 'A' as int + 10
    else -1
  }

  /** Value of four hexadecimal digits at the front, -1 if they are not there. */
  function Hex4(s: string): (n: int)
    ensures -1 <= n < 0x10000
  {
    if |s| < 4 || HexValue(s[0]) < 0 || HexValue(s[1]) < 0 || HexValue(s[2]) < 0 || HexValue(s[3]) < 0 then -1
    else ((HexValue(s[0]) * 16 + HexValue(s[1])) * 16 + HexValue(s[2])) * 16 + HexValue(s[3])
  }

  const REPLACEMENT := '\U{FFFD}'

  /** The character after a backslash in a short escape. */
  function ShortEscape(c: char): string {
    match c
    case '"' => "\""
    case '\\' => "\\"
    case '/' => "/"
    case 'b' => "\U{8}"
    case 'f' => "\U{C}"
    case 'n' => "\n"
    case 'r' => "\r"
    case 't' => "\t"
    case _ => ""
  }

  datatype Unit = BadUnit | Unit(c: char, used: nat)

  /** The first character of a string body: its value and the text it takes up. */
  function ReadUnit(s: string): (u: Unit)
    requires s != ""
    ensures u.Unit? ==> 1 <= u.used <= |s|
  {
    if s[0] != '\\' then (if s[0] < ' ' || s[0] == '"' then BadUnit else Unit(s[0], 1))
    else if |s| < 2 then BadUnit
    else if s[1] != 'u' then (if ShortEscape(s[1]) == "" then BadUnit else Unit(ShortEscape(s[1])[0], 2))
    else
      var v := Hex4(s[2..]);
      if v < 0 then BadUnit
      else if v < 0xD800 || v >= 0xE000 then Unit(v as char, 6)
      else
        var w := if |s| >= 12 && s[6] == '\\' && s[7] == 'u' then Hex4(s[8..]) else -1;
        if v < 0xDC00 && 0xDC00 <= w < 0xE000
        then Unit((0x10000 + (v - 0xD800) * 0x400 + (w - 0xDC00)) as char, 12)
        else Unit(REPLACEMENT, 6)
  }

  datatype ReadText = NoText | ReadText(text: string, rest: string)

  /** A string body up to its closing quote. */
  function ReadBody(s: string): (r: ReadText)
    ensures r.ReadText? ==> |r.rest| < |s|
    decreases |s|
  {
    if s == "" then NoText
    else if s[0] == '"' then ReadText("", s[1..])
    else
      var u := ReadUnit(s);
      if u.BadUnit? then NoText
      else
        var r := ReadBody(s[u.used..]);
        if r.NoText? then NoText else ReadText([u.c] + r.text, r.rest)
  }

  function Escape(c: char): string {
    if c == '"' then "\\\"" else if c == '\\' then "\\\\"
    else if c == '\U{8}' then "\\b" else if c == '\U{C}' then "\\f"
    else if c == '\n' then "\\n" else if c == '\r' then "\\r" else if c == '\t' then "\\t"
    else if c < ' ' || c == '<' || c == '>' || c == '&'
    then "\\u00" + [HexChar(c as int / 16), HexChar(c as int % 16)]
    else if c == '\U{2028}' then "\\u2028" else if c == '\U{2029}' then "\\u2029"
    else [c]
  }

  /** The escaped text of a string, followed by `rest`. */
  function EscapeAll(s: string, rest: string): string {
    if s == "" then rest else Escape(s[0]) + EscapeAll(s[1..], rest)
  }

  function PrintText(s: string, rest: string): string { "\"" + EscapeAll(s, "\"" + rest) }

  // The decoder

  predicate IsSpace(c: char) { c == ' ' || c == '\t' || c == '\r' || c == '\n' }

  function Skip(s: string): (r: string)
    ensures |r| <= |s|
  {
    if s != "" && IsSpace(s[0]) then Skip(s[1..]) else s
  }

  datatype Read = NoValue | Read(value: Value, rest: string)
  datatype ReadItems = NoItems | ReadItems(items: seq<Value>, rest: string)
  datatype ReadFields = NoFields | ReadFields(fields: map<string, Value>, rest: string)

  function ReadValue(s: string): (r: Read)
    ensures r.Read? ==> |r.rest| < |s|
    decreases |s|, 1
  {
    var t := Skip(s);
    if t == "" then NoValue
    else if t[0] == '"' then
      var b := ReadBody(t[1..]);
      if b.NoText? then NoValue else Read(Text(b.text), b.rest)
    else if t[0] == '[' then
      var u := Skip(t[1..]);
      if u != "" && u[0] == ']' then Read(Array([]), u[1..])
      else
        var r := ReadElements(u);
        if r.NoItems? then NoValue else Read(Array(r.items), r.rest)
    else if t[0] == '{' then
      var u := Skip(t[1..]);
      if u != "" && u[0] == '}' then Read(Object(map[]), u[1..])
      else
        var r := ReadMembers(u);
        if r.NoFields? then NoValue else Read(Object(r.fields), r.rest)
    else if "null" <= t then Read(Null, t[4..])
    else if "true" <= t then Read(Bool(true), t[4..])
    else if "false" <= t then Read(Bool(false), t[5..])
    else
      var n := NumberLength(t);
      if n == 0 then NoValue else Read(Number(t[..n]), t[n..])
  }

  /** Array elements and the closing bracket. */
  function ReadElements(s: string): (r: ReadItems)
    ensures r.ReadItems? ==> |r.rest| < |s|
    decreases |s|, 2
  {
    var v := ReadValue(s);
    if v.NoValue? then NoItems
    else
      var t := Skip(v.rest);
      if t == "" then NoItems
      else if t[0] == ']' then ReadItems([v.value], t[1..])
      else if t[0] == ',' then
        var r := ReadElements(t[1..]);
        if r.NoItems? then NoItems else ReadItems([v.value] + r.items, r.rest)
      else NoItems
  }

  /** Members and the closing brace; of two members with one key the later counts. */
  function ReadMembers(s: string): (r: ReadFields)
    ensures r.ReadFields? ==> |r.rest| < |s|
    decreases |s|, 2
  {
    var k := Skip(s);
    if k == "" || k[0] != '"' then NoFields
    else
      var b := ReadBody(k[1..]);
      if b.NoText? then NoFields
      else
        var c := Skip(b.rest);
        if c == "" || c[0] != ':' then NoFields
        else
          var v := ReadValue(c[1..]);
          if v.NoValue? then NoFields
          else
            var t := Skip(v.rest);
            if t == "" then NoFields
            else if t[0] == '}' then ReadFields(map[b.text := v.value], t[1..])
            else if t[0] == ',' then
              var r := ReadMembers(t[1..]);
              if r.NoFields? then NoFields else ReadFields(map[b.text := v.value] + r.fields, r.rest)
            else NoFields
  }

  datatype Decoded = Malformed | Decoded(value: Value)

  /** A whole text: one value with white space around it. */
  function Decode(s: string): Decoded {
    var r := ReadValue(s);
    if r.Read? && Skip(r.rest) == "" then Decoded(r.value) else Malformed
  }

  // The printer

  /** The text of a value, followed by `rest`. */
  function Print(v: Value, rest: string): string
    decreases v, Width(v) + 1
  {
    match v
    case Null => "null" + rest
    case Bool(b) => (if b then "true" else "false") + rest
    case Number(text) => text + rest
    case Text(s) => PrintText(s, rest)
    case Array(items) => "[" + PrintItems(v, 0, rest)
    case Object(fields) => "{" + PrintFields(v, Sorted(fields.Keys), rest)
  }

  function Width(v: Value): nat {
    match v
    case Array(items) => |items|
    case Object(fields) => |fields|
    case _ => 0
  }

  function PrintItems(v: Value, i: nat, rest: string): string
    requires v.Array? && i <= |v.items|
    decreases v, |v.items| - i
  {
    if i == |v.items| then "]" + rest
    else Print(v.items[i], if i == |v.items| - 1 then "]" + rest else "," + PrintItems(v, i + 1, rest))
  }

  function PrintFields(v: Value, keys: seq<string>, rest: string): string
    requires v.Object? && forall k :: k in keys ==> k in v.fields
    decreases v, |keys|
  {
    if keys == [] then "}" + rest
    else PrintText(keys[0], ":" + Print(v.fields[keys[0]],
           if |keys| == 1 then "}" + rest else "," + PrintFields(v, keys[1..], rest)))
  }

  /** json.Marshal of a decoded value. */
  function Marshal(v: Value): string { Print(v, "") }
}
