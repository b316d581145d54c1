/**
 The texts that spell a JSON value, by the grammar of RFC 8259 and without regard
 to how they are read (internal/queue/store.go:121-124, 150-156): any white space
 around tokens, any escapes, any order of members.
 */
module JsonGrammar {
  import opened Basics
  import opened Json

  // Section 2: white space

  predicate Spaces(s: string) {
    forall i :: 0 <= i < |s| ==> s[i] == ' ' || s[i] == '\t' || s[i] == '\n' || s[i] == '\r'
  }

  // Section 7: strings

  datatype HexDigit = HexDigit(n: nat, upper: bool) {
    predicate Valid() { n < 16 }

    function Char(): char
      requires Valid()
    {
      (if n < 10 then '0' as int + n else (if upper then 'A' else 'a') as int + (n - 10)) as char
    }
  }

  /** Four hexadecimal digits. */
  datatype Hex = Hex(a: HexDigit, b: HexDigit, c: HexDigit, d: HexDigit) {
    predicate Valid() { a.Valid() && b.Valid() && c.Valid() && d.Valid() }

    function Code(): nat { a.n * 0x1000 + b.n * 0x100 + c.n * 0x10 + d.n }

    function Chars(): string
      requires Valid()
    {
      [a.Char(), b.Char(), c.Char(), d.Char()]
    }
  }

  /** One way to write one character. */
  datatype Form =
    | Literal(c: char)
    | Short(mark: char)
    | Escaped(hex: Hex)
    | Pair(of: char, high: Hex, low: Hex)
    | Lone(hex: Hex)
  {
    predicate Valid() {
      match this
      case Literal(c) => c >= ' ' && c != '"' && c != '\\'
      case Short(mark) => mark in {'"', '\\', '/', 'b', 'f', 'n', 'r', 't'}
      case Escaped(hex) => hex.Valid() && !(0xD800 <= hex.Code() < 0xE000)
      case Pair(of, high, low) =>
        // the UTF-16 form of a character beyond the first plane
        && high.Valid() && low.Valid() && of as int >= 0x10000
        && high.Code() == 0xD800 + (of as int - 0x10000) / 0x400 && low.Code() == 0xDC00 + (of as int - 0x10000) % 0x400
      case Lone(hex) => hex.Valid() && 0xD800 <= hex.Code() < 0xE000
    }

    function Chars(): string
      requires Valid()
    {
      match this
      case Literal(c) => [c]
      case Short(mark) => ['\\', mark]
      case Escaped(hex) => "\\u" + hex.Chars()
      case Pair(_, high, low) => ("\\u" + high.Chars()) + ("\\u" + low.Chars())
      case Lone(hex) => "\\u" + hex.Chars()
    }

    /** The character; half a surrogate pair stands for none and is read as U+FFFD. */
    function Means(): char
      requires Valid()
    {
      match this
      case Literal(c) => c
      case Short(mark) =>
        if mark == 'b' then '\U{8}' else if mark == 'f' then '\U{C}' else if mark == 'n' then '\n'
        else if mark == 'r' then '\r' else if mark == 't' then '\t' else mark
      case Escaped(hex) => hex.Code() as char
      case Pair(of, _, _) => of
      case Lone(_) => '\U{FFFD}'
    }

    predicate High() { Lone? && hex.Code() < 0xDC00 }

    predicate Low() { Lone? && hex.Code() >= 0xDC00 }
  }

  /** No two halves that would make a pair. */
  predicate ValidForms(forms: seq<Form>) {
    && (forall i :: 0 <= i < |forms| ==> forms[i].Valid())
    && forall i :: 0 <= i < |forms| - 1 ==> !(forms[i].High() && forms[i + 1].Low())
  }

  function FormChars(forms: seq<Form>, rest: string): string
    requires ValidForms(forms)
  {
    if forms == [] then rest else forms[0].Chars() + FormChars(forms[1..], rest)
  }

  function FormText(forms: seq<Form>): string
    requires ValidForms(forms)
  {
    if forms == [] then "" else [forms[0].Means()] + FormText(forms[1..])
  }

  // Section 6: numbers

  predicate DigitString(s: string) { s != "" && forall i :: 0 <= i < |s| ==> '0' <= s[i] <= '9' }

  datatype Exponent = Exponent(mark: char, sign: string, digits: string)

  datatype NumberForm = NumberForm(minus: bool, whole: string, fraction: Option<string>, exponent: Option<Exponent>) {
    predicate Valid() {
      && DigitString(whole) && (whole == "0" || whole[0] != '0')
      && (fraction.Some? ==> DigitString(fraction.value))
      && (exponent.Some? ==>
            && (exponent.value.mark == 'e' || exponent.value.mark == 'E')
            && (exponent.value.sign == "" || exponent.value.sign == "+" || exponent.value.sign == "-")
            && DigitString(exponent.value.digits))
    }

    function FractionChars(): string { if fraction.Some? then "." + fraction.value else "" }

    function ExponentChars(): string {
      if exponent.Some? then [exponent.value.mark] + exponent.value.sign + exponent.value.digits else ""
    }

    function Chars(): string { (if minus then "-" else "") + (whole + (FractionChars() + ExponentChars())) }
  }

  // Sections 3 to 5: values

  datatype Doc =
    | NullDoc
    | BoolDoc(b: bool)
    | NumberDoc(number: NumberForm)
    | TextDoc(forms: seq<Form>)
    | ArrayDoc(gap: string, items: seq<Item>)
    | ObjectDoc(gap: string, members: seq<Member>)

  /** An array element with the white space around it. */
  datatype Item = Item(before: string, value: Doc, after: string)

  /** A member with the white space around its key and its value. */
  datatype Member = Member(before: string, key: seq<Form>, gap: string, lead: string, value: Doc, after: string)

  predicate ValidDoc(d: Doc) {
    match d
    case NullDoc => true
    case BoolDoc(_) => true
    case NumberDoc(number) => number.Valid()
    case TextDoc(forms) => ValidForms(forms)
    case ArrayDoc(gap, items) =>
      && Spaces(gap)
      && forall i :: 0 <= i < |items| ==> Spaces(items[i].before) && Spaces(items[i].after) && ValidDoc(items[i].value)
    case ObjectDoc(gap, members) =>
      && Spaces(gap)
      && forall i :: 0 <= i < |members| ==>
           && Spaces(members[i].before) && ValidForms(members[i].key) && Spaces(members[i].gap)
           && Spaces(members[i].lead) && ValidDoc(members[i].value) && Spaces(members[i].after)
  }

  /** How many parts a document has. */
  function Parts(d: Doc): nat {
    match d
    case ArrayDoc(_, items) => |items|
    case ObjectDoc(_, members) => |members|
    case _ => 0
  }

  /** The text of a document, followed by `rest`. */
  function Spell(d: Doc, rest: string): string
    requires ValidDoc(d)
    decreases d, Parts(d) + 1
  {
    match d
    case NullDoc => "null" + rest
    case BoolDoc(b) => (if b then "true" else "false") + rest
    case NumberDoc(number) => number.Chars() + rest
    case TextDoc(forms) => Quote(forms, rest)
    case ArrayDoc(gap, items) => "[" + (if items == [] then gap + ("]" + rest) else SpellItems(d, 0, rest))
    case ObjectDoc(gap, members) => "{" + (if members == [] then gap + ("}" + rest) else SpellMembers(d, 0, rest))
  }

  function Quote(forms: seq<Form>, rest: string): string
    requires ValidForms(forms)
  {
    "\"" + FormChars(forms, "\"" + rest)
  }

  /** The elements from `i` on, and the closing bracket. */
  function SpellItems(d: Doc, i: nat, rest: string): string
    requires ValidDoc(d) && d.ArrayDoc? && i < |d.items|
    decreases d, |d.items| - i
  {
    var item := d.items[i];
    item.before + Spell(item.value, item.after +
      (if i == |d.items| - 1 then "]" + rest else "," + SpellItems(d, i + 1, rest)))
  }

  /** The members from `i` on, and the closing brace. */
  function SpellMembers(d: Doc, i: nat, rest: string): string
    requires ValidDoc(d) && d.ObjectDoc? && i < |d.members|
    decreases d, |d.members| - i
  {
    var m := d.members[i];
    m.before + Quote(m.key, m.gap + (":" + (m.lead + Spell(m.value, m.after +
      (if i == |d.members| - 1 then "}" + rest else "," + SpellMembers(d, i + 1, rest))))))
  }

  function Meaning(d: Doc): Value
    requires ValidDoc(d)
    decreases d, Parts(d) + 1
  {
    match d
    case NullDoc => Null
    case BoolDoc(b) => Bool(b)
    case NumberDoc(number) => Number(number.Chars())
    case TextDoc(forms) => Text(FormText(forms))
    case ArrayDoc(_, items) => Array(ItemMeanings(d, |items|))
    case ObjectDoc(_, members) => Object(MemberMeanings(d, |members|))
  }

  /** The first `n` elements. */
  function ItemMeanings(d: Doc, n: nat): seq<Value>
    requires ValidDoc(d) && d.ArrayDoc? && n <= |d.items|
    decreases d, n
  {
    if n == 0 then [] else ItemMeanings(d, n - 1) + [Meaning(d.items[n - 1].value)]
  }

  /** The first `n` members; a later one replaces an earlier one with its key. */
  function MemberMeanings(d: Doc, n: nat): map<string, Value>
    requires ValidDoc(d) && d.ObjectDoc? && n <= |d.members|
    decreases d, n
  {
    if n == 0 then map[]
    else MemberMeanings(d, n - 1)[FormText(d.members[n - 1].key) := Meaning(d.members[n - 1].value)]
  }

  /** A text that spells a value: a document with white space around it. */
  ghost predicate Spells(s: string, v: Value) { exists d, lead, trail :: SpellsAs(s, v, d, lead, trail) }

  ghost predicate SpellsAs(s: string, v: Value, d: Doc, lead: string, trail: string) {
    ValidDoc(d) && Spaces(lead) && Spaces(trail) && s == lead + Spell(d, trail) && Meaning(d) == v
  }
}
