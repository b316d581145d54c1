/**
 What a scope file says, line by line, and the parser that reads it so
 (profiles/reference/sec/extensions/scope-guard-v2.ts:70-145). The lines are
 described by what they are put together from, not by how they are taken apart.
 */
module ScopeReader {
  import opened Basics
  import opened Lines
  import opened ScopeFile

  // Characters

  ghost const WHITE: set<char> :=
    {'\t', '\n', '\U{0B}', '\U{0C}', '\r', ' ', '\U{A0}', '\U{1680}', '\U{2000}', '\U{2001}', '\U{2002}', '\U{2003}',
     '\U{2004}', '\U{2005}', '\U{2006}', '\U{2007}', '\U{2008}', '\U{2009}', '\U{200A}', '\U{2028}', '\U{2029}',
     '\U{202F}', '\U{205F}', '\U{3000}', '\U{FEFF}'}

  ghost const BREAKS: set<char> := {'\n', '\r', '\U{2028}', '\U{2029}'}

  ghost const DIGITS: set<char> :=
    {'0', '1', '2', '3', '4', '5', '6', '7', '8', '9'}

  ghost const UPPER: set<char> :=
    {'A', 'B', 'C', 'D', 'E', 'F', 'G', 'H', 'I', 'J', 'K', 'L', 'M', 'N', 'O', 'P', 'Q', 'R', 'S', 'T', 'U',
     'V', 'W', 'X', 'Y', 'Z'}

  ghost const LOWER: set<char> :=
    {'a', 'b', 'c', 'd', 'e', 'f', 'g', 'h', 'i', 'j', 'k', 'l', 'm', 'n', 'o', 'p', 'q', 'r', 's', 't', 'u',
     'v', 'w', 'x', 'y', 'z'}

  ghost const LETTERS: set<char> := DIGITS + UPPER + LOWER + {'_'}

  lemma WhiteIsSpace(c: char)
    ensures c in WHITE <==> IsSpace(c)
    ensures c in BREAKS <==> IsBreak(c)
  {
  }

  lemma Digits(c: char)
    ensures c in DIGITS <==> '0' <= c <= '9'
  {
  }

  lemma Upper(c: char)
    ensures c in UPPER <==> 'A' <= c <= 'Z'
  {
  }

  lemma Lower(c: char)
    ensures c in LOWER <==> 'a' <= c <= 'z'
  {
  }

  lemma LettersAreWord(c: char)
    ensures c in LETTERS <==> IsWord(c)
  {
    hide DIGITS, UPPER, LOWER;
    Digits(c);
    Upper(c);
    Lower(c);
  }

  ghost predicate Blank(s: string) { forall i :: 0 <= i < |s| ==> s[i] in WHITE }

  /** Not empty, on one line, and without white space at its ends. */
  ghost predicate Neat(s: string) {
    s != "" && s[0] !in WHITE && s[|s| - 1] !in WHITE && forall i :: 0 <= i < |s| ==> s[i] !in BREAKS
  }

  ghost predicate Word(s: string) { s != "" && forall i :: 0 <= i < |s| ==> s[i] in LETTERS }

  lemma BlankIs(s: string)
    ensures Blank(s) <==> forall i :: 0 <= i < |s| ==> IsSpace(s[i])
  {
    hide IsSpace, IsBreak;
    forall i | 0 <= i < |s| ensures s[i] in WHITE <==> IsSpace(s[i]) { WhiteIsSpace(s[i]); }
  }

  lemma NeatIs(s: string)
    ensures Neat(s) <==> s != "" && Trimmed(s) && !HasBreak(s)
  {
    hide IsSpace, IsBreak;
    if s != "" {
      WhiteIsSpace(s[0]);
      WhiteIsSpace(s[|s| - 1]);
    }
    forall i | 0 <= i < |s| ensures s[i] in BREAKS <==> IsBreak(s[i]) { WhiteIsSpace(s[i]); }
  }

  lemma WordIs(s: string)
    ensures Word(s) <==> IsKey(s)
  {
    hide IsWord;
    forall i | 0 <= i < |s| ensures s[i] in LETTERS <==> IsWord(s[i]) { LettersAreWord(s[i]); }
  }

  // Kinds of lines

  /** White space, a dash, white space, a value. */
  ghost predicate ItemLine(line: string, value: string) {
    Neat(value) && exists a, b, z :: ItemParts(line, value, a, b, z)
  }

  ghost predicate ItemParts(line: string, value: string, a: string, b: string, z: string) {
    a != "" && b != "" && Blank(a) && Blank(b) && Blank(z) && line == a + "-" + b + value + z
  }

  /** A word, a colon, and nothing more. */
  ghost predicate HeaderLine(line: string, key: string) { Word(key) && exists z :: HeaderParts(line, key, z) }

  ghost predicate HeaderParts(line: string, key: string, z: string) { Blank(z) && line == key + ":" + z }

  /** A word, a colon, a value. */
  ghost predicate PairLine(line: string, key: string, value: string) {
    Word(key) && Neat(value) && exists b, z :: PairParts(line, key, value, b, z)
  }

  ghost predicate PairParts(line: string, key: string, value: string, b: string, z: string) {
    Blank(b) && Blank(z) && line == key + ":" + b + value + z
  }

  lemma EndOfLine(line: string, core: string, z: string)
    requires line == core + z && Blank(z) && core != "" && core[|core| - 1] !in WHITE
    ensures TrimEnd(line) == core
  {
    hide IsSpace;
    BlankIs(z);
    WhiteIsSpace(core[|core| - 1]);
    TrimEndIs(line, core);
  }

  /** Taking the white space off the end of a line. */
  lemma CutEnd(line: string) returns (z: string)
    ensures line == TrimEnd(line) + z && Blank(z)
    ensures TrimEnd(line) != "" ==> TrimEnd(line)[|TrimEnd(line)| - 1] !in WHITE
  {
    hide IsSpace;
    var t := TrimEnd(line);
    z := line[|t|..];
    BlankIs(z);
    if t != "" { WhiteIsSpace(t[|t| - 1]); }
  }

  /** A line that starts with white space and a dash is neither blank, a marker nor a comment. */
  lemma DashNotSkipped(line: string, a: string, rest: string)
    requires line == a + "-" + rest && Blank(a) && TrimEnd(line) == line && rest != "" && rest[0] in WHITE
    ensures !Skipped(line)
  {
    hide IsSpace, TrimEnd;
    BlankIs(a);
    WhiteIsSpace('-');
    WhiteIsSpace(rest[0]);
    DashIsNoSpace();
    SpaceRunIs(line, |a|);
    assert Trim(line) == line[|a|..] == "-" + rest;
    assert Trim(line)[1] == rest[0];
    WhiteIsSpace("---"[1]);
  }

  lemma ItemForward(line: string, value: string)
    requires ItemLine(line, value)
    ensures var t := TrimEnd(line); !Skipped(t) && ListItem(t) == Some(value)
  {
    hide Skipped, ListItem, IsSpace, TrimEnd, Trim, HasBreak, Trimmed;
    var a, b, z :| ItemParts(line, value, a, b, z);
    var t := a + "-" + b + value;
    assert t[|t| - 1] == value[|value| - 1];
    EndOfLine(line, t, z);
    EndOfLine(t, t, "");
    assert t + "" == t && t == a + "-" + (b + value);
    DashNotSkipped(t, a, b + value);
    BlankIs(a);
    BlankIs(b);
    NeatIs(value);
    assert ListMatch(t, a, b, value);
    ListItemMatches(t, a, b, value);
    TrimExactly(value);
  }

  lemma ItemBack(line: string, value: string)
    requires ListItem(TrimEnd(line)) == Some(value)
    ensures ItemLine(line, value)
  {
    hide ListItem, IsSpace, TrimEnd, HasBreak, IsBreak;
    var t := TrimEnd(line);
    var z := CutEnd(line);
    var a, b, g := ListItemIsMatch(t);
    BlankIs(a);
    BlankIs(b);
    ItemStarts(t);
    NeatIs(value);
    assert t[|t| - 1] == value[|value| - 1];
    WhiteIsSpace(t[|t| - 1]);
    assert ItemParts(line, value, a, b, z);
  }

  lemma ItemStarts(t: string)
    requires ListItem(t).Some?
    ensures ListItem(t).value != "" && !IsSpace(ListItem(t).value[0])
  {
    hide IsSpace;
  }

  /** The expression for keys, given its parts. */
  lemma InlineOf(t: string, key: string, b: string, value: string)
    requires t == key + ":" + (b + value) && WordRun(t) == |key| > 0 && SpaceRun(b + value) == |b|
    requires value != "" && !HasBreak(value)
    ensures Inline(t) == Some((key, value))
  {
    hide WordRun, SpaceRun, HasBreak;
    assert t[|key| + 1..] == b + value && t[..|key|] == key && (b + value)[|b|..] == value;
  }

  lemma KeyForward(line: string, key: string, value: string)
    requires PairLine(line, key, value)
    ensures var t := TrimEnd(line); !Skipped(t) && ListItem(t) == None && Inline(t) == Some((key, value))
  {
    hide Skipped, ListItem, IsSpace, TrimEnd, HasBreak, IsWord, WordRun, SpaceRun, Inline, IsKey;
    var b, z :| PairParts(line, key, value, b, z);
    var tail := b + value;
    var t := key + ":" + tail;
    assert t[|t| - 1] == value[|value| - 1] == tail[|tail| - 1];
    assert line == t + z;
    EndOfLine(line, t, z);
    WordIs(key);
    NeatIs(value);
    KeyLine(key, tail);
    BlankIs(b);
    SpaceRunIs(tail, |b|);
    InlineOf(t, key, b, value);
  }

  lemma InlineParts(t: string, key: string, value: string) returns (b: string)
    requires Inline(t) == Some((key, value))
    ensures t == key + ":" + (b + value) && value != "" && !HasBreak(value) && !IsSpace(value[0]) && IsKey(key)
    ensures forall i :: 0 <= i < |b| ==> IsSpace(b[i])
  {
    hide IsSpace, IsWord, HasBreak, WordRun, SpaceRun;
    var tail := t[WordRun(t) + 1..];
    b := tail[..SpaceRun(tail)];
    assert tail == b + value;
    assert t == key + ":" + tail;
  }

  lemma KeyBack(line: string, key: string, value: string)
    requires Inline(TrimEnd(line)) == Some((key, value))
    ensures PairLine(line, key, value)
  {
    hide IsSpace, TrimEnd, HasBreak, IsWord, Inline, Word, IsKey, Blank;
    var t := TrimEnd(line);
    var z := CutEnd(line);
    var b := InlineParts(t, key, value);
    BlankIs(b);
    WordIs(key);
    NeatIs(value);
    assert t[|t| - 1] == value[|value| - 1];
    WhiteIsSpace(t[|t| - 1]);
    assert key + ":" + (b + value) + z == key + ":" + b + value + z;
    assert PairParts(line, key, value, b, z);
  }

  lemma HeaderForward(line: string, key: string)
    requires HeaderLine(line, key)
    ensures var t := TrimEnd(line);
      !Skipped(t) && ListItem(t) == None && Inline(t) == None && Header(t) == Some(key)
  {
    hide Skipped, ListItem, IsSpace, TrimEnd, IsWord;
    var z :| HeaderParts(line, key, z);
    var t := key + ":";
    WordIs(key);
    WhiteIsSpace(':');
    ColonIsNoSpace();
    EndOfLine(line, t, z);
    KeyLine(key, "");
    assert key + ":" + "" == t;
    assert t[|key| + 1..] == "" && t[..|key|] == key;
  }

  lemma ColonIsNoSpace()
    ensures !IsSpace(':')
  {
  }

  lemma HeaderTail(t: string, key: string) returns (tail: string)
    requires Header(t) == Some(key)
    ensures t == key + ":" + tail && IsKey(key) && forall i :: 0 <= i < |tail| ==> IsSpace(tail[i])
  {
    hide IsSpace, IsWord;
    tail := t[WordRun(t) + 1..];
  }

  lemma HeaderBack(line: string, key: string)
    requires Header(TrimEnd(line)) == Some(key)
    ensures HeaderLine(line, key)
  {
    hide IsSpace, TrimEnd, IsWord, Header, Word, IsKey;
    var z := CutEnd(line);
    var tail := HeaderTail(TrimEnd(line), key);
    WordIs(key);
    BlankIs(tail);
    assert key + ":" + tail + z == key + ":" + (tail + z);
    assert HeaderParts(line, key, tail + z);
  }

  // Values

  /** What is left when the white space at both ends is gone. */
  ghost predicate Strips(s: string, t: string) {
    (t == "" || (t[0] !in WHITE && t[|t| - 1] !in WHITE)) && exists a, z :: StripParts(s, t, a, z)
  }

  ghost predicate StripParts(s: string, t: string, a: string, z: string) {
    Blank(a) && Blank(z) && s == a + t + z
  }

  ghost predicate OpensQuote(s: string) { s != "" && (s[0] == '"' || s[0] == '\'') }

  /** `comment` starts at the first ` #`, or there is none. */
  ghost predicate Comment(raw: string, body: string, comment: string) {
    && raw == body + comment && (comment == "" || " #" <= comment)
    && forall i :: 0 <= i < |body| && i + 1 < |raw| ==> !(raw[i] == ' ' && raw[i + 1] == '#')
  }

  /** Without its comment, which a value that opens a quote does not have. */
  ghost predicate Uncomments(raw: string, body: string) {
    if OpensQuote(raw) then body == raw else exists comment :: Comment(raw, body, comment)
  }

  /** Without its quotes, if it has the same at both ends. */
  ghost predicate Unquotes(core: string, inner: string) {
    if core == "\"" || core == "'" then inner == ""
    else if OpensQuote(core) && core[|core| - 1] == core[0] then core == [core[0]] + inner + [core[0]]
    else inner == core
  }

  /** How a written value is read. */
  ghost predicate Cleans(raw: string, value: string) {
    exists body, core, inner :: CleanParts(raw, body, core, inner, value)
  }

  ghost predicate CleanParts(raw: string, body: string, core: string, inner: string, value: string) {
    Uncomments(raw, body) && Strips(body, core) && Unquotes(core, inner) && Strips(inner, value)
  }

  lemma StripsIsTrim(s: string, t: string)
    ensures Strips(s, t) <==> t == Trim(s)
  {
    StripsForward(s);
    if Strips(s, t) { StripsBack(s, t); }
  }

  lemma StripsForward(s: string)
    ensures Strips(s, Trim(s))
  {
    hide IsSpace, TrimEnd;
    var e := TrimEnd(s);
    var z := CutEnd(s);
    var a := e[..SpaceRun(e)];
    BlankIs(a);
    TrimExactly(s);
    var t := Trim(s);
    if t != "" {
      WhiteIsSpace(t[0]);
      WhiteIsSpace(t[|t| - 1]);
    }
    assert StripParts(s, t, a, z);
  }

  lemma StripsBack(s: string, t: string)
    requires Strips(s, t)
    ensures t == Trim(s)
  {
    hide IsSpace, TrimEnd, SpaceRun;
    var a, z :| StripParts(s, t, a, z);
    BlankIs(a);
    BlankIs(z);
    if t == "" {
      AllSpaceTrims(s);
    } else {
      WhiteIsSpace(t[0]);
      assert (a + t)[|a + t| - 1] == t[|t| - 1];
      EndOfLine(s, a + t, z);
      SpaceRunIs(a + t, |a|);
      assert (a + t)[|a|..] == t;
    }
  }

  lemma AllSpaceTrims(s: string)
    requires forall i :: 0 <= i < |s| ==> IsSpace(s[i])
    ensures Trim(s) == ""
  {
    hide IsSpace;
    TrimEndIs(s, "");
  }

  lemma UncommentsIs(raw: string, body: string)
    ensures Uncomments(raw, body) <==> body == Uncommented(raw)
  {
    if !OpensQuote(raw) {
      var n := FindHash(raw);
      HashFound(raw);
      if exists comment :: Comment(raw, body, comment) {
        var comment :| Comment(raw, body, comment);
        OneComment(raw, body, comment);
      }
    }
  }

  lemma HashFound(raw: string)
    ensures exists comment :: Comment(raw, raw[..FindHash(raw)], comment)
  {
    var n := FindHash(raw);
    var body, comment := raw[..n], raw[n..];
    if n < |raw| {
      assert HashAt(raw, n);
      assert comment[..2] == " #";
    }
    forall i | 0 <= i < |body| && i + 1 < |raw| ensures !(raw[i] == ' ' && raw[i + 1] == '#') {
      assert !HashAt(raw, i);
    }
    assert Comment(raw, body, comment);
  }

  lemma OneComment(raw: string, body: string, comment: string)
    requires Comment(raw, body, comment)
    ensures body == raw[..FindHash(raw)]
  {
    var n, m := FindHash(raw), |body|;
    assert body == raw[..m];
    if comment != "" {
      assert comment[0] == ' ' && comment[1] == '#';
      assert raw[m] == comment[0] && raw[m + 1] == comment[1];
      assert HashAt(raw, m);
    }
  }

  lemma UnquotesIs(core: string, inner: string)
    ensures Unquotes(core, inner) <==> inner == Unquoted(core)
  {
    if Quoted(core) && |core| > 1 {
      var q := core[0];
      assert core == [q] + core[1..|core| - 1] + [q];
      if core == [q] + inner + [q] { assert inner == core[1..|core| - 1]; }
    }
    if |core| == 1 && Quoted(core) { assert core == [core[0]]; }
  }

  /** The parser's cleaning of a value is this one. */
  lemma CleansIsStrip(raw: string, value: string)
    ensures Cleans(raw, value) <==> value == StripValue(raw)
  {
    hide Trim, Uncommented, Unquoted, Strips, Uncomments, Unquotes;
    var body := Uncommented(raw);
    var core := Trim(body);
    UncommentsIs(raw, body);
    StripsIsTrim(body, core);
    UnquotesIs(core, Unquoted(core));
    StripsIsTrim(Unquoted(core), StripValue(raw));
    assert CleanParts(raw, body, core, Unquoted(core), StripValue(raw));
    if Cleans(raw, value) {
      var body', core', inner' :| CleanParts(raw, body', core', inner', value);
      UncommentsIs(raw, body');
      StripsIsTrim(body', core');
      UnquotesIs(core', inner');
      StripsIsTrim(inner', value);
    }
  }

  /** A comment after a value that opens no quote is dropped. */
  lemma CommentDropped(value: string, comment: string)
    requires Neat(value) && !OpensQuote(value)
    requires forall i :: 0 <= i < |value| - 1 ==> !(value[i] == ' ' && value[i + 1] == '#')
    ensures StripValue(value + " #" + comment) == value
  {
    hide Trim, Uncommented, Unquoted, StripValue;
    var raw := value + " #" + comment;
    WhiteIsSpace(value[|value| - 1]);
    assert raw == value + (" #" + comment);
    assert (" #" + comment)[..2] == " #";
    forall i | 0 <= i < |value| && i + 1 < |raw| ensures !(raw[i] == ' ' && raw[i + 1] == '#') {
      assert raw[i] == value[i];
      if i == |value| - 1 { WhiteIsSpace(' '); } else { assert raw[i + 1] == value[i + 1]; }
    }
    assert Comment(raw, value, " #" + comment);
    assert StripParts(value, value, "", "");
    assert CleanParts(raw, value, value, value, value);
    CleansIsStrip(raw, value);
  }

  /** A value in matching quotes is what is inside, without the white space at its ends. */
  lemma QuotesDropped(quote: char, inside: string, value: string)
    requires (quote == '"' || quote == '\'') && Strips(inside, value)
    ensures StripValue([quote] + inside + [quote]) == value
  {
    hide Trim, Uncommented, Unquoted, StripValue, Strips;
    var raw := [quote] + inside + [quote];
    QuoteIsNoSpace(quote);
    WhiteIsSpace(quote);
    StripsItself(raw);
    assert raw[0] == quote && raw[|raw| - 1] == quote;
    assert CleanParts(raw, raw, raw, inside, value);
    CleansIsStrip(raw, value);
  }

  lemma StripsItself(s: string)
    requires s == "" || (s[0] !in WHITE && s[|s| - 1] !in WHITE)
    ensures Strips(s, s)
  {
    assert StripParts(s, s, "", "");
  }

  lemma QuoteIsNoSpace(c: char)
    requires c == '"' || c == '\''
    ensures !IsSpace(c)
  {
  }

  // The file

  /** Lines that start or end a list. */
  ghost predicate Heads(line: string) {
    (exists key :: HeaderLine(line, key)) || exists key, value :: PairLine(line, key, value)
  }

  /** Line `n` stands under this header: the last line before it that starts or ends a list. */
  ghost predicate Under(lines: seq<string>, n: int, key: string) { exists j :: UnderAt(lines, n, key, j) }

  ghost predicate UnderAt(lines: seq<string>, n: int, key: string, j: int) {
    0 <= j < n <= |lines| && HeaderLine(lines[j], key) && forall k :: j < k < n ==> !Heads(lines[k])
  }

  ghost predicate Reads(line: string, entry: string) { exists value :: ItemLine(line, value) && Cleans(value, entry) }

  ghost predicate IsItem(line: string) { exists value :: ItemLine(line, value) }

  /** `index` lists the item lines under the header, among the first `n`; the entries are what they read as. */
  ghost predicate Gathers(lines: seq<string>, n: int, key: string, entries: seq<string>, index: seq<int>) {
    && 0 <= n <= |lines| && |index| == |entries|
    && (forall i, j :: 0 <= i < j < |index| ==> index[i] < index[j])
    && (forall i :: 0 <= i < |index| ==>
          0 <= index[i] < n && Reads(lines[index[i]], entries[i]) && Under(lines, index[i], key))
    && (forall k :: 0 <= k < n && IsItem(lines[k]) && Under(lines, k, key) ==> k in index)
  }

  /** The entries of a list are the items under its header, in order, and nothing else. */
  ghost predicate Lists(lines: seq<string>, n: int, key: string, entries: seq<string>) {
    exists index :: Gathers(lines, n, key, entries, index)
  }

  ghost predicate Switches(line: string) { exists value :: PairLine(line, "enforce", value) }

  /** No `enforce` line between `j` and `n`. */
  ghost predicate QuietFrom(lines: seq<string>, j: int, n: int) {
    -1 <= j < n <= |lines| && forall k :: j < k < n ==> !Switches(lines[k])
  }

  /** The last `enforce` line decides; without one scope is enforced. */
  ghost predicate Enforces(lines: seq<string>, n: int, flag: bool) {
    && 0 <= n <= |lines|
    && (QuietFrom(lines, -1, n) ==> flag)
    && forall j, value, word :: 0 <= j < n && Decides(lines, j, n, value, word) ==>
         (flag <==> word == "true" || word == "yes")
  }

  ghost predicate Decides(lines: seq<string>, j: int, n: int, value: string, word: string)
    requires 0 <= j < n <= |lines|
  {
    PairLine(lines[j], "enforce", value) && Cleans(value, word) && QuietFrom(lines, j, n)
  }

  ghost predicate MeansUpto(lines: seq<string>, n: int, config: Config) {
    && Lists(lines, n, "targets", config.targets) && Lists(lines, n, "allowed_domains", config.allowed)
    && Lists(lines, n, "excluded", config.excluded) && Enforces(lines, n, config.enforce)
  }

  /** What a text says. */
  ghost predicate Means(text: string, config: Config) {
    MeansUpto(Split(text, '\n'), |Split(text, '\n')|, config)
  }

  /** The current list of the parser is the one whose header the next line stands under. */
  ghost predicate Current(lines: seq<string>, n: int, section: Option<Section>) {
    && (section == Some(Targets) <==> Under(lines, n, "targets"))
    && (section == Some(Allowed) <==> Under(lines, n, "allowed_domains"))
    && (section == Some(Excluded) <==> Under(lines, n, "excluded"))
  }

  datatype Kind = Item(value: string) | Pair(key: string, value: string) | Title(key: string) | Other

  /** Each line is of one kind. */
  ghost predicate IsKind(line: string, kind: Kind) {
    && (forall v :: ItemLine(line, v) <==> kind == Item(v))
    && (forall k, v :: PairLine(line, k, v) <==> kind == Pair(k, v))
    && (forall k :: HeaderLine(line, k) <==> kind == Title(k))
  }

  function KindOf(line: string): Kind {
    var t := TrimEnd(line);
    if Skipped(t) then Other
    else match ListItem(t)
      case Some(v) => Item(v)
      case None => match Inline(t)
        case Some((k, v)) => Pair(k, v)
        case None => match Header(t)
          case Some(k) => Title(k)
          case None => Other
  }

  /** Skipped lines are of no kind. */
  lemma SkippedIsOther(line: string)
    requires Skipped(TrimEnd(line))
    ensures IsKind(line, Other)
  {
    hide Skipped, ItemLine, PairLine, HeaderLine;
    forall v ensures !ItemLine(line, v) { if ItemLine(line, v) { ItemForward(line, v); } }
    forall k, v ensures !PairLine(line, k, v) { if PairLine(line, k, v) { KeyForward(line, k, v); } }
    forall k ensures !HeaderLine(line, k) { if HeaderLine(line, k) { HeaderForward(line, k); } }
  }

  lemma KindIs(line: string)
    ensures IsKind(line, KindOf(line))
  {
    hide Skipped, ItemLine, PairLine, HeaderLine, ListItem, Inline, Header, TrimEnd;
    var t := TrimEnd(line);
    if Skipped(t) {
      SkippedIsOther(line);
    } else {
      forall v ensures ItemLine(line, v) <==> KindOf(line) == Item(v) {
        if ItemLine(line, v) { ItemForward(line, v); }
        if KindOf(line) == Item(v) { ItemBack(line, v); }
      }
      forall k, v ensures PairLine(line, k, v) <==> KindOf(line) == Pair(k, v) {
        if PairLine(line, k, v) { KeyForward(line, k, v); }
        if KindOf(line) == Pair(k, v) { KeyBack(line, k, v); }
      }
      forall k ensures HeaderLine(line, k) <==> KindOf(line) == Title(k) {
        if HeaderLine(line, k) { HeaderForward(line, k); }
        if KindOf(line) == Title(k) { HeaderBack(line, k); }
      }
    }
  }

  /** What the parser does with a line of each kind. */
  lemma NextIs(st: State, line: string)
    ensures match KindOf(line)
      case Item(v) => Next(st, line) == st.Push([StripValue(v)])
      case Pair(k, v) =>
        var word := StripValue(v);
        Next(st, line) == State(if k == "enforce" then st.config.(enforce := word == "true" || word == "yes")
                                else st.config, None)
      case Title(k) => Next(st, line) == st.(section := SectionNamed(k))
      case Other => Next(st, line) == st
  {
    hide Skipped, ListItem, Inline, Header, TrimEnd, StripValue, SectionNamed;
    var t := TrimEnd(line);
    if !Skipped(t) && ListItem(t).Some? {
      var v := ListItem(t).value;
      ItemBack(line, v);
      NeatIs(v);
      TrimExactly(v);
    }
  }

  // Line by line

  lemma UnderHere(lines: seq<string>, n: nat, key: string)
    requires n < |lines| && HeaderLine(lines[n], key)
    ensures Under(lines, n + 1, key)
  {
    hide HeaderLine, Heads;
    assert UnderAt(lines, n + 1, key, n);
  }

  lemma NotUnderAt(lines: seq<string>, n: nat, key: string, j: int)
    requires n < |lines| && !HeaderLine(lines[n], key) && Heads(lines[n])
    ensures !UnderAt(lines, n + 1, key, j)
  {
    hide HeaderLine, Heads;
  }

  lemma UnderAnother(lines: seq<string>, n: nat, key: string)
    requires n < |lines| && !HeaderLine(lines[n], key) && Heads(lines[n])
    ensures !Under(lines, n + 1, key)
  {
    hide HeaderLine, Heads, UnderAt;
    if Under(lines, n + 1, key) {
      var j :| UnderAt(lines, n + 1, key, j);
      NotUnderAt(lines, n, key, j);
    }
  }

  lemma OnUnderAt(lines: seq<string>, n: nat, key: string, j: int)
    requires n < |lines| && !Heads(lines[n]) && UnderAt(lines, n, key, j)
    ensures UnderAt(lines, n + 1, key, j)
  {
    hide HeaderLine, Heads;
    forall k | j < k < n + 1 ensures !Heads(lines[k]) {
      if k < n { assert !Heads(lines[k]); }
    }
  }

  lemma BackUnderAt(lines: seq<string>, n: nat, key: string, j: int)
    requires n < |lines| && !HeaderLine(lines[n], key) && UnderAt(lines, n + 1, key, j)
    ensures UnderAt(lines, n, key, j)
  {
    hide HeaderLine, Heads;
    assert j != n;
    forall k | j < k < n ensures !Heads(lines[k]) {}
  }

  lemma UnderStill(lines: seq<string>, n: nat, key: string)
    requires n < |lines| && !Heads(lines[n])
    ensures Under(lines, n + 1, key) <==> Under(lines, n, key)
  {
    hide HeaderLine, Heads, UnderAt;
    if Under(lines, n, key) {
      var j :| UnderAt(lines, n, key, j);
      OnUnderAt(lines, n, key, j);
    }
    HeaderHeads(lines[n], key);
    if Under(lines, n + 1, key) {
      var j :| UnderAt(lines, n + 1, key, j);
      BackUnderAt(lines, n, key, j);
    }
  }

  lemma HeaderHeads(line: string, key: string)
    ensures HeaderLine(line, key) ==> Heads(line)
    ensures forall value :: PairLine(line, key, value) ==> Heads(line)
  {
    hide HeaderLine, PairLine;
  }

  lemma KindHeads(line: string)
    ensures Heads(line) <==> KindOf(line).Pair? || KindOf(line).Title?
    ensures IsItem(line) <==> KindOf(line).Item?
    ensures Switches(line) <==> KindOf(line).Pair? && KindOf(line).key == "enforce"
  {
    hide HeaderLine, PairLine, ItemLine, KindOf;
    KindIs(line);
    var kind := KindOf(line);
    match kind
    case Item(v) => assert ItemLine(line, v);
    case Pair(k, v) => assert PairLine(line, k, v);
    case Title(k) => assert HeaderLine(line, k);
    case Other =>
  }

  /** A line that is no item of the list leaves its entries. */
  lemma ListsSkip(lines: seq<string>, n: nat, key: string, entries: seq<string>)
    requires n < |lines| && Lists(lines, n, key, entries) && !(IsItem(lines[n]) && Under(lines, n, key))
    ensures Lists(lines, n + 1, key, entries)
  {
    hide Reads, IsItem, Under;
    var index :| Gathers(lines, n, key, entries, index);
    assert Gathers(lines, n + 1, key, entries, index);
  }

  lemma ListsItem(lines: seq<string>, n: nat, key: string, entries: seq<string>, entry: string)
    requires n < |lines| && Lists(lines, n, key, entries) && Reads(lines[n], entry) && Under(lines, n, key)
    ensures Lists(lines, n + 1, key, entries + [entry])
  {
    hide Reads, IsItem, Under;
    var index :| Gathers(lines, n, key, entries, index);
    assert n in index + [n] && forall k :: k in index ==> k in index + [n];
    assert Gathers(lines, n + 1, key, entries + [entry], index + [n]);
  }

  /** One list: what happens to its entries at a line. */
  lemma ListStep(lines: seq<string>, n: nat, key: string, entries: seq<string>, current: bool)
    requires n < |lines| && Lists(lines, n, key, entries) && (current <==> Under(lines, n, key))
    ensures var kind := KindOf(lines[n]);
      && Lists(lines, n + 1, key, if current && kind.Item? then entries + [StripValue(kind.value)] else entries)
      && (kind.Title? ==> (Under(lines, n + 1, key) <==> kind.key == key))
      && (kind.Pair? ==> !Under(lines, n + 1, key))
      && (kind.Item? || kind.Other? ==> (Under(lines, n + 1, key) <==> current))
  {
    hide Lists, Under, HeaderLine, PairLine, ItemLine, KindOf, StripValue, Heads, IsItem, Switches, Cleans;
    var line, kind := lines[n], KindOf(lines[n]);
    KindIs(line);
    KindHeads(line);
    if kind.Item? || kind.Other? {
      UnderStill(lines, n, key);
    } else if kind == Title(key) {
      UnderHere(lines, n, key);
    } else {
      UnderAnother(lines, n, key);
    }
    if current && kind.Item? {
      CleansIsStrip(kind.value, StripValue(kind.value));
      assert ItemLine(line, kind.value);
      ListsItem(lines, n, key, entries, StripValue(kind.value));
    } else {
      ListsSkip(lines, n, key, entries);
    }
  }

  lemma EnforceKept(lines: seq<string>, n: nat, flag: bool)
    requires n < |lines| && Enforces(lines, n, flag) && !Switches(lines[n])
    ensures Enforces(lines, n + 1, flag)
  {
    hide PairLine, Cleans;
    assert QuietFrom(lines, -1, n + 1) && n > 0 ==> QuietFrom(lines, -1, n);
    var m := n + 1;
    forall j, value, word | 0 <= j < m && Decides(lines, j, m, value, word)
      ensures flag <==> word == "true" || word == "yes"
    {
      SwitchHere(lines[j], value);
      assert j < n && Decides(lines, j, n, value, word);
    }
  }

  lemma SwitchHere(line: string, value: string)
    requires PairLine(line, "enforce", value)
    ensures Switches(line)
  {
    hide PairLine;
  }

  lemma EnforceSet(lines: seq<string>, n: nat, value: string)
    requires n < |lines| && PairLine(lines[n], "enforce", value) && IsKind(lines[n], Pair("enforce", value))
    ensures Enforces(lines, n + 1, StripValue(value) == "true" || StripValue(value) == "yes")
  {
    hide PairLine, Cleans, StripValue, ItemLine, HeaderLine;
    SwitchHere(lines[n], value);
    var m := n + 1;
    forall j, v, word | 0 <= j < m && Decides(lines, j, m, v, word) ensures word == StripValue(value) {
      assert j == n && v == value;
      CleansIsStrip(v, word);
    }
  }

  lemma EnforceStep(lines: seq<string>, n: nat, flag: bool)
    requires n < |lines| && Enforces(lines, n, flag)
    ensures var kind := KindOf(lines[n]);
      Enforces(lines, n + 1, if kind.Pair? && kind.key == "enforce"
                             then StripValue(kind.value) == "true" || StripValue(kind.value) == "yes" else flag)
  {
    hide Enforces, KindOf, StripValue, PairLine, ItemLine, HeaderLine, Switches;
    var kind := KindOf(lines[n]);
    KindIs(lines[n]);
    KindHeads(lines[n]);
    if kind.Pair? && kind.key == "enforce" {
      EnforceSet(lines, n, kind.value);
    } else {
      EnforceKept(lines, n, flag);
    }
  }

  lemma StateStep(lines: seq<string>, n: nat, st: State)
    requires n < |lines| && MeansUpto(lines, n, st.config) && Current(lines, n, st.section)
    ensures MeansUpto(lines, n + 1, Next(st, lines[n]).config) && Current(lines, n + 1, Next(st, lines[n]).section)
  {
    hide Lists, Under, Enforces, KindOf, StripValue, Next;
    ListStep(lines, n, "targets", st.config.targets, st.section == Some(Targets));
    ListStep(lines, n, "allowed_domains", st.config.allowed, st.section == Some(Allowed));
    ListStep(lines, n, "excluded", st.config.excluded, st.section == Some(Excluded));
    EnforceStep(lines, n, st.config.enforce);
    NextIs(st, lines[n]);
  }

  lemma StartMeans(lines: seq<string>)
    ensures MeansUpto(lines, 0, START.config) && Current(lines, 0, START.section)
  {
    assert Gathers(lines, 0, "targets", [], []);
    assert Gathers(lines, 0, "allowed_domains", [], []);
    assert Gathers(lines, 0, "excluded", [], []);
  }

  lemma {:induction false} FoldMeans(lines: seq<string>, n: nat)
    requires n <= |lines|
    ensures var st := Fold(START, lines[..n]); MeansUpto(lines, n, st.config) && Current(lines, n, st.section)
    decreases n
  {
    hide MeansUpto, Current, Next, Fold;
    if n == 0 {
      FoldNone(START);
      StartMeans(lines);
    } else {
      FoldMeans(lines, n - 1);
      assert lines[..n] == lines[..n - 1] + [lines[n - 1]];
      var st := Fold(START, lines[..n - 1]);
      FoldAppend(START, lines[..n - 1], [lines[n - 1]]);
      FoldOne(st, lines[n - 1], []);
      FoldNone(Next(st, lines[n - 1]));
      assert [lines[n - 1]] + [] == [lines[n - 1]];
      StateStep(lines, n - 1, Fold(START, lines[..n - 1]));
    }
  }

  /** The parser reads what the text says. */
  lemma ParsedMeans(text: string)
    ensures Means(text, Parsed(text))
  {
    hide MeansUpto, Fold;
    var lines := Split(text, '\n');
    FoldMeans(lines, |lines|);
    assert lines[..|lines|] == lines;
  }

  method ParseScope(text: string) returns (config: Config)
    ensures config == Parsed(text) && Means(text, config)
  {
    ParsedMeans(text);
    hide Means, Split, TrimEnd, Skipped, ListItem, StripValue, Trim, Inline, Header, SectionNamed, IsSpace;
    var lines := Split(text, '\n');
    config := Config([], [], [], true);
    var section := None;
    for i := 0 to |lines|
      invariant Fold(START, lines) == Fold(State(config, section), lines[i..])
    {
      var line := TrimEnd(lines[i]);
      assert lines[i..][1..] == lines[i + 1..];
      if Skipped(line) { continue; }
      var item := ListItem(line);
      if item.Some? {
        var cleaned := StripValue(Trim(item.value));
        if section == Some(Targets) {
          config := config.(targets := config.targets + [cleaned]);
        } else if section == Some(Allowed) {
          config := config.(allowed := config.allowed + [cleaned]);
        } else if section == Some(Excluded) {
          config := config.(excluded := config.excluded + [cleaned]);
        }
        continue;
      }
      var inline := Inline(line);
      if inline.Some? {
        var value := StripValue(inline.value.1);
        if inline.value.0 == "enforce" {
          config := config.(enforce := value == "true" || value == "yes");
        }
        section := None;
        continue;
      }
      var header := Header(line);
      if header.Some? {
        section := SectionNamed(header.value);
      }
    }
  }
}
