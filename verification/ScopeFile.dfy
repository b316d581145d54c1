/**
 The scope file: the line parser and the printer it undoes
 (profiles/reference/sec/extensions/scope-guard-v2.ts:70-145, 173-184).
 */
module ScopeFile {
  import opened Basics
  import opened Lines

  // JavaScript's character classes

  /** Line terminators, which `.` does not match. */
  predicate IsBreak(c: char) { c == '\n' || c == '\r' || c == '\U{2028}' || c == '\U{2029}' }

  /** White space as trim and `\s` understand it. */
  predicate IsSpace(c: char) {
    || IsBreak(c) || c == ' ' || c == '\t' || c == '\U{0B}' || c == '\U{0C}' || c == '\U{A0}' || c == '\U{1680}'
    || '\U{2000}' <= c <= '\U{200A}' || c == '\U{202F}' || c == '\U{205F}' || c == '\U{3000}' || c == '\U{FEFF}'
  }

  predicate IsWord(c: char) { 'a' <= c <= 'z' || 'A' <= c <= 'Z' || '0' <= c <= '9' || c == '_' }

  predicate HasBreak(s: string) { exists i :: 0 <= i < |s| && IsBreak(s[i]) }

  function SpaceRun(s: string): (n: nat)
    ensures n <= |s| && (forall i :: 0 <= i < n ==> IsSpace(s[i])) && (n < |s| ==> !IsSpace(s[n]))
  {
    if s == "" || !IsSpace(s[0]) then 0 else 1 + SpaceRun(s[1..])
  }

  function WordRun(s: string): (n: nat)
    ensures n <= |s| && (forall i :: 0 <= i < n ==> IsWord(s[i])) && (n < |s| ==> !IsWord(s[n]))
  {
    if s == "" || !IsWord(s[0]) then 0 else 1 + WordRun(s[1..])
  }

  function TrimEnd(s: string): (r: string)
    ensures r <= s && (r == "" || !IsSpace(r[|r| - 1])) && forall i :: |r| <= i < |s| ==> IsSpace(s[i])
  {
    if s == "" || !IsSpace(s[|s| - 1]) then s else TrimEnd(s[..|s| - 1])
  }

  function Trim(s: string): string {
    var t := TrimEnd(s);
    t[SpaceRun(t)..]
  }

  predicate Trimmed(s: string) { s == "" || (!IsSpace(s[0]) && !IsSpace(s[|s| - 1])) }

  lemma TrimExactly(s: string)
    ensures Trimmed(Trim(s)) && (Trim(s) == s <==> Trimmed(s)) && |Trim(s)| <= |s|
    ensures forall c :: c in Trim(s) ==> c in s
  {
    hide IsSpace;
    var t := TrimEnd(s);
    assert SpaceRun(t) < |t| || t == "" by {
      if t != "" { assert t[|t| - 1] in t; }
    }
    if Trimmed(s) { assert t == s; }
  }

  // One value

  predicate IsQuote(c: char) { c == '"' || c == '\'' }

  predicate Quoted(s: string) { s != "" && IsQuote(s[0]) && s[|s| - 1] == s[0] }

  predicate HashAt(s: string, i: nat) { i + 1 < |s| && s[i] == ' ' && s[i + 1] == '#' }

  /** Position of the first ` #`, the length if there is none. */
  function FindHash(s: string): (i: nat)
    ensures i <= |s| && (i < |s| ==> HashAt(s, i)) && forall j: nat :: j < i ==> !HashAt(s, j)
  {
    if |s| < 2 then |s|
    else if HashAt(s, 0) then 0
    else
      assert forall j: nat :: HashAt(s, j) ==> j > 0 && HashAt(s[1..], j - 1);
      1 + FindHash(s[1..])
  }

  function Uncommented(raw: string): string {
    if raw != "" && IsQuote(raw[0]) then raw else raw[..FindHash(raw)]
  }

  function Unquoted(value: string): string {
    if !Quoted(value) then value else if |value| == 1 then "" else value[1..|value| - 1]
  }

  /** Drops an inline comment, then the quotes around what is left. */
  function StripValue(raw: string): string { Trim(Unquoted(Trim(Uncommented(raw)))) }

  lemma StripFacts(raw: string)
    ensures Trimmed(StripValue(raw))
    ensures |StripValue(raw)| <= |Unquoted(Trim(Uncommented(raw)))| <= |Uncommented(raw)| <= |raw|
    ensures forall c :: c in StripValue(raw) ==> c in raw
  {
    hide IsSpace, FindHash, Trim, Trimmed;
    var cut := Uncommented(raw);
    TrimExactly(cut);
    TrimExactly(Unquoted(Trim(cut)));
  }

  /** Which trimmed values are left as they are. */
  lemma StripKeeps(raw: string)
    requires raw != "" && Trimmed(raw)
    ensures StripValue(raw) == raw <==> (IsQuote(raw[0]) || FindHash(raw) == |raw|) && !Quoted(raw)
  {
    hide IsSpace, FindHash, Trim, Trimmed;
    StripFacts(raw);
    TrimExactly(raw);
    if FindHash(raw) == |raw| { assert raw[..FindHash(raw)] == raw; }
  }

  // One line

  datatype Section = Targets | Allowed | Excluded

  datatype Config = Config(targets: seq<string>, allowed: seq<string>, excluded: seq<string>, enforce: bool)

  datatype State = State(config: Config, section: Option<Section>) {
    /** Adds entries to the current list, if there is one. */
    function Push(values: seq<string>): State {
      match section
      case None => this
      case Some(Targets) => this.(config := config.(targets := config.targets + values))
      case Some(Allowed) => this.(config := config.(allowed := config.allowed + values))
      case Some(Excluded) => this.(config := config.(excluded := config.excluded + values))
    }
  }

  /** `^\s+-\s+(.+)$` on a line without trailing space: what is captured, trimmed. */
  function ListItem(line: string): Option<string> {
    var n := SpaceRun(line);
    if n == 0 || n == |line| || line[n] != '-' then None
    else
      var tail := line[n + 1..];
      var m := SpaceRun(tail);
      if m == 0 || m == |tail| || HasBreak(tail[m..]) then None else Some(tail[m..])
  }

  /** `^(\w+):\s*(.+)$` on a line without trailing space. */
  function Inline(line: string): Option<(string, string)> {
    var n := WordRun(line);
    if n == 0 || n == |line| || line[n] != ':' then None
    else
      var tail := line[n + 1..];
      var m := SpaceRun(tail);
      if m == |tail| || HasBreak(tail[m..]) then None else Some((line[..n], tail[m..]))
  }

  /** `^(\w+):\s*$` */
  function Header(line: string): Option<string> {
    var n := WordRun(line);
    if n == 0 || n == |line| || line[n] != ':' || SpaceRun(line[n + 1..]) < |line| - n - 1 then None
    else Some(line[..n])
  }

  function SectionNamed(key: string): Option<Section> {
    if key == "targets" then Some(Targets)
    else if key == "allowed_domains" then Some(Allowed)
    else if key == "excluded" then Some(Excluded)
    else None
  }

  predicate Skipped(line: string) {
    var t := Trim(line);
    t == "" || t == "---" || t == "..." || t[0] == '#'
  }

  function Next(st: State, raw: string): State { Read(st, TrimEnd(raw)) }

  /** A line without trailing space. */
  function Read(st: State, line: string): State {
    if Skipped(line) then st
    else match ListItem(line)
      case Some(value) => st.Push([StripValue(Trim(value))])
      case None => match Inline(line)
        case Some((key, value)) =>
          var v := StripValue(value);
          State(if key == "enforce" then st.config.(enforce := v == "true" || v == "yes") else st.config, None)
        case None => match Header(line)
          case Some(key) => st.(section := SectionNamed(key))
          case None => st
  }

  /** A way for the list expression to match: the two runs of space and the capture. */
  predicate ListMatch(line: string, a: string, b: string, g: string) {
    && line == a + "-" + b + g && a != "" && b != "" && g != "" && !HasBreak(g)
    && (forall i :: 0 <= i < |a| ==> IsSpace(a[i])) && (forall i :: 0 <= i < |b| ==> IsSpace(b[i]))
  }

  /** All ways to match agree up to the space that the trim removes. */
  lemma ListItemMatches(line: string, a: string, b: string, g: string)
    requires line == TrimEnd(line) && ListMatch(line, a, b, g)
    ensures ListItem(line) == Some(Trim(g))
  {
    DashIsNoSpace();
    hide IsSpace, TrimEnd, SpaceRun, HasBreak;
    SpaceRunIs(line, |a|);
    var tail, k := line[|a| + 1..], SpaceRun(g);
    assert tail == b + g;
    assert g[|g| - 1] == line[|line| - 1];
    RunThrough(b, g);
    TrimEndIs(g, g);
    NoNewBreak(g, k);
  }

  lemma RunThrough(b: string, g: string)
    requires (forall i :: 0 <= i < |b| ==> IsSpace(b[i])) && g != "" && !IsSpace(g[|g| - 1])
    ensures SpaceRun(b + g) == |b| + SpaceRun(g) < |b + g| && (b + g)[SpaceRun(b + g)..] == g[SpaceRun(g)..]
  {
    hide IsSpace, SpaceRun;
    SpaceRunIs(b + g, |b| + SpaceRun(g));
  }

  lemma ListItemIsMatch(line: string) returns (a: string, b: string, g: string)
    requires ListItem(line).Some?
    ensures ListMatch(line, a, b, g) && g == ListItem(line).value
  {
    hide IsSpace, TrimEnd, SpaceRun, HasBreak;
    var n := SpaceRun(line);
    var tail := line[n + 1..];
    var m := SpaceRun(tail);
    a, b, g := line[..n], tail[..m], tail[m..];
    assert line == a + "-" + tail;
  }

  lemma DashIsNoSpace()
    ensures !IsSpace('-') && IsSpace(' ') && !IsWord(' ') && !IsWord(':')
  {
  }

  lemma NoNewBreak(g: string, k: nat)
    requires k <= |g| && !HasBreak(g)
    ensures !HasBreak(g[k..])
  {
  }

  lemma {:induction false} SpaceRunIs(s: string, n: nat)
    requires n <= |s| && (forall i :: 0 <= i < n ==> IsSpace(s[i])) && (n < |s| ==> !IsSpace(s[n]))
    ensures SpaceRun(s) == n
  {
    if n == 0 {
    } else {
      SpaceRunIs(s[1..], n - 1);
    }
  }

  lemma {:induction false} WordRunIs(s: string, n: nat)
    requires n <= |s| && (forall i :: 0 <= i < n ==> IsWord(s[i])) && (n < |s| ==> !IsWord(s[n]))
    ensures WordRun(s) == n
  {
    if n == 0 {
    } else {
      WordRunIs(s[1..], n - 1);
    }
  }

  // The parser

  const START := State(Config([], [], [], true), None)

  function Fold(st: State, lines: seq<string>): State
    decreases |lines|
  {
    if lines == [] then st else Fold(Next(st, lines[0]), lines[1..])
  }

  function Parsed(text: string): Config { Fold(START, Split(text, '\n')).config }

  lemma {:induction false} FoldAppend(st: State, a: seq<string>, b: seq<string>)
    ensures Fold(st, a + b) == Fold(Fold(st, a), b)
    decreases |a|
  {
    if a == [] {
      assert a + b == b;
    } else {
      assert (a + b)[1..] == a[1..] + b;
      FoldAppend(Next(st, a[0]), a[1..], b);
    }
  }

  // The printer

  function ItemLines(entries: seq<string>): seq<string> {
    seq(|entries|, i requires 0 <= i < |entries| => "  - " + entries[i])
  }

  function EnforceLine(b: bool): string { if b then "enforce: true" else "enforce: false" }

  function FileLines(c: Config): seq<string> {
    ["---"] + ["targets:"] + ItemLines(c.targets) + ["allowed_domains:"] + ItemLines(c.allowed)
    + ["excluded:"] + ItemLines(c.excluded) + [EnforceLine(c.enforce)]
  }

  method SaveScope(c: Config) returns (text: string)
    ensures text == Join(FileLines(c), '\n')
  {
    var lines := ["---"];
    lines := lines + ["targets:"];
    var more := AddItems(lines, c.targets);
    lines := more + ["allowed_domains:"];
    more := AddItems(lines, c.allowed);
    lines := more + ["excluded:"];
    more := AddItems(lines, c.excluded);
    lines := more + [EnforceLine(c.enforce)];
    text := Join(lines, '\n');
  }

  method AddItems(lines: seq<string>, entries: seq<string>) returns (more: seq<string>)
    ensures more == lines + ItemLines(entries)
  {
    more := lines;
    for i := 0 to |entries|
      invariant more == lines + ItemLines(entries[..i])
    {
      assert ItemLines(entries[..i + 1]) == ItemLines(entries[..i]) + ["  - " + entries[i]];
      more := more + ["  - " + entries[i]];
    }
    assert entries[..|entries|] == entries;
  }

  // What a printed entry is read as

  /** An entry that survives: trimmed, on one line, with nothing the parser takes for a comment or for quotes. */
  predicate Clean(e: string) {
    && e != "" && Trimmed(e) && !HasBreak(e)
    && (IsQuote(e[0]) || forall i :: 0 <= i < |e| ==> !HashAt(e, i))
    && !Quoted(e)
  }

  function ReadEntry(e: string): seq<string> {
    var t := Trim(e);
    if t == "" || HasBreak(t) then [] else [StripValue(t)]
  }

  lemma ReadEntryExactly(e: string)
    ensures ReadEntry(e) == [e] <==> Clean(e)
  {
    TrimExactly(e);
    var t := Trim(e);
    if t == e && e != "" {
      StripKeeps(e);
      assert FindHash(e) == |e| <==> forall i :: 0 <= i < |e| ==> !HashAt(e, i);
    } else if t != "" {
      StripFacts(t);
    }
  }

  lemma TrimEndAppend(a: string, b: string)
    ensures TrimEnd(b) != "" ==> TrimEnd(a + b) == a + TrimEnd(b)
    ensures TrimEnd(b) == "" ==> TrimEnd(a + b) == TrimEnd(a)
  {
    if TrimEnd(b) != "" {
      TrimEndIs(a + b, a + TrimEnd(b));
    } else {
      TrimEndIs(a + b, TrimEnd(a));
    }
  }

  lemma {:induction false} TrimEndIs(s: string, r: string)
    requires r <= s && (r == "" || !IsSpace(r[|r| - 1])) && forall i :: |r| <= i < |s| ==> IsSpace(s[i])
    ensures TrimEnd(s) == r
  {
    hide IsSpace;
    if s != "" && IsSpace(s[|s| - 1]) {
      assert r <= s[..|s| - 1];
      TrimEndIs(s[..|s| - 1], r);
    }
  }

  lemma DashLine(st: State)
    ensures TrimEnd("  - ") == "  -" && Read(st, "  -") == st
  {
    TrimEndIs("  - ", "  -");
    SpaceRunIs("  -", 2);
    SpaceRunIs("", 0);
    assert Trim("  -") == "-";
  }

  lemma ItemNotSkipped(line: string, t: string)
    requires line == "  - " + t && t != "" && TrimEnd(line) == line
    ensures !Skipped(line) && WordRun(line) == 0
  {
    DashIsNoSpace();
    hide IsSpace, IsWord, SpaceRun, TrimEnd;
    SpaceRunIs(line, 2);
    var rest := Trim(line);
    assert rest == line[2..];
    assert rest[0] == '-' && rest[1] == ' ' && line[0] == ' ';
    assert "---"[1] == '-' && "..."[0] == '.';
  }

  /** A printed entry is matched as a list item whatever it holds, unless it has a break inside. */
  lemma ItemMatches(line: string, t: string)
    requires line == "  - " + t && t != "" && TrimEnd(t) == t
    ensures var v := t[SpaceRun(t)..]; ListItem(line) == if HasBreak(v) then None else Some(v)
  {
    DashIsNoSpace();
    hide IsSpace, TrimEnd, SpaceRun, HasBreak;
    var k := SpaceRun(t);
    assert line[0] == ' ' && line[1] == ' ' && line[2] == '-';
    SpaceRunIs(line, 2);
    TrimEndLast(t);
    var tail := line[3..];
    assert tail == [' '] + t;
    RunThrough([' '], t);
    hide ListItem;
    ListItemParts(line, 2, tail, 1 + k);
  }

  lemma TrimEndLast(t: string)
    requires t != "" && TrimEnd(t) == t
    ensures !IsSpace(t[|t| - 1])
  {
  }

  /** The list expression, given its two runs of space. */
  lemma ListItemParts(line: string, n: nat, tail: string, m: nat)
    requires SpaceRun(line) == n && 0 < n < |line| && line[n] == '-' && tail == line[n + 1..]
    requires SpaceRun(tail) == m && 0 < m < |tail|
    ensures ListItem(line) == if HasBreak(tail[m..]) then None else Some(tail[m..])
  {
    hide SpaceRun, HasBreak;
  }

  lemma ItemRead(st: State, line: string, t: string)
    requires line == "  - " + t && t != "" && TrimEnd(t) == t && TrimEnd(line) == line
    ensures var v := t[SpaceRun(t)..]; Read(st, line) == if HasBreak(v) then st else st.Push([StripValue(Trim(v))])
  {
    ItemNotSkipped(line, t);
    ItemMatches(line, t);
    NoWordNoKey(line);
    hide ListItem, Skipped, StripValue, TrimEnd, SpaceRun, WordRun, HasBreak, Inline, Header, Trim;
  }

  lemma ItemLine(st: State, e: string)
    ensures Next(st, "  - " + e) == st.Push(ReadEntry(e))
  {
    hide StripValue, IsSpace, TrimEnd, SpaceRun, HasBreak, Read, State.Push, Trim;
    var t := TrimEnd(e);
    TrimEndAppend("  - ", e);
    if t == "" {
      DashLine(st);
      BlankEntry(e);
      PushTwice(st, [], []);
    } else {
      EndsTrimmed(t, e);
      ItemRead(st, "  - " + t, t);
      TrimOfEnd(e);
      if HasBreak(Trim(e)) { PushTwice(st, [], []); }
    }
  }

  lemma BlankEntry(e: string)
    requires TrimEnd(e) == ""
    ensures Trim(e) == ""
  {
  }

  lemma EndsTrimmed(t: string, e: string)
    requires t == TrimEnd(e) != ""
    ensures TrimEnd(t) == t && TrimEnd("  - " + t) == "  - " + t
  {
    hide IsSpace, TrimEnd;
    TrimEndIs(t, t);
    assert ("  - " + t)[|"  - " + t| - 1] == t[|t| - 1];
    TrimEndIs("  - " + t, "  - " + t);
  }

  /** Trimming again what was trimmed, and what is left of an entry without its trailing space. */
  lemma TrimOfEnd(e: string)
    requires TrimEnd(e) != ""
    ensures var t := TrimEnd(e); Trim(e) == t[SpaceRun(t)..] && Trim(e) != "" && Trim(Trim(e)) == Trim(e)
  {
    hide IsSpace;
    var t := TrimEnd(e);
    assert SpaceRun(t) < |t|;
    TrimExactly(e);
    TrimExactly(Trim(e));
  }

  lemma NoWordNoKey(line: string)
    requires WordRun(line) == 0
    ensures Inline(line) == None && Header(line) == None
  {
  }

  // What a printed file is read as

  predicate IsKey(key: string) { key != "" && forall i :: 0 <= i < |key| ==> IsWord(key[i]) }

  lemma WordNotSpecial(c: char)
    requires IsWord(c)
    ensures !IsSpace(c) && c != '-' && c != '.' && c != '#' && c != ':'
  {
  }

  lemma KeyLine(key: string, tail: string)
    requires IsKey(key) && (tail == "" || !IsSpace(tail[|tail| - 1]))
    ensures var line := key + ":" + tail;
      && TrimEnd(line) == line && !Skipped(line) && ListItem(line) == None && WordRun(line) == |key|
  {
    var line := key + ":" + tail;
    WordNotSpecial(key[0]);
    assert line[0] == key[0] && line[|key|] == ':';
    TrimEndIs(line, line);
    SpaceRunIs(line, 0);
    assert Trim(line) == line;
    WordRunIs(line, |key|);
  }

  lemma HeaderLine(st: State, key: string)
    requires IsKey(key)
    ensures Next(st, key + ":") == st.(section := SectionNamed(key))
  {
    hide Skipped, ListItem, SectionNamed;
    KeyLine(key, "");
    var line := key + ":";
    assert key + ":" + "" == line;
    assert line[|key| + 1..] == "" && line[..|key|] == key;
  }

  lemma ValueLine(st: State, value: string)
    requires value != "" && Trimmed(value) && !HasBreak(value)
    ensures Next(st, "enforce: " + value) ==
      State(st.config.(enforce := StripValue(value) == "true" || StripValue(value) == "yes"), None)
  {
    hide Skipped, ListItem, StripValue;
    var key, tail := "enforce", " " + value;
    assert tail[|tail| - 1] == value[|value| - 1];
    KeyLine(key, tail);
    var line := "enforce: " + value;
    assert line == key + ":" + tail;
    assert line[|key| + 1..] == tail && line[..|key|] == key;
    SpaceRunIs(tail, 1);
    assert tail[1..] == value;
  }

  lemma EnforceIsRead(st: State, b: bool)
    ensures Next(st, EnforceLine(b)) == State(st.config.(enforce := b), None)
  {
    hide Next, StripValue;
    var value := if b then "true" else "false";
    assert EnforceLine(b) == "enforce: " + value;
    ValueLine(st, value);
    StripKeeps(value);
    assert forall i: nat :: i < |value| ==> value[i] != ' ';
  }

  lemma MarkerLine(st: State)
    ensures Next(st, "---") == st
  {
    TrimEndIs("---", "---");
    SpaceRunIs("---", 0);
  }

  function ReadEntries(entries: seq<string>): seq<string> {
    if entries == [] then [] else ReadEntry(entries[0]) + ReadEntries(entries[1..])
  }

  lemma {:induction false} FoldItems(st: State, entries: seq<string>)
    ensures Fold(st, ItemLines(entries)) == st.Push(ReadEntries(entries))
    decreases |entries|
  {
    hide Next, ReadEntry, State.Push;
    if entries == [] {
      PushTwice(st, [], []);
    } else {
      ItemLine(st, entries[0]);
      FoldItems(st.Push(ReadEntry(entries[0])), entries[1..]);
      assert ItemLines(entries)[1..] == ItemLines(entries[1..]);
      PushTwice(st, ReadEntry(entries[0]), ReadEntries(entries[1..]));
    }
  }

  lemma PushTwice(st: State, a: seq<string>, b: seq<string>)
    ensures st.Push(a).Push(b) == st.Push(a + b) && st.Push([]) == st
  {
  }

  lemma FoldSection(st: State, key: string, entries: seq<string>)
    requires IsKey(key)
    ensures Fold(st, [key + ":"] + ItemLines(entries)) == st.(section := SectionNamed(key)).Push(ReadEntries(entries))
  {
    hide Next, SectionNamed;
    HeaderLine(st, key);
    FoldItems(st.(section := SectionNamed(key)), entries);
    assert ([key + ":"] + ItemLines(entries))[1..] == ItemLines(entries);
  }

  /** What folding the printed lines gives, whatever the entries are. */
  lemma FoldFile(c: Config)
    ensures Fold(START, FileLines(c)).config ==
      Config(ReadEntries(c.targets), ReadEntries(c.allowed), ReadEntries(c.excluded), c.enforce)
  {
    hide Next, Fold, ItemLines, ReadEntries;
    var a := ["targets" + ":"] + ItemLines(c.targets);
    var b := ["allowed_domains" + ":"] + ItemLines(c.allowed);
    var d := ["excluded" + ":"] + ItemLines(c.excluded);
    var e := [EnforceLine(c.enforce)];
    assert "targets" + ":" == "targets:";
    assert "allowed_domains" + ":" == "allowed_domains:";
    assert "excluded" + ":" == "excluded:";
    assert FileLines(c) == ["---"] + (a + (b + (d + e)));
    var st := START;
    FoldOne(st, "---", a + (b + (d + e)));
    MarkerLine(st);
    FoldAppend(st, a, b + (d + e));
    FoldSection(st, "targets", c.targets);
    var st1 := State(Config(ReadEntries(c.targets), [], [], true), Some(Targets));
    assert Fold(st, a) == st1;
    FoldAppend(st1, b, d + e);
    FoldSection(st1, "allowed_domains", c.allowed);
    var st2 := State(Config(ReadEntries(c.targets), ReadEntries(c.allowed), [], true), Some(Allowed));
    assert Fold(st1, b) == st2;
    FoldAppend(st2, d, e);
    FoldSection(st2, "excluded", c.excluded);
    var read := Config(ReadEntries(c.targets), ReadEntries(c.allowed), ReadEntries(c.excluded), true);
    var st3 := State(read, Some(Excluded));
    assert Fold(st2, d) == st3;
    FoldOne(st3, EnforceLine(c.enforce), []);
    FoldNone(Next(st3, EnforceLine(c.enforce)));
    EnforceIsRead(st3, c.enforce);
    assert e == [EnforceLine(c.enforce)] + [];
  }

  lemma FoldOne(st: State, line: string, rest: seq<string>)
    ensures Fold(st, [line] + rest) == Fold(Next(st, line), rest)
  {
    assert ([line] + rest)[1..] == rest;
  }

  lemma FoldNone(st: State)
    ensures Fold(st, []) == st
  {
  }

  // The round trip

  predicate OneLineEach(entries: seq<string>) { forall i :: 0 <= i < |entries| ==> '\n' !in entries[i] }

  predicate OneLineConfig(c: Config) { OneLineEach(c.targets) && OneLineEach(c.allowed) && OneLineEach(c.excluded) }

  predicate AllClean(entries: seq<string>) { forall i :: 0 <= i < |entries| ==> Clean(entries[i]) }

  predicate CleanConfig(c: Config) { AllClean(c.targets) && AllClean(c.allowed) && AllClean(c.excluded) }

  lemma LinesAreLines(c: Config)
    requires OneLineConfig(c)
    ensures Split(Join(FileLines(c), '\n'), '\n') == FileLines(c)
  {
    ItemsAreLines(c.targets);
    ItemsAreLines(c.allowed);
    ItemsAreLines(c.excluded);
    hide ItemLines;
    assert OneLineEach(["---"] + ["targets:"]) && OneLineEach(["allowed_domains:"]) && OneLineEach(["excluded:"]);
    assert OneLineEach([EnforceLine(c.enforce)]);
    assert OneLineEach(FileLines(c));
    SplitJoin(FileLines(c), '\n');
  }

  lemma ItemsAreLines(entries: seq<string>)
    requires OneLineEach(entries)
    ensures OneLineEach(ItemLines(entries))
  {
  }

  lemma {:induction false} ReadEntriesExactly(entries: seq<string>)
    ensures |ReadEntries(entries)| <= |entries|
    ensures ReadEntries(entries) == entries <==> AllClean(entries)
    decreases |entries|
  {
    hide ReadEntry, Clean;
    if entries == [] {
    } else {
      var e, tail := entries[0], entries[1..];
      ReadEntriesExactly(tail);
      ReadEntryExactly(e);
      ReadEntrySize(e);
      assert entries == [e] + tail;
      assert AllClean(entries) <==> Clean(e) && AllClean(tail);
      var r := ReadEntry(e) + ReadEntries(tail);
      if r == entries {
        assert |ReadEntry(e)| == 1 && ReadEntry(e) == r[..1] && ReadEntries(tail) == r[1..];
      }
    }
  }

  lemma ReadEntrySize(e: string)
    ensures |ReadEntry(e)| <= 1
  {
  }

  lemma CleanIsOneLine(c: Config)
    requires CleanConfig(c)
    ensures OneLineConfig(c)
  {
    forall e: string | Clean(e) ensures '\n' !in e {
      if i :| 0 <= i < |e| && e[i] == '\n' { assert IsBreak(e[i]); }
    }
  }

  /** Nothing the parser returns has a line feed in it. */
  lemma {:induction false} FoldOneLine(st: State, lines: seq<string>)
    requires OneLineConfig(st.config) && OneLineEach(lines)
    ensures OneLineConfig(Fold(st, lines).config)
    decreases |lines|
  {
    if lines == [] {
    } else {
      NextOneLine(st, lines[0]);
      hide Next;
      assert OneLineEach(lines[1..]);
      FoldOneLine(Next(st, lines[0]), lines[1..]);
    }
  }

  lemma NextOneLine(st: State, raw: string)
    requires OneLineConfig(st.config) && '\n' !in raw
    ensures OneLineConfig(Next(st, raw).config)
  {
    hide OneLineConfig, State.Push, Skipped, Inline, Header, Trim, StripValue, SectionNamed, IsSpace, ListItem, TrimEnd;
    var line := TrimEnd(raw);
    var item := ListItem(line);
    if item.Some? {
      ItemChars(line);
      TrimExactly(item.value);
      StripFacts(Trim(item.value));
      PushOneLine(st, StripValue(Trim(item.value)));
    }
    SameEntries(st.config);
  }

  lemma ItemChars(line: string)
    requires ListItem(line).Some?
    ensures forall c :: c in ListItem(line).value ==> c in line
  {
  }

  lemma PushOneLine(st: State, value: string)
    requires OneLineConfig(st.config) && '\n' !in value
    ensures OneLineConfig(st.Push([value]).config)
  {
  }

  lemma SameEntries(c: Config)
    ensures forall b :: OneLineConfig(c.(enforce := b)) == OneLineConfig(c)
  {
  }

  /** Parsing a saved file gives the configuration back exactly when every entry is clean. */
  lemma RoundTrip(c: Config)
    ensures Parsed(Join(FileLines(c), '\n')) == c <==> CleanConfig(c)
  {
    hide FileLines, Clean, AllClean, OneLineEach;
    if OneLineConfig(c) {
      LinesAreLines(c);
      FoldFile(c);
      ReadEntriesExactly(c.targets);
      ReadEntriesExactly(c.allowed);
      ReadEntriesExactly(c.excluded);
    } else {
      var text := Join(FileLines(c), '\n');
      SplitClean(text, '\n');
      ParsedOneLine(text);
      if CleanConfig(c) { CleanIsOneLine(c); }
    }
  }

  lemma ParsedOneLine(text: string)
    ensures OneLineConfig(Parsed(text))
  {
    SplitClean(text, '\n');
    FoldOneLine(START, Split(text, '\n'));
  }
}
