/**
 The snapshot stream: the frames the server writes (internal/httpapi/server.go:231-257)
 and the incremental reader of the page (web/src/app.ts:50-64). The format is the
 event stream of section 9.2 of the WHATWG HTML Living Standard, of which the
 reader accepts the part the server writes.
 */
module EventStream {
  import opened Basics
  import opened Lines
  import opened Strings
  import Json
  import JsonRoundTrip

  const HEAD := "event: snapshot\ndata: "

  const LIMIT := 2_000_000

  // The writer

  function Frame(body: string): string { HEAD + body + "\n\n" }

  function Stream(bodies: seq<string>): string {
    if bodies == [] then "" else Frame(bodies[0]) + Stream(bodies[1..])
  }

  lemma {:induction false} StreamSnoc(bodies: seq<string>, body: string)
    ensures Stream(bodies + [body]) == Stream(bodies) + Frame(body)
  {
    if bodies == [] {
      assert ([body])[1..] == [];
    } else {
      assert (bodies + [body])[1..] == bodies[1..] + [body];
      StreamSnoc(bodies[1..], body);
    }
  }

  /** One frame for every snapshot taken. */
  method WriteStream(bodies: seq<string>) returns (text: string)
    ensures text == Stream(bodies)
  {
    text := "";
    for i := 0 to |bodies|
      invariant text == Stream(bodies[..i])
    {
      assert bodies[..i + 1] == bodies[..i] + [bodies[i]];
      StreamSnoc(bodies[..i], bodies[i]);
      text := text + "event: snapshot\ndata: " + bodies[i] + "\n\n";
    }
    assert bodies[..|bodies|] == bodies;
  }

  // The reader

  /** Length in UTF-16 code units, which is what JavaScript counts. */
  function Utf16Length(s: string): nat {
    if s == "" then 0 else (if s[0] as int >= 0x10000 then 2 else 1) + Utf16Length(s[1..])
  }

  predicate BreakAt(s: string, i: nat) { i + 1 < |s| && s[i] == '\n' && s[i + 1] == '\n' }

  /** Position of the first empty line, -1 if there is none. */
  function FindBreak(s: string): (i: int)
    ensures i >= 0 ==> BreakAt(s, i) && forall j: nat :: j < i ==> !BreakAt(s, j)
    ensures i < 0 ==> i == -1 && forall j: nat :: !BreakAt(s, j)
  {
    if |s| < 2 then -1
    else if BreakAt(s, 0) then 0
    else
      var i := FindBreak(s[1..]);
      assert forall j: nat :: BreakAt(s, j) ==> j > 0 && BreakAt(s[1..], j - 1);
      if i < 0 then -1 else 1 + i
  }

  predicate IsData(line: string) { "data: " <= line }

  /** The first data line of a frame, without its field name. */
  function FirstData(lines: seq<string>): Option<string> {
    if lines == [] then None else if IsData(lines[0]) then Some(lines[0][6..]) else FirstData(lines[1..])
  }

  function Data(frame: string): seq<string> {
    match FirstData(Split(frame, '\n')) case None => [] case Some(body) => [body]
  }

  /** What the reader takes out of a text. */
  function Bodies(text: string): seq<string>
    decreases |text|
  {
    var end := FindBreak(text);
    if end < 0 then [] else Data(text[..end]) + Bodies(text[end + 2..])
  }

  /** What it keeps. */
  function Rest(text: string): string
    decreases |text|
  {
    var end := FindBreak(text);
    if end < 0 then text else Rest(text[end + 2..])
  }

  class Reader {
    var buffer: string

    constructor ()
      ensures buffer == ""
    {
      buffer := "";
    }

    /** One chunk. Reports false when the buffer has grown too long. */
    method Feed(chunk: string) returns (ok: bool, bodies: seq<string>)
      modifies this
      ensures ok <==> Utf16Length(old(buffer) + chunk) <= 2_000_000
      ensures ok ==> bodies == Bodies(old(buffer) + chunk) && buffer == Rest(old(buffer) + chunk)
      ensures !ok ==> bodies == [] && buffer == old(buffer) + chunk
    {
      ghost var all := buffer + chunk;
      bodies := [];
      buffer := buffer + chunk;
      ok := Utf16Length(buffer) <= LIMIT;
      if !ok { return; }
      hide Bodies, Rest, Data, BreakAt;
      var end := FindBreak(buffer);
      while end >= 0
        invariant end == FindBreak(buffer)
        invariant Bodies(all) == bodies + Bodies(buffer) && Rest(all) == Rest(buffer)
        decreases |buffer|
      {
        TakeFrame(buffer, end);
        var frame := buffer[..end];
        buffer := buffer[end + 2..];
        bodies := bodies + Data(frame);
        end := FindBreak(buffer);
      }
      NoFrame(buffer);
    }

    /** The read loop: all chunks, up to the first one that makes the buffer too long. */
    method Consume(chunks: seq<string>) returns (read: nat, bodies: seq<string>)
      requires buffer == ""
      modifies this
      ensures read <= |chunks| && (forall k :: 0 <= k < read ==> Fits(chunks, k))
      ensures (read < |chunks| ==> !Fits(chunks, read))
      ensures bodies == Bodies(Concat(chunks[..read]))
      ensures read == |chunks| ==> buffer == Rest(Concat(chunks))
    {
      hide Bodies, Rest, Concat, Fits;
      bodies, read := [], 0;
      NothingRead();
      while read < |chunks|
        invariant read <= |chunks| && forall k :: 0 <= k < read ==> Fits(chunks, k)
        invariant bodies == Bodies(Concat(chunks[..read])) && buffer == Rest(Concat(chunks[..read]))
      {
        ReadChunk(chunks, read);
        var ok, more := Feed(chunks[read]);
        if !ok { return; }
        bodies, read := bodies + more, read + 1;
      }
      assert chunks[..read] == chunks;
    }
  }

  lemma NothingRead()
    ensures Bodies(Concat([])) == [] && Rest(Concat([])) == ""
  {
  }

  /** One round of the read loop. */
  lemma ReadChunk(chunks: seq<string>, k: nat)
    requires k < |chunks|
    ensures Fits(chunks, k) <==> Utf16Length(Rest(Concat(chunks[..k])) + chunks[k]) <= LIMIT
    ensures Bodies(Concat(chunks[..k + 1]))
         == Bodies(Concat(chunks[..k])) + Bodies(Rest(Concat(chunks[..k])) + chunks[k])
    ensures Rest(Concat(chunks[..k + 1])) == Rest(Rest(Concat(chunks[..k])) + chunks[k])
  {
    hide Bodies, Rest, Concat, Utf16Length;
    assert chunks[..k + 1] == chunks[..k] + [chunks[k]];
    ConcatSnoc(chunks[..k], chunks[k]);
    Resume(Concat(chunks[..k]), chunks[k]);
  }

  function Concat(chunks: seq<string>): string {
    if chunks == [] then "" else Concat(chunks[..|chunks| - 1]) + chunks[|chunks| - 1]
  }

  lemma ConcatSnoc(chunks: seq<string>, chunk: string)
    ensures Concat(chunks + [chunk]) == Concat(chunks) + chunk
  {
    assert (chunks + [chunk])[..|chunks|] == chunks;
  }

  /** Chunk `k` arrives before the buffer is too long. */
  predicate Fits(chunks: seq<string>, k: nat)
    requires k < |chunks|
  {
    Utf16Length(Rest(Concat(chunks[..k])) + chunks[k]) <= LIMIT
  }

  // Chunks do not matter

  lemma TakeFrame(text: string, end: int)
    requires end == FindBreak(text) >= 0
    ensures end + 2 <= |text| && Bodies(text) == Data(text[..end]) + Bodies(text[end + 2..])
    ensures Rest(text) == Rest(text[end + 2..])
  {
  }

  lemma NoFrame(text: string)
    requires text == "" || FindBreak(text) < 0
    ensures Bodies(text) == [] && Rest(text) == text
  {
  }

  /** Reading on from what was kept gives what reading everything at once gives. */
  lemma {:induction false} Resume(a: string, b: string)
    ensures Bodies(a + b) == Bodies(a) + Bodies(Rest(a) + b)
    ensures Rest(a + b) == Rest(Rest(a) + b)
    decreases |a|
  {
    hide Bodies, Rest, Data, FindBreak, BreakAt;
    var end := FindBreak(a);
    if end >= 0 {
      TakeFrame(a, end);
      BreakStays(a, b);
      TakeFrame(a + b, end);
      Resume(a[end + 2..], b);
      assert (a + b)[end + 2..] == a[end + 2..] + b;
      assert (a + b)[..end] == a[..end];
    } else {
      NoFrame(a);
    }
  }

  lemma BreakStays(a: string, b: string)
    requires FindBreak(a) >= 0
    ensures FindBreak(a + b) == FindBreak(a)
  {
    var i, j := FindBreak(a), FindBreak(a + b);
    assert BreakAt(a + b, i);
    assert j < i ==> BreakAt(a, j);
  }

  /** What is kept holds no complete frame. */
  lemma {:induction false} RestHasNoBreak(text: string)
    ensures FindBreak(Rest(text)) < 0 && Bodies(Rest(text)) == [] && Rest(Rest(text)) == Rest(text)
    decreases |text|
  {
    var end := FindBreak(text);
    if end >= 0 { RestHasNoBreak(text[end + 2..]); }
  }

  // What the reader finds in a frame

  predicate NoData(lines: seq<string>) { forall i :: 0 <= i < |lines| ==> !("data: " <= lines[i]) }

  predicate DataAt(lines: seq<string>, k: nat) {
    k < |lines| && "data: " <= lines[k] && NoData(lines[..k])
  }

  lemma {:induction false} FirstDataAt(lines: seq<string>, k: nat)
    requires DataAt(lines, k)
    ensures FirstData(lines) == Some(lines[k][6..])
    decreases k
  {
    if k == 0 {
    } else {
      var before := lines[1..][..k - 1];
      assert lines[..k][0] == lines[0];
      forall i | 0 <= i < k - 1 ensures !("data: " <= before[i]) { assert before[i] == lines[..k][i + 1]; }
      FirstDataAt(lines[1..], k - 1);
    }
  }

  lemma {:induction false} FirstDataNone(lines: seq<string>)
    requires NoData(lines)
    ensures FirstData(lines) == None
  {
    if lines == [] {
    } else {
      forall i | 0 <= i < |lines| - 1 ensures !("data: " <= lines[1..][i]) { assert lines[1..][i] == lines[i + 1]; }
      FirstDataNone(lines[1..]);
    }
  }

  predicate FullLines(lines: seq<string>) {
    lines != [] && forall i :: 0 <= i < |lines| ==> lines[i] != "" && '\n' !in lines[i]
  }

  /** Joined lines neither hold an empty line nor end with a line feed. */
  lemma {:induction false} JoinedIsDense(lines: seq<string>)
    requires FullLines(lines)
    ensures var f := Join(lines, '\n');
      f != "" && f[0] != '\n' && f[|f| - 1] != '\n' && forall i: nat :: !BreakAt(f, i)
  {
    if |lines| == 1 {
    } else {
      var head, tail := lines[0], Join(lines[1..], '\n');
      JoinedIsDense(lines[1..]);
      var f := head + ['\n'] + tail;
      forall i: nat ensures !BreakAt(f, i) {
        assert i > |head| ==> BreakAt(f, i) ==> BreakAt(tail, i - |head| - 1);
      }
    }
  }

  /** The first empty line after dense text is the one that ends the frame. */
  lemma BreakAfter(f: string, rest: string)
    requires f != "" && f[|f| - 1] != '\n' && forall i: nat :: !BreakAt(f, i)
    ensures FindBreak(f + "\n\n" + rest) == |f|
  {
    var text := f + "\n\n" + rest;
    assert BreakAt(text, |f|);
    forall i: nat | i < |f| ensures !BreakAt(text, i) {
      assert BreakAt(text, i) && i + 1 < |f| ==> BreakAt(f, i);
    }
  }

  /** Any frame of full lines is read as its first data line, if it has one. */
  lemma AnyFrame(lines: seq<string>, rest: string)
    requires FullLines(lines)
    ensures forall k: nat :: DataAt(lines, k) ==>
      Bodies(Join(lines, '\n') + "\n\n" + rest) == [lines[k][6..]] + Bodies(rest)
    ensures NoData(lines) ==> Bodies(Join(lines, '\n') + "\n\n" + rest) == Bodies(rest)
    ensures Rest(Join(lines, '\n') + "\n\n" + rest) == Rest(rest)
  {
    hide Bodies, Rest, FirstData, NoData, BreakAt;
    var f := Join(lines, '\n');
    var text := f + "\n\n" + rest;
    JoinedIsDense(lines);
    BreakAfter(f, rest);
    TakeFrame(text, |f|);
    assert text[..|f|] == f && text[|f| + 2..] == rest;
    SplitJoin(lines, '\n');
    assert [] + Bodies(rest) == Bodies(rest);
    if NoData(lines) { FirstDataNone(lines); }
    forall k: nat | DataAt(lines, k) ensures FirstData(lines) == Some(lines[k][6..]) {
      FirstDataAt(lines, k);
    }
  }

  /** Two units for the characters beyond the first plane, one for the others. */
  lemma {:induction false} Utf16Exactly(s: string)
    ensures Utf16Length(s) == |s| + From(s, 0x10000)
  {
    if s == "" {
    } else {
      Utf16Exactly(s[1..]);
    }
  }

  // The round trip

  function FirstLine(body: string): string { body[..Find(body, '\n')] }

  lemma BreakInFrame(body: string, rest: string)
    ensures var end := FindBreak(Frame(body) + rest);
      |HEAD| + Find(body, '\n') <= end <= |HEAD| + |body| && ('\n' !in body ==> end == |HEAD| + |body|)
  {
    var text, k := Frame(body) + rest, Find(body, '\n');
    assert BreakAt(text, |HEAD| + |body|);
    forall i: nat | i < |HEAD| + k ensures !BreakAt(text, i) {
      if i < |HEAD| {
        assert text[i] == HEAD[i] && (i == 15 ==> text[i + 1] == HEAD[16]);
      } else {
        assert text[i] == body[i - |HEAD|] && body[i - |HEAD|] in body[..k];
      }
    }
    if '\n' !in body { assert k == |body|; }
  }

  lemma FindFirstData(event: string, data: string, more: seq<string>)
    requires !IsData(event) && IsData(data)
    ensures FirstData([event] + ([data] + more)) == Some(data[6..])
  {
    assert ([event] + ([data] + more))[1..] == [data] + more;
  }

  lemma DataOfFrame(line: string, tail: string)
    requires '\n' !in line && (tail == "" || tail[0] == '\n')
    ensures Data(HEAD + line + tail) == [line]
  {
    hide Split;
    var event, data := "event: snapshot", "data: " + line;
    assert HEAD + line + tail == event + "\n" + (data + tail);
    SplitFirst(event, '\n', data + tail);
    var more := Split(data + tail, '\n');
    if tail == "" {
      assert data + tail == data;
      SplitFirst(data, '\n', "");
    } else {
      assert data + tail == data + "\n" + tail[1..];
      SplitFirst(data, '\n', tail[1..]);
    }
    assert more == [data] + more[1..];
    assert event[0] != 'd';
    FindFirstData(event, data, more[1..]);
  }

  lemma FrameShape(head: string, body: string, rest: string, end: int) returns (tail: string)
    requires |head| + Find(body, '\n') <= end <= |head| + |body|
    ensures (head + body + rest)[..end] == head + FirstLine(body) + tail && (tail == "" || tail[0] == '\n')
  {
    hide Find;
    var k, m := Find(body, '\n'), end - |head|;
    tail := body[k..m];
    assert body[..m] == body[..k] + tail;
    assert (head + body + rest)[..end] == head + FirstLine(body) + tail;
  }

  /** The first line of a body is all the reader takes of it. */
  lemma FrameGivesFirstLine(body: string, rest: string)
    ensures var end := FindBreak(Frame(body) + rest);
      0 <= end <= |Frame(body) + rest| && Data((Frame(body) + rest)[..end]) == [FirstLine(body)]
  {
    BreakInFrame(body, rest);
    hide FindBreak, Data, BreakAt;
    var end := FindBreak(Frame(body) + rest);
    var tail := FrameShape(HEAD, body, "\n\n" + rest, end);
    assert Frame(body) + rest == HEAD + body + ("\n\n" + rest);
    DataOfFrame(FirstLine(body), tail);
  }

  /** A frame with a one-line body is taken whole. */
  lemma FrameIsTaken(body: string, rest: string)
    requires '\n' !in body
    ensures Bodies(Frame(body) + rest) == [body] + Bodies(rest)
    ensures Rest(Frame(body) + rest) == Rest(rest)
  {
    hide Bodies, Rest, Data, FindBreak, BreakAt;
    BreakInFrame(body, rest);
    FrameGivesFirstLine(body, rest);
    TakeFrame(Frame(body) + rest, |HEAD| + |body|);
    assert (Frame(body) + rest)[|HEAD| + |body| + 2..] == rest;
    assert FirstLine(body) == body;
  }

  predicate AllOneLine(bodies: seq<string>) { forall i :: 0 <= i < |bodies| ==> '\n' !in bodies[i] }

  lemma {:induction false} ReadBack(bodies: seq<string>)
    requires AllOneLine(bodies)
    ensures Bodies(Stream(bodies)) == bodies && Rest(Stream(bodies)) == ""
  {
    hide Bodies, Rest, Frame;
    if bodies == [] {
      NoFrame("");
    } else {
      ReadBack(bodies[1..]);
      FrameIsTaken(bodies[0], Stream(bodies[1..]));
    }
  }

  /** The stream reads back as written exactly when no body has a line break. */
  lemma {:induction false} ReadBackExactly(bodies: seq<string>)
    ensures Bodies(Stream(bodies)) == bodies <==> AllOneLine(bodies)
  {
    hide Frame, Data;
    if bodies == [] {
    } else {
      var rest := Stream(bodies[1..]);
      if '\n' in bodies[0] {
        FrameGivesFirstLine(bodies[0], rest);
        assert Bodies(Stream(bodies))[0] == FirstLine(bodies[0]) != bodies[0];
      } else {
        ReadBackExactly(bodies[1..]);
        FrameIsTaken(bodies[0], rest);
        assert Bodies(Stream(bodies))[1..] == Bodies(rest);
        assert AllOneLine(bodies) <==> AllOneLine(bodies[1..]) by {
          assert forall i :: 0 < i < |bodies| ==> bodies[i] == bodies[1..][i - 1];
        }
      }
    }
  }

  // Any chunks, any prefix

  lemma PartialFrame(body: string, text: string)
    requires '\n' !in body && text < Frame(body)
    ensures FindBreak(text) < 0
  {
    BreakInFrame(body, "");
    assert Frame(body) + "" == Frame(body);
    forall j: nat ensures !BreakAt(text, j) {
      assert BreakAt(text, j) ==> BreakAt(Frame(body), j);
    }
  }

  lemma PrefixSplit(a: string, b: string, text: string)
    requires text <= a + b
    ensures if |text| < |a| then text < a else text[..|a|] == a && text[|a|..] <= b && text == a + text[|a|..]
  {
    assert text == (a + b)[..|text|];
    if |text| < |a| {
      assert text == a[..|text|];
    } else {
      assert text[..|a|] == a && text[|a|..] == b[..|text| - |a|];
    }
  }

  /** Having received part of a stream the reader holds part of one frame and has given the bodies before it. */
  lemma {:induction false} PartialStream(bodies: seq<string>, text: string) returns (n: nat)
    requires AllOneLine(bodies) && text <= Stream(bodies)
    ensures n <= |bodies| && Bodies(text) == bodies[..n] && text == Stream(bodies[..n]) + Rest(text)
    ensures if n < |bodies| then Rest(text) < Frame(bodies[n]) else Rest(text) == ""
  {
    hide Bodies, Rest, FindBreak, BreakAt, Frame;
    if bodies == [] {
      n := 0;
      NoFrame("");
    } else {
      var frame := Frame(bodies[0]);
      PrefixSplit(frame, Stream(bodies[1..]), text);
      if |text| < |frame| {
        n := 0;
        PartialFrame(bodies[0], text);
        NoFrame(text);
      } else {
        var m := PartialStream(bodies[1..], text[|frame|..]);
        FrameIsTaken(bodies[0], text[|frame|..]);
        n := m + 1;
        StreamPrefix(bodies, m);
      }
    }
  }

  lemma StreamPrefix(bodies: seq<string>, m: nat)
    requires m + 1 <= |bodies|
    ensures bodies[..m + 1] == [bodies[0]] + bodies[1..][..m]
    ensures Stream(bodies[..m + 1]) == Frame(bodies[0]) + Stream(bodies[1..][..m])
  {
    hide Frame;
    assert bodies[..m + 1][1..] == bodies[1..][..m];
  }

  /** No chunk is ever too long if a frame and a chunk together fit. */
  lemma RoomForFrames(bodies: seq<string>, chunks: seq<string>, k: nat)
    requires AllOneLine(bodies) && Concat(chunks) <= Stream(bodies) && k < |chunks|
    requires forall i :: 0 <= i < |bodies| ==> Utf16Length(Frame(bodies[i])) + Utf16Length(chunks[k]) <= LIMIT
    ensures Fits(chunks, k)
  {
    hide Rest, Concat, Frame, Utf16Length, AllOneLine, Stream;
    var rest := Rest(Concat(chunks[..k]));
    ConcatPrefix(chunks, k);
    var n := PartialStream(bodies, Concat(chunks[..k]));
    if bodies == [] {
      EmptyStream();
      NothingSent(chunks, k);
    } else {
      PrefixFits(rest, Frame(bodies[if n < |bodies| then n else 0]), chunks[k]);
    }
  }

  lemma EmptyStream()
    ensures Stream([]) == ""
  {
  }

  lemma PrefixFits(rest: string, frame: string, chunk: string)
    requires rest <= frame && Utf16Length(frame) + Utf16Length(chunk) <= LIMIT
    ensures Utf16Length(rest + chunk) <= LIMIT
  {
    hide Utf16Length;
    Utf16Append(rest, chunk);
    Utf16Append(rest, frame[|rest|..]);
    assert rest + frame[|rest|..] == frame;
  }

  lemma NothingSent(chunks: seq<string>, k: nat)
    requires Concat(chunks) == "" && k < |chunks|
    ensures Fits(chunks, k)
  {
    hide Concat;
    ConcatPrefix(chunks, k + 1);
    ConcatPrefix(chunks, k);
    assert chunks[..k + 1] == chunks[..k] + [chunks[k]];
    ConcatSnoc(chunks[..k], chunks[k]);
  }

  lemma {:induction false} ConcatPrefix(chunks: seq<string>, k: nat)
    requires k <= |chunks|
    ensures Concat(chunks[..k]) <= Concat(chunks)
  {
    if k < |chunks| {
      ConcatPrefix(chunks[..|chunks| - 1], k);
      assert chunks[..|chunks| - 1][..k] == chunks[..k];
    } else {
      assert chunks[..k] == chunks;
    }
  }

  lemma {:induction false} Utf16Append(a: string, b: string)
    ensures Utf16Length(a + b) == Utf16Length(a) + Utf16Length(b)
  {
    if a == "" {
      assert a + b == b;
    } else {
      assert (a + b)[1..] == a[1..] + b;
      Utf16Append(a[1..], b);
    }
  }

  /** One-line JSON texts of the given values, with their fields in any order. */
  predicate Texts(bodies: seq<string>, values: seq<Json.Value>) {
    && |bodies| == |values| && AllOneLine(bodies)
    && forall i :: 0 <= i < |values| ==> Json.Decode(bodies[i]) == Json.Decoded(values[i])
  }

  /** The printer gives such texts. */
  lemma PrintedTexts(values: seq<Json.Value>)
    requires forall i :: 0 <= i < |values| ==> JsonRoundTrip.WellFormed(values[i])
    ensures Texts(seq(|values|, i requires 0 <= i < |values| => Json.Marshal(values[i])), values)
  {
    hide JsonRoundTrip.WellFormed, Json.Marshal, Json.Decode;
    var bodies := seq(|values|, i requires 0 <= i < |values| => Json.Marshal(values[i]));
    forall i | 0 <= i < |values| ensures '\n' !in bodies[i] && Json.Decode(bodies[i]) == Json.Decoded(values[i]) {
      MarshalOneLine(values[i]);
      JsonRoundTrip.DecodeMarshal(values[i]);
    }
  }

  lemma MarshalOneLine(v: Json.Value)
    requires JsonRoundTrip.WellFormed(v)
    ensures '\n' !in Json.Marshal(v)
  {
    hide JsonRoundTrip.WellFormed;
    JsonRoundTrip.PrintOneLine(v, "");
  }

  /** Snapshots sent in any chunks that fit beside a frame are all read, in order, and decode to the values sent. */
  method ReceiveSnapshots(chunks: seq<string>, ghost sent: seq<string>, ghost values: seq<Json.Value>)
    returns (read: nat, bodies: seq<string>)
    requires Texts(sent, values) && Concat(chunks) == Stream(sent)
    requires forall i, k :: 0 <= i < |sent| && 0 <= k < |chunks| ==>
      Utf16Length(Frame(sent[i])) + Utf16Length(chunks[k]) <= LIMIT
    ensures read == |chunks| && |bodies| == |values|
    ensures forall i :: 0 <= i < |values| ==> Json.Decode(bodies[i]) == Json.Decoded(values[i])
  {
    hide Bodies, Rest, Concat, Fits, Frame, Stream, Utf16Length;
    forall k | 0 <= k < |chunks| ensures Fits(chunks, k) { RoomForFrames(sent, chunks, k); }
    ReadBack(sent);
    var reader := new Reader();
    read, bodies := reader.Consume(chunks);
    assert chunks[..read] == chunks;
  }
}
