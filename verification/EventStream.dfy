/**
 The incremental event-stream parser of the frontend (hooks/useSSE.ts), a subset
 of the HTML Living Standard, section 9.2.6. Decoded text arrives in chunks that
 may end anywhere, also inside a line.
 */
module EventStream {

  /** What `JSON.parse` and the callbacks make of one event's data. */
  datatype Verdict = Malformed | Accepted | Failed(code: string, message: string)

  type Judge = string -> Verdict

  datatype Action =
    | Heartbeat
    | Lifecycle(event: string, data: string)
    | Dropped
    | Event(data: string)
    | StreamError(code: string, message: string)
    | LastEventId(id: string)

  /** The loop's local variables, and everything it has done so far. */
  datatype State = State(
    buffer: string,
    event: string,
    id: string,
    data: string,
    actions: seq<Action>,
    stopped: bool)

  const INITIAL := State("", "", "", "", [], false)

  // ------------------------------------------------------------------- text

  /** JavaScript white space and line terminators, as `trim` removes them. */
  predicate IsSpace(c: char)
  {
    c as int in {0x09, 0x0A, 0x0B, 0x0C, 0x0D, 0x20, 0xA0, 0x1680, 0x2028, 0x2029, 0x202F, 0x205F, 0x3000, 0xFEFF}
    || 0x2000 <= c as int <= 0x200A
  }

  function TrimLeft(s: string): string
  {
    if s != [] && IsSpace(s[0]) then TrimLeft(s[1..]) else s
  }

  function TrimRight(s: string): string
  {
    if s != [] && IsSpace(s[|s| - 1]) then TrimRight(s[..|s| - 1]) else s
  }

  function Trim(s: string): string
  {
    TrimRight(TrimLeft(s))
  }

  predicate StartsWith(s: string, prefix: string)
  {
    |prefix| <= |s| && s[..|prefix|] == prefix
  }

  /** One carriage return at the end of a line is not part of it. */
  function StripReturn(s: string): string
  {
    if s != [] && s[|s| - 1] == '\r' then s[..|s| - 1] else s
  }

  // ------------------------------------------------------------------ lines

  predicate IsTerminalCode(code: string)
  {
    code in {"MISSING_AUTH", "INVALID_SIGNATURE", "INSUFFICIENT_SCOPE", "NOT_FOUND"}
  }

  predicate IsLifecycle(event: string)
  {
    event in {"stream_open", "stream_resumed", "stream_closed", "stream_dropped"}
  }

  /** What a complete event does, and whether it ends the stream for good. */
  function React(judge: Judge, event: string, data: string): (seq<Action>, bool)
  {
    if IsLifecycle(event) then
      ([Lifecycle(event, data)] + (if event == "stream_dropped" then [Dropped] else []), false)
    else
      match judge(data)
      case Malformed => ([], false)
      case Accepted => ([Event(data)], false)
      case Failed(code, message) => ([Event(data), StreamError(code, message)], IsTerminalCode(code))
  }

  /** An empty line dispatches the event collected so far. */
  function DispatchEvent(judge: Judge, s: State): State
  {
    if s.event == "" && s.data == "" then s
    else
      var (actions, terminal) := React(judge, if s.event == "" then "message" else s.event, s.data);
      if terminal then s.(actions := s.actions + actions, stopped := true)
      else
        State(s.buffer, "", "", "",
              s.actions + actions + (if s.id == "" then [] else [LastEventId(s.id)]), false)
  }

  function TakeLine(judge: Judge, s: State, raw: string): State
  {
    var line := StripReturn(raw);
    if StartsWith(line, ":") then s.(actions := s.actions + [Heartbeat])
    else if line == "" then DispatchEvent(judge, s)
    else if StartsWith(line, "id:") then s.(id := Trim(line[3..]))
    else if StartsWith(line, "event:") then s.(event := Trim(line[6..]))
    else if StartsWith(line, "data:") then
      s.(data := if s.data == "" then Trim(line[5..]) else s.data + "\n" + Trim(line[5..]))
    else s
  }

  /** Lines in order, until one of them stops the stream. */
  function TakeLines(judge: Judge, s: State, lines: seq<string>): State
    decreases |lines|
  {
    if lines == [] || s.stopped then s else TakeLines(judge, TakeLine(judge, s, lines[0]), lines[1..])
  }

  /** `text.split("\n")`: always at least one part, the last without a line feed. */
  function Split(text: string): (r: seq<string>)
    ensures |r| >= 1
  {
    if text == "" then [""]
    else
      var rest := Split(text[1..]);
      if text[0] == '\n' then [""] + rest else [[text[0]] + rest[0]] + rest[1..]
  }

  /** One chunk as the read loop takes it: append, split, keep the last part, process the rest. */
  function Feed(judge: Judge, s: State, chunk: string): State
  {
    if s.stopped then s
    else
      var parts := Split(s.buffer + chunk);
      TakeLines(judge, s.(buffer := parts[|parts| - 1]), parts[..|parts| - 1])
  }

  function FeedAll(judge: Judge, s: State, chunks: seq<string>): State
    decreases |chunks|
  {
    if chunks == [] then s else FeedAll(judge, Feed(judge, s, chunks[0]), chunks[1..])
  }

  // ------------------------------------------- the same, one character at a time

  /** The reference: a line is processed at the moment its line feed arrives. */
  function Step(judge: Judge, s: State, c: char): State
  {
    if s.stopped then s
    else if c == '\n' then TakeLine(judge, s.(buffer := ""), s.buffer)
    else s.(buffer := s.buffer + [c])
  }

  function Steps(judge: Judge, s: State, text: string): State
    decreases |text|
  {
    if text == "" then s else Steps(judge, Step(judge, s, text[0]), text[1..])
  }

  /** Equal but for the text left in the buffer of a stopped stream, which nothing reads. */
  predicate Alike(a: State, b: State)
  {
    a.(buffer := "") == b.(buffer := "") && (a.buffer == b.buffer || a.stopped)
  }

  lemma {:induction false} StepsAdd(judge: Judge, s: State, a: string, b: string)
    ensures Steps(judge, s, a + b) == Steps(judge, Steps(judge, s, a), b)
    decreases |a|
  {
    if a == "" {
      assert a + b == b;
    } else {
      assert (a + b)[1..] == a[1..] + b;
      StepsAdd(judge, Step(judge, s, a[0]), a[1..], b);
    }
  }

  lemma {:induction false} StepsStay(judge: Judge, s: State, text: string)
    requires s.stopped
    ensures Steps(judge, s, text) == s
  {
    if text != "" { StepsStay(judge, s, text[1..]); }
  }

  lemma {:induction false} SplitOfPlain(text: string)
    requires '\n' !in text
    ensures Split(text) == [text]
  {
    if text != "" {
      SplitOfPlain(text[1..]);
      assert text == [text[0]] + text[1..];
    }
  }

  /** Splitting after a first line that is already known. */
  lemma {:induction false} SplitAtFeed(line: string, rest: string)
    requires '\n' !in line
    ensures Split(line + "\n" + rest) == [line] + Split(rest)
  {
    var text := line + "\n" + rest;
    if line == "" {
      assert text[1..] == rest;
      assert [""] + Split(rest) == [line] + Split(rest);
    } else {
      assert text[1..] == line[1..] + "\n" + rest;
      SplitAtFeed(line[1..], rest);
      assert line == [line[0]] + line[1..];
    }
  }

  lemma FirstFeed(text: string) returns (line: string, rest: string)
    requires '\n' in text
    ensures '\n' !in line && text == line + "\n" + rest
  {
    if text[0] == '\n' {
      line, rest := "", text[1..];
    } else {
      assert text == [text[0]] + text[1..];
      line, rest := FirstFeed(text[1..]);
      line := [text[0]] + line;
    }
  }

  lemma {:induction false} StepsOverPlain(judge: Judge, s: State, line: string)
    requires !s.stopped && '\n' !in line
    ensures Steps(judge, s, line) == s.(buffer := s.buffer + line)
    decreases |line|
  {
    if line == "" {
      assert s.buffer + line == s.buffer;
    } else {
      StepsOverPlain(judge, Step(judge, s, line[0]), line[1..]);
      assert s.buffer + line == (s.buffer + [line[0]]) + line[1..];
    }
  }

  lemma TakeLineKeepsBuffer(judge: Judge, s: State, line: string, b: string)
    ensures TakeLine(judge, s, line).buffer == s.buffer
    ensures TakeLine(judge, s.(buffer := b), line) == TakeLine(judge, s, line).(buffer := b)
  {
  }

  lemma {:induction false} TakeLinesKeepBuffer(judge: Judge, s: State, lines: seq<string>, b: string)
    ensures TakeLines(judge, s, lines).buffer == s.buffer
    ensures TakeLines(judge, s.(buffer := b), lines) == TakeLines(judge, s, lines).(buffer := b)
    decreases |lines|
  {
    if lines != [] && !s.stopped {
      TakeLineKeepsBuffer(judge, s, lines[0], b);
      TakeLinesKeepBuffer(judge, TakeLine(judge, s, lines[0]), lines[1..], b);
    }
  }

  // ------------------------------------------------------ chunking invariance

  function LastPart(text: string): string
  {
    var parts := Split(text);
    parts[|parts| - 1]
  }

  lemma {:induction false} LastPartIsPlain(text: string)
    ensures '\n' !in LastPart(text)
    decreases |text|
  {
    if '\n' in text {
      var line, rest := FirstFeed(text);
      DropLine(line, rest);
      hide LastPart;
      LastPartIsPlain(rest);
    } else {
      PlainIsLast(text);
    }
  }

  function WholeLines(text: string): seq<string>
  {
    Split(text)[..|Split(text)| - 1]
  }

  lemma FirstLineSplits(line: string, rest: string)
    requires '\n' !in line
    ensures WholeLines(line + "\n" + rest) == [line] + WholeLines(rest)
    ensures LastPart(line + "\n" + rest) == LastPart(rest)
  {
    SplitAtFeed(line, rest);
  }

  lemma TakeFirstLine(judge: Judge, s: State, line: string, lines: seq<string>)
    requires !s.stopped
    ensures TakeLines(judge, s, [line] + lines) == TakeLines(judge, TakeLine(judge, s, line), lines)
  {
    hide TakeLine;
    assert ([line] + lines)[1..] == lines;
  }

  lemma TakeNoLines(judge: Judge, s: State, lines: seq<string>)
    ensures TakeLines(judge, s, []) == s
    ensures s.stopped ==> TakeLines(judge, s, lines) == s
  {
  }

  /** Processing the split lines is processing the characters, starting from an empty buffer. */
  lemma {:induction false} LinesAreSteps(judge: Judge, s: State, text: string)
    requires !s.stopped && s.buffer == ""
    ensures Alike(TakeLines(judge, s.(buffer := LastPart(text)), WholeLines(text)), Steps(judge, s, text))
    decreases |text|
  {
    hide TakeLine;
    hide TakeLines;
    hide Steps;
    if '\n' !in text {
      SplitOfPlain(text);
      StepsOverPlain(judge, s, text);
      TakeNoLines(judge, s.(buffer := text), []);
      assert "" + text == text;
    } else {
      var line, rest := FirstFeed(text);
      FirstLineSplits(line, rest);
      hide LastPart;
      hide WholeLines;
      var first := TakeLine(judge, s, line);
      TakeLineKeepsBuffer(judge, s, line, LastPart(text));
      TakeFirstLine(judge, s.(buffer := LastPart(text)), line, WholeLines(rest));
      StepsOverFeed(judge, s, line, rest);
      if first.stopped {
        StepsStay(judge, first, rest);
        TakeNoLines(judge, first.(buffer := LastPart(text)), WholeLines(rest));
      } else {
        LinesAreSteps(judge, first, rest);
      }
    }
  }

  lemma StepsOverFeed(judge: Judge, s: State, line: string, rest: string)
    requires !s.stopped && s.buffer == "" && '\n' !in line
    ensures Steps(judge, s, line + "\n" + rest) == Steps(judge, TakeLine(judge, s, line), rest)
  {
    hide TakeLine;
    StepsAdd(judge, s, line + "\n", rest);
    StepsAdd(judge, s, line, "\n");
    StepsOverPlain(judge, s, line);
    assert "" + line == line;
    var filled := s.(buffer := line);
    assert Steps(judge, filled, "\n") == Step(judge, filled, '\n');
    assert filled.(buffer := "") == s;
  }

  /** One chunk has the effect of its characters. */
  lemma FeedIsSteps(judge: Judge, s: State, chunk: string)
    requires '\n' !in s.buffer
    ensures Alike(Feed(judge, s, chunk), Steps(judge, s, chunk))
    ensures '\n' !in Feed(judge, s, chunk).buffer
    ensures !s.stopped ==> Feed(judge, s, chunk).buffer == LastPart(s.buffer + chunk)
  {
    hide TakeLine;
    if s.stopped {
      StepsStay(judge, s, chunk);
    } else {
      var fresh', text := s.(buffer := ""), s.buffer + chunk;
      StepsAdd(judge, fresh', s.buffer, chunk);
      StepsOverPlain(judge, fresh', s.buffer);
      assert "" + s.buffer == s.buffer;
      LinesAreSteps(judge, fresh', text);
      TakeLinesKeepBuffer(judge, s.(buffer := LastPart(text)), WholeLines(text), "");
      LastPartIsPlain(text);
    }
  }

  function Concat(chunks: seq<string>): string
  {
    if chunks == [] then "" else chunks[0] + Concat(chunks[1..])
  }

  lemma {:induction false} ChunksAreSteps(judge: Judge, s: State, chunks: seq<string>)
    requires '\n' !in s.buffer
    ensures Alike(FeedAll(judge, s, chunks), Steps(judge, s, Concat(chunks)))
    decreases |chunks|
  {
    hide TakeLine;
    if chunks != [] {
      var chunk, rest := chunks[0], chunks[1..];
      FeedIsSteps(judge, s, chunk);
      var next := Feed(judge, s, chunk);
      ChunksAreSteps(judge, next, rest);
      StepsAdd(judge, s, chunk, Concat(rest));
      if next.stopped {
        StepsStay(judge, next, Concat(rest));
        StepsStay(judge, Steps(judge, s, chunk), Concat(rest));
      }
    }
  }

  /** The text of the chunks that are read before the stream stops. */
  function ReadText(judge: Judge, s: State, chunks: seq<string>): string
    decreases |chunks|
  {
    if chunks == [] || s.stopped then "" else chunks[0] + ReadText(judge, Feed(judge, s, chunks[0]), chunks[1..])
  }

  /** The text of the chunks that are left when it stops. */
  function UnreadText(judge: Judge, s: State, chunks: seq<string>): string
    decreases |chunks|
  {
    if chunks == [] then "" else if s.stopped then Concat(chunks)
    else UnreadText(judge, Feed(judge, s, chunks[0]), chunks[1..])
  }

  lemma {:induction false} ReadAndUnread(judge: Judge, s: State, chunks: seq<string>)
    ensures ReadText(judge, s, chunks) + UnreadText(judge, s, chunks) == Concat(chunks)
    ensures UnreadText(judge, s, chunks) != "" ==> FeedAll(judge, s, chunks).stopped
    decreases |chunks|
  {
    hide Feed;
    if chunks != [] {
      if s.stopped {
        StoppedFeedAll(judge, s, chunks);
        assert "" + Concat(chunks) == Concat(chunks);
      } else {
        var next := Feed(judge, s, chunks[0]);
        ReadAndUnread(judge, next, chunks[1..]);
        Associates(chunks[0], ReadText(judge, next, chunks[1..]), UnreadText(judge, next, chunks[1..]));
      }
    }
  }

  lemma Associates(a: string, b: string, c: string)
    ensures a + b + c == a + (b + c)
  {
  }

  lemma {:induction false} StoppedFeedAll(judge: Judge, s: State, chunks: seq<string>)
    requires s.stopped
    ensures FeedAll(judge, s, chunks) == s
    decreases |chunks|
  {
    if chunks != [] {
      StoppedFeed(judge, s, chunks[0]);
      StoppedFeedAll(judge, s, chunks[1..]);
    }
  }

  lemma LastPartOfPlain(a: string, b: string)
    requires '\n' !in a
    ensures LastPart(a + b) == if '\n' in b then LastPart(b) else a + b
    ensures LastPart(a) == a
  {
    hide LastPart;
    PlainIsLast(a);
    if '\n' in b {
      var line, rest := FirstFeed(b);
      DropLine(line, rest);
      DropLine(a + line, rest);
      assert a + line + "\n" + rest == a + b;
    } else {
      PlainIsLast(a + b);
    }
  }

  /** What follows the last line feed of a longer text. */
  lemma {:induction false} LastPartOfJoin(a: string, b: string)
    ensures LastPart(a + b) == if '\n' in b then LastPart(b) else LastPart(a) + b
    decreases |a|
  {
    hide LastPart;
    if '\n' in a {
      var line, rest := FirstFeed(a);
      LastPartOfJoin(rest, b);
      DropLine(line, rest);
      DropLine(line, rest + b);
      assert line + "\n" + (rest + b) == a + b;
    } else {
      LastPartOfPlain(a, b);
    }
  }

  lemma DropLine(line: string, rest: string)
    requires '\n' !in line
    ensures LastPart(line + "\n" + rest) == LastPart(rest)
  {
    SplitAtFeed(line, rest);
  }

  lemma PlainIsLast(text: string)
    requires '\n' !in text
    ensures LastPart(text) == text
  {
    SplitOfPlain(text);
  }

  /** The buffer is whatever follows the last line feed of what was read. */
  lemma {:induction false} BufferIsLastPart(judge: Judge, s: State, chunks: seq<string>)
    requires '\n' !in s.buffer
    ensures FeedAll(judge, s, chunks).buffer == LastPart(s.buffer + ReadText(judge, s, chunks))
    decreases |chunks|
  {
    hide Feed;
    hide LastPart;
    PlainIsLast(s.buffer);
    if chunks == [] || s.stopped {
      assert s.buffer + "" == s.buffer;
      if s.stopped { StoppedFeedAll(judge, s, chunks); }
    } else {
      var next := Feed(judge, s, chunks[0]);
      var more := ReadText(judge, next, chunks[1..]);
      FeedIsSteps(judge, s, chunks[0]);
      BufferIsLastPart(judge, next, chunks[1..]);
      LastPartOfJoin(s.buffer + chunks[0], more);
      LastPartOfJoin(next.buffer, more);
      PlainIsLast(next.buffer);
      Associates(s.buffer, chunks[0], more);
    }
  }

  lemma LongerIsDifferent(a: string, b: string)
    ensures a == a + b <==> b == ""
  {
    if b == "" { assert a + b == a; } else { assert |a + b| > |a|; }
  }

  /** The text left unread changes the leftover of the whole text unless it ends like what was read. */
  lemma UnreadMatters(judge: Judge, s: State, chunks: seq<string>)
    requires '\n' !in s.buffer && !s.stopped
    ensures
      var read, rest := ReadText(judge, s, chunks), UnreadText(judge, s, chunks);
      FeedAll(judge, s, chunks).buffer == Feed(judge, s, Concat(chunks)).buffer
      <==> rest == "" || ('\n' in rest && LastPart(rest) == LastPart(s.buffer + read))
  {
    hide Feed;
    hide LastPart;
    hide FeedAll;
    var read, rest := ReadText(judge, s, chunks), UnreadText(judge, s, chunks);
    hide ReadText;
    hide UnreadText;
    ReadAndUnread(judge, s, chunks);
    BufferIsLastPart(judge, s, chunks);
    FeedIsSteps(judge, s, Concat(chunks));
    Associates(s.buffer, read, rest);
    LastPartOfJoin(s.buffer + read, rest);
    LongerIsDifferent(LastPart(s.buffer + read), rest);
  }

  /**
   However the decoded text is cut into chunks, the actions, the partial event and
   the stopping point are those of feeding it in one piece.  The leftover buffer is
   the same exactly when the chunks left unread at a stop are empty or end, behind
   a line feed, with the text that the buffer held; only a stop leaves any unread.
   */
  lemma ChunkingInvariance(judge: Judge, s: State, chunks: seq<string>)
    requires '\n' !in s.buffer
    ensures var cut, whole := FeedAll(judge, s, chunks), Feed(judge, s, Concat(chunks));
      && cut.actions == whole.actions && cut.stopped == whole.stopped
      && cut.event == whole.event && cut.id == whole.id && cut.data == whole.data
    ensures UnreadText(judge, s, chunks) != "" ==> FeedAll(judge, s, chunks).stopped
    ensures !s.stopped ==>
      var read, rest := ReadText(judge, s, chunks), UnreadText(judge, s, chunks);
      && Concat(chunks) == read + rest
      && (FeedAll(judge, s, chunks).buffer == Feed(judge, s, Concat(chunks)).buffer
          <==> rest == "" || ('\n' in rest && LastPart(rest) == LastPart(s.buffer + read)))
    ensures s.stopped ==> FeedAll(judge, s, chunks) == Feed(judge, s, Concat(chunks))
  {
    hide LastPart;
    ReadAndUnread(judge, s, chunks);
    if s.stopped {
      StoppedFeedAll(judge, s, chunks);
    } else {
      hide Feed;
      ChunksAreSteps(judge, s, chunks);
      FeedIsSteps(judge, s, Concat(chunks));
      UnreadMatters(judge, s, chunks);
    }
  }

  /** A data line and an empty line. */
  const FATAL := "data:x\n\n"

  /** After a stop the leftover does depend on the cut: here it is empty, or the character "a". */
  lemma LeftoverAfterStopDepends(judge: Judge)
    requires judge("x") == Failed("NOT_FOUND", "gone")
    ensures FeedAll(judge, INITIAL, [FATAL, "a"]).stopped && Feed(judge, INITIAL, FATAL + "a").stopped
    ensures FeedAll(judge, INITIAL, [FATAL, "a"]).buffer == ""
    ensures Feed(judge, INITIAL, FATAL + "a").buffer == "a"
  {
    FatalEventStops(judge, "");
    FatalEventStops(judge, "a");
    assert FATAL + "" == FATAL;
    FeedTwo(judge, INITIAL, FATAL, "a");
  }

  lemma FeedTwo(judge: Judge, s: State, a: string, b: string)
    requires Feed(judge, s, a).stopped
    ensures FeedAll(judge, s, [a, b]) == Feed(judge, s, a)
  {
    var ended := Feed(judge, s, a);
    StoppedFeed(judge, ended, b);
    hide Feed;
    assert [a, b][1..] == [b];
    assert FeedAll(judge, ended, [b]) == FeedAll(judge, Feed(judge, ended, b), []);
  }

  lemma StoppedFeed(judge: Judge, s: State, chunk: string)
    requires s.stopped
    ensures Feed(judge, s, chunk) == s
  {
  }

  lemma TwoLinesAnd(rest: string)
    requires '\n' !in rest
    ensures Split(FATAL + rest) == ["data:x", "", rest]
    ensures LastPart(FATAL + rest) == rest
  {
    SplitOfPlain(rest);
    SplitAtFeed("", rest);
    SplitAtFeed("data:x", "\n" + rest);
    assert "" + "\n" + rest == "\n" + rest;
    assert "data:x" + "\n" + ("\n" + rest) == FATAL + rest;
  }

  lemma FatalEventStops(judge: Judge, rest: string)
    requires judge("x") == Failed("NOT_FOUND", "gone") && '\n' !in rest
    ensures Feed(judge, INITIAL, FATAL + rest).stopped
    ensures Feed(judge, INITIAL, FATAL + rest).buffer == rest
  {
    TwoLinesAnd(rest);
    var text := FATAL + rest;
    assert INITIAL.buffer + text == text;
    var start := INITIAL.(buffer := rest);
    var held := start.(data := "x");
    TakeBareData(judge, start);
    assert TakeLine(judge, held, "") == DispatchEvent(judge, held);
    var ended := DispatchEvent(judge, held);
    assert ended.stopped;
    hide TakeLine;
    assert ["data:x", "", rest][..2] == ["data:x", ""];
    assert ["data:x", ""][1..] == [""];
    assert TakeLines(judge, held, [""]) == TakeLines(judge, ended, []);
    assert TakeLines(judge, start, ["data:x", ""]) == TakeLines(judge, held, [""]);
  }

  lemma TakeBareData(judge: Judge, s: State)
    requires s.data == ""
    ensures TakeLine(judge, s, "data:x") == s.(data := "x")
  {
    assert "data:x"[5..] == "x" && Trim("x") == "x";
    assert "data:x"[..5] == "data:" && "data:x"[0] == 'd';
  }

  // -------------------------------------------------------------- round trip

  /** A text that survives `trim` and holds no line feed. */
  predicate IsField(s: string)
  {
    Trim(s) == s && '\n' !in s
  }

  function DataLines(lines: seq<string>): string
  {
    if lines == [] then "" else "data: " + lines[0] + "\n" + DataLines(lines[1..])
  }

  /** The frame the server writes for one event. */
  function Print(id: string, event: string, lines: seq<string>): string
  {
    "id: " + id + "\n" + ("event: " + event + "\n" + (DataLines(lines) + "\n"))
  }

  /** Data lines joined as the standard joins them. */
  function Join(lines: seq<string>): string
    requires lines != []
  {
    if |lines| == 1 then lines[0] else lines[0] + "\n" + Join(lines[1..])
  }

  /** Data lines joined as the parser joins them, after `data`. */
  function Gather(data: string, lines: seq<string>): string
    decreases |lines|
  {
    if lines == [] then data
    else Gather(if data == "" then lines[0] else data + "\n" + lines[0], lines[1..])
  }

  lemma {:induction false} GatherAppends(data: string, lines: seq<string>)
    requires data != "" && lines != []
    ensures Gather(data, lines) == data + "\n" + Join(lines)
    decreases |lines|
  {
    if |lines| == 1 {
      assert Gather(data, lines) == Gather(data + "\n" + lines[0], []);
    } else {
      GatherAppends(data + "\n" + lines[0], lines[1..]);
      assert data + "\n" + (lines[0] + "\n" + Join(lines[1..])) == (data + "\n" + lines[0]) + "\n" + Join(lines[1..]);
    }
  }

  lemma {:induction false} GatherIsShort(lines: seq<string>)
    requires lines != []
    ensures |Gather("", lines)| <= |Join(lines)|
    decreases |lines|
  {
    if |lines| == 1 {
      assert Gather("", lines) == Gather(lines[0], []);
    } else if lines[0] == "" {
      GatherIsShort(lines[1..]);
    } else {
      GatherAppends(lines[0], lines[1..]);
    }
  }

  /** The parser loses a leading empty data line, and only that. */
  lemma GatherIsJoinExactly(lines: seq<string>)
    requires lines != []
    ensures Gather("", lines) == Join(lines) <==> |lines| == 1 || lines[0] != ""
  {
    if |lines| == 1 {
      assert Gather("", lines) == Gather(lines[0], []);
    } else if lines[0] == "" {
      GatherIsShort(lines[1..]);
      assert Gather("", lines) == Gather("", lines[1..]);
      assert |Join(lines)| == 1 + |Join(lines[1..])|;
    } else {
      GatherAppends(lines[0], lines[1..]);
    }
  }

  /** The input: an empty line and a line "a" are gathered as "a" and joined as a line feed and "a". */
  lemma GatherInput()
    ensures Gather("", ["", "a"]) == "a" && Join(["", "a"]) == "\na"
  {
    assert ["", "a"][1..] == ["a"] && ["a"][1..] == [];
  }

  lemma {:induction false} TrimmedHasNoEdges(s: string)
    requires Trim(s) == s && s != ""
    ensures !IsSpace(s[0]) && !IsSpace(s[|s| - 1])
  {
    LeftShrinks(s);
    RightShrinks(TrimLeft(s));
  }

  lemma LeftShrinks(s: string)
    ensures |TrimLeft(s)| <= |s|
    ensures s != "" && IsSpace(s[0]) ==> |TrimLeft(s)| < |s|
  {
  }

  lemma RightShrinks(s: string)
    ensures |TrimRight(s)| <= |s|
    ensures s != "" && IsSpace(s[|s| - 1]) ==> |TrimRight(s)| < |s|
  {
  }

  lemma TrimDropsBlank(s: string)
    requires Trim(s) == s
    ensures Trim(" " + s) == s
  {
    assert (" " + s)[1..] == s;
    if s != "" { TrimmedHasNoEdges(s); }
  }

  /** A printed field line is read back into its field. */
  lemma FieldLine(name: string, value: string)
    requires IsField(value) && name in {"id:", "event:", "data:"}
    ensures var line := name + " " + value;
      '\n' !in line && StripReturn(line) == line && StartsWith(line, name) && line[|name|..] == " " + value
  {
    var line := name + " " + value;
    if value != "" { TrimmedHasNoEdges(value); }
    assert line[|line| - 1] == if value == "" then ' ' else value[|value| - 1];
    assert line[..|name|] == name && line[|name|..] == " " + value;
  }

  lemma TakeIdLine(judge: Judge, s: State, value: string)
    requires IsField(value)
    ensures TakeLine(judge, s, "id: " + value) == s.(id := value)
  {
    FieldLine("id:", value);
    TrimDropsBlank(value);
    hide Trim;
    hide StripReturn;
    hide IsField;
    assert "id:" + " " + value == "id: " + value;
    assert ("id: " + value)[0] == 'i';
  }

  lemma TakeEventLine(judge: Judge, s: State, value: string)
    requires IsField(value)
    ensures TakeLine(judge, s, "event: " + value) == s.(event := value)
  {
    FieldLine("event:", value);
    TrimDropsBlank(value);
    hide Trim;
    hide StripReturn;
    hide IsField;
    assert "event:" + " " + value == "event: " + value;
    assert ("event: " + value)[0] == 'e';
  }

  lemma TakeDataLine(judge: Judge, s: State, value: string)
    requires IsField(value)
    ensures TakeLine(judge, s, "data: " + value) == s.(data := if s.data == "" then value else s.data + "\n" + value)
  {
    FieldLine("data:", value);
    TrimDropsBlank(value);
    hide Trim;
    hide StripReturn;
    hide IsField;
    assert "data:" + " " + value == "data: " + value;
    assert ("data: " + value)[0] == 'd';
  }

  lemma {:induction false} ReadDataLines(judge: Judge, s: State, lines: seq<string>, rest: string)
    requires !s.stopped && s.buffer == "" && forall i :: 0 <= i < |lines| ==> IsField(lines[i])
    ensures Steps(judge, s, DataLines(lines) + rest) == Steps(judge, s.(data := Gather(s.data, lines)), rest)
    decreases |lines|
  {
    hide TakeLine;
    if lines == [] {
      assert DataLines(lines) + rest == rest;
    } else {
      var line := "data: " + lines[0];
      FieldLine("data:", lines[0]);
      assert "data:" + " " + lines[0] == line;
      assert DataLines(lines) + rest == line + "\n" + (DataLines(lines[1..]) + rest);
      StepsOverFeed(judge, s, line, DataLines(lines[1..]) + rest);
      TakeDataLine(judge, s, lines[0]);
      ReadDataLines(judge, TakeLine(judge, s, line), lines[1..], rest);
    }
  }

  /**
   A printed event is read back as that event: between events, its frame leads to the
   dispatch of exactly its id, its type and its data. The data are the printed lines
   joined with line feeds exactly when the first of several lines is not empty.
   */
  lemma PrintedEventIsRead(judge: Judge, s: State, id: string, event: string, lines: seq<string>)
    requires !s.stopped && s.buffer == "" && s.event == "" && s.id == "" && s.data == ""
    requires IsField(id) && IsField(event) && lines != [] && forall i :: 0 <= i < |lines| ==> IsField(lines[i])
    ensures Alike(Feed(judge, s, Print(id, event, lines)),
                  DispatchEvent(judge, s.(id := id, event := event, data := Gather("", lines))))
    ensures Gather("", lines) == Join(lines) <==> |lines| == 1 || lines[0] != ""
  {
    var frame := Print(id, event, lines);
    FeedIsSteps(judge, s, frame);
    GatherIsJoinExactly(lines);
    ReadFrame(judge, s, id, event, lines);
  }

  lemma ReadFrame(judge: Judge, s: State, id: string, event: string, lines: seq<string>)
    requires !s.stopped && s.buffer == "" && s.event == "" && s.id == "" && s.data == ""
    requires IsField(id) && IsField(event) && forall i :: 0 <= i < |lines| ==> IsField(lines[i])
    ensures Steps(judge, s, Print(id, event, lines))
         == DispatchEvent(judge, s.(id := id, event := event, data := Gather("", lines)))
  {
    hide TakeLine;
    hide DispatchEvent;
    hide Steps;
    hide Gather;
    hide IsField;
    var tail := DataLines(lines) + "\n";
    PrintedLines(id, event, lines);
    ReadIdLine(judge, s, id, "event: " + event + "\n" + tail);
    var s1 := s.(id := id);
    ReadEventLine(judge, s1, event, tail);
    var s2 := s1.(event := event);
    ReadDataLines(judge, s2, lines, "\n");
    EmptyLineDispatches(judge, s2.(data := Gather("", lines)));
  }

  lemma PrintedLines(id: string, event: string, lines: seq<string>)
    ensures Print(id, event, lines) == "id: " + id + "\n" + ("event: " + event + "\n" + (DataLines(lines) + "\n"))
  {
    hide DataLines;
  }

  lemma ReadIdLine(judge: Judge, s: State, id: string, rest: string)
    requires !s.stopped && s.buffer == "" && IsField(id)
    ensures Steps(judge, s, "id: " + id + "\n" + rest) == Steps(judge, s.(id := id), rest)
  {
    hide TakeLine;
    hide Steps;
    FieldLine("id:", id);
    assert "id:" + " " + id == "id: " + id;
    StepsOverFeed(judge, s, "id: " + id, rest);
    TakeIdLine(judge, s, id);
  }

  lemma ReadEventLine(judge: Judge, s: State, event: string, rest: string)
    requires !s.stopped && s.buffer == "" && IsField(event)
    ensures Steps(judge, s, "event: " + event + "\n" + rest) == Steps(judge, s.(event := event), rest)
  {
    hide TakeLine;
    hide Steps;
    FieldLine("event:", event);
    assert "event:" + " " + event == "event: " + event;
    StepsOverFeed(judge, s, "event: " + event, rest);
    TakeEventLine(judge, s, event);
  }

  lemma EmptyLineDispatches(judge: Judge, s: State)
    requires !s.stopped && s.buffer == ""
    ensures Steps(judge, s, "\n") == DispatchEvent(judge, s)
  {
    assert s.(buffer := "") == s;
    hide DispatchEvent;
    assert TakeLine(judge, s, "") == DispatchEvent(judge, s);
    hide TakeLine;
    assert Steps(judge, s, "\n") == Step(judge, s, '\n');
  }

  // ------------------------------------------------------- a line, written out

  ghost predicate IsBlank(s: string)
  {
    forall i :: 0 <= i < |s| ==> IsSpace(s[i])
  }

  ghost predicate SurroundedBy(before: string, t: string, after: string, v: string)
  {
    v == before + t + after && IsBlank(before) && IsBlank(after)
  }

  /** `t` is `v` without the white space around it. */
  ghost predicate IsTrimmed(v: string, t: string)
  {
    && (exists before, after :: SurroundedBy(before, t, after, v))
    && (t != "" ==> !IsSpace(t[0]) && !IsSpace(t[|t| - 1]))
  }

  /** White space is the tab to the carriage return, the blank, and their relatives by code point; nothing else. */
  lemma SpacesExactly(c: char)
    ensures IsSpace(c)
            <==> var n := c as int;
                 || 9 <= n <= 13 || n == 32 || n == 160 || n == 5760 || 8192 <= n <= 8202
                 || n == 8232 || n == 8233 || n == 8239 || n == 8287 || n == 12288 || n == 65279
  {
  }

  lemma {:induction false} LeftExactly(v: string) returns (before: string)
    ensures v == before + TrimLeft(v) && IsBlank(before)
    ensures TrimLeft(v) != "" ==> !IsSpace(TrimLeft(v)[0])
  {
    hide IsSpace;
    before := "";
    if v != "" && IsSpace(v[0]) {
      var rest := LeftExactly(v[1..]);
      before := [v[0]] + rest;
      assert v == [v[0]] + v[1..];
    }
  }

  lemma {:induction false} RightExactly(v: string) returns (after: string)
    ensures v == TrimRight(v) + after && IsBlank(after)
    ensures TrimRight(v) != "" ==> !IsSpace(TrimRight(v)[|TrimRight(v)| - 1])
  {
    hide IsSpace;
    after := "";
    if v != "" && IsSpace(v[|v| - 1]) {
      var rest := RightExactly(v[..|v| - 1]);
      after := rest + [v[|v| - 1]];
      assert v == v[..|v| - 1] + [v[|v| - 1]];
    }
  }

  lemma TrimExactly(v: string)
    ensures IsTrimmed(v, Trim(v))
  {
    hide TrimLeft;
    hide TrimRight;
    hide IsSpace;
    var before := LeftExactly(v);
    var after := RightExactly(TrimLeft(v));
    assert v == before + Trim(v) + after;
    assert SurroundedBy(before, Trim(v), after, v);
    if Trim(v) != "" { assert TrimLeft(v)[0] == Trim(v)[0]; }
  }

  /** The end of the collected event: its id is remembered, and id, type and data start afresh. */
  ghost predicate IsCleared(s: State, actions: seq<Action>, next: State)
  {
    && next.buffer == s.buffer && next.event == "" && next.id == "" && next.data == "" && !next.stopped
    && (s.id == "" ==> next.actions == s.actions + actions)
    && (s.id != "" ==> next.actions == s.actions + actions + [LastEventId(s.id)])
  }

  /** An empty line: what the event's type and the verdict on its data make of it. */
  ghost predicate IsDispatched(judge: Judge, s: State, next: State)
  {
    var kind, verdict := if s.event == "" then "message" else s.event, judge(s.data);
    var lifecycle := kind == "stream_open" || kind == "stream_resumed" || kind == "stream_closed" || kind == "stream_dropped";
    && (s.event == "" && s.data == "" ==> next == s)
    && (s.event != "" || s.data != "" ==>
          && (lifecycle && kind != "stream_dropped" ==> IsCleared(s, [Lifecycle(kind, s.data)], next))
          && (kind == "stream_dropped" ==> IsCleared(s, [Lifecycle(kind, s.data), Dropped], next))
          && (!lifecycle && verdict.Malformed? ==> IsCleared(s, [], next))
          && (!lifecycle && verdict.Accepted? ==> IsCleared(s, [Event(s.data)], next))
          && (!lifecycle && verdict.Failed? ==>
                var errors := [Event(s.data), StreamError(verdict.code, verdict.message)];
                if verdict.code == "MISSING_AUTH" || verdict.code == "INVALID_SIGNATURE"
                   || verdict.code == "INSUFFICIENT_SCOPE" || verdict.code == "NOT_FOUND"
                then next == s.(actions := s.actions + errors, stopped := true)
                else IsCleared(s, errors, next)))
  }

  lemma DispatchExactly(judge: Judge, s: State)
    requires !s.stopped
    ensures IsDispatched(judge, s, DispatchEvent(judge, s))
  {
    if s.event != "" || s.data != "" {
      ReactExactly(judge, if s.event == "" then "message" else s.event, s.data);
      hide React;
      var (actions, terminal) := React(judge, if s.event == "" then "message" else s.event, s.data);
      if !terminal { ClearedExactly(s, actions, DispatchEvent(judge, s)); }
    }
  }

  lemma ClearedExactly(s: State, actions: seq<Action>, next: State)
    requires next == State(s.buffer, "", "", "", s.actions + actions + (if s.id == "" then [] else [LastEventId(s.id)]), false)
    ensures IsCleared(s, actions, next)
  {
  }

  lemma ReactExactly(judge: Judge, kind: string, data: string)
    ensures var verdict := judge(data);
      var lifecycle := kind == "stream_open" || kind == "stream_resumed" || kind == "stream_closed" || kind == "stream_dropped";
      && (lifecycle && kind != "stream_dropped" ==> React(judge, kind, data) == ([Lifecycle(kind, data)], false))
      && (kind == "stream_dropped" ==> React(judge, kind, data) == ([Lifecycle(kind, data), Dropped], false))
      && (!lifecycle && verdict.Malformed? ==> React(judge, kind, data) == ([], false))
      && (!lifecycle && verdict.Accepted? ==> React(judge, kind, data) == ([Event(data)], false))
      && (!lifecycle && verdict.Failed? ==>
            React(judge, kind, data)
            == ([Event(data), StreamError(verdict.code, verdict.message)],
                verdict.code == "MISSING_AUTH" || verdict.code == "INVALID_SIGNATURE"
                || verdict.code == "INSUFFICIENT_SCOPE" || verdict.code == "NOT_FOUND"))
  {
    var lifecycle := Lifecycle(kind, data);
    assert [lifecycle] + [] == [lifecycle] && [lifecycle] + [Dropped] == [lifecycle, Dropped];
  }

  /** `line` is the raw line without one carriage return at its end. */
  ghost predicate IsLineOf(line: string, raw: string)
  {
    raw == line + "\r" || (raw == line && (raw == "" || raw[|raw| - 1] != '\r'))
  }

  lemma ReturnExactly(raw: string)
    ensures IsLineOf(StripReturn(raw), raw)
  {
    if raw != "" && raw[|raw| - 1] == '\r' { assert raw == raw[..|raw| - 1] + "\r"; }
  }

  /** The line is the field's name and `v`. */
  ghost predicate IsFieldLine(line: string, name: string, v: string)
  {
    line == name + v
  }

  /** One line: a comment, the end of an event, an id, a type, data, or nothing the parser knows. */
  ghost predicate IsTaken(judge: Judge, s: State, line: string, next: State)
  {
    && (line != "" && line[0] == ':' ==> next == s.(actions := s.actions + [Heartbeat]))
    && (line == "" ==> IsDispatched(judge, s, next))
    && (forall v :: IsFieldLine(line, "id:", v) ==> next == s.(id := next.id) && IsTrimmed(v, next.id))
    && (forall v :: IsFieldLine(line, "event:", v) ==> next == s.(event := next.event) && IsTrimmed(v, next.event))
    && (forall v :: IsFieldLine(line, "data:", v) ==> IsDataTaken(s, v, next))
    && (IsNoField(line) ==> next == s)
  }

  /** The first data line of an event, or a further one behind a line feed. */
  ghost predicate IsDataTaken(s: State, v: string, next: State)
  {
    exists t :: IsTrimmed(v, t) && next == s.(data := if s.data == "" then t else s.data + "\n" + t)
  }

  lemma FieldExactly(line: string, name: string)
    requires name == "id:" || name == "event:" || name == "data:"
    ensures StartsWith(line, name) ==> line != "" && line[0] == name[0] && IsFieldLine(line, name, line[|name|..])
    ensures forall v :: IsFieldLine(line, name, v) ==> StartsWith(line, name) && v == line[|name|..]
  {
    if StartsWith(line, name) {
      assert line[0] == line[..|name|][0];
      assert line == line[..|name|] + line[|name|..];
    }
    forall v | IsFieldLine(line, name, v) ensures StartsWith(line, name) && v == line[|name|..] {
      assert line[..|name|] == name;
    }
  }

  lemma IdExactly(judge: Judge, s: State, raw: string, v: string)
    requires IsFieldLine(StripReturn(raw), "id:", v)
    ensures var next := TakeLine(judge, s, raw);
      next == s.(id := next.id) && IsTrimmed(v, next.id)
  {
    hide IsTrimmed;
    hide StripReturn;
    FieldExactly(StripReturn(raw), "id:");
    CommentExactly(StripReturn(raw));
    hide Trim;
    hide StartsWith;
    TrimExactly(v);
  }

  lemma EventExactly(judge: Judge, s: State, raw: string, v: string)
    requires IsFieldLine(StripReturn(raw), "event:", v)
    ensures var next := TakeLine(judge, s, raw);
      next == s.(event := next.event) && IsTrimmed(v, next.event)
  {
    hide IsTrimmed;
    hide StripReturn;
    FieldExactly(StripReturn(raw), "id:");
    FieldExactly(StripReturn(raw), "event:");
    CommentExactly(StripReturn(raw));
    hide Trim;
    hide StartsWith;
    TrimExactly(v);
  }

  lemma DataExactly(judge: Judge, s: State, raw: string, v: string)
    requires IsFieldLine(StripReturn(raw), "data:", v)
    ensures IsDataTaken(s, v, TakeLine(judge, s, raw))
  {
    hide IsTrimmed;
    hide StripReturn;
    FieldExactly(StripReturn(raw), "id:");
    FieldExactly(StripReturn(raw), "event:");
    FieldExactly(StripReturn(raw), "data:");
    CommentExactly(StripReturn(raw));
    hide Trim;
    hide StartsWith;
    TrimExactly(v);
  }

  ghost predicate IsNoField(line: string)
  {
    && line != "" && line[0] != ':'
    && forall v :: !IsFieldLine(line, "id:", v) && !IsFieldLine(line, "event:", v) && !IsFieldLine(line, "data:", v)
  }

  lemma NoFieldExactly(judge: Judge, s: State, raw: string)
    requires IsNoField(StripReturn(raw))
    ensures TakeLine(judge, s, raw) == s
  {
    hide StripReturn;
    var line := StripReturn(raw);
    FieldExactly(line, "id:");
    FieldExactly(line, "event:");
    FieldExactly(line, "data:");
    CommentExactly(line);
    hide StartsWith;
    hide IsFieldLine;
  }

  lemma CommentOrEnd(judge: Judge, s: State, raw: string)
    ensures var line := StripReturn(raw);
      && (line != "" && line[0] == ':' ==> TakeLine(judge, s, raw) == s.(actions := s.actions + [Heartbeat]))
      && (line == "" ==> TakeLine(judge, s, raw) == DispatchEvent(judge, s))
  {
    hide StripReturn;
    hide DispatchEvent;
    CommentExactly(StripReturn(raw));
    hide StartsWith;
  }

  /** What one line does, whatever the state. */
  lemma LineExactly(judge: Judge, s: State, raw: string)
    requires !s.stopped
    ensures exists line :: IsLineOf(line, raw) && IsTaken(judge, s, line, TakeLine(judge, s, raw))
  {
    hide *;
    var line, next := StripReturn(raw), TakeLine(judge, s, raw);
    ReturnExactly(raw);
    DispatchExactly(judge, s);
    CommentOrEnd(judge, s, raw);
    forall v | IsFieldLine(line, "id:", v) ensures next == s.(id := next.id) && IsTrimmed(v, next.id) {
      IdExactly(judge, s, raw, v);
    }
    forall v | IsFieldLine(line, "event:", v) ensures next == s.(event := next.event) && IsTrimmed(v, next.event) {
      EventExactly(judge, s, raw, v);
    }
    forall v | IsFieldLine(line, "data:", v) ensures IsDataTaken(s, v, next) { DataExactly(judge, s, raw, v); }
    if IsNoField(line) { NoFieldExactly(judge, s, raw); }
    TakenTogether(judge, s, line, next);
  }

  lemma TakenTogether(judge: Judge, s: State, line: string, next: State)
    requires line != "" && line[0] == ':' ==> next == s.(actions := s.actions + [Heartbeat])
    requires line == "" ==> IsDispatched(judge, s, next)
    requires forall v :: IsFieldLine(line, "id:", v) ==> next == s.(id := next.id) && IsTrimmed(v, next.id)
    requires forall v :: IsFieldLine(line, "event:", v) ==> next == s.(event := next.event) && IsTrimmed(v, next.event)
    requires forall v :: IsFieldLine(line, "data:", v) ==> IsDataTaken(s, v, next)
    requires IsNoField(line) ==> next == s
    ensures IsTaken(judge, s, line, next)
  {
    hide IsDispatched;
    hide IsFieldLine;
    hide IsTrimmed;
    hide IsDataTaken;
    hide IsNoField;
  }

  lemma CommentExactly(line: string)
    ensures StartsWith(line, ":") <==> line != "" && line[0] == ':'
  {
    if line != "" { assert line[..1] == [line[0]]; }
  }

  // ----------------------------------------------------------- the read loop

  /** `FeedIsSteps` where it applies. */
  lemma FeedAsSteps(judge: Judge, s: State, chunk: string)
    ensures '\n' !in s.buffer ==> Alike(Feed(judge, s, chunk), Steps(judge, s, chunk))
  {
    if '\n' !in s.buffer { FeedIsSteps(judge, s, chunk); }
  }

  /** The hook's loop with its local variables as fields. */
  class Reader {
    var buffer: string
    var event: string
    var id: string
    var data: string
    var actions: seq<Action>
    var stopped: bool

    constructor ()
      ensures Abstract() == INITIAL
    {
      buffer, event, id, data, actions, stopped := "", "", "", "", [], false;
    }

    function Abstract(): State
      reads this
    {
      State(buffer, event, id, data, actions, stopped)
    }

    /** Dispatches the collected event; `terminal` says that the loop must return. */
    method Flush(judge: Judge)
      requires !stopped
      modifies this
      ensures Abstract() == DispatchEvent(judge, old(Abstract()))
      ensures IsDispatched(judge, old(Abstract()), Abstract())
    {
      DispatchExactly(judge, Abstract());
      hide IsDispatched;
      if event == "" && data == "" {
        return;
      }
      var terminal := Deliver(judge, if event == "" then "message" else event);
      hide React;
      if terminal {
        stopped := true;
        return;
      }
      if id != "" {
        actions := actions + [LastEventId(id)];
      }
      event, data, id := "", "", "";
    }

    /** The callbacks of one event; `terminal` says that the stream ends for good. */
    method Deliver(judge: Judge, eventType: string) returns (terminal: bool)
      modifies this`actions
      ensures actions == old(actions) + React(judge, eventType, data).0 && terminal == React(judge, eventType, data).1
    {
      hide IsLifecycle;
      hide IsTerminalCode;
      terminal := false;
      if IsLifecycle(eventType) {
        actions := actions + [Lifecycle(eventType, data)];
        if eventType == "stream_dropped" {
          actions := actions + [Dropped];
        }
      } else {
        match judge(data) {
          case Malformed =>
          case Accepted =>
            actions := actions + [Event(data)];
          case Failed(code, message) =>
            actions := actions + [Event(data), StreamError(code, message)];
            terminal := IsTerminalCode(code);
        }
      }
    }

    method ReadLine(judge: Judge, raw: string)
      requires !stopped
      modifies this
      ensures Abstract() == TakeLine(judge, old(Abstract()), raw)
      ensures exists line :: IsLineOf(line, raw) && IsTaken(judge, old(Abstract()), line, Abstract())
    {
      LineExactly(judge, Abstract(), raw);
      hide IsTaken;
      var line := StripReturn(raw);
      if StartsWith(line, ":") {
        actions := actions + [Heartbeat];
      } else if line == "" {
        Flush(judge);
      } else if StartsWith(line, "id:") {
        id := Trim(line[3..]);
      } else if StartsWith(line, "event:") {
        event := Trim(line[6..]);
      } else if StartsWith(line, "data:") {
        data := if data == "" then Trim(line[5..]) else data + "\n" + Trim(line[5..]);
      }
    }

    /** One pass of the read loop. */
    method ReadChunk(judge: Judge, chunk: string)
      requires !stopped
      modifies this
      ensures Abstract() == Feed(judge, old(Abstract()), chunk)
      ensures '\n' !in old(buffer) ==> Alike(Abstract(), Steps(judge, old(Abstract()), chunk))
    {
      FeedAsSteps(judge, Abstract(), chunk);
      hide Alike;
      hide Steps;
      hide TakeLine;
      var lines := Split(buffer + chunk);
      buffer := lines[|lines| - 1];
      lines := lines[..|lines| - 1];
      ghost var start := Abstract();
      assert lines[0..] == lines;
      var i := 0;
      while i < |lines| && !stopped
        invariant 0 <= i <= |lines|
        invariant TakeLines(judge, start, lines) == TakeLines(judge, Abstract(), lines[i..])
        decreases |lines| - i
      {
        assert lines[i..][1..] == lines[i + 1..];
        ReadLine(judge, lines[i]);
        i := i + 1;
      }
    }
  }
}
