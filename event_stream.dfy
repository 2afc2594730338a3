/** Model of the server-sent-events body parser (EventStreamParser).

    The parser consumes a response body in arbitrary chunks and decodes the
    lines `data: <payload>` of the `data:` field framing of the WHATWG HTML
    Living Standard, section 9.2 "Server-sent events", in the strict form the
    gateway accepts (exactly the prefix `data: `). A line whose payload is
    `[DONE]` completes the stream.

    The specification is a byte-at-a-time scanner (`ByteStep`, `Run`); one
    call of `parse` on a chunk is `ParseChunk`, a sequence of calls is `Feed`.
    The class `EventStreamParser` is the imperative parser with the source's
    fields and loops, proved to implement `ParseChunk`. */
module EventStream {
  import opened Common

  /** The prefix `data: ` as bytes. */
  const EventToken: seq<bv8> := [0x64, 0x61, 0x74, 0x61, 0x3A, 0x20]
  /** The completion sentinel `[DONE]` as bytes. */
  const DoneToken: seq<bv8> := [0x5B, 0x44, 0x4F, 0x4E, 0x45, 0x5D]
  /** The UTF-8 byte-order mark. */
  const Bom: seq<bv8> := [0xEF, 0xBB, 0xBF]

  predicate IsLineEnd(b: bv8) {
    b == 0x0A || b == 0x0D
  }

  predicate NoLineEnd(s: seq<bv8>) {
    forall i :: 0 <= i < |s| ==> !IsLineEnd(s[i])
  }

  datatype Stage = Event | Data | Eol

  /** The scanning state carried across calls: the stage, the progress in
      matching `data: `, the partial line, and whether `[DONE]` was seen. */
  datatype Scanner = Scanner(stage: Stage, eventIndex: nat, buffer: seq<bv8>, done: bool)

  const Start: Scanner := Scanner(Event, 0, [], false)

  /** The state between two events: line ends are being skipped. */
  const Idle: Scanner := Scanner(Eol, 0, [], false)

  /** Result of consuming one byte: the next state and the lines completed
      by it, or a failed prefix match ("Bad event") in state `at`. */
  datatype Step = Next(after: Scanner, lines: seq<seq<bv8>>) | BadEvent(at: Scanner)

  /** One byte of the `data: ` prefix. */
  function EventStep(s: Scanner, b: bv8): Step {
    if s.eventIndex < |EventToken| && EventToken[s.eventIndex] == b then
      if s.eventIndex + 1 == |EventToken| then Next(s.(stage := Data, eventIndex := 0), [])
      else Next(s.(stage := Event, eventIndex := s.eventIndex + 1), [])
    else BadEvent(s.(stage := Event))
  }

  /** One byte in any stage. A line end in DATA completes the line: `[DONE]`
      marks the stream complete, any other line is emitted and the buffer
      is emptied. In EOL, line ends are skipped and any other byte starts
      the next prefix. */
  function ByteStep(s: Scanner, b: bv8): Step {
    match s.stage
    case Event => EventStep(s, b)
    case Data =>
      if !IsLineEnd(b) then Next(s.(buffer := s.buffer + [b]), [])
      else if s.buffer == DoneToken then Next(s.(done := true), [])
      else Next(s.(stage := Eol, buffer := []), [s.buffer])
    case Eol =>
      if IsLineEnd(b) then Next(s, []) else EventStep(s, b)
  }

  datatype Outcome = Outcome(scanner: Scanner, lines: seq<seq<bv8>>, failed: bool)

  function Prepend(lines: seq<seq<bv8>>, o: Outcome): Outcome {
    Outcome(o.scanner, lines + o.lines, o.failed)
  }

  /** Consumes `bytes` one at a time; stops at a failed prefix match and
      ignores everything once the stream is complete. */
  function Run(s: Scanner, bytes: seq<bv8>): Outcome
    decreases |bytes|
  {
    if s.done || |bytes| == 0 then Outcome(s, [], false)
    else match ByteStep(s, bytes[0])
      case BadEvent(at) => Outcome(at, [], true)
      case Next(t, ls) => Prepend(ls, Run(t, bytes[1..]))
  }

  /** Continues a run that produced `o` with more bytes. */
  function Continue(o: Outcome, rest: seq<bv8>): Outcome {
    if o.failed then o else Prepend(o.lines, Run(o.scanner, rest))
  }

  function BomLength(chunk: seq<bv8>): nat {
    if |chunk| >= |Bom| && chunk[..|Bom|] == Bom then |Bom| else 0
  }

  /** The whole parser state: the scanner plus the one-shot first-chunk flag. */
  datatype ParserState = ParserState(firstChunk: bool, scanner: Scanner)

  const Initial: ParserState := ParserState(true, Start)

  /** What a call of `parse` resolves to: the completion flag, or a failure. */
  datatype ChunkResult = Succeeded(complete: bool) | Failed

  datatype ChunkOutcome = ChunkOutcome(after: ParserState, lines: seq<seq<bv8>>, result: ChunkResult)

  /** One call of `parse`: a complete stream answers `true` and changes
      nothing; the very first chunk loses a whole leading BOM; the rest is
      scanned byte by byte. */
  function ParseChunk(p: ParserState, chunk: seq<bv8>): ChunkOutcome {
    if p.scanner.done then ChunkOutcome(p, [], Succeeded(true))
    else
      var start := if p.firstChunk then BomLength(chunk) else 0;
      var s := if p.firstChunk then p.scanner.(stage := Event) else p.scanner;
      var o := Run(s, chunk[start..]);
      ChunkOutcome(ParserState(false, o.scanner), o.lines,
                   if o.failed then Failed else Succeeded(o.scanner.done))
  }

  datatype FeedOutcome = FeedOutcome(after: ParserState, lines: seq<seq<bv8>>, anyFailed: bool)

  /** Successive calls of `parse`, one per chunk. */
  function Feed(p: ParserState, chunks: seq<seq<bv8>>): FeedOutcome
    decreases |chunks|
  {
    if |chunks| == 0 then FeedOutcome(p, [], false)
    else
      var c := ParseChunk(p, chunks[0]);
      var rest := Feed(c.after, chunks[1..]);
      FeedOutcome(rest.after, c.lines + rest.lines, c.result.Failed? || rest.anyFailed)
  }

  function Flatten(chunks: seq<seq<bv8>>): seq<bv8>
    decreases |chunks|
  {
    if |chunks| == 0 then [] else chunks[0] + Flatten(chunks[1..])
  }

  function First(chunks: seq<seq<bv8>>): seq<bv8> {
    if |chunks| == 0 then [] else chunks[0]
  }

  /** The payloads the JSON decoder accepts, in order: what the handler is given. */
  function Decoded<J>(parseJson: seq<bv8> -> Option<J>, lines: seq<seq<bv8>>): seq<J>
    decreases |lines|
  {
    if |lines| == 0 then []
    else (match parseJson(lines[0]) case Some(v) => [v] case None => []) + Decoded(parseJson, lines[1..])
  }

  /** One event line as an upstream writes it: `data: <line>` and a blank line. */
  function Frame(line: seq<bv8>): seq<bv8> {
    EventToken + line + [0x0A, 0x0A]
  }

  function Frames(lines: seq<seq<bv8>>): seq<bv8>
    decreases |lines|
  {
    if |lines| == 0 then [] else Frame(lines[0]) + Frames(lines[1..])
  }

  /** The last line of a stream: `data: [DONE]` and a line end. */
  const DoneLine: seq<bv8> := EventToken + DoneToken + [0x0A]

  predicate WellFormedLine(line: seq<bv8>) {
    NoLineEnd(line) && line != DoneToken
  }

  // ---------------------------------------------------------------------
  // Properties of the scanner

  /** Scanning is a left fold: running over `a + b` is running over `a` and
      then over `b` from where `a` left off. */
  lemma {:induction false} RunAppend(s: Scanner, a: seq<bv8>, b: seq<bv8>)
    ensures Run(s, a + b) == Continue(Run(s, a), b)
    decreases |a|
  {
    if s.done {
    } else if |a| == 0 {
      assert a + b == b;
    } else {
      assert (a + b)[0] == a[0];
      assert (a + b)[1..] == a[1..] + b;
      match ByteStep(s, a[0])
      case BadEvent(at) =>
      case Next(t, ls) =>
        RunAppend(t, a[1..], b);
        var o := Run(t, a[1..]);
        if !o.failed {
          var r := Run(o.scanner, b);
          assert ls + (o.lines + r.lines) == (ls + o.lines) + r.lines;
        }
    }
  }

  /** Once `[DONE]` has been recognised, the remaining bytes are ignored. */
  lemma DoneIgnoresRest(s: Scanner, a: seq<bv8>, b: seq<bv8>)
    requires Run(s, a).scanner.done && !Run(s, a).failed
    ensures Run(s, a + b) == Run(s, a)
  {
    RunAppend(s, a, b);
  }

  /** Every emitted line is free of line ends and is never `[DONE]`. */
  lemma {:induction false} RunLinesWellFormed(s: Scanner, bytes: seq<bv8>)
    requires NoLineEnd(s.buffer)
    ensures forall l <- Run(s, bytes).lines :: WellFormedLine(l)
    decreases |bytes|
  {
    if s.done || |bytes| == 0 {
    } else {
      match ByteStep(s, bytes[0])
      case BadEvent(at) =>
      case Next(t, ls) =>
        assert NoLineEnd(t.buffer);
        RunLinesWellFormed(t, bytes[1..]);
    }
  }

  /** In DATA, bytes other than line ends are appended to the partial line. */
  lemma {:induction false} RunData(i: nat, buf: seq<bv8>, bytes: seq<bv8>)
    requires NoLineEnd(bytes)
    ensures Run(Scanner(Data, i, buf, false), bytes) == Outcome(Scanner(Data, i, buf + bytes, false), [], false)
    decreases |bytes|
  {
    if |bytes| == 0 {
      assert buf + bytes == buf;
    } else {
      assert !IsLineEnd(bytes[0]);
      RunData(i, buf + [bytes[0]], bytes[1..]);
      assert (buf + [bytes[0]]) + bytes[1..] == buf + bytes;
    }
  }

  /** Leaving EOL at a byte that is not a line end is the same as being in EVENT. */
  lemma ResumeAtEvent(s: Scanner, bytes: seq<bv8>)
    requires s.stage == Eol && !s.done && |bytes| > 0 && !IsLineEnd(bytes[0])
    ensures Run(s, bytes) == Run(s.(stage := Event), bytes)
  {
    assert ByteStep(s, bytes[0]) == ByteStep(s.(stage := Event), bytes[0]);
  }

  lemma {:induction false} RunEventToken(s: Scanner, i: nat)
    requires s == Scanner(Event, i, [], false) && i <= |EventToken|
    ensures i < |EventToken| ==> Run(s, EventToken[i..]) == Outcome(Scanner(Data, 0, [], false), [], false)
    decreases |EventToken| - i
  {
    if i < |EventToken| {
      var rest := EventToken[i..];
      assert rest[0] == EventToken[i];
      assert rest[1..] == EventToken[i + 1..];
      if i + 1 < |EventToken| {
        RunEventToken(Scanner(Event, i + 1, [], false), i + 1);
      }
    }
  }

  /** From the start or between events, `data: ` leads to an empty DATA line. */
  lemma RunPrefix(s: Scanner)
    requires s == Start || s == Idle
    ensures Run(s, EventToken) == Outcome(Scanner(Data, 0, [], false), [], false)
  {
    RunEventToken(Start, 0);
    assert EventToken[0..] == EventToken;
    if s == Idle {
      ResumeAtEvent(Idle, EventToken);
    }
  }

  /** One framed line is decoded to exactly that line. */
  lemma RunOneFrame(s: Scanner, line: seq<bv8>, rest: seq<bv8>)
    requires s == Start || s == Idle
    requires WellFormedLine(line)
    ensures Run(s, Frame(line) + rest) == Prepend([line], Run(Idle, rest))
  {
    var lf: seq<bv8> := [0x0A];
    var tail := lf + rest;
    assert Frame(line) + rest == EventToken + (line + (lf + tail));
    RunAfterPrefix(s, line + (lf + tail));
    RunLine(line, lf + tail);
    assert ByteStep(Idle, tail[0]) == Next(Idle, []) && tail[1..] == rest;
    var o := Run(Idle, rest);
    assert [] + o.lines == o.lines;
  }

  /** A DATA line and its line end emit the line and leave the scanner idle. */
  lemma RunLine(line: seq<bv8>, tail: seq<bv8>)
    requires WellFormedLine(line) && |tail| > 0 && IsLineEnd(tail[0])
    ensures Run(Scanner(Data, 0, [], false), line + tail) == Prepend([line], Run(Idle, tail))
  {
    var bytes := line + tail;
    assert bytes[..|line|] == line && bytes[|line|..] == tail;
    RunAccumulate(Scanner(Data, 0, [], false), bytes, |line|);
    assert [] + line == line;
    DataLineEnd(Scanner(Data, 0, line, false), tail);
  }

  /** Framing is inverted by scanning: the framed lines come back, in order. */
  lemma {:induction false} RunFrames(s: Scanner, lines: seq<seq<bv8>>, rest: seq<bv8>)
    requires s == Start || s == Idle
    requires forall l <- lines :: WellFormedLine(l)
    ensures Run(s, Frames(lines) + rest) == Prepend(lines, Run(if |lines| == 0 then s else Idle, rest))
    decreases |lines|
  {
    if |lines| == 0 {
      assert Frames(lines) + rest == rest;
    } else {
      assert Frames(lines) + rest == Frame(lines[0]) + (Frames(lines[1..]) + rest);
      assert lines[0] in lines;
      RunOneFrame(s, lines[0], Frames(lines[1..]) + rest);
      assert forall l <- lines[1..] :: l in lines;
      RunFrames(Idle, lines[1..], rest);
      var r := Run(if |lines[1..]| == 0 then Idle else Idle, rest);
      assert [lines[0]] + (lines[1..] + r.lines) == lines + r.lines;
    }
  }

  /** The sentinel line completes the stream. */
  lemma RunDoneLine(s: Scanner, rest: seq<bv8>)
    requires s == Start || s == Idle
    ensures Run(s, DoneLine + rest) == Outcome(Scanner(Data, 0, DoneToken, true), [], false)
  {
    var lf: seq<bv8> := [0x0A];
    assert DoneLine + rest == EventToken + (DoneToken + (lf + rest));
    RunAfterPrefix(s, DoneToken + (lf + rest));
    RunDoneToken(lf + rest);
  }

  /** After `data: `, scanning goes on from an empty DATA line. */
  lemma RunAfterPrefix(s: Scanner, rest: seq<bv8>)
    requires s == Start || s == Idle
    ensures Run(s, EventToken + rest) == Run(Scanner(Data, 0, [], false), rest)
  {
    RunPrefix(s);
    RunAppend(s, EventToken, rest);
    var o := Run(Scanner(Data, 0, [], false), rest);
    assert [] + o.lines == o.lines;
  }

  /** `[DONE]` and a line end complete the stream. */
  lemma RunDoneToken(tail: seq<bv8>)
    requires |tail| > 0 && tail[0] == 0x0A
    ensures Run(Scanner(Data, 0, [], false), DoneToken + tail) == Outcome(Scanner(Data, 0, DoneToken, true), [], false)
  {
    var bytes := DoneToken + tail;
    assert bytes[..|DoneToken|] == DoneToken && bytes[|DoneToken|..] == tail;
    assert NoLineEnd(DoneToken);
    RunAccumulate(Scanner(Data, 0, [], false), bytes, |DoneToken|);
    assert [] + DoneToken == DoneToken;
    DataLineEnd(Scanner(Data, 0, DoneToken, false), tail);
  }

  /** A framed stream: its lines, then `[DONE]`, then any trailing bytes,
      parsed in one call, yields exactly its lines and completes. */
  lemma DecodeFramedStream(lines: seq<seq<bv8>>, trailing: seq<bv8>)
    requires forall l <- lines :: WellFormedLine(l)
    ensures ParseChunk(Initial, Frames(lines) + DoneLine + trailing)
         == ChunkOutcome(ParserState(false, Scanner(Data, 0, DoneToken, true)), lines, Succeeded(true))
  {
    var bytes := Frames(lines) + DoneLine + trailing;
    assert bytes == Frames(lines) + (DoneLine + trailing);
    if |lines| == 0 {
      assert bytes[0] == 0x64;
    } else {
      assert bytes[0] == Frame(lines[0])[0] == 0x64;
    }
    assert BomLength(bytes) == 0 by {
      if |bytes| >= |Bom| { assert bytes[..|Bom|][0] != Bom[0]; }
    }
    assert bytes[0..] == bytes;
    RunFrames(Start, lines, DoneLine + trailing);
    RunDoneLine(if |lines| == 0 then Start else Idle, trailing);
    assert lines + [] == lines;
  }

  // ---------------------------------------------------------------------
  // Chunk boundaries

  /** After the first call, feeding chunks one by one is scanning their
      concatenation: the same failure, and without failure the same lines
      and the same final state. */
  lemma {:induction false} FeedMatchesRun(s: Scanner, chunks: seq<seq<bv8>>)
    ensures var f := Feed(ParserState(false, s), chunks);
            var o := Run(s, Flatten(chunks));
            f.anyFailed == o.failed
            && (!o.failed ==> f.lines == o.lines && f.after == ParserState(false, o.scanner))
    decreases |chunks|
  {
    if |chunks| == 0 {
    } else {
      var p := ParserState(false, s);
      var rest := chunks[1..];
      assert Flatten(chunks) == chunks[0] + Flatten(rest);
      RunAppend(s, chunks[0], Flatten(rest));
      if s.done {
        FeedMatchesRun(s, rest);
      } else {
        assert chunks[0][0..] == chunks[0];
        var o0 := Run(s, chunks[0]);
        FeedMatchesRun(o0.scanner, rest);
        if !o0.failed {
          var o1 := Run(o0.scanner, Flatten(rest));
          var f1 := Feed(ParserState(false, o0.scanner), rest);
          if !o1.failed {
            assert f1.lines == o1.lines;
          }
        }
      }
    }
  }

  /** Where chunk boundaries fall does not matter, apart from the BOM check
      on the first chunk: feeding any chunking of a body fails exactly when
      scanning the whole body (less a BOM that opens the first chunk) fails,
      and otherwise yields the same lines and final scanner. */
  lemma ChunkBoundaryIndependence(chunks: seq<seq<bv8>>)
    ensures var f := Feed(Initial, chunks);
            var o := Run(Start, Flatten(chunks)[BomLength(First(chunks))..]);
            f.anyFailed == o.failed
            && (!o.failed ==> f.lines == o.lines && f.after.scanner == o.scanner)
  {
    if |chunks| > 0 {
      var k := BomLength(chunks[0]);
      var alt := [chunks[0][k..]] + chunks[1..];
      assert alt[0] == chunks[0][k..] && alt[1..] == chunks[1..];
      FeedFirstChunk(chunks, alt, k);
      FlattenFirst(chunks, alt, k);
      FeedMatchesRun(Start, alt);
    }
  }

  /** The first call drops the BOM and then behaves like any later call. */
  lemma FeedFirstChunk(chunks: seq<seq<bv8>>, alt: seq<seq<bv8>>, k: nat)
    requires |chunks| > 0 && k == BomLength(chunks[0])
    requires |alt| > 0 && alt[0] == chunks[0][k..] && alt[1..] == chunks[1..]
    ensures Feed(Initial, chunks) == Feed(ParserState(false, Start), alt)
  {
    FirstParse(chunks[0]);
    var c := ParseChunk(Initial, chunks[0]);
    var r := Feed(c.after, chunks[1..]);
    assert Feed(Initial, chunks) == FeedOutcome(r.after, c.lines + r.lines, c.result.Failed? || r.anyFailed);
    assert Feed(ParserState(false, Start), alt) == FeedOutcome(r.after, c.lines + r.lines, c.result.Failed? || r.anyFailed);
  }

  lemma FirstParse(chunk: seq<bv8>)
    ensures ParseChunk(Initial, chunk) == ParseChunk(ParserState(false, Start), chunk[BomLength(chunk)..])
  {
    var c0 := chunk[BomLength(chunk)..];
    assert Start.(stage := Event) == Start;
    assert c0[0..] == c0;
  }

  lemma FlattenFirst(chunks: seq<seq<bv8>>, alt: seq<seq<bv8>>, k: nat)
    requires |chunks| > 0 && k == BomLength(chunks[0])
    requires |alt| > 0 && alt[0] == chunks[0][k..] && alt[1..] == chunks[1..]
    ensures Flatten(alt) == Flatten(chunks)[BomLength(First(chunks))..]
  {
    var rest := chunks[1..];
    assert Flatten(alt) == chunks[0][k..] + Flatten(rest);
    assert Flatten(chunks) == chunks[0] + Flatten(rest);
    assert k <= |chunks[0]|;
    DropFromAppend(chunks[0], Flatten(rest), k);
  }

  lemma DropFromAppend<T>(a: seq<T>, b: seq<T>, k: nat)
    requires k <= |a|
    ensures (a + b)[k..] == a[k..] + b
  {
  }

  /** Two chunkings of the same body whose first chunks agree on the BOM
      yield the same lines and the same state. */
  lemma SameBodySameLines(chunks1: seq<seq<bv8>>, chunks2: seq<seq<bv8>>)
    requires Flatten(chunks1) == Flatten(chunks2)
    requires BomLength(First(chunks1)) == BomLength(First(chunks2))
    ensures Feed(Initial, chunks1).anyFailed == Feed(Initial, chunks2).anyFailed
    ensures !Feed(Initial, chunks1).anyFailed ==>
              Feed(Initial, chunks1).lines == Feed(Initial, chunks2).lines
              && Feed(Initial, chunks1).after.scanner == Feed(Initial, chunks2).after.scanner
  {
    ChunkBoundaryIndependence(chunks1);
    ChunkBoundaryIndependence(chunks2);
  }

  /** A single framed line split at any two places still yields exactly that line. */
  lemma SplitFrameYieldsOneLine(line: seq<bv8>, i: nat, j: nat)
    requires WellFormedLine(line)
    requires i <= j <= |Frame(line)|
    ensures var f := Feed(Initial, [Frame(line)[..i], Frame(line)[i..j], Frame(line)[j..]]);
            !f.anyFailed && f.lines == [line]
  {
    var fr := Frame(line);
    var chunks := [fr[..i], fr[i..j], fr[j..]];
    assert Flatten(chunks[2..]) == fr[j..] by {
      assert chunks[2..][1..] == [];
    }
    assert Flatten(chunks[1..]) == fr[i..j] + fr[j..];
    assert Flatten(chunks) == fr;
    assert BomLength(First(chunks)) == 0 by {
      if i >= |Bom| { assert fr[..i][..|Bom|][0] == 0x64; }
    }
    assert fr[0..] == fr;
    RunOneFrame(Start, line, []);
    assert fr + [] == fr;
    ChunkBoundaryIndependence(chunks);
    assert Run(Idle, []).lines == [];
    assert [line] + [] == [line];
  }

  /** A BOM opening the first chunk is skipped: the chunk parses as it would without it. */
  lemma BomSkippedInFirstChunk(chunk: seq<bv8>)
    requires BomLength(chunk) == 0
    ensures ParseChunk(Initial, Bom + chunk) == ParseChunk(Initial, chunk)
  {
    assert (Bom + chunk)[..|Bom|] == Bom;
    assert (Bom + chunk)[|Bom|..] == chunk;
    assert chunk[0..] == chunk;
  }

  /** After the first call a BOM is not skipped: at a line start it is a bad event. */
  lemma BomFailsAfterFirstChunk(s: Scanner, chunk: seq<bv8>)
    requires !s.done && s.stage != Data
    ensures ParseChunk(ParserState(false, s), Bom + chunk).result == Failed
  {
    var bytes := Bom + chunk;
    assert bytes[0..] == bytes;
    assert bytes[0] == 0xEF;
    assert forall k :: 0 <= k < |EventToken| ==> EventToken[k] != 0xEF;
  }

  /** Once complete, any further chunks change nothing and emit nothing. */
  lemma {:induction false} FeedAfterCompletion(p: ParserState, chunks: seq<seq<bv8>>)
    requires p.scanner.done
    ensures Feed(p, chunks) == FeedOutcome(p, [], false)
    decreases |chunks|
  {
    if |chunks| > 0 {
      FeedAfterCompletion(p, chunks[1..]);
    }
  }

  lemma {:induction false} DecodedAppend<J>(parseJson: seq<bv8> -> Option<J>, a: seq<seq<bv8>>, b: seq<seq<bv8>>)
    ensures Decoded(parseJson, a + b) == Decoded(parseJson, a) + Decoded(parseJson, b)
    decreases |a|
  {
    if |a| == 0 {
      assert a + b == b;
    } else {
      assert (a + b)[0] == a[0];
      assert (a + b)[1..] == a[1..] + b;
      DecodedAppend(parseJson, a[1..], b);
    }
  }

  // ---------------------------------------------------------------------
  // The parser object

  function Rank(stage: Stage): nat {
    match stage
    case Event => 0
    case Eol => 1
    case Data => 2
  }

  lemma AppendAssoc<T>(a: seq<T>, b: seq<T>, c: seq<T>)
    ensures a + (b + c) == (a + b) + c
  {
  }

  lemma PrependTwice(a: seq<seq<bv8>>, b: seq<seq<bv8>>, o: Outcome)
    ensures Prepend(a, Prepend(b, o)) == Prepend(a + b, o)
  {
    assert a + (b + o.lines) == (a + b) + o.lines;
  }

  /** The scanner reached after matching `i` bytes of `data: `. */
  function AfterMatch(i: nat, buf: seq<bv8>): Scanner {
    if i == |EventToken| then Scanner(Data, 0, buf, false) else Scanner(Event, i, buf, false)
  }
  /** One byte of the prefix match, from the scanner's side. */
  lemma EventByte(i: nat, buf: seq<bv8>, bytes: seq<bv8>)
    requires i < |EventToken| && |bytes| > 0
    ensures EventToken[i] == bytes[0] ==> Run(AfterMatch(i, buf), bytes) == Run(AfterMatch(i + 1, buf), bytes[1..])
    ensures EventToken[i] != bytes[0] ==> Run(AfterMatch(i, buf), bytes) == Outcome(Scanner(Event, i, buf, false), [], true)
  {
    var s := Scanner(Event, i, buf, false);
    assert AfterMatch(i, buf) == s;
    if EventToken[i] == bytes[0] {
      assert ByteStep(s, bytes[0]) == Next(AfterMatch(i + 1, buf), []);
      var o := Run(AfterMatch(i + 1, buf), bytes[1..]);
      assert [] + o.lines == o.lines;
    } else {
      assert ByteStep(s, bytes[0]) == BadEvent(s);
    }
  }

  /** `EventByte` at position `k` of a chunk. */
  lemma EventByteAt(i: nat, buf: seq<bv8>, chunk: seq<bv8>, k: nat)
    requires i < |EventToken| && k < |chunk| && EventToken[i] == chunk[k]
    ensures Run(AfterMatch(i, buf), chunk[k..]) == Run(AfterMatch(i + 1, buf), chunk[k + 1..])
  {
    EventByte(i, buf, chunk[k..]);
    assert chunk[k..][1..] == chunk[k + 1..];
  }

  /** The matching loop of the EVENT stage: compares `chunk` from `start`
      with `data: ` from `matchedSoFar`, one byte at a time. */
  method MatchPrefix(chunk: seq<bv8>, start: nat, matchedSoFar: nat, ghost buf: seq<bv8>)
      returns (matched: bool, chunkIndex: nat, eventIndex: nat)
    requires matchedSoFar < |EventToken| && start < |chunk|
    ensures start <= chunkIndex <= |chunk| && eventIndex <= |EventToken|
    ensures chunkIndex - start == eventIndex - matchedSoFar
    ensures matched ==> eventIndex == |EventToken| || chunkIndex == |chunk|
    ensures !matched ==> eventIndex < |EventToken|
    ensures Run(AfterMatch(matchedSoFar, buf), chunk[start..])
         == if matched then Run(AfterMatch(eventIndex, buf), chunk[chunkIndex..])
            else Outcome(Scanner(Event, eventIndex, buf, false), [], true)
  {
    chunkIndex, eventIndex := start, matchedSoFar;
    while eventIndex < |EventToken| && chunkIndex < |chunk|
      invariant start <= chunkIndex <= |chunk| && eventIndex <= |EventToken|
      invariant chunkIndex - start == eventIndex - matchedSoFar
      invariant Run(AfterMatch(matchedSoFar, buf), chunk[start..]) == Run(AfterMatch(eventIndex, buf), chunk[chunkIndex..])
    {
      if EventToken[eventIndex] != chunk[chunkIndex] {
        EventByte(eventIndex, buf, chunk[chunkIndex..]);
        return false, chunkIndex, eventIndex;
      }
      EventByteAt(eventIndex, buf, chunk, chunkIndex);
      chunkIndex, eventIndex := chunkIndex + 1, eventIndex + 1;
    }
    matched := true;
  }

  /** Bytes without a line end only extend the buffered line. */
  lemma RunAccumulate(c: Scanner, bytes: seq<bv8>, n: nat)
    requires c.stage == Data && !c.done && n <= |bytes| && NoLineEnd(bytes[..n])
    ensures Run(c, bytes) == Run(c.(buffer := c.buffer + bytes[..n]), bytes[n..])
  {
    assert bytes == bytes[..n] + bytes[n..];
    RunData(c.eventIndex, c.buffer, bytes[..n]);
    RunAppend(c, bytes[..n], bytes[n..]);
  }

  /** A line end in DATA: `[DONE]` completes the stream, any other line is emitted
      and scanning goes on in EOL, where the same line end is skipped. */
  lemma DataLineEnd(c: Scanner, bytes: seq<bv8>)
    requires c.stage == Data && !c.done && |bytes| > 0 && IsLineEnd(bytes[0])
    ensures c.buffer == DoneToken ==> Run(c, bytes) == Outcome(c.(done := true), [], false)
    ensures c.buffer != DoneToken ==>
              Run(c, bytes) == Prepend([c.buffer], Run(c.(stage := Eol, buffer := []), bytes))
  {
    var t := c.(stage := Eol, buffer := []);
    if c.buffer == DoneToken {
      assert ByteStep(c, bytes[0]) == Next(c.(done := true), []);
      assert Run(c.(done := true), bytes[1..]) == Outcome(c.(done := true), [], false);
    } else {
      assert ByteStep(t, bytes[0]) == Next(t, []);
      var o := Run(t, bytes[1..]);
      assert [] + o.lines == o.lines;
    }
  }


  /** Length of a BOM that opens `chunk` (0 or 3), by the source's byte loop. */
  method SkipBom(chunk: seq<bv8>) returns (skipped: nat)
    ensures skipped == BomLength(chunk)
    ensures skipped == 0 || chunk[..skipped] == Bom
  {
    if |chunk| < |Bom| {
      return 0;
    }
    var i := 0;
    while i < |Bom|
      invariant 0 <= i <= |Bom|
      invariant forall k :: 0 <= k < i ==> chunk[k] == Bom[k]
    {
      if chunk[i] != Bom[i] {
        assert chunk[..|Bom|][i] != Bom[i];
        return 0;
      }
      i := i + 1;
    }
    assert chunk[..|Bom|] == Bom;
    return |Bom|;
  }

  /** The parser for one response stream. `parseJson` stands for UTF-8
      decoding plus JSON parsing of a line (undefined when either throws);
      `futures` holds what was handed to the handler in the current call;
      `emitted` records every completed line other than `[DONE]`. */
  class EventStreamParser<J> {
    var buffer: seq<bv8>
    var eventIndex: nat
    var chunkIndex: nat
    var firstChunk: bool
    var lastChunk: bool
    var stage: Stage
    var futures: seq<J>
    ghost var emitted: seq<seq<bv8>>
    const parseJson: seq<bv8> -> Option<J>

    ghost function Current(): Scanner
      reads this
    {
      Scanner(stage, eventIndex, buffer, lastChunk)
    }

    ghost function State(): ParserState
      reads this
    {
      ParserState(firstChunk, Current())
    }

    ghost predicate Valid()
      reads this
    {
      eventIndex < |EventToken|
    }

    constructor (parseJson: seq<bv8> -> Option<J>)
      ensures Valid() && State() == Initial
      ensures emitted == [] && futures == [] && this.parseJson == parseJson
    {
      this.parseJson := parseJson;
      buffer := [];
      eventIndex := 0;
      chunkIndex := 0;
      firstChunk := true;
      lastChunk := false;
      stage := Event;
      futures := [];
      emitted := [];
    }

    /** Parses one chunk; the new state, the lines completed and the result
        are exactly those of `ParseChunk`. */
    method Parse(chunk: seq<bv8>) returns (r: ChunkResult)
      requires Valid()
      modifies this
      ensures Valid()
      ensures var o := ParseChunk(old(State()), chunk);
              State() == o.after && r == o.result && emitted == old(emitted) + o.lines
              && futures == (if old(lastChunk) then old(futures) else Decoded(parseJson, o.lines))
    {
      if lastChunk {
        return Succeeded(true);
      }
      chunkIndex := 0;
      futures := [];
      if firstChunk {
        var skipped := SkipBom(chunk);
        chunkIndex := chunkIndex + skipped;
        firstChunk := false;
        stage := Event;
      }
      ghost var target := Run(Current(), chunk[chunkIndex..]);
      ghost var spec := ParseChunk(old(State()), chunk);
      assert spec == ChunkOutcome(ParserState(false, target.scanner), target.lines,
                                  if target.failed then Failed else Succeeded(target.scanner.done));
      var failed;
      ghost var got;
      failed, got := ScanChunk(chunk);
      if failed {
        return Failed;
      }
      r := Succeeded(lastChunk);
    }

    /** The stage dispatch loop over the rest of the chunk; stops early at a
        bad event or once `[DONE]` is seen. */
    method ScanChunk(chunk: seq<bv8>) returns (failed: bool, ghost got: seq<seq<bv8>>)
      requires Valid() && !lastChunk && chunkIndex <= |chunk|
      modifies this`buffer, this`chunkIndex, this`eventIndex, this`stage, this`lastChunk, this`futures, this`emitted
      ensures Valid()
      ensures emitted == old(emitted) + got && futures == old(futures) + Decoded(parseJson, got)
      ensures Run(old(Current()), chunk[old(chunkIndex)..]) == Outcome(Current(), got, failed)
    {
      ghost var target := Run(Current(), chunk[chunkIndex..]);
      got := [];
      assert Prepend(got, target) == target;
      assert old(futures) + Decoded(parseJson, got) == old(futures);
      while chunkIndex < |chunk|
        invariant Valid() && !lastChunk
        invariant chunkIndex <= |chunk|
        invariant emitted == old(emitted) + got && futures == old(futures) + Decoded(parseJson, got)
        invariant Prepend(got, Run(Current(), chunk[chunkIndex..])) == target
        decreases |chunk| - chunkIndex, Rank(stage)
      {
        ghost var before := got;
        ghost var lines;
        failed, lines := ScanStep(chunk);
        DecodedAppend(parseJson, got, lines);
        AppendAssoc(old(emitted), got, lines);
        AppendAssoc(old(futures), Decoded(parseJson, got), Decoded(parseJson, lines));
        got := got + lines;
        if failed {
          return;
        }
        PrependTwice(before, lines, Run(Current(), chunk[chunkIndex..]));
        if lastChunk {
          break;
        }
      }
      failed := false;
      assert target == Outcome(Current(), got + [], false);
      assert got + [] == got;
    }

    /** One pass of the stage dispatch: runs the handler of the current stage. */
    method ScanStep(chunk: seq<bv8>) returns (failed: bool, ghost lines: seq<seq<bv8>>)
      requires Valid() && !lastChunk && chunkIndex < |chunk|
      modifies this`buffer, this`chunkIndex, this`eventIndex, this`stage, this`lastChunk, this`futures, this`emitted
      ensures Valid() && old(chunkIndex) <= chunkIndex <= |chunk|
      ensures !failed ==> chunkIndex > old(chunkIndex) || Rank(stage) < Rank(old(stage)) || lastChunk
      ensures emitted == old(emitted) + lines && futures == old(futures) + Decoded(parseJson, lines)
      ensures Run(old(Current()), chunk[old(chunkIndex)..])
           == if failed then Outcome(Current(), lines, true) else Prepend(lines, Run(Current(), chunk[chunkIndex..]))
    {
      failed := false;
      lines := [];
      match stage {
        case Event =>
          var ok := HandleEventStage(chunk);
          failed := !ok;
        case Data =>
          lines := HandleDataStage(chunk);
        case Eol =>
          HandleEndOfLineStage(chunk);
      }
    }

    /** Matches `data: ` byte by byte, keeping progress in `eventIndex`;
        a mismatching byte is a bad event. */
    method HandleEventStage(chunk: seq<bv8>) returns (ok: bool)
      requires Valid() && stage == Event && !lastChunk && chunkIndex < |chunk|
      modifies this`chunkIndex, this`eventIndex, this`stage
      ensures Valid()
      ensures old(chunkIndex) <= chunkIndex <= |chunk|
      ensures ok ==> chunkIndex > old(chunkIndex)
      ensures Run(old(Current()), chunk[old(chunkIndex)..])
           == if ok then Run(Current(), chunk[chunkIndex..]) else Outcome(Current(), [], true)
    {
      assert Current() == AfterMatch(eventIndex, buffer);
      ok, chunkIndex, eventIndex := MatchPrefix(chunk, chunkIndex, eventIndex, buffer);
      if !ok {
        return;
      }
      ghost var reached := AfterMatch(eventIndex, buffer);
      if eventIndex == |EventToken| {
        eventIndex := 0;
        stage := Data;
      }
      assert Current() == reached;
    }

    /** Collects the line; at its end either recognises `[DONE]` or hands
        the decoded line to the handler, empties the buffer and moves to EOL. */
    method HandleDataStage(chunk: seq<bv8>) returns (ghost lines: seq<seq<bv8>>)
      requires Valid() && stage == Data && !lastChunk && chunkIndex < |chunk|
      modifies this`buffer, this`chunkIndex, this`stage, this`lastChunk, this`futures, this`emitted
      ensures Valid()
      ensures old(chunkIndex) <= chunkIndex <= |chunk|
      ensures chunkIndex > old(chunkIndex) || stage == Eol || lastChunk
      ensures emitted == old(emitted) + lines && futures == old(futures) + Decoded(parseJson, lines)
      ensures Run(old(Current()), chunk[old(chunkIndex)..]) == Prepend(lines, Run(Current(), chunk[chunkIndex..]))
    {
      ghost var start := chunkIndex;
      ghost var c0 := Current();
      var eol := AccumulateBuffer(chunk);
      assert chunk[start..][..chunkIndex - start] == chunk[start..chunkIndex];
      assert chunk[start..][chunkIndex - start..] == chunk[chunkIndex..];
      RunAccumulate(c0, chunk[start..], chunkIndex - start);
      assert Run(c0, chunk[start..]) == Run(Current(), chunk[chunkIndex..]);
      lines := [];
      if eol {
        ghost var c := Current();
        DataLineEnd(c, chunk[chunkIndex..]);
        var done := IsLastMessage();
        if done {
          lastChunk := true;
          assert Current() == c.(done := true);
          return;
        }
        var line := buffer;
        match parseJson(line) {
          case Some(tree) => futures := futures + [tree];
          case None =>
        }
        emitted := emitted + [line];
        lines := [line];
        buffer := [];
        stage := Eol;
        assert Current() == c.(stage := Eol, buffer := []);
        assert Decoded(parseJson, lines) == (match parseJson(line) case Some(v) => [v] case None => []);
      } else {
        assert Run(Current(), chunk[chunkIndex..]) == Outcome(Current(), [], false);
      }
    }

    /** Appends bytes to the buffer up to, not including, the first line end. */
    method AccumulateBuffer(chunk: seq<bv8>) returns (eol: bool)
      requires chunkIndex <= |chunk|
      modifies this`buffer, this`chunkIndex
      ensures old(chunkIndex) <= chunkIndex <= |chunk|
      ensures buffer == old(buffer) + chunk[old(chunkIndex)..chunkIndex]
      ensures NoLineEnd(chunk[old(chunkIndex)..chunkIndex])
      ensures eol <==> chunkIndex < |chunk|
      ensures eol ==> IsLineEnd(chunk[chunkIndex])
    {
      while chunkIndex < |chunk|
        invariant old(chunkIndex) <= chunkIndex <= |chunk|
        invariant buffer == old(buffer) + chunk[old(chunkIndex)..chunkIndex]
        invariant NoLineEnd(chunk[old(chunkIndex)..chunkIndex])
      {
        var b := chunk[chunkIndex];
        if IsLineEnd(b) {
          return true;
        }
        assert chunk[old(chunkIndex)..chunkIndex + 1] == chunk[old(chunkIndex)..chunkIndex] + [b];
        buffer := buffer + [b];
        chunkIndex := chunkIndex + 1;
      }
      return false;
    }

    /** Whether the buffered line is exactly `[DONE]`. */
    method IsLastMessage() returns (done: bool)
      ensures done <==> buffer == DoneToken
    {
      if |buffer| == |DoneToken| {
        var j := 0;
        while j < |DoneToken|
          invariant 0 <= j <= |DoneToken|
          invariant forall k :: 0 <= k < j ==> buffer[k] == DoneToken[k]
        {
          if buffer[j] != DoneToken[j] {
            return false;
          }
          j := j + 1;
        }
        return true;
      }
      return false;
    }

    /** Skips line ends; at the first other byte switches to EVENT without
        consuming it. */
    method HandleEndOfLineStage(chunk: seq<bv8>)
      requires Valid() && stage == Eol && !lastChunk && chunkIndex < |chunk|
      modifies this`chunkIndex, this`stage
      ensures old(chunkIndex) <= chunkIndex <= |chunk|
      ensures chunkIndex > old(chunkIndex) || stage == Event
      ensures Run(old(Current()), chunk[old(chunkIndex)..]) == Run(Current(), chunk[chunkIndex..])
    {
      while chunkIndex < |chunk|
        invariant old(chunkIndex) <= chunkIndex <= |chunk| && stage == Eol
        invariant Run(old(Current()), chunk[old(chunkIndex)..]) == Run(Current(), chunk[chunkIndex..])
      {
        assert chunk[chunkIndex..][0] == chunk[chunkIndex];
        assert chunk[chunkIndex..][1..] == chunk[chunkIndex + 1..];
        if !IsLineEnd(chunk[chunkIndex]) {
          ResumeAtEvent(Current(), chunk[chunkIndex..]);
          stage := Event;
          break;
        }
        chunkIndex := chunkIndex + 1;
      }
    }
  }
}
