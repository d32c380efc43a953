/**
 Streams that end inside an event. The unsplit rest of the buffer is handed to the upstream's
 rewriting as one body instead of line by line, so an event hidden in it keeps its old payload:
 exactly when a data line with a payload in that rest is followed by a blank line there.
 */
module SseTail {
  import opened ByteStrings
  import opened Boundaries
  import opened EventStream
  import opened ProxyLog
  import opened SseSpec
  import opened SseRuns
  import opened SseMeaning
  import opened SseTheorems

  predicate CarriesData(line: Bytes) {
    DataPayload(line).Some? && DataPayload(line).value != []
  }

  predicate NoData(lines: seq<Bytes>) {
    forall i :: 0 <= i < |lines| ==> !CarriesData(lines[i])
  }

  predicate DispatchedData(lines: seq<Bytes>, i: nat, j: nat) {
    i < j < |lines| && CarriesData(lines[i]) && lines[j] == []
  }

  /** A data line with a payload precedes a blank line: the client dispatches it from here. */
  predicate DispatchesData(lines: seq<Bytes>) {
    exists i: nat, j: nat | i < |lines| && j < |lines| :: DispatchedData(lines, i, j)
  }

  // ---- Without such a line the rest reads the same ----

  lemma OtherLine(p: Parser, line: Bytes, f: Bytes -> Bytes)
    requires f([]) == [] && !CarriesData(line)
    ensures ProcessLine(p, line, f) == ProcessLine(p, line, Identity)
  {
    if DataPayload(line).Some? {
      DataLineField(p, line, f);
      DataLineField(p, line, Identity);
    } else {
      var i := IndexOf(line, COLON);
      assert |line| >= 5 ==> (line[..5] == DATA_PREFIX <==> line[..4] == DATA && line[4] == COLON);
    }
  }

  lemma {:induction false} NoDataReadsAlike(p: Parser, lines: seq<Bytes>, f: Bytes -> Bytes)
    requires f([]) == [] && NoData(lines)
    ensures Process(p, lines, f) == Process(p, lines, Identity)
    decreases |lines|
  {
    if lines != [] {
      var n := |lines| - 1;
      NoDataReadsAlike(p, lines[..n], f);
      OtherLine(Process(p, lines[..n], f), lines[n], f);
    }
  }

  lemma UndispatchedFront(lines: seq<Bytes>)
    requires lines != [] && !DispatchesData(lines)
    ensures !DispatchesData(lines[..|lines| - 1])
    ensures lines[|lines| - 1] == [] ==> NoData(lines[..|lines| - 1])
  {
    var n := |lines| - 1;
    var front := lines[..n];
    forall i: nat, j: nat | i < |front| && j < |front|
      ensures !DispatchedData(front, i, j)
    {
      assert !DispatchedData(lines, i, j);
    }
    forall i | 0 <= i < n && lines[n] == []
      ensures !CarriesData(front[i])
    {
      assert !DispatchedData(lines, i, n);
    }
  }

  lemma {:induction false} UndispatchedReadsAlike(p: Parser, lines: seq<Bytes>, f: Bytes -> Bytes)
    requires f([]) == [] && !DispatchesData(lines)
    ensures Process(p, lines, f).dispatched == Process(p, lines, Identity).dispatched
    decreases |lines|
  {
    if lines != [] {
      var n := |lines| - 1;
      UndispatchedFront(lines);
      UndispatchedReadsAlike(p, lines[..n], f);
      if lines[n] == [] {
        NoDataReadsAlike(p, lines[..n], f);
      } else {
        LineDispatchesNothing(Process(p, lines[..n], f), lines[n], f);
        LineDispatchesNothing(Process(p, lines[..n], Identity), lines[n], Identity);
      }
    }
  }

  lemma LineDispatchesNothing(p: Parser, line: Bytes, f: Bytes -> Bytes)
    requires line != []
    ensures ProcessLine(p, line, f).dispatched == p.dispatched
  {
  }

  // ---- With one, some rewriting shows ----

  /** A rewriting that makes one payload longer and leaves every other alone. */
  function Longer(payload: Bytes): Bytes -> Bytes {
    (x: Bytes) => if x == payload then x + [65] else x
  }

  function Volume(messages: seq<Message>): nat {
    if messages == [] then 0 else Volume(messages[..|messages| - 1]) + |messages[|messages| - 1].data|
  }

  lemma VolumeSnoc(messages: seq<Message>, m: Message)
    ensures Volume(messages + [m]) == Volume(messages) + |m.data|
  {
    assert (messages + [m])[..|messages|] == messages;
  }

  predicate DataEndsInLf(p: Parser) {
    p.data == [] || EndsInLf(p.data)
  }

  /** `q` has dispatched and buffered at least as much data as `p`, and just as often. */
  predicate Behind(p: Parser, q: Parser) {
    && DataEndsInLf(p) && DataEndsInLf(q) && (p.data == [] <==> q.data == [])
    && |p.data| <= |q.data| && Volume(p.dispatched) <= Volume(q.dispatched)
  }

  lemma DispatchVolume(p: Parser)
    requires DataEndsInLf(p)
    ensures Dispatch(p).data == []
    ensures Volume(Dispatch(p).dispatched) == Volume(p.dispatched) + if p.data == [] then 0 else |p.data| - 1
  {
    if p.data != [] {
      var d := Dispatch(p).dispatched;
      VolumeSnoc(p.dispatched, d[|d| - 1]);
    }
  }

  lemma DataLine(p: Parser, line: Bytes, f: Bytes -> Bytes)
    requires DataPayload(line).Some?
    ensures ProcessLine(p, line, f) == p.(data := p.data + f(DataPayload(line).value) + [LF])
  {
    DataLineField(p, line, f);
  }

  /** A line that carries no data adds nothing to the data but, at most, one line feed. */
  lemma PlainLine(p: Parser, line: Bytes)
    requires DataPayload(line).None? && line != []
    ensures var r := ProcessLine(p, line, Identity);
            r.dispatched == p.dispatched && (r.data == p.data || (line == DATA && r.data == p.data + [LF]))
  {
    var i := IndexOf(line, COLON);
    assert |line| >= 5 ==> (line[..5] == DATA_PREFIX <==> line[..4] == DATA && line[4] == COLON);
    assert line == DATA ==> DATA + [] + [LF] == DATA + [LF];
    assert p.data + Identity([]) + [LF] == p.data + [LF];
  }

  lemma PlainLineAlike(p: Parser, q: Parser, line: Bytes)
    requires Behind(p, q) && DataPayload(line).None? && line != []
    ensures var p', q' := ProcessLine(p, line, Identity), ProcessLine(q, line, Identity);
            && Behind(p', q') && |p'.data| - |p.data| == |q'.data| - |q.data|
            && p'.dispatched == p.dispatched && q'.dispatched == q.dispatched
  {
    PlainLine(p, line);
    PlainLine(q, line);
    assert line == DATA ==> IndexOf(line, COLON) == |line|;
  }

  predicate Ahead(p: Parser, q: Parser) {
    |p.data| < |q.data| || Volume(p.dispatched) < Volume(q.dispatched)
  }

  /** One line read plainly and with the longer payload: the second reader falls no further behind. */
  lemma StepBehind(p: Parser, q: Parser, line: Bytes, v: Bytes)
    requires Behind(p, q) && v != []
    ensures var p', q' := ProcessLine(p, line, Identity), ProcessLine(q, line, Longer(v));
            && Behind(p', q')
            && (Ahead(p, q) || DataPayload(line) == Some(v) ==> Ahead(p', q'))
            && (Volume(p.dispatched) < Volume(q.dispatched) ==> Volume(p'.dispatched) < Volume(q'.dispatched))
            && (line == [] && Ahead(p, q) ==> Volume(p'.dispatched) < Volume(q'.dispatched))
  {
    if line == [] {
      DispatchVolume(p);
      DispatchVolume(q);
    } else if DataPayload(line).Some? {
      DataLine(p, line, Identity);
      DataLine(q, line, Longer(v));
    } else {
      OtherLine(q, line, Longer(v));
      PlainLineAlike(p, q, line);
    }
  }

  predicate Holds(lines: seq<Bytes>, v: Bytes) {
    exists i :: 0 <= i < |lines| && DataPayload(lines[i]) == Some(v)
  }

  predicate Delivers(lines: seq<Bytes>, v: Bytes) {
    exists i: nat, j: nat | i < |lines| && j < |lines| :: Carried(lines, i, j, v)
  }

  predicate Carried(lines: seq<Bytes>, i: nat, j: nat, v: Bytes) {
    i < j < |lines| && DataPayload(lines[i]) == Some(v) && lines[j] == []
  }

  lemma HoldsSnoc(front: seq<Bytes>, line: Bytes, v: Bytes)
    ensures Holds(front + [line], v) ==> Holds(front, v) || DataPayload(line) == Some(v)
    ensures Delivers(front + [line], v) ==> Delivers(front, v) || (line == [] && Holds(front, v))
  {
    var lines := front + [line];
    assert forall i :: 0 <= i < |front| ==> lines[i] == front[i];
    if Delivers(lines, v) {
      var i: nat, j: nat :| i < |lines| && j < |lines| && Carried(lines, i, j, v);
      assert j < |front| ==> Carried(front, i, j, v);
      assert DataPayload(front[i]) == Some(v);
    }
  }

  lemma {:induction false} LongerIsAhead(p: Parser, lines: seq<Bytes>, v: Bytes)
    requires DataEndsInLf(p) && v != []
    ensures var a, b := Process(p, lines, Identity), Process(p, lines, Longer(v));
            && Behind(a, b)
            && (Holds(lines, v) ==> Ahead(a, b))
            && (Delivers(lines, v) ==> Volume(a.dispatched) < Volume(b.dispatched))
    decreases |lines|
  {
    if lines != [] {
      var n := |lines| - 1;
      LongerIsAhead(p, lines[..n], v);
      HoldsSnoc(lines[..n], lines[n], v);
      assert lines == lines[..n] + [lines[n]];
      StepBehind(Process(p, lines[..n], Identity), Process(p, lines[..n], Longer(v)), lines[n], v);
    }
  }

  lemma LineKeepsDataEnd(p: Parser, line: Bytes, f: Bytes -> Bytes)
    requires DataEndsInLf(p)
    ensures DataEndsInLf(ProcessLine(p, line, f))
  {
  }

  lemma {:induction false} ProcessedDataEndsInLf(lines: seq<Bytes>, f: Bytes -> Bytes)
    ensures DataEndsInLf(Process(FRESH, lines, f))
    decreases |lines|
  {
    if lines != [] {
      var n := |lines| - 1;
      ProcessedDataEndsInLf(lines[..n], f);
      LineKeepsDataEnd(Process(FRESH, lines[..n], f), lines[n], f);
    }
  }

  // ---- The end of a run ----

  predicate EndsAtEof(c: Config, base: ProxyEvent, script: seq<InnerPoll>, ts: seq<Timers>) {
    Run(c, Init(script, base), ts).ending == AtEof
  }

  /** The client receives the upstream's messages with their data rewritten. */
  predicate Preserved(c: Config, base: ProxyEvent, script: seq<InnerPoll>, ts: seq<Timers>) {
    Interpret(Received(c, base, script, ts), Identity).dispatched
    == Interpret(Upcoming(script), c.transform).dispatched
  }

  lemma OutputWithTail(c: Config, s: Stream)
    requires OutputMatches(c, s) && c.transform(s.tail) == s.tail
    ensures Flatten(s.output) == Rewritten(c, s.segments) + s.tail
  {
    var chunks := s.output[..|s.segments|];
    if s.tail == [] {
      assert s.output == chunks;
    } else {
      assert s.output == chunks + [s.tail];
      FlattenSnoc(chunks, s.tail);
    }
    OutputsAreRewritten(c, s.segments, chunks);
  }

  /** Both readings come to the leftover in the same state. */
  lemma ReadingsMeet(c: Config, segments: seq<Bytes>, tail: Bytes) returns (p: Parser)
    requires RewritesLines(c) && PlainText(Flatten(segments) + tail)
    requires forall i :: 0 <= i < |segments| ==> EndsInLf(segments[i])
    ensures DataEndsInLf(p)
    ensures Interpret(Rewritten(c, segments) + tail, Identity) == Process(p, Lines(tail), Identity)
    ensures Interpret(Flatten(segments) + tail, c.transform) == Process(p, Lines(tail), c.transform)
  {
    var front, out := Flatten(segments), Rewritten(c, segments);
    FlattenEndsInLf(segments);
    p := Process(FRESH, Lines(front), c.transform);
    ProcessedDataEndsInLf(Lines(front), c.transform);
    if segments == [] {
      assert front + tail == tail && out + tail == tail;
    } else {
      assert front == Flatten(segments[..|segments| - 1]) + segments[|segments| - 1];
      Utf8CutAfterLf(front, tail);
      NoBareCrCut(front, tail);
      BomInFront(front, tail);
      NoBomInOutput(c, segments);
      BomInFront(out, tail);
      SegmentsKeepMeaning(c, FRESH, segments);
      LinesCutAfterLf(front, tail);
      LinesCutAfterLf(out, tail);
      ProcessAppend(FRESH, Lines(front), Lines(tail), c.transform);
      ProcessAppend(FRESH, Lines(out), Lines(tail), Identity);
    }
  }

  lemma RunMeets(c: Config, base: ProxyEvent, script: seq<InnerPoll>, ts: seq<Timers>) returns (p: Parser)
    requires Unsent(base) && RewritesLines(c) && PlainText(Upcoming(script)) && EndsAtEof(c, base, script, ts)
    requires var s := Run(c, Init(script, base), ts); c.transform(s.tail) == s.tail
    ensures DataEndsInLf(p)
    ensures var lines := Lines(Run(c, Init(script, base), ts).tail);
            && Interpret(Received(c, base, script, ts), Identity) == Process(p, lines, Identity)
            && Interpret(Upcoming(script), c.transform) == Process(p, lines, c.transform)
  {
    RunKeepsInv(c, base, script, ts);
    var s := Run(c, Init(script, base), ts);
    assert s.accepted == Flatten(s.segments) + s.tail + [] == Flatten(s.segments) + s.tail;
    ChunksAreOutput(c, base, script, ts);
    OutputWithTail(c, s);
    p := ReadingsMeet(c, s.segments, s.tail);
  }

  /**
   Whatever is left in the buffer at end of file, the client receives the upstream's messages with
   their data rewritten, provided the rest is not itself rewritten and dispatches no data.
   */
  lemma MessagesArePreserved(c: Config, base: ProxyEvent, script: seq<InnerPoll>, ts: seq<Timers>)
    requires Unsent(base) && RewritesLines(c) && PlainText(Upcoming(script)) && EndsAtEof(c, base, script, ts)
    requires var s := Run(c, Init(script, base), ts);
             c.transform(s.tail) == s.tail && !DispatchesData(Lines(s.tail))
    ensures Preserved(c, base, script, ts)
  {
    var p := RunMeets(c, base, script, ts);
    UndispatchedReadsAlike(p, Lines(Run(c, Init(script, base), ts).tail), c.transform);
  }

  // ---- The course of a run does not depend on the rewriting ----

  predicate SameCourse(a: Stream, b: Stream) {
    && a.inner == b.inner && a.buf == b.buf && a.total == b.total && a.done == b.done
    && a.tail == b.tail && a.forced == b.forced && a.ending == b.ending
  }

  lemma SplitSameCourse(c: Config, d: Config, a: Stream, b: Stream, end: nat, forced: bool)
    requires SameCourse(a, b) && end <= |a.buf|
    ensures SameCourse(SplitEvent(c, a, end, forced).stream, SplitEvent(d, b, end, forced).stream)
  {
  }

  lemma FinalizeSameCourse(c: Config, d: Config, a: Stream, b: Stream, ending: Ending)
    requires SameCourse(a, b)
    ensures SameCourse(FinalizeStream(c, a, ending).stream, FinalizeStream(d, b, ending).stream)
  {
  }

  lemma TimeoutSameCourse(c: Config, d: Config, a: Stream, b: Stream, message: string, ending: Ending)
    requires SameCourse(a, b)
    ensures SameCourse(TimeoutStream(c, a, message, ending).stream, TimeoutStream(d, b, message, ending).stream)
  {
    var event := a.event.(status := "504", errorMessage := Some(message));
    var event' := b.event.(status := "504", errorMessage := Some(message));
    FinalizeSameCourse(c, d, a.(event := event), b.(event := event'), ending);
  }

  lemma FailSameCourse(a: Stream, b: Stream, status: string, message: string, ending: Ending)
    requires SameCourse(a, b)
    ensures SameCourse(FailStream(a, status, message, ending).stream, FailStream(b, status, message, ending).stream)
  {
  }

  lemma FaultSameCourse(c: Config, d: Config, a: Stream, b: Stream)
    requires SameCourse(a, b) && a.inner != [] && a.inner[0].Fault?
    ensures SameCourse(PollInner(c, a).stream, PollInner(d, b).stream)
  {
  }

  lemma {:induction false} PollInnerSameCourse(c: Config, d: Config, a: Stream, b: Stream)
    requires c.maxBytes == d.maxBytes && SameCourse(a, b)
    ensures SameCourse(PollInner(c, a).stream, PollInner(d, b).stream)
    decreases |a.inner|, 0
  {
    if a.inner != [] {
      var a1, b1 := a.(inner := a.inner[1..]), b.(inner := b.inner[1..]);
      match a.inner[0]
      case NotReady =>
      case End => FinalizeSameCourse(c, d, a1, b1, AtEof);
      case Fault(_) => FaultSameCourse(c, d, a, b);
      case Data(bytes) =>
        if a.total + |bytes| > c.maxBytes {
          FailSameCourse(a1.(total := a1.total + |bytes|), b1.(total := b1.total + |bytes|),
                         "502", "SSE stream exceeded max response size", TooLarge);
        } else {
          CutOrPollSameCourse(c, d, Accept(a1, bytes), Accept(b1, bytes));
        }
    }
  }

  lemma {:induction false} CutOrPollSameCourse(c: Config, d: Config, a: Stream, b: Stream)
    requires c.maxBytes == d.maxBytes && SameCourse(a, b)
    ensures SameCourse(CutOrPoll(c, a).stream, CutOrPoll(d, b).stream)
    decreases |a.inner|, 1
  {
    match CutOf(a.buf)
    case CutAt(end, forced) => SplitSameCourse(c, d, a, b, end, forced);
    case Unsplittable => FailSameCourse(a, b, "502", "SSE buffer exceeded cap without a line boundary", NoLineBoundary);
    case NoCut => PollInnerSameCourse(c, d, a, b);
  }

  lemma PollSameCourse(c: Config, d: Config, a: Stream, b: Stream, t: Timers)
    requires c.maxBytes == d.maxBytes && SameCourse(a, b)
    ensures SameCourse(Poll(c, a, t).stream, Poll(d, b, t).stream)
  {
    if a.done {
    } else if t.expired {
      TimeoutSameCourse(c, d, a, b, "SSE stream exceeded max duration", MaxDuration);
    } else if t.idle {
      TimeoutSameCourse(c, d, a, b, "SSE stream idle timeout", IdleTimeout);
    } else if t.shutdown && CutOf(a.buf).NoCut? {
      FinalizeSameCourse(c, d, a, b, AtShutdown);
    } else {
      CutOrPollSameCourse(c, d, a, b);
    }
  }

  lemma {:induction false} RunSameCourse(c: Config, d: Config, base: ProxyEvent, script: seq<InnerPoll>, ts: seq<Timers>)
    requires c.maxBytes == d.maxBytes
    ensures SameCourse(Run(c, Init(script, base), ts), Run(d, Init(script, base), ts))
    decreases |ts|
  {
    if ts != [] {
      var n := |ts| - 1;
      RunSameCourse(c, d, base, script, ts[..n]);
      PollSameCourse(c, d, Run(c, Init(script, base), ts[..n]), Run(d, Init(script, base), ts[..n]), ts[n]);
    }
  }

  // ---- Exactly when a rewrite is lost ----

  /** The rewritings the question is asked of: any that map lines to lines and leave the rest alone. */
  ghost predicate Admits(c: Config, maxBytes: nat, tail: Bytes) {
    c.maxBytes == maxBytes && RewritesLines(c) && c.transform(tail) == tail
  }

  lemma LineOfTail(tail: Bytes, i: nat)
    requires i < |Lines(tail)|
    ensures OneLine(Lines(tail)[i]) && |Lines(tail)[i]| < |tail|
  {
    LinesAreOneLine(tail);
    LinesAreShorter(tail);
  }

  lemma {:induction false} LinesAreShorter(s: Bytes)
    ensures forall i :: 0 <= i < |Lines(s)| ==> |Lines(s)[i]| < |s|
    decreases |s|
  {
    if SplitLine(s).FirstLine? {
      LinesAreShorter(SplitLine(s).rest);
    }
  }

  function NoUsage(payload: Bytes): UsageTokens { NO_USAGE }

  /** For a rest that dispatches data, a rewriting that is admitted and whose effect is lost. */
  lemma LosingRewriting(maxBytes: nat, tail: Bytes) returns (c: Config, v: Bytes)
    requires DispatchesData(Lines(tail))
    ensures Admits(c, maxBytes, tail) && c.transform == Longer(v) && v != [] && Delivers(Lines(tail), v)
  {
    var lines := Lines(tail);
    var i: nat, j: nat :| i < |lines| && j < |lines| && DispatchedData(lines, i, j);
    v := DataPayload(lines[i]).value;
    LineOfTail(tail, i);
    assert OneLine(v) && |v| < |tail|;
    c := Config(Longer(v), NoUsage, maxBytes);
    assert Carried(lines, i, j, v);
    forall p: Bytes | OneLine(p)
      ensures OneLine(c.transform(p))
    {
    }
  }

  /**
   For a run that ended at end of file: every admitted rewriting reaches the client in all messages
   if and only if no data line with a payload precedes a blank line in the leftover.
   */
  lemma MessagesArePreservedIff(c0: Config, base: ProxyEvent, script: seq<InnerPoll>, ts: seq<Timers>)
    requires Unsent(base) && PlainText(Upcoming(script)) && EndsAtEof(c0, base, script, ts)
    ensures var tail := Run(c0, Init(script, base), ts).tail;
            (forall c: Config :: Admits(c, c0.maxBytes, tail) ==> Preserved(c, base, script, ts)) <==>
            !DispatchesData(Lines(tail))
  {
    var tail := Run(c0, Init(script, base), ts).tail;
    if DispatchesData(Lines(tail)) {
      var c, v := LosingRewriting(c0.maxBytes, tail);
      RunSameCourse(c0, c, base, script, ts);
      var p := RunMeets(c, base, script, ts);
      LongerIsAhead(p, Lines(tail), v);
      assert !Preserved(c, base, script, ts);
    } else {
      forall c: Config | Admits(c, c0.maxBytes, tail)
        ensures Preserved(c, base, script, ts)
      {
        RunSameCourse(c0, c, base, script, ts);
        MessagesArePreserved(c, base, script, ts);
      }
    }
  }

  /** Without forced cuts the leftover is what follows the last whole event of the upstream. */
  lemma TailIsUnfinished(c: Config, base: ProxyEvent, script: seq<InnerPoll>, ts: seq<Timers>)
    requires Unsent(base) && EndsAtEof(c, base, script, ts) && !Run(c, Init(script, base), ts).forced
    ensures Run(c, Init(script, base), ts).tail == Unfinished(Upcoming(script))
  {
    RunKeepsInv(c, base, script, ts);
    var s := Run(c, Init(script, base), ts);
    assert s.accepted == Flatten(s.segments) + s.tail + [] == Flatten(s.segments) + s.tail;
    WholeSegments(s.segments);
    MinimalEventsAppend(Flatten(s.segments), s.tail);
    NoCutNoEvents(s.tail);
  }

  /**
   The condition on the upstream's bytes alone: if every event fits the buffer, so that no cut is
   forced, every admitted rewriting reaches the client in all messages if and only if what follows
   the upstream's last whole event dispatches no data.
   */
  lemma RewriteIsKeptIff(c0: Config, base: ProxyEvent, script: seq<InnerPoll>, ts: seq<Timers>)
    requires Unsent(base) && PlainText(Upcoming(script)) && EventsFit(Upcoming(script), MAX_SSE_BUFFER_BYTES)
    requires EndsAtEof(c0, base, script, ts)
    ensures var rest := Unfinished(Upcoming(script));
            (forall c: Config :: Admits(c, c0.maxBytes, rest) ==> Preserved(c, base, script, ts)) <==>
            !DispatchesData(Lines(rest))
  {
    RunKeepsInv(c0, base, script, ts);
    TailIsUnfinished(c0, base, script, ts);
    MessagesArePreservedIff(c0, base, script, ts);
  }

  // ---- An example ----

  /** The JSON object `{}` and the object `{"m":1}` the example rewrites it to. */
  const OLD: Bytes := [123, 125]
  const NEW: Bytes := [123, 34, 109, 34, 58, 49, 125]

  function RewriteObject(payload: Bytes): Bytes {
    if payload == OLD then NEW else payload
  }

  const EXAMPLE := Config(RewriteObject, NoUsage, 100)

  /** `data:{}`, LF, CRLF: a complete event for the client, no boundary for the proxy. */
  const MIXED: Bytes := [100, 97, 116, 97, COLON, 123, 125, LF, CR, LF]

  const MIXED_LINE: Bytes := [100, 97, 116, 97, COLON, 123, 125]

  lemma MixedLines()
    ensures Lines(MIXED) == [MIXED_LINE, []]
  {
    var blank: Bytes := [CR, LF];
    assert MIXED == MIXED_LINE + [LF] + blank;
    LineEndOfLine(MIXED_LINE, blank);
    assert SplitLine(MIXED) == FirstLine(MIXED_LINE, blank);
    assert SplitLine(blank) == FirstLine([], []);
    assert Lines(blank) == [[]] + Lines([]);
  }

  lemma MixedProcess(f: Bytes -> Bytes)
    ensures Process(FRESH, [MIXED_LINE, []], f) == Dispatch(ProcessLine(FRESH, MIXED_LINE, f))
  {
    ProcessSnoc(FRESH, [], MIXED_LINE, f);
    ProcessSnoc(FRESH, [MIXED_LINE], [], f);
    assert [] + [MIXED_LINE] == [MIXED_LINE];
    assert [MIXED_LINE] + [[]] == [MIXED_LINE, []];
  }

  lemma MixedLinePayload()
    ensures DataPayload(MIXED_LINE) == Some(OLD)
  {
    assert MIXED_LINE[..5] == DATA_PREFIX && MIXED_LINE[5..] == OLD;
  }

  lemma MixedIsOneEvent(f: Bytes -> Bytes)
    ensures Interpret(MIXED, f).dispatched == [Message(MESSAGE, f(OLD), [])]
  {
    MixedLines();
    MixedProcess(f);
    MixedLinePayload();
    DataLine(FRESH, MIXED_LINE, f);
    DispatchOnly(f(OLD));
  }

  lemma DispatchOnly(payload: Bytes)
    ensures Dispatch(FRESH.(data := [] + payload + [LF])).dispatched == [Message(MESSAGE, payload, [])]
  {
    var data := [] + payload + [LF];
    assert data[..|data| - 1] == payload;
  }

  lemma EofFlushes(c: Config, s: Stream)
    requires s.inner == [End] && !s.done && s.output == [] && s.buf != [] && CutOf(s.buf).NoCut?
    ensures var s' := CutOrPoll(c, s).stream;
            s'.ending == AtEof && s'.output == [c.transform(s.buf)] && s'.tail == s.buf
  {
  }

  /** A single chunk without a boundary is flushed as one body at end of file. */
  lemma OneChunkIsFlushed(c: Config, base: ProxyEvent, bytes: Bytes, timers: Timers)
    requires bytes != [] && |bytes| <= c.maxBytes && CutOf(bytes).NoCut?
    requires timers == Timers(false, false, false)
    ensures var s := Run(c, Init([Data(bytes), End], base), [timers]);
            s.ending == AtEof && s.output == [c.transform(bytes)] && s.tail == bytes
  {
    var s0 := Init([Data(bytes), End], base);
    var s1 := Accept(s0.(inner := s0.inner[1..]), bytes);
    assert s0.inner[1..] == [End];
    assert s1.buf == bytes;
    assert CutOf([]).NoCut?;
    EofFlushes(c, s1);
    assert PollInner(c, s0) == CutOrPoll(c, s1);
    assert Poll(c, s0, timers) == PollInner(c, s0);
    assert [timers][..0] == [] && Run(c, s0, []) == s0;
    assert Run(c, s0, [timers]) == Poll(c, s0, timers).stream;
  }

  lemma OneChunkUpcoming(bytes: Bytes)
    ensures Upcoming([Data(bytes), End]) == bytes
  {
    assert [Data(bytes), End][1..] == [End];
    assert bytes + [] == bytes;
  }

  lemma ExampleIsAdmissible()
    ensures RewritesLines(EXAMPLE) && NoBareCr(MIXED) && DispatchesData(Lines(MIXED))
    ensures EXAMPLE.transform(MIXED) == MIXED && CutOf(MIXED).NoCut?
  {
    MixedLines();
    assert MIXED_LINE[..5] == DATA_PREFIX && MIXED_LINE[5..] == OLD;
    assert DispatchedData(Lines(MIXED), 0, 1);
    assert |MIXED| == 10;
  }

  /** A last event ended by LF CRLF reaches the client with its payload as the upstream wrote it. */
  lemma HiddenBlankLineLosesRewrite(base: ProxyEvent, script: seq<InnerPoll>, ts: seq<Timers>)
    requires script == [Data(MIXED), End] && ts == [Timers(false, false, false)]
    ensures var s := Run(EXAMPLE, Init(script, base), ts);
            && RewritesLines(EXAMPLE) && NoBareCr(Upcoming(script))
            && s.ending == AtEof && EXAMPLE.transform(s.tail) == s.tail && DispatchesData(Lines(s.tail))
            && Interpret(Received(EXAMPLE, base, script, ts), Identity).dispatched == [Message(MESSAGE, OLD, [])]
            && Interpret(Upcoming(script), EXAMPLE.transform).dispatched == [Message(MESSAGE, NEW, [])]
  {
    ExampleIsAdmissible();
    OneChunkIsFlushed(EXAMPLE, base, MIXED, ts[0]);
    ChunksAreOutput(EXAMPLE, base, script, ts);
    OneChunkUpcoming(MIXED);
    FlattenSnoc([], MIXED);
    assert [] + [MIXED] == [MIXED] && [] + MIXED == MIXED;
    MixedIsOneEvent(Identity);
    MixedIsOneEvent(RewriteObject);
  }
}
