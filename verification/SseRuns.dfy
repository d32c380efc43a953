/** What every run of the SSE stream keeps, whatever the upstream, the chunking and the timers. */
module SseRuns {
  import opened ByteStrings
  import opened Boundaries
  import opened ProxyLog
  import opened SseSpec

  // ---- The invariant ----

  /** Bytes the rest of the upstream script can still deliver. */
  function Upcoming(inner: seq<InnerPoll>): Bytes {
    if inner == [] then []
    else
      match inner[0]
      case Data(bytes) => bytes + Upcoming(inner[1..])
      case NotReady => Upcoming(inner[1..])
      case Fault(_) => []
      case End => []
  }

  /** Accepted bytes are what was cut off, what was flushed at the end, and what is buffered. */
  predicate Conserves(c: Config, s: Stream) {
    && s.accepted == Flatten(s.segments) + s.tail + s.buf
    && |s.accepted| <= c.maxBytes
    && (s.ending != TooLarge ==> s.total == |s.accepted|)
    && (s.done <==> s.ending != Open)
    && (!s.done ==> s.tail == [])
    && (s.ending in {AtEof, AtShutdown, MaxDuration, IdleTimeout} ==> s.buf == [])
    && (s.ending in {AtEof, AtShutdown} ==> CutOf(s.tail).NoCut?)
  }

  /** `upstream` is everything the script delivers before it ends. */
  predicate Consumes(upstream: Bytes, s: Stream) {
    && (s.ending == Open ==> s.accepted + Upcoming(s.inner) == upstream)
    && (s.ending == AtEof ==> s.accepted == upstream)
  }

  /** Segments end lines; unless forced they are whole events, one each if one terminator is in use. */
  predicate SegmentsWellCut(upstream: Bytes, s: Stream) {
    && (forall i :: 0 <= i < |s.segments| ==> EndsInLf(s.segments[i]))
    && (!s.forced ==> forall i :: 0 <= i < |s.segments| ==> Whole(s.segments[i]))
    && (!s.forced && OneTerminator(upstream) ==>
          forall i :: 0 <= i < |s.segments| ==> MinimalEvents(s.segments[i]) == [s.segments[i]])
    && (EventsFit(upstream, MAX_SSE_BUFFER_BYTES) ==> !s.forced && s.ending != NoLineBoundary)
  }

  predicate OutputMatches(c: Config, s: Stream) {
    && |s.output| == |s.segments| + (if s.tail == [] then 0 else 1)
    && (forall i :: 0 <= i < |s.segments| ==> s.output[i] == TransformEvent(c, s.segments[i]))
    && (s.tail != [] ==> s.output[|s.segments|] == c.transform(s.tail))
  }

  function Payloads(segments: seq<Bytes>): seq<Bytes> {
    if segments == [] then []
    else Payloads(segments[..|segments| - 1]) + EventPayloads(segments[|segments| - 1])
  }

  function BodySize(output: seq<Bytes>): Option<int> {
    if output == [] then None else Some(|Flatten(output)|)
  }

  function StatusOf(base: ProxyEvent, ending: Ending): string {
    match ending
    case MaxDuration => "504"
    case IdleTimeout => "504"
    case TooLarge => "502"
    case NoLineBoundary => "502"
    case Dropped => "499"
    case Open => base.status
    case AtEof => base.status
    case AtShutdown => base.status
    case UpstreamFault(_) => base.status
  }

  function ErrorOf(base: ProxyEvent, ending: Ending): Option<string> {
    match ending
    case MaxDuration => Some("SSE stream exceeded max duration")
    case IdleTimeout => Some("SSE stream idle timeout")
    case TooLarge => Some("SSE stream exceeded max response size")
    case NoLineBoundary => Some("SSE buffer exceeded cap without a line boundary")
    case UpstreamFault(m) => Some(m)
    case Dropped => base.errorMessage
    case Open => base.errorMessage
    case AtEof => base.errorMessage
    case AtShutdown => base.errorMessage
  }

  /** The one record a stream with these segments, outputs and ending leaves behind. */
  function FinalRecord(c: Config, base: ProxyEvent, segments: seq<Bytes>, output: seq<Bytes>, ending: Ending): ProxyEvent {
    var event := base.(status := StatusOf(base, ending),
                       errorMessage := ErrorOf(base, ending),
                       responseBodySize := BodySize(output));
    match TakeUsages(c, None, Payloads(segments))
    case Some(u) => Attribute(event, u)
    case None => event
  }

  predicate LogsOnce(c: Config, base: ProxyEvent, s: Stream)
    requires |s.segments| <= |s.output|
  {
    var emitted := s.output[..|s.segments|];
    if s.done then
      s.logged == [FinalRecord(c, base, s.segments, emitted, s.ending)]
    else
      && s.logged == []
      && s.tokens == TakeUsages(c, None, Payloads(s.segments))
      && s.event == base.(responseBodySize := BodySize(emitted))
  }

  predicate Inv(c: Config, base: ProxyEvent, upstream: Bytes, s: Stream) {
    && Conserves(c, s)
    && Consumes(upstream, s)
    && SegmentsWellCut(upstream, s)
    && OutputMatches(c, s)
    && LogsOnce(c, base, s)
  }

  // ---- Every step keeps it ----

  lemma {:induction false} TakeUsagesAppend(c: Config, tokens: Option<UsageTokens>, a: seq<Bytes>, b: seq<Bytes>)
    ensures TakeUsages(c, tokens, a + b) == TakeUsages(c, TakeUsages(c, tokens, a), b)
    decreases |b|
  {
    if b == [] {
      assert a + b == a;
    } else {
      var b' := b[..|b| - 1];
      assert (a + b)[..|a + b| - 1] == a + b';
      TakeUsagesAppend(c, tokens, a, b');
    }
  }

  lemma PayloadsSnoc(segments: seq<Bytes>, segment: Bytes)
    ensures Payloads(segments + [segment]) == Payloads(segments) + EventPayloads(segment)
  {
    assert (segments + [segment])[..|segments|] == segments;
  }

  /** A cut ends a line, and takes whole events unless it was forced. */
  lemma CutEndsLine(buf: Bytes)
    ensures var cut := CutOf(buf);
            cut.CutAt? ==> EndsInLf(buf[..cut.end]) && (!cut.forced ==> Whole(buf[..cut.end]))
  {
    var cut := CutOf(buf);
    if cut.CutAt? && !cut.forced {
      CutIsWhole(buf, cut.end);
    }
  }

  lemma SplitConserves(c: Config, s: Stream, end: nat, forced: bool)
    requires Conserves(c, s) && !s.done && end <= |s.buf|
    ensures Conserves(c, SplitEvent(c, s, end, forced).stream)
  {
    var s' := SplitEvent(c, s, end, forced).stream;
    var segment := s.buf[..end];
    FlattenSnoc(s.segments, segment);
    assert s.buf == segment + s'.buf;
    ConcatAssoc(Flatten(s.segments), segment, s'.buf);
    assert Flatten(s.segments) + [] == Flatten(s.segments);
    assert Flatten(s'.segments) + [] == Flatten(s'.segments);
  }

  lemma {:induction false} WholeSegments(segments: seq<Bytes>)
    requires forall i :: 0 <= i < |segments| ==> Whole(segments[i])
    ensures Unfinished(Flatten(segments)) == []
    decreases |segments|
  {
    if segments == [] {
      NoCutNoEvents([]);
    } else {
      var front, last := segments[..|segments| - 1], segments[|segments| - 1];
      WholeSegments(front);
      MinimalEventsAppend(Flatten(front), last);
    }
  }

  /** While every event fits the cap, no open stream needs a forced cut. */
  lemma FittingEventsNeedNoForce(c: Config, base: ProxyEvent, upstream: Bytes, s: Stream)
    requires Inv(c, base, upstream, s) && !s.done && EventsFit(upstream, MAX_SSE_BUFFER_BYTES)
    ensures CutOf(s.buf).CutAt? ==> !CutOf(s.buf).forced
    ensures !CutOf(s.buf).Unsplittable?
  {
    WholeSegments(s.segments);
    var front, later := Flatten(s.segments), Upcoming(s.inner);
    assert front + [] == front;
    ConcatAssoc(front, s.buf, later);
    if FullScan(s.buf).None? {
      NoCutFits(front, s.buf, later, MAX_SSE_BUFFER_BYTES);
    }
  }

  /** What an open stream may cut: no forced cut while events fit, one event while one terminator is in use. */
  lemma OpenCut(c: Config, base: ProxyEvent, upstream: Bytes, s: Stream)
    requires Inv(c, base, upstream, s) && !s.done && CutOf(s.buf).CutAt?
    ensures var cut, segment := CutOf(s.buf), s.buf[..CutOf(s.buf).end];
            && (EventsFit(upstream, MAX_SSE_BUFFER_BYTES) ==> !cut.forced)
            && (!cut.forced && OneTerminator(upstream) ==> MinimalEvents(segment) == [segment])
  {
    if EventsFit(upstream, MAX_SSE_BUFFER_BYTES) {
      FittingEventsNeedNoForce(c, base, upstream, s);
    }
    if !CutOf(s.buf).forced && OneTerminator(upstream) {
      assert Flatten(s.segments) + [] == Flatten(s.segments);
      OneTerminatorInfix(Flatten(s.segments), s.buf, Upcoming(s.inner));
      CutIsOneEvent(s.buf, CutOf(s.buf).end);
    }
  }

  lemma OneMoreSegment(upstream: Bytes, s: Stream, s': Stream, segment: Bytes, forced: bool)
    requires SegmentsWellCut(upstream, s) && s'.segments == s.segments + [segment]
    requires s'.forced == (s.forced || forced) && s'.ending == s.ending
    requires EndsInLf(segment) && (!forced ==> Whole(segment))
    requires !forced && OneTerminator(upstream) ==> MinimalEvents(segment) == [segment]
    requires EventsFit(upstream, MAX_SSE_BUFFER_BYTES) ==> !forced
    ensures SegmentsWellCut(upstream, s')
  {
  }

  lemma SplitCutsWell(c: Config, base: ProxyEvent, upstream: Bytes, s: Stream)
    requires Inv(c, base, upstream, s) && !s.done && CutOf(s.buf).CutAt?
    ensures SegmentsWellCut(upstream, SplitEvent(c, s, CutOf(s.buf).end, CutOf(s.buf).forced).stream)
  {
    CutEndsLine(s.buf);
    OpenCut(c, base, upstream, s);
    var cut := CutOf(s.buf);
    OneMoreSegment(upstream, s, SplitEvent(c, s, cut.end, cut.forced).stream, s.buf[..cut.end], cut.forced);
  }

  lemma SplitMatches(c: Config, s: Stream, end: nat, forced: bool)
    requires OutputMatches(c, s) && s.tail == [] && end <= |s.buf|
    ensures OutputMatches(c, SplitEvent(c, s, end, forced).stream)
  {
  }

  lemma BodySizeSnoc(output: seq<Bytes>, out: Bytes)
    ensures BodySize(output + [out]) == Some((if BodySize(output).Some? then BodySize(output).value else 0) + |out|)
  {
    FlattenSnoc(output, out);
  }

  lemma UsageSnoc(c: Config, segments: seq<Bytes>, segment: Bytes)
    ensures TakeUsages(c, TakeUsages(c, None, Payloads(segments)), EventPayloads(segment))
         == TakeUsages(c, None, Payloads(segments + [segment]))
  {
    PayloadsSnoc(segments, segment);
    TakeUsagesAppend(c, None, Payloads(segments), EventPayloads(segment));
  }

  lemma SplitLogsNothing(c: Config, base: ProxyEvent, s: Stream, end: nat, forced: bool, out: Bytes, tokens: Option<UsageTokens>)
    requires |s.output| == |s.segments| && LogsOnce(c, base, s) && !s.done && end <= |s.buf|
    requires tokens == TakeUsages(c, None, Payloads(s.segments + [s.buf[..end]]))
    ensures LogsOnce(c, base, SplitInto(s, end, forced, out, tokens))
  {
    BodySizeSnoc(s.output, out);
    assert s.output[..|s.segments|] == s.output;
    var s' := SplitInto(s, end, forced, out, tokens);
    assert s'.output[..|s'.segments|] == s.output + [out];
    assert s'.event == base.(responseBodySize := BodySize(s.output + [out]));
  }

  lemma SplitKeepsInv(c: Config, base: ProxyEvent, upstream: Bytes, s: Stream)
    requires Inv(c, base, upstream, s) && !s.done && CutOf(s.buf).CutAt?
    ensures Inv(c, base, upstream, SplitEvent(c, s, CutOf(s.buf).end, CutOf(s.buf).forced).stream)
  {
    var cut := CutOf(s.buf);
    SplitConserves(c, s, cut.end, cut.forced);
    SplitCutsWell(c, base, upstream, s);
    SplitMatches(c, s, cut.end, cut.forced);
    var segment := s.buf[..cut.end];
    UsageSnoc(c, s.segments, segment);
    SplitLogsNothing(c, base, s, cut.end, cut.forced, TransformEvent(c, segment),
                     TakeUsages(c, s.tokens, EventPayloads(segment)));
  }

  /** `marked` is `s` about to end: at most its script moved on and its outcome was noted. */
  predicate Marked(base: ProxyEvent, s: Stream, marked: Stream, ending: Ending) {
    && marked == s.(inner := marked.inner, event := marked.event)
    && marked.event == s.event.(status := StatusOf(base, ending), errorMessage := ErrorOf(base, ending))
  }

  lemma FinalizeConserves(c: Config, s: Stream, marked: Stream, ending: Ending)
    requires Conserves(c, s) && !s.done
    requires ending in {AtEof, AtShutdown, MaxDuration, IdleTimeout}
    requires ending in {AtEof, AtShutdown} ==> CutOf(s.buf).NoCut?
    requires marked == s.(inner := marked.inner, event := marked.event)
    ensures Conserves(c, FinalizeStream(c, marked, ending).stream)
  {
    var s' := FinalizeStream(c, marked, ending).stream;
    assert Flatten(s.segments) + [] == Flatten(s.segments);
    assert s'.accepted == Flatten(s'.segments) + s'.tail + s'.buf;
  }

  lemma FinalizeLogsOnce(c: Config, base: ProxyEvent, s: Stream, marked: Stream, ending: Ending)
    requires Conserves(c, s) && OutputMatches(c, s) && LogsOnce(c, base, s) && !s.done
    requires ending != Open && Marked(base, s, marked, ending)
    ensures OutputMatches(c, FinalizeStream(c, marked, ending).stream)
    ensures LogsOnce(c, base, FinalizeStream(c, marked, ending).stream)
  {
    var s' := FinalizeStream(c, marked, ending).stream;
    assert s.output[..|s.segments|] == s.output;
    assert s'.output[..|s.segments|] == s.output;
  }

  lemma FinalizeKeepsInv(c: Config, base: ProxyEvent, upstream: Bytes, s: Stream, marked: Stream, ending: Ending)
    requires Inv(c, base, upstream, s) && !s.done
    requires ending in {AtEof, AtShutdown, MaxDuration, IdleTimeout}
    requires ending == AtEof ==> s.accepted == upstream
    requires ending in {AtEof, AtShutdown} ==> CutOf(s.buf).NoCut?
    requires Marked(base, s, marked, ending)
    ensures Inv(c, base, upstream, FinalizeStream(c, marked, ending).stream)
  {
    FinalizeConserves(c, s, marked, ending);
    FinalizeLogsOnce(c, base, s, marked, ending);
  }

  lemma LogKeepsInv(c: Config, base: ProxyEvent, upstream: Bytes, s: Stream, marked: Stream)
    requires Inv(c, base, upstream, s) && !s.done
    requires marked.ending.TooLarge? || marked.ending.NoLineBoundary? || marked.ending.UpstreamFault? || marked.ending.Dropped?
    requires marked.ending == NoLineBoundary ==> !EventsFit(upstream, MAX_SSE_BUFFER_BYTES)
    requires marked == s.(inner := marked.inner, total := marked.total, event := marked.event, done := true, ending := marked.ending)
    requires marked.ending != TooLarge ==> marked.total == s.total
    requires marked.event == s.event.(status := StatusOf(base, marked.ending), errorMessage := ErrorOf(base, marked.ending))
    ensures Inv(c, base, upstream, FinalizeLog(marked))
  {
  }

  lemma AcceptKeepsInv(c: Config, base: ProxyEvent, upstream: Bytes, s: Stream)
    requires Inv(c, base, upstream, s) && !s.done
    requires s.inner != [] && s.inner[0].Data? && s.total + |s.inner[0].bytes| <= c.maxBytes
    ensures Inv(c, base, upstream, Accept(s.(inner := s.inner[1..]), s.inner[0].bytes))
  {
    var bytes := s.inner[0].bytes;
    var s' := Accept(s.(inner := s.inner[1..]), bytes);
    ConcatAssoc(Flatten(s.segments) + s.tail, s.buf, bytes);
    ConcatAssoc(s.accepted, bytes, Upcoming(s'.inner));
  }

  lemma EofKeepsInv(c: Config, base: ProxyEvent, upstream: Bytes, s: Stream)
    requires Inv(c, base, upstream, s) && !s.done && CutOf(s.buf).NoCut?
    requires s.inner != [] && s.inner[0].End?
    ensures Inv(c, base, upstream, FinalizeStream(c, s.(inner := s.inner[1..]), AtEof).stream)
  {
    assert s.accepted + [] == s.accepted;
    FinalizeKeepsInv(c, base, upstream, s, s.(inner := s.inner[1..]), AtEof);
  }

  lemma FaultKeepsInv(c: Config, base: ProxyEvent, upstream: Bytes, s: Stream)
    requires Inv(c, base, upstream, s) && !s.done && CutOf(s.buf).NoCut?
    requires s.inner != [] && s.inner[0].Fault?
    ensures Inv(c, base, upstream, PollInner(c, s).stream)
  {
    var m := s.inner[0].message;
    var event := s.event.(errorMessage := Some(m));
    LogKeepsInv(c, base, upstream, s,
                s.(inner := s.inner[1..], event := event, done := true, ending := UpstreamFault(m)));
  }

  lemma TooLargeKeepsInv(c: Config, base: ProxyEvent, upstream: Bytes, s: Stream)
    requires Inv(c, base, upstream, s) && !s.done && CutOf(s.buf).NoCut?
    requires s.inner != [] && s.inner[0].Data? && s.total + |s.inner[0].bytes| > c.maxBytes
    ensures Inv(c, base, upstream, PollInner(c, s).stream)
  {
    var event := s.event.(status := "502", errorMessage := Some("SSE stream exceeded max response size"));
    LogKeepsInv(c, base, upstream, s,
                s.(inner := s.inner[1..], total := s.total + |s.inner[0].bytes|,
                   event := event, done := true, ending := TooLarge));
  }

  lemma {:induction false} PollInnerKeepsInv(c: Config, base: ProxyEvent, upstream: Bytes, s: Stream)
    requires Inv(c, base, upstream, s) && !s.done && CutOf(s.buf).NoCut?
    ensures Inv(c, base, upstream, PollInner(c, s).stream)
    decreases |s.inner|, 0
  {
    if s.inner != [] {
      match s.inner[0]
      case NotReady =>
      case End => EofKeepsInv(c, base, upstream, s);
      case Fault(_) => FaultKeepsInv(c, base, upstream, s);
      case Data(bytes) =>
        if s.total + |bytes| > c.maxBytes {
          TooLargeKeepsInv(c, base, upstream, s);
        } else {
          AcceptKeepsInv(c, base, upstream, s);
          var s2 := Accept(s.(inner := s.inner[1..]), bytes);
          CutOrPollKeepsInv(c, base, upstream, s2);
        }
    }
  }

  lemma {:induction false} CutOrPollKeepsInv(c: Config, base: ProxyEvent, upstream: Bytes, s: Stream)
    requires Inv(c, base, upstream, s) && !s.done
    ensures Inv(c, base, upstream, CutOrPoll(c, s).stream)
    decreases |s.inner|, 1
  {
    match CutOf(s.buf)
    case CutAt(end, forced) => SplitKeepsInv(c, base, upstream, s);
    case Unsplittable => UnsplittableKeepsInv(c, base, upstream, s);
    case NoCut => PollInnerKeepsInv(c, base, upstream, s);
  }

  lemma UnsplittableKeepsInv(c: Config, base: ProxyEvent, upstream: Bytes, s: Stream)
    requires Inv(c, base, upstream, s) && !s.done && CutOf(s.buf).Unsplittable?
    ensures var message := "SSE buffer exceeded cap without a line boundary";
            Inv(c, base, upstream, FailStream(s, "502", message, NoLineBoundary).stream)
  {
    if EventsFit(upstream, MAX_SSE_BUFFER_BYTES) {
      FittingEventsNeedNoForce(c, base, upstream, s);
    }
    var event := s.event.(status := "502", errorMessage := Some("SSE buffer exceeded cap without a line boundary"));
    LogKeepsInv(c, base, upstream, s, s.(event := event, done := true, ending := NoLineBoundary));
  }

  lemma TimeoutKeepsInv(c: Config, base: ProxyEvent, upstream: Bytes, s: Stream, message: string, ending: Ending)
    requires Inv(c, base, upstream, s) && !s.done
    requires ending in {MaxDuration, IdleTimeout} && ErrorOf(base, ending) == Some(message)
    ensures Inv(c, base, upstream, TimeoutStream(c, s, message, ending).stream)
  {
    var event := s.event.(status := "504", errorMessage := Some(message));
    FinalizeKeepsInv(c, base, upstream, s, s.(event := event), ending);
  }

  lemma PollKeepsInv(c: Config, base: ProxyEvent, upstream: Bytes, s: Stream, t: Timers)
    requires Inv(c, base, upstream, s)
    ensures Inv(c, base, upstream, Poll(c, s, t).stream)
  {
    if s.done {
    } else if t.expired {
      TimeoutKeepsInv(c, base, upstream, s, "SSE stream exceeded max duration", MaxDuration);
    } else if t.idle {
      TimeoutKeepsInv(c, base, upstream, s, "SSE stream idle timeout", IdleTimeout);
    } else {
      if t.shutdown && CutOf(s.buf).NoCut? {
        FinalizeKeepsInv(c, base, upstream, s, s, AtShutdown);
      } else {
        CutOrPollKeepsInv(c, base, upstream, s);
      }
    }
  }

  /** A stream as `proxy_streamed` builds it: nothing sent yet, no size recorded. */
  predicate Unsent(base: ProxyEvent) {
    base.responseBodySize.None?
  }

  lemma {:induction false} RunKeepsInv(c: Config, base: ProxyEvent, script: seq<InnerPoll>, ts: seq<Timers>)
    requires Unsent(base)
    ensures Inv(c, base, Upcoming(script), Run(c, Init(script, base), ts))
    decreases |ts|
  {
    if ts == [] {
      assert [] + Upcoming(script) == Upcoming(script);
    } else {
      var ts' := ts[..|ts| - 1];
      RunKeepsInv(c, base, script, ts');
      PollKeepsInv(c, base, Upcoming(script), Run(c, Init(script, base), ts'), ts[|ts| - 1]);
    }
  }

  lemma DropKeepsInv(c: Config, base: ProxyEvent, upstream: Bytes, s: Stream)
    requires Inv(c, base, upstream, s)
    ensures Inv(c, base, upstream, Drop(s)) && Drop(s).done
  {
    if !s.done {
      var event := s.event.(status := "499");
      LogKeepsInv(c, base, upstream, s, s.(event := event, done := true, ending := Dropped));
    }
  }

  // ---- What the client receives ----

  function Handed(item: Item): seq<Bytes> {
    if item.Chunk? then [item.bytes] else []
  }

  lemma {:induction false} CutOrPollHands(c: Config, s: Stream)
    ensures CutOrPoll(c, s).stream.output == s.output + Handed(CutOrPoll(c, s).item)
    decreases |s.inner|
  {
    assert s.output + [] == s.output;
    if CutOf(s.buf).NoCut? && s.inner != [] && s.inner[0].Data? && s.total + |s.inner[0].bytes| <= c.maxBytes {
      CutOrPollHands(c, Accept(s.(inner := s.inner[1..]), s.inner[0].bytes));
    }
  }

  lemma PollHands(c: Config, s: Stream, t: Timers)
    ensures Poll(c, s, t).stream.output == s.output + Handed(Poll(c, s, t).item)
  {
    CutOrPollHands(c, s);
    assert s.output + [] == s.output;
  }

  lemma ChunksSnoc(items: seq<Item>, item: Item)
    ensures Chunks(items + [item]) == Chunks(items) + Handed(item)
  {
    assert (items + [item])[..|items|] == items;
  }

  /** The chunks handed out, in order, are the outputs of the history. */
  lemma {:induction false} ChunksAreOutput(c: Config, base: ProxyEvent, script: seq<InnerPoll>, ts: seq<Timers>)
    ensures Chunks(Items(c, Init(script, base), ts)) == Run(c, Init(script, base), ts).output
    decreases |ts|
  {
    if ts != [] {
      var n := |ts| - 1;
      ChunksAreOutput(c, base, script, ts[..n]);
      PollHands(c, Run(c, Init(script, base), ts[..n]), ts[n]);
      ChunksSnoc(Items(c, Init(script, base), ts[..n]), Poll(c, Run(c, Init(script, base), ts[..n]), ts[n]).item);
    }
  }

  /** The bytes the client has received. */
  function Received(c: Config, base: ProxyEvent, script: seq<InnerPoll>, ts: seq<Timers>): Bytes {
    Flatten(Chunks(Items(c, Init(script, base), ts)))
  }
}
