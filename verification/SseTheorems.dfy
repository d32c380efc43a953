/** The guarantees of the SSE stream, over every upstream script, chunking and timer schedule. */
module SseTheorems {
  import opened ByteStrings
  import opened Boundaries
  import opened EventStream
  import opened ProxyLog
  import opened SseSpec
  import opened SseRuns
  import opened SseMeaning

  // ---- Conservation and bounds ----

  /** No byte is lost, repeated or reordered, and the byte cap holds, at every point of every run. */
  lemma StreamConserves(c: Config, base: ProxyEvent, script: seq<InnerPoll>, ts: seq<Timers>)
    requires Unsent(base)
    ensures var s := Run(c, Init(script, base), ts);
            && s.accepted == Flatten(s.segments) + s.tail + s.buf
            && |s.accepted| <= c.maxBytes
            && (s.ending == AtEof ==> s.accepted == Upcoming(script) && s.buf == [])
            && (s.ending == Open ==> s.accepted + Upcoming(s.inner) == Upcoming(script))
  {
    RunKeepsInv(c, base, script, ts);
  }

  /** Whenever a poll returns Pending, the buffer holds no boundary and at most 1 MiB. */
  lemma PendingIsBounded(c: Config, s: Stream, t: Timers)
    requires Poll(c, s, t).item == Pending
    ensures var s' := Poll(c, s, t).stream;
            FullScan(s'.buf).None? && |s'.buf| <= MAX_SSE_BUFFER_BYTES && s'.done == s.done
  {
    CutOrPollPending(c, s);
  }

  lemma {:induction false} CutOrPollPending(c: Config, s: Stream)
    requires CutOrPoll(c, s).item == Pending
    ensures CutOf(CutOrPoll(c, s).stream.buf).NoCut? && CutOrPoll(c, s).stream.done == s.done
    decreases |s.inner|
  {
    if CutOf(s.buf).NoCut? && s.inner != [] && s.inner[0].Data? {
      CutOrPollPending(c, Accept(s.(inner := s.inner[1..]), s.inner[0].bytes));
    }
  }

  // ---- The cut segments ----

  function EventLists(segments: seq<Bytes>): seq<seq<Bytes>> {
    if segments == [] then []
    else EventLists(segments[..|segments| - 1]) + [MinimalEvents(segments[|segments| - 1])]
  }

  lemma {:induction false} EventsOfSegments(segments: seq<Bytes>)
    requires forall i :: 0 <= i < |segments| ==> Whole(segments[i])
    ensures MinimalEvents(Flatten(segments)) == Flatten(EventLists(segments))
    decreases |segments|
  {
    if segments == [] {
      NoCutNoEvents([]);
    } else {
      var front, last := segments[..|segments| - 1], segments[|segments| - 1];
      WholeSegments(front);
      EventsOfSegments(front);
      MinimalEventsAppend(Flatten(front), last);
      FlattenSnoc(EventLists(front), MinimalEvents(last));
    }
  }

  /** Chunking can only coarsen: without forced cuts, segments are runs of whole minimal events. */
  lemma ChunkingOnlyCoarsens(c: Config, base: ProxyEvent, script: seq<InnerPoll>, ts: seq<Timers>)
    requires Unsent(base) && !Run(c, Init(script, base), ts).forced
    ensures var s := Run(c, Init(script, base), ts);
            && (forall i :: 0 <= i < |s.segments| ==> Whole(s.segments[i]))
            && MinimalEvents(Flatten(s.segments)) == Flatten(EventLists(s.segments))
  {
    RunKeepsInv(c, base, script, ts);
    EventsOfSegments(Run(c, Init(script, base), ts).segments);
  }

  lemma {:induction false} SingleEvents(segments: seq<Bytes>)
    requires forall i :: 0 <= i < |segments| ==> Whole(segments[i]) && MinimalEvents(segments[i]) == [segments[i]]
    ensures MinimalEvents(Flatten(segments)) == segments
    decreases |segments|
  {
    if segments == [] {
      NoCutNoEvents([]);
    } else {
      var front, last := segments[..|segments| - 1], segments[|segments| - 1];
      WholeSegments(front);
      SingleEvents(front);
      MinimalEventsAppend(Flatten(front), last);
    }
  }

  /**
   With one terminator in use and every event within the cap, the segments are exactly the
   minimal events of the stream: they do not depend on how it was chunked.
   */
  lemma SegmentsAreMinimalEvents(c: Config, base: ProxyEvent, script: seq<InnerPoll>, ts: seq<Timers>)
    requires Unsent(base)
    requires OneTerminator(Upcoming(script)) && EventsFit(Upcoming(script), MAX_SSE_BUFFER_BYTES)
    requires Run(c, Init(script, base), ts).ending == AtEof
    ensures Run(c, Init(script, base), ts).segments == MinimalEvents(Upcoming(script))
  {
    var s := Run(c, Init(script, base), ts);
    RunKeepsInv(c, base, script, ts);
    SingleEvents(s.segments);
    WholeSegments(s.segments);
    MinimalEventsAppend(Flatten(s.segments), s.tail);
    NoCutNoEvents(s.tail);
    assert s.accepted == Flatten(s.segments) + s.tail;
  }

  // ---- Meaning ----

  lemma {:induction false} OutputsAreRewritten(c: Config, segments: seq<Bytes>, output: seq<Bytes>)
    requires |output| == |segments|
    requires forall i :: 0 <= i < |segments| ==> output[i] == TransformEvent(c, segments[i])
    ensures Flatten(output) == Rewritten(c, segments)
    decreases |segments|
  {
    if segments != [] {
      OutputsAreRewritten(c, segments[..|segments| - 1], output[..|output| - 1]);
    }
  }

  /** The text the property speaks of: UTF-8 without a byte order mark, lines ended by LF or CRLF. */
  predicate PlainText(s: Bytes) {
    ValidUtf8(s) && NoBareCr(s) && !StartsWithBom(s)
  }

  /**
   In a run that ends at the upstream's end of file with an empty buffer the chunks handed out make a
   stream that means what the upstream's means with each data line rewritten, forced cuts or not.
   */
  lemma MeaningIsPreserved(c: Config, base: ProxyEvent, script: seq<InnerPoll>, ts: seq<Timers>)
    requires Unsent(base) && RewritesLines(c) && PlainText(Upcoming(script))
    requires var s := Run(c, Init(script, base), ts); s.ending == AtEof && s.tail == []
    ensures Interpret(Received(c, base, script, ts), Identity)
         == Interpret(Upcoming(script), c.transform)
  {
    var s := Run(c, Init(script, base), ts);
    RunKeepsInv(c, base, script, ts);
    assert s.accepted == Flatten(s.segments);
    ChunksAreOutput(c, base, script, ts);
    OutputsAreRewritten(c, s.segments, s.output);
    NoBomInOutput(c, s.segments);
    SegmentsKeepMeaning(c, FRESH, s.segments);
  }

  /** Hence what the client reads depends on the upstream's bytes only, never on their chunking. */
  lemma ChunkingIsInvisible(c: Config, base: ProxyEvent,
                            script: seq<InnerPoll>, ts: seq<Timers>, script': seq<InnerPoll>, ts': seq<Timers>)
    requires Unsent(base) && RewritesLines(c) && PlainText(Upcoming(script))
    requires Upcoming(script) == Upcoming(script')
    requires var s := Run(c, Init(script, base), ts); s.ending == AtEof && s.tail == []
    requires var s := Run(c, Init(script', base), ts'); s.ending == AtEof && s.tail == []
    ensures Interpret(Received(c, base, script, ts), Identity)
         == Interpret(Received(c, base, script', ts'), Identity)
  {
    MeaningIsPreserved(c, base, script, ts);
    MeaningIsPreserved(c, base, script', ts');
  }

  /** A segment that is not UTF-8 reaches the client as it came. */
  lemma InvalidGoesUnchanged(c: Config, base: ProxyEvent, script: seq<InnerPoll>, ts: seq<Timers>, i: nat)
    requires Unsent(base) && i < |Run(c, Init(script, base), ts).segments|
    requires !ValidUtf8(Run(c, Init(script, base), ts).segments[i])
    ensures var chunks := Chunks(Items(c, Init(script, base), ts));
            i < |chunks| && chunks[i] == Run(c, Init(script, base), ts).segments[i]
  {
    RunKeepsInv(c, base, script, ts);
    ChunksAreOutput(c, base, script, ts);
  }

  // ---- The log ----

  /** However a stream runs and whenever it is dropped, it leaves exactly one record. */
  lemma ExactlyOneRecord(c: Config, base: ProxyEvent, script: seq<InnerPoll>, ts: seq<Timers>)
    requires Unsent(base)
    ensures var s := Drop(Run(c, Init(script, base), ts));
            && |s.segments| <= |s.output|
            && s.logged == [FinalRecord(c, base, s.segments, s.output[..|s.segments|], s.ending)]
  {
    RunKeepsInv(c, base, script, ts);
    DropKeepsInv(c, base, Upcoming(script), Run(c, Init(script, base), ts));
  }

  /** The usage has a positive prompt, completion or total count. */
  predicate Counts(u: UsageTokens) {
    || (u.promptTokens.Some? && u.promptTokens.value > 0)
    || (u.completionTokens.Some? && u.completionTokens.value > 0)
    || (u.totalTokens.Some? && u.totalTokens.value > 0)
  }

  predicate NoReport(c: Config, values: seq<Bytes>) {
    forall i :: 0 <= i < |values| ==> !Counts(c.usage(values[i]))
  }

  /** Value `i` is the last one to report a positive count. */
  predicate LastReport(c: Config, values: seq<Bytes>, i: nat) {
    && i < |values| && Counts(c.usage(values[i]))
    && forall j :: i < j < |values| ==> !Counts(c.usage(values[j]))
  }

  lemma {:induction false} NoReportKeepsNothing(c: Config, payloads: seq<Bytes>)
    requires NoReport(c, payloads)
    ensures TakeUsages(c, None, payloads) == None
    decreases |payloads|
  {
    if payloads != [] {
      NoReportKeepsNothing(c, payloads[..|payloads| - 1]);
    }
  }

  /** The usage kept over a stream is that of the last payload that reported a positive count. */
  lemma {:induction false} LastReportWins(c: Config, payloads: seq<Bytes>, i: nat)
    requires LastReport(c, payloads, i)
    ensures TakeUsages(c, None, payloads) == Some(c.usage(payloads[i]))
    decreases |payloads|
  {
    var front := payloads[..|payloads| - 1];
    if i < |front| {
      assert LastReport(c, front, i);
      LastReportWins(c, front, i);
    }
  }

  /** The payloads the code reads are the values of the data fields of the segments' lines. */
  lemma {:induction false} PayloadsAreValues(segments: seq<Bytes>)
    ensures Payloads(segments) == Values(segments)
    decreases |segments|
  {
    if segments != [] {
      PayloadsAreValues(segments[..|segments| - 1]);
      LinePayloadsAreValues(RustLines(segments[|segments| - 1]));
    }
  }

  /** What the record of an ended stream says of usage. */
  predicate Attributed(s: Stream, base: ProxyEvent, u: UsageTokens) {
    && |s.logged| == 1
    && var record := s.logged[0];
       && record.completionTokens == u.completionTokens
       && record.totalTokens == u.totalTokens
       && record.cachedTokens == u.cachedTokens
       && record.promptTokens == (if u.promptTokens.Some? then u.promptTokens else base.promptTokens)
  }

  predicate Seeded(s: Stream, base: ProxyEvent) {
    && |s.logged| == 1
    && var record := s.logged[0];
       && record.promptTokens == base.promptTokens && record.completionTokens == base.completionTokens
       && record.totalTokens == base.totalTokens && record.cachedTokens == base.cachedTokens
  }

  /**
   The record of an ended stream carries the counts of the last data value of the segments cut off that
   reported any, for any bytes; a segment that is not UTF-8 has no values.
   */
  lemma UsageIsAttributed(c: Config, base: ProxyEvent, script: seq<InnerPoll>, ts: seq<Timers>, i: nat)
    requires Unsent(base) && Run(c, Init(script, base), ts).done
    requires LastReport(c, Values(Run(c, Init(script, base), ts).segments), i)
    ensures var s := Run(c, Init(script, base), ts);
            Attributed(s, base, c.usage(Values(s.segments)[i]))
  {
    RunKeepsInv(c, base, script, ts);
    var s := Run(c, Init(script, base), ts);
    PayloadsAreValues(s.segments);
    LastReportWins(c, Payloads(s.segments), i);
  }

  /**
   For a plain text whose run ends at end of file with an empty buffer these are the data values of the
   upstream's own lines: the record carries what the last of them reported.
   */
  lemma UsageIsTheUpstreams(c: Config, base: ProxyEvent, script: seq<InnerPoll>, ts: seq<Timers>)
    requires Unsent(base) && PlainText(Upcoming(script))
    requires var s := Run(c, Init(script, base), ts); s.ending == AtEof && s.tail == []
    ensures var s, values := Run(c, Init(script, base), ts), DataValues(Lines(Upcoming(script)));
            && Payloads(s.segments) == values
            && (forall i: nat :: LastReport(c, values, i) ==> Attributed(s, base, c.usage(values[i])))
            && (NoReport(c, values) ==> Seeded(s, base))
  {
    RunKeepsInv(c, base, script, ts);
    var s, values := Run(c, Init(script, base), ts), DataValues(Lines(Upcoming(script)));
    assert s.accepted == Flatten(s.segments) + [] + [] == Flatten(s.segments);
    PayloadsAreValues(s.segments);
    ValuesOfText(s.segments);
    forall i: nat | LastReport(c, values, i)
      ensures Attributed(s, base, c.usage(values[i]))
    {
      UsageIsAttributed(c, base, script, ts, i);
    }
    if NoReport(c, values) {
      SeededCountsStay(c, base, script, ts);
    }
  }

  /** With no report at all the seeded counts stay; the body size is that of the event chunks emitted. */
  lemma SeededCountsStay(c: Config, base: ProxyEvent, script: seq<InnerPoll>, ts: seq<Timers>)
    requires Unsent(base) && Run(c, Init(script, base), ts).done
    ensures var s := Run(c, Init(script, base), ts);
            && |s.logged| == 1 && |s.segments| <= |s.output|
            && s.logged[0].responseBodySize == BodySize(s.output[..|s.segments|])
            && (NoReport(c, Values(s.segments)) ==> Seeded(s, base))
  {
    RunKeepsInv(c, base, script, ts);
    var s := Run(c, Init(script, base), ts);
    PayloadsAreValues(s.segments);
    if NoReport(c, Payloads(s.segments)) {
      NoReportKeepsNothing(c, Payloads(s.segments));
    }
  }

  // ---- Progress ----

  function Weight(inner: seq<InnerPoll>): nat {
    if inner == [] then 0
    else (if inner[0].Data? then 1 + |inner[0].bytes| else 1) + Weight(inner[1..])
  }

  /** The upstream ends: its script holds an end of file or an error. */
  predicate Terminates(inner: seq<InnerPoll>) {
    inner != [] && (inner[0].End? || inner[0].Fault? || Terminates(inner[1..]))
  }

  lemma {:induction false} CutOrPollAdvances(c: Config, s: Stream)
    requires !s.done && Terminates(s.inner)
    ensures var s' := CutOrPoll(c, s).stream;
            s'.done || (Terminates(s'.inner) && Weight(s'.inner) + |s'.buf| < Weight(s.inner) + |s.buf|)
    decreases |s.inner|
  {
    if CutOf(s.buf).NoCut? && s.inner[0].Data? && s.total + |s.inner[0].bytes| <= c.maxBytes {
      CutOrPollAdvances(c, Accept(s.(inner := s.inner[1..]), s.inner[0].bytes));
    }
  }

  /** A stream whose upstream ends is over after a bounded number of polls, whatever the timers do. */
  lemma {:induction false} StreamEnds(c: Config, base: ProxyEvent, script: seq<InnerPoll>, ts: seq<Timers>)
    requires Terminates(script)
    ensures var s := Run(c, Init(script, base), ts);
            s.done || (Terminates(s.inner) && Weight(s.inner) + |s.buf| + |ts| <= Weight(script))
    ensures |ts| > Weight(script) ==> Run(c, Init(script, base), ts).done
    decreases |ts|
  {
    if ts != [] {
      var s := Run(c, Init(script, base), ts[..|ts| - 1]);
      StreamEnds(c, base, script, ts[..|ts| - 1]);
      if !s.done {
        CutOrPollAdvances(c, s);
      }
    }
  }
}
