/**
 What one poll and a whole run of the SSE stream come to, told from the upstream's script, the timers
 and the byte cap: which item is handed out, which end the stream takes and what its record says.
 */
module SseEndings {
  import opened ByteStrings
  import opened Boundaries
  import opened ProxyLog
  import opened SseSpec
  import opened SseRuns
  import opened SseTheorems

  /** The buffer holds a boundary, or more than may be buffered. */
  predicate CallsForCut(buf: Bytes) {
    || |buf| > MAX_SSE_BUFFER_BYTES
    || exists i: nat | i < |buf| :: OccursAt(buf, LfLf, i) || OccursAt(buf, CrLfCrLf, i)
  }

  lemma CallsForCutIff(buf: Bytes)
    ensures CallsForCut(buf) <==> !CutOf(buf).NoCut?
  {
    var a, b := Position(buf, CrLfCrLf, 0), Position(buf, LfLf, 0);
    assert a.Some? ==> OccursAt(buf, CrLfCrLf, a.value);
    assert b.Some? ==> OccursAt(buf, LfLf, b.value);
  }

  // ---- One poll ----

  /** The bytes that the first `k` polls of the upstream deliver. */
  function Arrived(inner: seq<InnerPoll>, k: nat): Bytes
    requires k <= |inner|
  {
    if k == 0 then []
    else Arrived(inner, k - 1) + if inner[k - 1].Data? then inner[k - 1].bytes else []
  }

  /** The buffer before poll `j` calls for no cut, and that poll is a chunk within the byte cap. */
  predicate ReadsOn(c: Config, s: Stream, j: nat) {
    && j < |s.inner| && s.inner[j].Data?
    && s.total + |Arrived(s.inner, j + 1)| <= c.maxBytes
    && !CallsForCut(s.buf + Arrived(s.inner, j))
  }

  predicate Reads(c: Config, s: Stream, k: nat) {
    k <= |s.inner| && forall j: nat | j < k :: ReadsOn(c, s, j)
  }

  /** The one place where a buffer that calls for a cut is cut: its first boundary, else its last line end. */
  predicate CutPlace(buf: Bytes, end: nat) {
    match FullScan(buf)
    case Some(e) => end == e
    case None => 0 < end <= |buf| && buf[end - 1] == LF && LF !in buf[end..]
  }

  predicate StaysOpen(s: Stream, r: Step) {
    !r.stream.done && r.stream.ending == s.ending
  }

  /** What a poll gives that has read `k` chunks. */
  ghost predicate Gives(c: Config, s: Stream, k: nat, r: Step)
    requires k <= |s.inner|
  {
    var buf := s.buf + Arrived(s.inner, k);
    if CallsForCut(buf) then GivesCut(c, s, k, buf, r)
    else if k == |s.inner| then r.item == Pending && StaysOpen(s, r) && r.stream.buf == buf && r.stream.inner == []
    else
      && r.stream.inner == s.inner[k + 1..]
      && match s.inner[k]
         case NotReady => r.item == Pending && StaysOpen(s, r) && r.stream.buf == buf
         case End => r.stream.ending == AtEof && r.item == if buf == [] then Finished else Chunk(c.transform(buf))
         case Fault(m) => r.stream.ending == UpstreamFault(m) && r.item == Failed(m)
         case Data(bytes) =>
           && s.total + |Arrived(s.inner, k)| + |bytes| > c.maxBytes
           && r.stream.ending == TooLarge && r.item == Finished
  }

  ghost predicate GivesCut(c: Config, s: Stream, k: nat, buf: Bytes, r: Step)
    requires k <= |s.inner|
  {
    && r.stream.inner == s.inner[k..]
    && if FullScan(buf).None? && LF !in buf then r.stream.ending == NoLineBoundary && r.item == Finished
       else exists end: nat ::
         && end <= |buf| && CutPlace(buf, end) && StaysOpen(s, r)
         && r.stream.buf == buf[end..] && r.stream.segments == s.segments + [buf[..end]]
         && r.item == Chunk(TransformEvent(c, buf[..end]))
  }

  lemma {:induction false} ArrivedCons(inner: seq<InnerPoll>, k: nat)
    requires k < |inner| && inner[0].Data?
    ensures Arrived(inner, k + 1) == inner[0].bytes + Arrived(inner[1..], k)
  {
    if k > 0 {
      ArrivedCons(inner, k - 1);
    }
  }

  lemma CutGives(c: Config, s: Stream)
    requires !s.done && CallsForCut(s.buf)
    ensures Reads(c, s, 0) && Gives(c, s, 0, CutOrPoll(c, s))
  {
    CallsForCutIff(s.buf);
    assert s.buf + Arrived(s.inner, 0) == s.buf;
    match CutOf(s.buf)
    case CutAt(end, forced) => assert CutPlace(s.buf, end);
    case Unsplittable =>
  }

  /** `s2` is `s` after its first chunk. */
  predicate Accepted(c: Config, s: Stream, s2: Stream) {
    && s.inner != [] && s.inner[0].Data? && s.total + |s.inner[0].bytes| <= c.maxBytes && !CallsForCut(s.buf)
    && s2 == Accept(s.(inner := s.inner[1..]), s.inner[0].bytes)
  }

  lemma SameArrivals(c: Config, s: Stream, s2: Stream, j: nat)
    requires Accepted(c, s, s2) && j < |s.inner|
    ensures s.buf + Arrived(s.inner, j + 1) == s2.buf + Arrived(s2.inner, j)
    ensures s.total + |Arrived(s.inner, j + 1)| == s2.total + |Arrived(s2.inner, j)|
  {
    ArrivedCons(s.inner, j);
    ConcatAssoc(s.buf, s.inner[0].bytes, Arrived(s2.inner, j));
  }

  lemma ReadsOneMore(c: Config, s: Stream, s2: Stream, k: nat)
    requires Accepted(c, s, s2) && Reads(c, s2, k)
    ensures Reads(c, s, k + 1)
  {
    forall j: nat | j < k + 1
      ensures ReadsOn(c, s, j)
    {
      SameArrivals(c, s, s2, j);
      if j == 0 {
        assert Arrived(s.inner, 0) == [] && s.buf + [] == s.buf && Arrived(s2.inner, 0) == [];
      } else {
        SameArrivals(c, s, s2, j - 1);
        assert ReadsOn(c, s2, j - 1);
      }
    }
  }

  lemma GivesOneMore(c: Config, s: Stream, s2: Stream, k: nat, r: Step)
    requires Accepted(c, s, s2) && k <= |s2.inner| && Gives(c, s2, k, r)
    ensures Gives(c, s, k + 1, r)
  {
    SameArrivals(c, s, s2, k);
    assert s.inner[k + 1..] == s2.inner[k..];
    if k < |s2.inner| {
      assert s.inner[k + 2..] == s2.inner[k + 1..] && s.inner[k + 1] == s2.inner[k];
    }
  }

  /** The next thing the upstream says ends the poll. */
  lemma StopGives(c: Config, s: Stream)
    requires !s.done && !CallsForCut(s.buf)
    requires s.inner == [] || !s.inner[0].Data? || s.total + |s.inner[0].bytes| > c.maxBytes
    ensures Reads(c, s, 0) && Gives(c, s, 0, PollInner(c, s))
  {
    assert Arrived(s.inner, 0) == [] && s.buf + [] == s.buf;
  }

  lemma {:induction false} CutOrPollReads(c: Config, s: Stream) returns (k: nat)
    requires !s.done
    ensures Reads(c, s, k) && Gives(c, s, k, CutOrPoll(c, s))
    decreases |s.inner|
  {
    CallsForCutIff(s.buf);
    if CallsForCut(s.buf) {
      k := 0;
      CutGives(c, s);
    } else if s.inner != [] && s.inner[0].Data? && s.total + |s.inner[0].bytes| <= c.maxBytes {
      var s2 := Accept(s.(inner := s.inner[1..]), s.inner[0].bytes);
      var later := CutOrPollReads(c, s2);
      ReadsOneMore(c, s, s2, later);
      GivesOneMore(c, s, s2, later, CutOrPoll(c, s2));
      k := later + 1;
    } else {
      k := 0;
      StopGives(c, s);
    }
  }

  /**
   A poll of an open stream that no timer ends: after some chunks it cuts the buffer if that calls
   for a cut, and otherwise the next thing the upstream says decides.
   */
  lemma PollReads(c: Config, s: Stream, t: Timers) returns (k: nat)
    requires !s.done && !t.expired && !t.idle && (t.shutdown ==> CallsForCut(s.buf))
    ensures Reads(c, s, k) && Gives(c, s, k, Poll(c, s, t))
  {
    CallsForCutIff(s.buf);
    k := CutOrPollReads(c, s);
  }

  // ---- Which end a run takes ----

  /** The first end of file or error of the script. */
  function FirstStop(script: seq<InnerPoll>): Option<InnerPoll> {
    if script == [] then None
    else if script[0].End? || script[0].Fault? then Some(script[0])
    else FirstStop(script[1..])
  }

  lemma {:induction false} StopAfter(inner: seq<InnerPoll>, k: nat)
    requires k <= |inner| && forall j: nat | j < k :: inner[j].Data? || inner[j].NotReady?
    ensures FirstStop(inner) == FirstStop(inner[k..])
  {
    if k > 0 {
      StopAfter(inner[1..], k - 1);
      assert inner[1..][k - 1..] == inner[k..];
    } else {
      assert inner[0..] == inner;
    }
  }

  /** What one poll has to do with the first end of file or error still to come. */
  predicate StopKept(before: Stream, r: Step) {
    match r.stream.ending
    case Open => FirstStop(r.stream.inner) == FirstStop(before.inner) && !r.item.Failed?
    case AtEof => FirstStop(before.inner) == Some(End) && !r.item.Failed?
    case UpstreamFault(m) => FirstStop(before.inner) == Some(Fault(m)) && r.item == Failed(m)
    case _ => !r.item.Failed?
  }

  lemma ReadingKeepsStop(c: Config, s: Stream, t: Timers)
    requires !s.done && s.ending == Open && !t.expired && !t.idle && (t.shutdown ==> CallsForCut(s.buf))
    ensures StopKept(s, Poll(c, s, t))
  {
    var k := PollReads(c, s, t);
    var r := Poll(c, s, t);
    forall j: nat | j < k
      ensures s.inner[j].Data?
    {
      assert ReadsOn(c, s, j);
    }
    StopAfter(s.inner, k);
    if !CallsForCut(s.buf + Arrived(s.inner, k)) && k < |s.inner| && s.inner[k].NotReady? {
      StopAfter(s.inner, k + 1);
    }
  }

  lemma PollKeepsStop(c: Config, s: Stream, t: Timers)
    requires !s.done && s.ending == Open
    ensures StopKept(s, Poll(c, s, t))
  {
    CallsForCutIff(s.buf);
    if !t.expired && !t.idle && (t.shutdown ==> CallsForCut(s.buf)) {
      ReadingKeepsStop(c, s, t);
    }
  }

  /**
   A run ends as its upstream does or for a reason of its own: at end of file only if that is the first
   stop of the script, on an error only if that error is, and exactly then a poll hands the error out.
   */
  lemma {:induction false} EndingIsTheUpstreams(c: Config, base: ProxyEvent, script: seq<InnerPoll>, ts: seq<Timers>)
    requires Unsent(base)
    ensures var s, items := Run(c, Init(script, base), ts), Items(c, Init(script, base), ts);
            && (s.ending == Open ==> FirstStop(s.inner) == FirstStop(script))
            && (s.ending == AtEof ==> FirstStop(script) == Some(End))
            && (forall m :: s.ending == UpstreamFault(m) ==> FirstStop(script) == Some(Fault(m)))
            && (forall m :: Item.Failed(m) in items <==> s.ending == UpstreamFault(m))
    decreases |ts|
  {
    if ts != [] {
      var n := |ts| - 1;
      EndingIsTheUpstreams(c, base, script, ts[..n]);
      RunKeepsInv(c, base, script, ts[..n]);
      var s := Run(c, Init(script, base), ts[..n]);
      if !s.done {
        PollKeepsStop(c, s, ts[n]);
      }
    }
  }

  /** No timer ends the poll. */
  predicate Undisturbed(t: Timers, buf: Bytes) {
    !t.expired && !t.idle && (t.shutdown ==> CallsForCut(buf))
  }

  /** Where a poll stops reading is determined by what it finds there. */
  lemma PollGives(c: Config, s: Stream, t: Timers, k: nat)
    requires !s.done && Undisturbed(t, s.buf) && Reads(c, s, k) && !ReadsOn(c, s, k)
    ensures Gives(c, s, k, Poll(c, s, t))
  {
    var stop := PollReads(c, s, t);
    assert !ReadsOn(c, s, stop);
  }

  // ---- Each end has its cause ----

  /** The chunk that comes next takes the stream over its cap. */
  predicate Overflows(c: Config, s: Stream, k: nat) {
    && Reads(c, s, k) && k < |s.inner| && s.inner[k].Data? && !CallsForCut(s.buf + Arrived(s.inner, k))
    && |s.accepted| + |Arrived(s.inner, k)| + |s.inner[k].bytes| > c.maxBytes
  }

  /** The buffer has to be cut and cannot be. */
  predicate Jams(c: Config, s: Stream, k: nat) {
    && Reads(c, s, k)
    && var buf := s.buf + Arrived(s.inner, k);
       CallsForCut(buf) && FullScan(buf).None? && LF !in buf
  }

  ghost predicate Causes(c: Config, s: Stream, t: Timers, ending: Ending) {
    match ending
    case MaxDuration => t.expired
    case IdleTimeout => !t.expired && t.idle
    case AtShutdown => !t.expired && !t.idle && t.shutdown && !CallsForCut(s.buf)
    case TooLarge => Undisturbed(t, s.buf) && exists k: nat :: Overflows(c, s, k)
    case NoLineBoundary => Undisturbed(t, s.buf) && exists k: nat :: Jams(c, s, k)
    case AtEof => Undisturbed(t, s.buf) && exists k: nat :: Meets(c, s, k, End)
    case UpstreamFault(m) => Undisturbed(t, s.buf) && exists k: nat :: Meets(c, s, k, Fault(m))
    case _ => false
  }

  /** After `k` chunks with nothing to cut the upstream says `what`. */
  predicate Meets(c: Config, s: Stream, k: nat, what: InnerPoll) {
    Reads(c, s, k) && k < |s.inner| && s.inner[k] == what && !CallsForCut(s.buf + Arrived(s.inner, k))
  }

  lemma ReadingEndsIff(c: Config, s: Stream, t: Timers, ending: Ending)
    requires !s.done && s.ending == Open && s.total == |s.accepted| && Undisturbed(t, s.buf)
    requires ending != Open
    ensures Poll(c, s, t).stream.ending == ending <==> Causes(c, s, t, ending)
  {
    var k := PollReads(c, s, t);
    assert k < |s.inner| && s.inner[k].Data? ==> |Arrived(s.inner, k + 1)| == |Arrived(s.inner, k)| + |s.inner[k].bytes|;
    match ending
    case TooLarge =>
      if i: nat :| Overflows(c, s, i) {
        PollGives(c, s, t, i);
      }
      assert Poll(c, s, t).stream.ending == ending ==> Overflows(c, s, k);
    case NoLineBoundary =>
      if i: nat :| Jams(c, s, i) {
        PollGives(c, s, t, i);
      }
      assert Poll(c, s, t).stream.ending == ending ==> Jams(c, s, k);
    case AtEof =>
      if i: nat :| Meets(c, s, i, End) {
        PollGives(c, s, t, i);
      }
      assert Poll(c, s, t).stream.ending == ending ==> Meets(c, s, k, End);
    case UpstreamFault(m) =>
      if i: nat :| Meets(c, s, i, Fault(m)) {
        PollGives(c, s, t, i);
      }
      assert Poll(c, s, t).stream.ending == ending ==> Meets(c, s, k, Fault(m));
    case _ =>
  }

  /** Which end the next poll of an open stream takes, exactly: the timers first, then the upstream. */
  lemma NextEndingIff(c: Config, base: ProxyEvent, script: seq<InnerPoll>, ts: seq<Timers>, t: Timers, ending: Ending)
    requires Unsent(base) && Run(c, Init(script, base), ts).ending == Open && ending != Open
    ensures Run(c, Init(script, base), ts + [t]).ending == ending <==>
            Causes(c, Run(c, Init(script, base), ts), t, ending)
  {
    assert (ts + [t])[..|ts|] == ts;
    RunKeepsInv(c, base, script, ts);
    var s := Run(c, Init(script, base), ts);
    CallsForCutIff(s.buf);
    if Undisturbed(t, s.buf) {
      ReadingEndsIff(c, s, t, ending);
    }
  }

  // ---- What the record says ----

  predicate Records(s: Stream, status: string, error: Option<string>) {
    |s.logged| == 1 && s.logged[0].status == status && s.logged[0].errorMessage == error
  }

  lemma FinalRecordNames(c: Config, base: ProxyEvent, segments: seq<Bytes>, output: seq<Bytes>, ending: Ending)
    ensures var record := FinalRecord(c, base, segments, output, ending);
            record.status == StatusOf(base, ending) && record.errorMessage == ErrorOf(base, ending)
  {
  }

  predicate Named(s: Stream, base: ProxyEvent) {
    match s.ending
    case Open => s.logged == []
    case MaxDuration => Records(s, "504", Some("SSE stream exceeded max duration"))
    case IdleTimeout => Records(s, "504", Some("SSE stream idle timeout"))
    case TooLarge => Records(s, "502", Some("SSE stream exceeded max response size"))
    case NoLineBoundary => Records(s, "502", Some("SSE buffer exceeded cap without a line boundary"))
    case UpstreamFault(m) => Records(s, base.status, Some(m))
    case Dropped => Records(s, "499", base.errorMessage)
    case AtEof => Records(s, base.status, base.errorMessage)
    case AtShutdown => Records(s, base.status, base.errorMessage)
  }

  lemma LoggedIsNamed(c: Config, base: ProxyEvent, upstream: Bytes, s: Stream)
    requires Inv(c, base, upstream, s)
    ensures Named(s, base)
  {
    if s.done {
      FinalRecordNames(c, base, s.segments, s.output[..|s.segments|], s.ending);
    }
  }

  /** Status and error of the one record, by the end the run took; a dropped stream is a 499. */
  lemma RecordNamesTheEnd(c: Config, base: ProxyEvent, script: seq<InnerPoll>, ts: seq<Timers>)
    requires Unsent(base)
    ensures var s := Run(c, Init(script, base), ts);
            && Named(s, base) && Named(Drop(s), base)
            && (s.ending == Open <==> Drop(s).ending == Dropped) && (s.ending != Open ==> Drop(s) == s)
  {
    RunKeepsInv(c, base, script, ts);
    DropKeepsInv(c, base, Upcoming(script), Run(c, Init(script, base), ts));
    LoggedIsNamed(c, base, Upcoming(script), Run(c, Init(script, base), ts));
    LoggedIsNamed(c, base, Upcoming(script), Drop(Run(c, Init(script, base), ts)));
    NotDroppedYet(c, base, script, ts);
  }

  lemma {:induction false} NotDroppedYet(c: Config, base: ProxyEvent, script: seq<InnerPoll>, ts: seq<Timers>)
    requires Unsent(base)
    ensures Run(c, Init(script, base), ts).ending != Dropped
    decreases |ts|
  {
    if ts != [] {
      var n := |ts| - 1;
      NotDroppedYet(c, base, script, ts[..n]);
      if Run(c, Init(script, base), ts[..n]).ending == Open {
        assert ts == ts[..n] + [ts[n]];
        NextEndingIff(c, base, script, ts[..n], ts[n], Dropped);
      } else {
        RunKeepsInv(c, base, script, ts[..n]);
      }
    }
  }

  /** Once ended a stream stays as it is, and every further poll says so. */
  lemma {:induction false} EndedStaysEnded(c: Config, s: Stream, ts: seq<Timers>, later: seq<Timers>)
    requires Run(c, s, ts).done
    ensures Run(c, s, ts + later) == Run(c, s, ts)
    ensures Items(c, s, ts + later) == Items(c, s, ts) + seq(|later|, _ => Finished)
    decreases |later|
  {
    if later == [] {
      assert ts + later == ts;
    } else {
      var n := |later| - 1;
      EndedStaysEnded(c, s, ts, later[..n]);
      var all := ts + later;
      assert all[..|all| - 1] == ts + later[..n];
      assert seq(n, _ => Finished) + [Finished] == seq(n + 1, _ => Finished);
      ConcatAssoc(Items(c, s, ts), seq(n, _ => Finished), [Finished]);
    }
  }

  // ---- The upstream's own end ----

  lemma {:induction false} ArrivedIsUpcoming(inner: seq<InnerPoll>, k: nat)
    requires k <= |inner| && forall j: nat | j < k :: inner[j].Data?
    ensures Arrived(inner, k) <= Upcoming(inner)
    decreases k
  {
    if k > 0 {
      ArrivedCons(inner, k - 1);
      ArrivedIsUpcoming(inner[1..], k - 1);
    }
  }

  lemma NothingOverflows(c: Config, s: Stream, k: nat)
    requires |s.accepted| + |Upcoming(s.inner)| <= c.maxBytes
    ensures !Overflows(c, s, k)
  {
    if Overflows(c, s, k) {
      forall j: nat | j <= k
        ensures s.inner[j].Data?
      {
        assert j < k ==> ReadsOn(c, s, j);
      }
      ArrivedIsUpcoming(s.inner, k + 1);
      assert false;
    }
  }

  predicate Quiet(ts: seq<Timers>) {
    forall t :: t in ts ==> !t.expired && !t.idle && !t.shutdown
  }

  predicate GoesOn(c: Config, base: ProxyEvent, script: seq<InnerPoll>, ts: seq<Timers>) {
    var ending := Run(c, Init(script, base), ts).ending;
    ending.Open? || ending.AtEof? || ending.UpstreamFault?
  }

  /** A quiet run whose bytes and events fit has no reason of its own to end. */
  lemma {:induction false} QuietRunGoesOn(c: Config, base: ProxyEvent, script: seq<InnerPoll>, ts: seq<Timers>)
    requires Unsent(base) && Quiet(ts)
    requires |Upcoming(script)| <= c.maxBytes && EventsFit(Upcoming(script), MAX_SSE_BUFFER_BYTES)
    ensures GoesOn(c, base, script, ts)
    decreases |ts|
  {
    if ts != [] {
      var n := |ts| - 1;
      assert ts[n] in ts && ts == ts[..n] + [ts[n]];
      QuietRunGoesOn(c, base, script, ts[..n]);
      if Run(c, Init(script, base), ts[..n]).ending == Open {
        QuietPollGoesOn(c, base, script, ts[..n], ts[n]);
      } else {
        EndedGoesOn(c, base, script, ts[..n], ts[n]);
      }
    }
  }

  lemma EndedGoesOn(c: Config, base: ProxyEvent, script: seq<InnerPoll>, ts: seq<Timers>, t: Timers)
    requires Unsent(base) && GoesOn(c, base, script, ts) && Run(c, Init(script, base), ts).ending != Open
    ensures GoesOn(c, base, script, ts + [t])
  {
    RunKeepsInv(c, base, script, ts);
    EndedStaysEnded(c, Init(script, base), ts, [t]);
  }

  lemma QuietPollGoesOn(c: Config, base: ProxyEvent, script: seq<InnerPoll>, ts: seq<Timers>, t: Timers)
    requires Unsent(base) && !t.expired && !t.idle && !t.shutdown && Run(c, Init(script, base), ts).ending == Open
    requires |Upcoming(script)| <= c.maxBytes && EventsFit(Upcoming(script), MAX_SSE_BUFFER_BYTES)
    ensures GoesOn(c, base, script, ts + [t])
  {
    RunKeepsInv(c, base, script, ts);
    RunKeepsInv(c, base, script, ts + [t]);
    var s, ending := Run(c, Init(script, base), ts), Run(c, Init(script, base), ts + [t]).ending;
    if ending != Open {
      NextEndingIff(c, base, script, ts, t, ending);
      if ending == TooLarge {
        var k: nat :| Overflows(c, s, k);
        NothingOverflows(c, s, k);
      }
    }
  }

  /**
   With time enough, no shutdown, and bytes and events within their caps, a run polled often enough
   ends exactly as its upstream's script does, at end of file with every byte taken, and its record
   says so.
   */
  lemma EndsAsTheUpstream(c: Config, base: ProxyEvent, script: seq<InnerPoll>, ts: seq<Timers>)
    requires Unsent(base) && Quiet(ts) && Terminates(script) && |ts| > Weight(script)
    requires |Upcoming(script)| <= c.maxBytes && EventsFit(Upcoming(script), MAX_SSE_BUFFER_BYTES)
    ensures var s, items := Run(c, Init(script, base), ts), Items(c, Init(script, base), ts);
            match FirstStop(script)
            case Some(End) => s.ending == AtEof && s.accepted == Upcoming(script) && Records(s, base.status, base.errorMessage)
            case Some(Fault(m)) => s.ending == UpstreamFault(m) && Item.Failed(m) in items && Records(s, base.status, Some(m))
            case _ => false
  {
    StreamEnds(c, base, script, ts);
    QuietRunGoesOn(c, base, script, ts);
    EndingIsTheUpstreams(c, base, script, ts);
    RecordNamesTheEnd(c, base, script, ts);
    RunKeepsInv(c, base, script, ts);
  }
}
