/**
 The SSE stream as the code writes it: a buffer, an incremental scan cursor and a poll loop that
 cuts events off in place. Every method is proved equal to its counterpart in `SseSpec`.
 */
module SseStream {
  import opened ByteStrings
  import opened Boundaries
  import opened ProxyLog
  import opened SseSpec

  /** The first place at or after `from` where `t` occurs. */
  method FindFrom(s: Bytes, t: Terminator, from: nat) returns (r: Option<nat>)
    requires from <= |s|
    ensures r == Position(s, t, from)
  {
    var i := from;
    while i + t.Width() <= |s|
      invariant from <= i <= |s|
      invariant forall j :: from <= j < i ==> !OccursAt(s, t, j)
    {
      if OccursAt(s, t, i) {
        return Some(i);
      }
      i := i + 1;
    }
    return None;
  }

  method LastNewline(s: Bytes) returns (r: Option<nat>)
    ensures r == LastLf(s)
  {
    var i := |s|;
    while i > 0
      invariant 0 <= i <= |s|
      invariant LastLf(s) == LastLf(s[..i])
    {
      assert s[..i][..i - 1] == s[..i - 1];
      if s[i - 1] == LF {
        return Some(i - 1);
      }
      i := i - 1;
    }
    return None;
  }

  lemma PollInnerData(c: Config, s: Stream)
    requires s.inner != [] && s.inner[0].Data? && s.total + |s.inner[0].bytes| <= c.maxBytes
    ensures var s' := Accept(s.(inner := s.inner[1..]), s.inner[0].bytes);
            && PollInner(c, s) == CutOrPoll(c, s')
            && (CutOf(s'.buf).NoCut? ==> CutOrPoll(c, s') == PollInner(c, s'))
  {
  }

  class SseTransformStream {
    const config: Config
    const log: LogManager
    var inner: seq<InnerPoll>
    var buf: Bytes
    var scanned: nat
    var totalBytes: nat
    var done: bool
    var userTokens: Option<UsageTokens>
    var event: ProxyEvent

    ghost var logged: seq<ProxyEvent>
    ghost var accepted: Bytes
    ghost var segments: seq<Bytes>
    ghost var tail: Bytes
    ghost var output: seq<Bytes>
    ghost var forced: bool
    ghost var ending: Ending

    /** No boundary begins in the part of the buffer that will not be scanned again. */
    ghost predicate Valid()
      reads this
    {
      CleanBefore(buf, scanned)
    }

    ghost function Abs(): Stream
      reads this
    {
      Stream(inner, buf, totalBytes, done, userTokens, event,
             logged, accepted, segments, tail, output, forced, ending)
    }

    /** The log received exactly the records this stream wrote since `before`, in order. */
    ghost predicate Appended(before: seq<ProxyEvent>, loggedBefore: seq<ProxyEvent>)
      reads this, log
    {
      loggedBefore <= logged && log.records == before + logged[|loggedBefore|..]
    }

    constructor (config: Config, log: LogManager, inner: seq<InnerPoll>, event: ProxyEvent)
      ensures Valid() && Abs() == Init(inner, event)
      ensures this.config == config && this.log == log
    {
      this.config := config;
      this.log := log;
      this.inner := inner;
      this.buf := [];
      this.scanned := 0;
      this.totalBytes := 0;
      this.done := false;
      this.userTokens := None;
      this.event := event;
      this.logged, this.accepted, this.segments := [], [], [];
      this.tail, this.output, this.forced, this.ending := [], [], false, Open;
    }

    /** The incremental scan finds what a rescan of the whole buffer would. */
    method FindEventBoundary() returns (r: Option<nat>)
      requires Valid()
      modifies this`scanned
      ensures Valid() && r == FullScan(buf)
      ensures r.None? ==> forall more :: CleanBefore(buf + more, scanned)
    {
      var start := if scanned <= |buf| then scanned else |buf|;
      IncrementalScan(buf, start);
      var i := FindFrom(buf, CrLfCrLf, start);
      if i.Some? {
        return Some(i.value + 4);
      }
      i := FindFrom(buf, LfLf, start);
      if i.Some? {
        return Some(i.value + 2);
      }
      scanned := if |buf| >= 3 then |buf| - 3 else 0;
      forall more: Bytes
        ensures CleanBefore(buf + more, scanned)
      {
        ScannedStaysClean(buf, more);
      }
      assert buf + [] == buf;
      return None;
    }

    /** Cut for an oversized buffer; an error when it holds no line end. */
    method ForceSplitOversized() returns (r: Cut)
      requires FullScan(buf).None?
      ensures r == CutOf(buf)
    {
      if |buf| <= MAX_SSE_BUFFER_BYTES {
        return NoCut;
      }
      var i := LastNewline(buf);
      match i
      case Some(i) => return CutAt(i + 1, true);
      case None => return Unsplittable;
    }

    /** Both searches, in the order the poll makes them. */
    method FindCut() returns (r: Cut)
      requires Valid()
      modifies this`scanned
      ensures Valid() && r == CutOf(buf)
      ensures r.NoCut? ==> forall more :: CleanBefore(buf + more, scanned)
    {
      var boundary := FindEventBoundary();
      if boundary.Some? {
        return CutAt(boundary.value, false);
      }
      r := ForceSplitOversized();
    }

    method TryExtractUsageFrom(payload: Bytes)
      modifies this`userTokens
      ensures userTokens == TakeUsage(config, old(userTokens), payload)
    {
      var tokens := config.usage(payload);
      if Reports(tokens) {
        userTokens := Some(tokens);
      }
    }

    method TransformEvent(event: Bytes) returns (out: Bytes)
      modifies this`userTokens
      ensures out == SseSpec.TransformEvent(config, event)
      ensures userTokens == TakeUsages(config, old(userTokens), EventPayloads(event))
    {
      if !ValidUtf8(event) {
        return event;
      }
      var lines := RustLines(event);
      out := [];
      for i := 0 to |lines|
        invariant out == RewriteLines(config, lines[..i])
        invariant userTokens == TakeUsages(config, old(userTokens), LinePayloads(lines[..i]))
      {
        var line := lines[i];
        assert lines[..i + 1][..i] == lines[..i];
        ghost var payloads := LinePayloads(lines[..i]);
        var payload := DataPayload(line);
        if payload.Some? {
          TryExtractUsageFrom(payload.value);
          assert (payloads + [payload.value])[..|payloads|] == payloads;
          var transformed := config.transform(payload.value);
          out := out + DATA_SPACE;
          out := out + transformed;
          out := out + [LF];
        } else if line != [] || !EndsWith(out, LF_LF) {
          out := out + line;
          out := out + [LF];
        }
      }
      assert lines[..|lines|] == lines;
    }

    method SplitEvent(end: nat, ghost isForced: bool) returns (bytes: Bytes)
      requires Valid() && end <= |buf|
      modifies this
      ensures Valid() && Step(Abs(), Chunk(bytes)) == SseSpec.SplitEvent(config, old(Abs()), end, isForced)
    {
      bytes := TransformEvent(buf[..end]);
      MoveOut(end, bytes, isForced);
    }

    /** Drop the cut bytes from the buffer and account for the chunk they became. */
    method MoveOut(end: nat, bytes: Bytes, ghost isForced: bool)
      requires end <= |buf|
      modifies this
      ensures Valid() && Abs() == SplitInto(old(Abs()), end, isForced, bytes, old(userTokens))
    {
      segments, output, forced := segments + [buf[..end]], output + [bytes], forced || isForced;
      buf := buf[end..];
      scanned := 0;
      var size := if event.responseBodySize.Some? then event.responseBodySize.value else 0;
      event := event.(responseBodySize := Some(size + |bytes|));
    }

    method FinalizeLog()
      requires Valid()
      modifies this, log
      ensures Valid() && Abs() == SseSpec.FinalizeLog(old(Abs()))
      ensures log.records == old(log.records) + [event]
      ensures Appended(old(log.records), old(logged))
    {
      if userTokens.Some? {
        var usage := userTokens.value;
        userTokens := None;
        var seeded := event.promptTokens;
        event := event.(promptTokens := Or(usage.promptTokens, seeded),
                        completionTokens := usage.completionTokens,
                        totalTokens := usage.totalTokens,
                        cachedTokens := usage.cachedTokens);
      }
      log.LogProxy(event);
      logged := logged + [event];
    }

    /** Fail the stream, discarding the buffered bytes. */
    method FailStream(status: string, message: string, ghost reason: Ending) returns (item: Item)
      requires Valid()
      modifies this, log
      ensures Valid() && Abs() == SseSpec.FailStream(old(Abs()), status, message, reason).stream
      ensures item == SseSpec.FailStream(old(Abs()), status, message, reason).item
      ensures Appended(old(log.records), old(logged))
    {
      event := event.(status := status, errorMessage := Some(message));
      done := true;
      ending := reason;
      FinalizeLog();
      item := Finished;
    }

    method FinalizeStream(ghost reason: Ending) returns (item: Item)
      requires Valid()
      modifies this, log
      ensures Valid() && Abs() == SseSpec.FinalizeStream(config, old(Abs()), reason).stream
      ensures item == SseSpec.FinalizeStream(config, old(Abs()), reason).item
      ensures Appended(old(log.records), old(logged))
    {
      done := true;
      ending := reason;
      FinalizeLog();
      if buf != [] {
        var remaining := buf;
        buf := [];
        var transformed := config.transform(remaining);
        tail, output := remaining, output + [transformed];
        return Chunk(transformed);
      }
      return Finished;
    }

    method TimeoutStream(message: string, ghost reason: Ending) returns (item: Item)
      requires Valid()
      modifies this, log
      ensures Valid() && Abs() == SseSpec.TimeoutStream(config, old(Abs()), message, reason).stream
      ensures item == SseSpec.TimeoutStream(config, old(Abs()), message, reason).item
      ensures Appended(old(log.records), old(logged))
    {
      event := event.(status := "504", errorMessage := Some(message));
      item := FinalizeStream(reason);
    }

    /** Cut an event off the buffer or fail, if the buffer calls for it; otherwise no item. */
    method CutBuffer() returns (item: Option<Item>)
      requires Valid() && !done
      modifies this, log
      ensures Valid() && Appended(old(log.records), old(logged))
      ensures item.Some? ==> !CutOf(old(buf)).NoCut? && Step(Abs(), item.value) == CutOrPoll(config, old(Abs()))
      ensures item.None? ==>
                && Abs() == old(Abs()) && CutOf(buf).NoCut? && log.records == old(log.records)
                && forall more :: CleanBefore(buf + more, scanned)
    {
      var cut := FindCut();
      match cut {
        case CutAt(end, isForced) =>
          var bytes := SplitEvent(end, isForced);
          return Some(Chunk(bytes));
        case Unsplittable =>
          var failed := FailStream("502", "SSE buffer exceeded cap without a line boundary", NoLineBoundary);
          return Some(failed);
        case NoCut =>
          return None;
      }
    }

    /** One poll: deadlines first, then buffered events, then shutdown, then new data. */
    method PollNext(t: Timers) returns (item: Item)
      requires Valid()
      modifies this, log
      ensures Valid() && Step(Abs(), item) == Poll(config, old(Abs()), t)
      ensures Appended(old(log.records), old(logged))
    {
      if done {
        return Finished;
      }
      if t.expired {
        item := TimeoutStream("SSE stream exceeded max duration", MaxDuration);
        return;
      }
      if t.idle {
        item := TimeoutStream("SSE stream idle timeout", IdleTimeout);
        return;
      }
      var cut := CutBuffer();
      if cut.Some? {
        return cut.value;
      }
      if t.shutdown {
        item := FinalizeStream(AtShutdown);
        return;
      }
      item := ReadUpstream();
    }

    /** Read the upstream until there is something to hand out. */
    method ReadUpstream() returns (item: Item)
      requires Valid() && !done && CutOf(buf).NoCut?
      requires forall more :: CleanBefore(buf + more, scanned)
      modifies this, log
      ensures Valid() && Step(Abs(), item) == PollInner(config, old(Abs()))
      ensures Appended(old(log.records), old(logged))
    {
      ghost var goal := PollInner(config, Abs());
      while inner != []
        invariant Valid() && !done && CutOf(buf).NoCut?
        invariant forall more :: CleanBefore(buf + more, scanned)
        invariant PollInner(config, Abs()) == goal
        invariant log.records == old(log.records) && logged == old(logged)
        decreases |inner|
      {
        ghost var s := Abs();
        var polled := inner[0];
        inner := inner[1..];
        match polled {
          case NotReady => return Pending;
          case End =>
            item := FinalizeStream(Ending.AtEof);
            return;
          case Fault(m) =>
            item := FaultStream(m);
            return;
          case Data(bytes) =>
            if totalBytes + |bytes| > config.maxBytes {
              totalBytes := totalBytes + |bytes|;
              item := FailStream("502", "SSE stream exceeded max response size", TooLarge);
              return;
            }
            PollInnerData(config, s);
            ExtendBuffer(bytes);
            var cut := CutBuffer();
            if cut.Some? {
              return cut.value;
            }
        }
      }
      return Pending;
    }

    method FaultStream(message: string) returns (item: Item)
      requires Valid()
      modifies this, log
      ensures Valid() && item == Failed(message)
      ensures var s := old(Abs());
              Abs() == SseSpec.FinalizeLog(s.(event := s.event.(errorMessage := Some(message)), done := true, ending := UpstreamFault(message)))
      ensures Appended(old(log.records), old(logged))
    {
      event := event.(errorMessage := Some(message));
      FinalizeLog();
      done, ending := true, UpstreamFault(message);
      item := Failed(message);
    }

    /** Append a chunk to the buffer; what is scanned stays scanned. */
    method ExtendBuffer(bytes: Bytes)
      requires forall more :: CleanBefore(buf + more, scanned)
      modifies this
      ensures Valid() && Abs() == Accept(old(Abs()), bytes)
    {
      assert CleanBefore(buf + bytes, scanned);
      totalBytes := totalBytes + |bytes|;
      buf := buf + bytes;
      accepted := accepted + bytes;
    }

    /** Dropping the stream: a record with status 499 unless one was already written. */
    method Drop()
      requires Valid()
      modifies this, log
      ensures Valid() && Abs() == SseSpec.Drop(old(Abs()))
      ensures Appended(old(log.records), old(logged))
    {
      if done {
        return;
      }
      event := event.(status := "499");
      done, ending := true, Dropped;
      FinalizeLog();
    }
  }
}
