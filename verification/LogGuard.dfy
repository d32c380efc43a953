/**
 Exactly one log record per proxied request: the guard that covers the time before the response
 body exists, its hand-off to the SSE stream, and the capped read of a non-streamed body.
 */
module LogGuard {
  import opened ByteStrings
  import opened ProxyLog
  import opened SseSpec
  import opened SseRuns
  import opened SseStream

  class ProxyLogGuard {
    const log: LogManager
    var event: ProxyEvent
    var finalized: bool

    constructor (log: LogManager, event: ProxyEvent)
      ensures this.log == log && this.event == event && !finalized
    {
      this.log := log;
      this.event := event;
      this.finalized := false;
    }

    method Finalize(usage: UsageTokens, status: string)
      modifies this, log
      ensures finalized && event == Attribute(old(event), usage).(status := status)
      ensures log.records == old(log.records) + [event]
    {
      var seeded := event.promptTokens;
      event := event.(promptTokens := Or(usage.promptTokens, seeded));
      event := event.(completionTokens := usage.completionTokens);
      event := event.(totalTokens := usage.totalTokens, cachedTokens := usage.cachedTokens);
      event := event.(status := status);
      log.LogProxy(event);
      finalized := true;
    }

    /** Hand the record over to the stream: dropping the guard no longer writes one. */
    method SuppressDropLog()
      modifies this`finalized
      ensures finalized
    {
      finalized := true;
    }

    method Drop()
      modifies this, log
      ensures old(finalized) ==> log.records == old(log.records)
      ensures !old(finalized) ==> log.records == old(log.records) + [old(event).(status := "499")]
    {
      if finalized {
        return;
      }
      event := event.(status := "499");
      log.LogProxy(event);
    }
  }

  // ---- Streamed requests ----

  /** What becomes of the body of an error answer. */
  datatype ErrorBody = BodyCancelled | BodyTimedOut | BodyText(text: string)

  /** What becomes of the upstream call; a cancelled call is one whose future is dropped at the await. */
  datatype UpstreamCall =
    | Cancelled
    | ConnectError(message: string)
    | NoHeaders
    | Answer(code: nat, body: ErrorBody, script: seq<InnerPoll>)

  predicate IsRedirection(code: nat) { 300 <= code < 400 }
  predicate IsSuccess(code: nat) { 200 <= code < 300 }

  function Digits(n: nat): string {
    if n < 10 then ["0123456789"[n]] else Digits(n / 10) + ["0123456789"[n % 10]]
  }

  datatype Response = Abandoned | Refused(status: nat) | Streaming(stream: SseTransformStream)

  predicate StreamsBody(call: UpstreamCall) {
    call.Answer? && IsSuccess(call.code)
  }

  /** Status of the record when no stream is set up: an unread error body counts as abandoned. */
  function RefusalStatus(call: UpstreamCall): string {
    match call
    case Cancelled => "499"
    case ConnectError(_) => "502"
    case NoHeaders => "408"
    case Answer(code, body, _) =>
      if IsRedirection(code) then "502"
      else if body.BodyText? then Digits(code)
      else "499"
  }

  /** What the refusal is blamed on, if anything was learnt of it. */
  function RefusalError(base: ProxyEvent, call: UpstreamCall): Option<string> {
    match call
    case Cancelled => base.errorMessage
    case ConnectError(message) => Some(message)
    case NoHeaders => Some("upstream request timed out")
    case Answer(code, body, _) =>
      if IsRedirection(code) then Some("upstream returned redirect " + Digits(code))
      else match body
           case BodyText(text) => Some(text)
           case _ => base.errorMessage
  }

  /** The call ended where only the guard's drop writes the record. */
  predicate LeftToDrop(call: UpstreamCall) {
    call.Cancelled? || (call.Answer? && !IsRedirection(call.code) && !call.body.BodyText?)
  }

  /** The record of a request that never streamed: its estimate stays, no usage is invented. */
  function RefusalRecord(base: ProxyEvent, call: UpstreamCall): (r: ProxyEvent)
    ensures r.requestId == base.requestId && r.status == RefusalStatus(call) && r.promptTokens == base.promptTokens
  {
    var event := base.(status := RefusalStatus(call), errorMessage := RefusalError(base, call));
    if LeftToDrop(call) then event else Attribute(event, NO_USAGE)
  }

  /** Set up a streamed response. Without a stream, exactly one record is written before returning. */
  method ProxyStreamed(log: LogManager, config: Config, base: ProxyEvent, call: UpstreamCall) returns (r: Response)
    modifies log
    ensures r.Streaming? <==> StreamsBody(call)
    ensures r.Streaming? ==>
              && fresh(r.stream) && r.stream.Valid() && r.stream.log == log && r.stream.config == config
              && r.stream.Abs() == Init(call.script, base)
              && log.records == old(log.records)
    ensures !r.Streaming? ==> log.records == old(log.records) + [RefusalRecord(base, call)]
  {
    var guard := new ProxyLogGuard(log, base);
    match call {
      case Cancelled =>
        guard.Drop();
        return Abandoned;
      case ConnectError(message) =>
        guard.event := guard.event.(errorMessage := Some(message));
        guard.Finalize(NO_USAGE, "502");
        guard.Drop();
        return Refused(502);
      case NoHeaders =>
        guard.event := guard.event.(errorMessage := Some("upstream request timed out"));
        guard.Finalize(NO_USAGE, "408");
        guard.Drop();
        return Refused(408);
      case Answer(code, body, script) =>
        if IsRedirection(code) {
          guard.event := guard.event.(errorMessage := Some("upstream returned redirect " + Digits(code)));
          guard.Finalize(NO_USAGE, "502");
          guard.Drop();
          return Refused(502);
        }
        if !IsSuccess(code) {
          match body {
            case BodyCancelled =>
              guard.Drop();
              return Abandoned;
            case BodyTimedOut =>
              guard.Drop();
              return Refused(408);
            case BodyText(text) =>
              guard.event := guard.event.(errorMessage := Some(text));
              guard.Finalize(NO_USAGE, Digits(code));
              guard.Drop();
              return Refused(code);
          }
        }
        guard.SuppressDropLog();
        var stream := new SseTransformStream(config, log, script, base);
        guard.Drop();
        return Streaming(stream);
    }
  }

  /** Poll a fresh stream any number of times, past its end included, then drop it. */
  method PollAndDrop(stream: SseTransformStream, polls: seq<Timers>) returns (items: seq<Item>)
    requires stream.Valid() && stream.logged == []
    modifies stream, stream.log
    ensures stream.log.records == old(stream.log.records) + SseSpec.Drop(Run(stream.config, old(stream.Abs()), polls)).logged
    ensures items == Items(stream.config, old(stream.Abs()), polls)
  {
    ghost var start := stream.Abs();
    items := [];
    for i := 0 to |polls|
      invariant stream.Valid() && stream.Abs() == Run(stream.config, start, polls[..i])
      invariant stream.log.records == old(stream.log.records) + stream.logged
      invariant items == Items(stream.config, start, polls[..i])
    {
      var item := PollOnce(stream, polls[i]);
      items := items + [item];
      RunSnoc(stream.config, start, polls, i);
    }
    assert polls[..|polls|] == polls;
    stream.Drop();
  }

  method PollOnce(stream: SseTransformStream, t: Timers) returns (item: Item)
    requires stream.Valid()
    modifies stream, stream.log
    ensures stream.Valid() && Step(stream.Abs(), item) == Poll(stream.config, old(stream.Abs()), t)
    ensures forall before ::
              old(stream.log.records) == before + old(stream.logged) ==> stream.log.records == before + stream.logged
  {
    ghost var logged := stream.logged;
    item := stream.PollNext(t);
    assert stream.logged == logged + stream.logged[|logged|..];
  }

  lemma RunSnoc(c: Config, s: Stream, ts: seq<Timers>, i: nat)
    requires i < |ts|
    ensures Run(c, s, ts[..i + 1]) == Poll(c, Run(c, s, ts[..i]), ts[i]).stream
    ensures Items(c, s, ts[..i + 1]) == Items(c, s, ts[..i]) + [Poll(c, Run(c, s, ts[..i]), ts[i]).item]
  {
    assert ts[..i + 1][..i] == ts[..i];
  }

  /** The record a stream leaves, for any polls. */
  function StreamRecord(config: Config, base: ProxyEvent, script: seq<InnerPoll>, polls: seq<Timers>): ProxyEvent
    requires Unsent(base)
  {
    var s := SseSpec.Drop(Run(config, Init(script, base), polls));
    assert |s.segments| <= |s.output| by {
      RunKeepsInv(config, base, script, polls);
      DropKeepsInv(config, base, Upcoming(script), Run(config, Init(script, base), polls));
    }
    FinalRecord(config, base, s.segments, s.output[..|s.segments|], s.ending)
  }

  lemma StreamLeavesItsRecord(config: Config, base: ProxyEvent, script: seq<InnerPoll>, polls: seq<Timers>)
    requires Unsent(base)
    ensures SseSpec.Drop(Run(config, Init(script, base), polls)).logged == [StreamRecord(config, base, script, polls)]
    ensures StreamRecord(config, base, script, polls).requestId == base.requestId
  {
    RunKeepsInv(config, base, script, polls);
    DropKeepsInv(config, base, Upcoming(script), Run(config, Init(script, base), polls));
  }

  /**
   The whole life of a streamed request: the upstream call, any number of polls (those after the
   end included), and the final drop. It is logged once and never twice.
   */
  method ServeStreamed(log: LogManager, config: Config, base: ProxyEvent, call: UpstreamCall, polls: seq<Timers>)
    returns (items: seq<Item>)
    requires Unsent(base)
    modifies log
    ensures |log.records| == |old(log.records)| + 1
    ensures log.records[..|old(log.records)|] == old(log.records)
    ensures log.records[|old(log.records)|].requestId == base.requestId
    ensures StreamsBody(call) ==>
              && log.records == old(log.records) + [StreamRecord(config, base, call.script, polls)]
              && items == Items(config, Init(call.script, base), polls)
    ensures !StreamsBody(call) ==>
              log.records == old(log.records) + [RefusalRecord(base, call)] && items == []
  {
    items := [];
    var response := ProxyStreamed(log, config, base, call);
    if response.Streaming? {
      items := PollAndDrop(response.stream, polls);
      StreamLeavesItsRecord(config, base, call.script, polls);
    }
  }

  // ---- Non-streamed requests ----

  datatype BodyChunk = Piece(bytes: Bytes) | ReadError

  function Pieces(chunks: seq<BodyChunk>): seq<Bytes>
    requires ReadError !in chunks
  {
    if chunks == [] then [] else Pieces(chunks[..|chunks| - 1]) + [chunks[|chunks| - 1].bytes]
  }

  /** Read a body under a cap: it is returned whole exactly when it arrives whole and fits. */
  method ReadCapped(chunks: seq<BodyChunk>, maxBody: nat) returns (body: Option<Bytes>)
    ensures body.Some? <==> ReadError !in chunks && |Flatten(Pieces(chunks))| <= maxBody
    ensures body.Some? ==> body.value == Flatten(Pieces(chunks))
  {
    var read: Bytes := [];
    for i := 0 to |chunks|
      invariant ReadError !in chunks[..i] && read == Flatten(Pieces(chunks[..i])) && |read| <= maxBody
    {
      assert chunks[..i + 1][..i] == chunks[..i];
      match chunks[i] {
        case ReadError =>
          return None;
        case Piece(bytes) =>
          FlattenSnoc(Pieces(chunks[..i]), bytes);
          if |read| + |bytes| > maxBody {
            if ReadError !in chunks {
              PiecesGrow(chunks, i + 1);
            }
            return None;
          }
          read := read + bytes;
      }
    }
    assert chunks[..|chunks|] == chunks;
    return Some(read);
  }

  lemma {:induction false} PiecesGrow(chunks: seq<BodyChunk>, k: nat)
    requires k <= |chunks| && ReadError !in chunks
    ensures ReadError !in chunks[..k] && |Flatten(Pieces(chunks[..k]))| <= |Flatten(Pieces(chunks))|
    decreases |chunks|
  {
    if k < |chunks| {
      var front := chunks[..|chunks| - 1];
      assert front[..k] == chunks[..k];
      PiecesGrow(front, k);
      FlattenSnoc(Pieces(front), chunks[|chunks| - 1].bytes);
    } else {
      assert chunks[..k] == chunks;
    }
  }

  /** How the chunks that arrived end: with the body, with a read timeout, or with the client gone. */
  datatype BodyEnd = Complete | TimesOut | ClientGone

  /** The upstream call of a non-streamed request. */
  datatype PlainCall =
    | CallDropped
    | CallFailed
    | CallTimedOut
    | CallAnswered(code: nat, chunks: seq<BodyChunk>, last: BodyEnd)

  datatype NonStreamed = Gone | Answered(body: Bytes, usage: UsageTokens, bodySize: nat) | Rejected(status: nat)

  predicate ReadsWhole(call: PlainCall, maxBody: nat)
    requires call.CallAnswered?
  {
    ReadError !in call.chunks && |Flatten(Pieces(call.chunks))| <= maxBody
  }

  /**
   What the request comes to: a redirection is refused unread; an unreadable or oversized body is a
   502 whatever the upstream's status; the status passes through only once the body was read.
   */
  function OutcomeOf(c: Config, call: PlainCall, maxBody: nat): NonStreamed {
    match call
    case CallDropped => Gone
    case CallFailed => Rejected(502)
    case CallTimedOut => Rejected(408)
    case CallAnswered(code, chunks, last) =>
      if IsRedirection(code) || !ReadsWhole(call, maxBody) then Rejected(502)
      else match last
           case ClientGone => Gone
           case TimesOut => Rejected(408)
           case Complete =>
             if !IsSuccess(code) then Rejected(code)
             else
               var body := Flatten(Pieces(chunks));
               Answered(c.transform(body), c.usage(c.transform(body)), |body|)
  }

  method ProxyNonStreamed(c: Config, call: PlainCall, maxBody: nat) returns (r: NonStreamed)
    ensures r == OutcomeOf(c, call, maxBody)
    ensures r.Answered? <==>
              call.CallAnswered? && IsSuccess(call.code) && call.last.Complete? && ReadsWhole(call, maxBody)
    ensures r.Answered? ==>
              var body := Flatten(Pieces(call.chunks));
              r.body == c.transform(body) && r.usage == c.usage(r.body) && r.bodySize == |body|
    ensures r.Gone? <==>
              call.CallDropped? || (call.CallAnswered? && !IsRedirection(call.code) && ReadsWhole(call, maxBody) && call.last.ClientGone?)
    ensures call.CallFailed? || (call.CallAnswered? && (IsRedirection(call.code) || !ReadsWhole(call, maxBody))) ==> r == Rejected(502)
    ensures call.CallTimedOut? ==> r == Rejected(408)
    ensures call.CallAnswered? && !IsRedirection(call.code) && ReadsWhole(call, maxBody) ==>
              && (call.last.TimesOut? ==> r == Rejected(408))
              && (call.last.Complete? && !IsSuccess(call.code) ==> r == Rejected(call.code))
  {
    match call {
      case CallDropped => return Gone;
      case CallFailed => return Rejected(502);
      case CallTimedOut => return Rejected(408);
      case CallAnswered(code, chunks, last) =>
        if IsRedirection(code) {
          return Rejected(502);
        }
        var read := ReadCapped(chunks, maxBody);
        if read.None? {
          return Rejected(502);
        }
        match last {
          case ClientGone => return Gone;
          case TimesOut => return Rejected(408);
          case Complete =>
        }
        if !IsSuccess(code) {
          return Rejected(code);
        }
        var body := c.transform(read.value);
        return Answered(body, c.usage(body), |read.value|);
    }
  }

  /** The record of a non-streamed request, but for its error message. */
  function PlainRecord(base: ProxyEvent, outcome: NonStreamed): ProxyEvent {
    match outcome
    case Gone => base.(status := "499")
    case Answered(_, usage, bodySize) => Attribute(base, usage).(status := "200", responseBodySize := Some(bodySize))
    case Rejected(status) => Attribute(base, NO_USAGE).(status := Digits(status))
  }

  /** A non-streamed request is logged once, whether it is answered, fails or is cancelled. */
  method ServeNonStreamed(log: LogManager, c: Config, base: ProxyEvent, call: PlainCall, maxBody: nat, message: string)
    modifies log
    ensures |log.records| == |old(log.records)| + 1
    ensures log.records[..|old(log.records)|] == old(log.records)
    ensures var record := log.records[|old(log.records)|];
            var outcome := OutcomeOf(c, call, maxBody);
            record == PlainRecord(base, outcome).(errorMessage := if outcome.Rejected? then Some(message) else base.errorMessage)
  {
    var guard := new ProxyLogGuard(log, base);
    var outcome := ProxyNonStreamed(c, call, maxBody);
    match outcome {
      case Gone =>
      case Answered(_, usage, bodySize) =>
        guard.event := guard.event.(responseBodySize := Some(bodySize));
        guard.Finalize(usage, "200");
      case Rejected(status) =>
        guard.event := guard.event.(errorMessage := Some(message));
        guard.Finalize(NO_USAGE, Digits(status));
    }
    guard.Drop();
  }
}
