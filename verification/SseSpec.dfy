/**
 The SSE stream as a state machine: the simple form, in which every search rescans the whole
 buffer. `SseStream` proves the incremental code equal to it; `SseRuns` proves what its runs keep.
 */
module SseSpec {
  import opened ByteStrings
  import opened Boundaries
  import opened ProxyLog

  const MAX_SSE_BUFFER_BYTES := 1024 * 1024

  const DATA_PREFIX: Bytes := [100, 97, 116, 97, 58]
  const DATA_SPACE: Bytes := [100, 97, 116, 97, 58, 32]
  const LF_LF: Bytes := [LF, LF]

  /** The upstream's rewriting of a payload, its reading of token usage, and the byte cap. */
  datatype Config = Config(
    transform: Bytes -> Bytes,
    usage: Bytes -> UsageTokens,
    maxBytes: nat)

  // ---- Rewriting one event ----

  /** Payload of a `data:` line, less one separating space. */
  function DataPayload(line: Bytes): Option<Bytes> {
    if DATA_PREFIX <= line then
      var rest := line[5..];
      Some(if |rest| > 0 && rest[0] == SPACE then rest[1..] else rest)
    else None
  }

  function AppendLine(c: Config, out: Bytes, line: Bytes): Bytes {
    match DataPayload(line)
    case Some(payload) => out + DATA_SPACE + c.transform(payload) + [LF]
    case None => if line != [] || !EndsWith(out, LF_LF) then out + line + [LF] else out
  }

  function RewriteLines(c: Config, lines: seq<Bytes>): Bytes {
    if lines == [] then []
    else AppendLine(c, RewriteLines(c, lines[..|lines| - 1]), lines[|lines| - 1])
  }

  function TransformEvent(c: Config, event: Bytes): Bytes {
    if ValidUtf8(event) then RewriteLines(c, RustLines(event)) else event
  }

  // ---- Token usage ----

  predicate Positive(n: Option<int>) {
    n.Some? && n.value > 0
  }

  predicate Reports(u: UsageTokens) {
    Positive(u.promptTokens) || Positive(u.completionTokens) || Positive(u.totalTokens)
  }

  function LinePayloads(lines: seq<Bytes>): seq<Bytes> {
    if lines == [] then []
    else
      var front := LinePayloads(lines[..|lines| - 1]);
      match DataPayload(lines[|lines| - 1])
      case Some(payload) => front + [payload]
      case None => front
  }

  /** The data payloads the code reads in one event, in order. */
  function EventPayloads(event: Bytes): seq<Bytes> {
    if ValidUtf8(event) then LinePayloads(RustLines(event)) else []
  }

  function TakeUsage(c: Config, tokens: Option<UsageTokens>, payload: Bytes): Option<UsageTokens> {
    var u := c.usage(payload);
    if Reports(u) then Some(u) else tokens
  }

  function TakeUsages(c: Config, tokens: Option<UsageTokens>, payloads: seq<Bytes>): Option<UsageTokens> {
    if payloads == [] then tokens
    else TakeUsage(c, TakeUsages(c, tokens, payloads[..|payloads| - 1]), payloads[|payloads| - 1])
  }

  // ---- Cutting the buffer ----

  datatype Cut = NoCut | CutAt(end: nat, forced: bool) | Unsplittable

  function LastLf(s: Bytes): (r: Option<nat>)
    ensures r.Some? ==> r.value < |s| && s[r.value] == LF && LF !in s[r.value + 1..]
    ensures r.None? ==> LF !in s
  {
    if s == [] then None
    else if s[|s| - 1] == LF then Some(|s| - 1)
    else
      var r := LastLf(s[..|s| - 1]);
      assert s == s[..|s| - 1] + [s[|s| - 1]];
      assert r.Some? ==> s[r.value + 1..] == s[..|s| - 1][r.value + 1..] + [s[|s| - 1]];
      r
  }

  function CutOf(buf: Bytes): (r: Cut)
    ensures r.CutAt? ==> 0 < r.end <= |buf|
  {
    match FullScan(buf)
    case Some(e) => CutAt(e, false)
    case None =>
      if |buf| <= MAX_SSE_BUFFER_BYTES then NoCut
      else
        match LastLf(buf)
        case Some(i) => CutAt(i + 1, true)
        case None => Unsplittable
  }

  // ---- The stream ----

  /** One poll of the upstream body: an arbitrary script of these drives the stream. */
  datatype InnerPoll = Data(bytes: Bytes) | Fault(message: string) | NotReady | End

  /** What the deadlines and the shutdown token say during one poll. */
  datatype Timers = Timers(expired: bool, idle: bool, shutdown: bool)

  datatype Ending =
    | Open
    | AtEof
    | AtShutdown
    | MaxDuration
    | IdleTimeout
    | TooLarge
    | NoLineBoundary
    | UpstreamFault(message: string)
    | Dropped

  datatype Item = Pending | Finished | Chunk(bytes: Bytes) | Failed(message: string)

  /** The code's fields (the scan cursor apart), then the history of the run. */
  datatype Stream = Stream(
    inner: seq<InnerPoll>,
    buf: Bytes,
    total: nat,
    done: bool,
    tokens: Option<UsageTokens>,
    event: ProxyEvent,
    logged: seq<ProxyEvent>,
    accepted: Bytes,
    segments: seq<Bytes>,
    tail: Bytes,
    output: seq<Bytes>,
    forced: bool,
    ending: Ending)

  datatype Step = Step(stream: Stream, item: Item)

  function Init(upstream: seq<InnerPoll>, event: ProxyEvent): Stream {
    Stream(upstream, [], 0, false, None, event, [], [], [], [], [], false, Open)
  }

  function FinalizeLog(s: Stream): Stream {
    var event := if s.tokens.Some? then Attribute(s.event, s.tokens.value) else s.event;
    s.(event := event, tokens := None, logged := s.logged + [event])
  }

  function FailStream(s: Stream, status: string, message: string, ending: Ending): Step {
    var event := s.event.(status := status, errorMessage := Some(message));
    Step(FinalizeLog(s.(event := event, done := true, ending := ending)), Finished)
  }

  function FinalizeStream(c: Config, s: Stream, ending: Ending): Step {
    var s1 := FinalizeLog(s.(done := true, ending := ending));
    if s1.buf != [] then
      var out := c.transform(s1.buf);
      Step(s1.(buf := [], tail := s1.buf, output := s1.output + [out]), Chunk(out))
    else Step(s1, Finished)
  }

  function TimeoutStream(c: Config, s: Stream, message: string, ending: Ending): Step {
    var event := s.event.(status := "504", errorMessage := Some(message));
    FinalizeStream(c, s.(event := event), ending)
  }

  /** The stream after cutting `end` bytes off, given the chunk they became and the usage read in them. */
  function SplitInto(s: Stream, end: nat, forced: bool, out: Bytes, tokens: Option<UsageTokens>): Stream
    requires end <= |s.buf|
  {
    var size := (if s.event.responseBodySize.Some? then s.event.responseBodySize.value else 0) + |out|;
    s.(buf := s.buf[end..],
       tokens := tokens,
       event := s.event.(responseBodySize := Some(size)),
       segments := s.segments + [s.buf[..end]],
       output := s.output + [out],
       forced := s.forced || forced)
  }

  function SplitEvent(c: Config, s: Stream, end: nat, forced: bool): Step
    requires end <= |s.buf|
  {
    var segment := s.buf[..end];
    var out := TransformEvent(c, segment);
    Step(SplitInto(s, end, forced, out, TakeUsages(c, s.tokens, EventPayloads(segment))), Chunk(out))
  }

  function Accept(s: Stream, bytes: Bytes): Stream {
    s.(total := s.total + |bytes|, buf := s.buf + bytes, accepted := s.accepted + bytes)
  }

  function PollInner(c: Config, s: Stream): Step
    decreases |s.inner|, 0
  {
    if s.inner == [] then Step(s, Pending)
    else
      var s1 := s.(inner := s.inner[1..]);
      match s.inner[0]
      case NotReady => Step(s1, Pending)
      case End => FinalizeStream(c, s1, AtEof)
      case Fault(m) =>
        var event := s1.event.(errorMessage := Some(m));
        Step(FinalizeLog(s1.(event := event, done := true, ending := UpstreamFault(m))), Failed(m))
      case Data(bytes) =>
        if s1.total + |bytes| > c.maxBytes then
          FailStream(s1.(total := s1.total + |bytes|), "502", "SSE stream exceeded max response size", TooLarge)
        else CutOrPoll(c, Accept(s1, bytes))
  }

  /** Cut the buffer, fail if it cannot be cut, or go on reading if it need not be. */
  function CutOrPoll(c: Config, s: Stream): Step
    decreases |s.inner|, 1
  {
    match CutOf(s.buf)
    case CutAt(end, forced) => SplitEvent(c, s, end, forced)
    case Unsplittable =>
      FailStream(s, "502", "SSE buffer exceeded cap without a line boundary", NoLineBoundary)
    case NoCut => PollInner(c, s)
  }

  function Poll(c: Config, s: Stream, t: Timers): Step {
    if s.done then Step(s, Finished)
    else if t.expired then TimeoutStream(c, s, "SSE stream exceeded max duration", MaxDuration)
    else if t.idle then TimeoutStream(c, s, "SSE stream idle timeout", IdleTimeout)
    else if t.shutdown && CutOf(s.buf).NoCut? then FinalizeStream(c, s, AtShutdown)
    else CutOrPoll(c, s)
  }

  /** Dropping the stream logs it as abandoned unless it has already ended. */
  function Drop(s: Stream): Stream {
    if s.done then s
    else FinalizeLog(s.(event := s.event.(status := "499"), done := true, ending := Dropped))
  }

  /** The stream after one poll for each element of `ts`. */
  function Run(c: Config, s: Stream, ts: seq<Timers>): Stream {
    if ts == [] then s
    else Poll(c, Run(c, s, ts[..|ts| - 1]), ts[|ts| - 1]).stream
  }

  /** What those polls hand out, one item each. */
  function Items(c: Config, s: Stream, ts: seq<Timers>): seq<Item> {
    if ts == [] then []
    else
      var n := |ts| - 1;
      Items(c, s, ts[..n]) + [Poll(c, Run(c, s, ts[..n]), ts[n]).item]
  }

  /** The chunks among them: what the client receives. */
  function Chunks(items: seq<Item>): seq<Bytes> {
    if items == [] then []
    else
      var n := |items| - 1;
      Chunks(items[..n]) + if items[n].Chunk? then [items[n].bytes] else []
  }
}
