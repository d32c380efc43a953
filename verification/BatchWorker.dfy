/**
 The loop the log worker and the Loki worker share: receive with a timeout, drain what else is
 queued, flush when the batch is full, flush what is left on shutdown or disconnect. `Outcome`
 stands for what the environment decides about one flush.
 */
module BatchWorker {
  import opened ByteStrings

  datatype Message<Event> = Logged(event: Event) | Shutdown

  datatype First<Event> = Received(message: Message<Event>) | Timeout | Disconnected

  /** One round of the loop: the blocking receive, then everything the drain finds queued. */
  datatype Turn<Event, Outcome> = Turn(
    first: First<Event>, drained: seq<Message<Event>>, onTimeout: Outcome, onFull: Outcome, onExit: Outcome)

  datatype Path = OnTimeout | OnFull | OnExit

  datatype Flush<Event, Outcome> = Flush(events: seq<Event>, outcome: Outcome, path: Path)

  /** The buffer, every flush so far, every message taken from the channel, and whether it returned. */
  datatype Worker<Event, Outcome> = Worker(
    buffer: seq<Event>, journal: seq<Flush<Event, Outcome>>, consumed: seq<Message<Event>>, exited: bool)

  /** The event a message carries, if it carries one. */
  function EventOf<E>(m: Message<E>): (r: seq<E>)
    ensures |r| <= 1
  {
    match m
    case Logged(e) => [e]
    case Shutdown => []
  }

  function Events<E>(messages: seq<Message<E>>): (r: seq<E>)
    ensures |r| <= |messages|
  {
    if messages == [] then []
    else Events(messages[..|messages| - 1]) + EventOf(messages[|messages| - 1])
  }

  lemma EventsSnoc<E>(messages: seq<Message<E>>, m: Message<E>)
    ensures Events(messages + [m]) == Events(messages) + EventOf(m)
  {
    assert (messages + [m])[..|messages|] == messages;
  }

  lemma {:induction false} EventsAppend<E>(a: seq<Message<E>>, b: seq<Message<E>>)
    ensures Events(a + b) == Events(a) + Events(b)
    decreases |b|
  {
    if b == [] {
      assert a + b == a;
    } else {
      var front, last := b[..|b| - 1], b[|b| - 1];
      calc {
        Events(a + b);
      == { assert a + b == a + front + [last]; }
        Events(a + front + [last]);
      == { EventsSnoc<E>(a + front, last); }
        Events(a + front) + EventOf(last);
      == { EventsAppend<E>(a, front); }
        Events(a) + Events(front) + EventOf(last);
      == { ConcatAssoc<E>(Events(a), Events(front), EventOf(last)); }
        Events(a) + (Events(front) + EventOf(last));
      }
    }
  }

  function Batches<E, O>(journal: seq<Flush<E, O>>): (r: seq<seq<E>>)
    ensures |r| == |journal|
  {
    seq(|journal|, i requires 0 <= i < |journal| => journal[i].events)
  }

  // ---- The loop body ----

  function Flushed<E, O>(w: Worker<E, O>, outcome: O, path: Path): Worker<E, O> {
    w.(buffer := [], journal := w.journal + [Flush(w.buffer, outcome, path)])
  }

  function FlushedUnlessEmpty<E, O>(w: Worker<E, O>, outcome: O, path: Path): Worker<E, O> {
    if w.buffer == [] then w else Flushed(w, outcome, path)
  }

  /** Take messages from the channel: events join the buffer. */
  function Took<E, O>(w: Worker<E, O>, messages: seq<Message<E>>): Worker<E, O> {
    w.(buffer := w.buffer + Events(messages), consumed := w.consumed + messages)
  }

  function AfterFirst<E, O>(w: Worker<E, O>, t: Turn<E, O>): Worker<E, O> {
    match t.first
    case Received(m) => Took(w, [m])
    case Timeout => FlushedUnlessEmpty(w, t.onTimeout, OnTimeout)
    case Disconnected => w
  }

  function AfterFull<E, O>(w: Worker<E, O>, t: Turn<E, O>, flushBatch: nat): Worker<E, O> {
    if |w.buffer| >= flushBatch then Flushed(w, t.onFull, OnFull) else w
  }

  /** The last flush; what the worker still buffers is dropped with it. */
  function AfterExit<E, O>(w: Worker<E, O>, t: Turn<E, O>): Worker<E, O> {
    FlushedUnlessEmpty(w, t.onExit, OnExit).(exited := true)
  }

  predicate SeesShutdown<E(==), O>(t: Turn<E, O>) {
    t.first == Received(Shutdown) || Shutdown in t.drained
  }

  function AfterTurn<E(==), O>(w: Worker<E, O>, t: Turn<E, O>, flushBatch: nat): Worker<E, O> {
    if w.exited then w
    else if t.first.Disconnected? then AfterExit(w, t)
    else
      var full := AfterFull(Took(AfterFirst(w, t), t.drained), t, flushBatch);
      if SeesShutdown(t) then AfterExit(full, t) else full
  }

  function AfterTurns<E(==), O>(turns: seq<Turn<E, O>>, flushBatch: nat): Worker<E, O> {
    if turns == [] then Worker([], [], [], false)
    else AfterTurn(AfterTurns(turns[..|turns| - 1], flushBatch), turns[|turns| - 1], flushBatch)
  }

  // ---- Conservation ----

  /** Every event taken from the channel is in one batch or still buffered, in order. */
  ghost predicate Conserves<E, O>(w: Worker<E, O>) {
    Flatten(Batches(w.journal)) + w.buffer == Events(w.consumed)
  }

  lemma FlushConserves<E, O>(w: Worker<E, O>, outcome: O, path: Path)
    requires Conserves(w)
    ensures Conserves(Flushed(w, outcome, path))
  {
    var w' := Flushed(w, outcome, path);
    assert Batches(w'.journal) == Batches(w.journal) + [w.buffer];
    FlattenSnoc(Batches(w.journal), w.buffer);
  }

  lemma TakeConserves<E, O>(w: Worker<E, O>, messages: seq<Message<E>>)
    requires Conserves(w)
    ensures Conserves(Took(w, messages))
  {
    EventsAppend(w.consumed, messages);
    ConcatAssoc(Flatten(Batches(w.journal)), w.buffer, Events(messages));
  }

  lemma FirstConserves<E, O>(w: Worker<E, O>, t: Turn<E, O>)
    requires Conserves(w)
    ensures Conserves(AfterFirst(w, t))
  {
    match t.first
    case Received(m) => TakeConserves(w, [m]);
    case Timeout => FlushConserves(w, t.onTimeout, OnTimeout);
    case Disconnected =>
  }

  lemma ExitConserves<E, O>(w: Worker<E, O>, t: Turn<E, O>)
    requires Conserves(w)
    ensures Conserves(AfterExit(w, t)) && AfterExit(w, t).buffer == []
  {
    FlushConserves(w, t.onExit, OnExit);
  }

  lemma TurnConserves<E, O>(w: Worker<E, O>, t: Turn<E, O>, flushBatch: nat)
    requires Conserves(w) && (w.exited ==> w.buffer == [])
    ensures Conserves(AfterTurn(w, t, flushBatch))
    ensures AfterTurn(w, t, flushBatch).exited ==> AfterTurn(w, t, flushBatch).buffer == []
  {
    if w.exited {
    } else if t.first.Disconnected? {
      ExitConserves(w, t);
    } else {
      FirstConserves(w, t);
      var took := Took(AfterFirst(w, t), t.drained);
      TakeConserves(AfterFirst(w, t), t.drained);
      FlushConserves(took, t.onFull, OnFull);
      ExitConserves(AfterFull(took, t, flushBatch), t);
    }
  }

  lemma {:induction false} TurnsConserve<E, O>(turns: seq<Turn<E, O>>, flushBatch: nat)
    ensures Conserves(AfterTurns(turns, flushBatch))
    ensures AfterTurns(turns, flushBatch).exited ==> AfterTurns(turns, flushBatch).buffer == []
    decreases |turns|
  {
    if turns != [] {
      TurnsConserve(turns[..|turns| - 1], flushBatch);
      TurnConserves(AfterTurns(turns[..|turns| - 1], flushBatch), turns[|turns| - 1], flushBatch);
    }
  }

  lemma {:induction false} ExitedIffTold<E, O>(turns: seq<Turn<E, O>>, flushBatch: nat)
    ensures Shutdown in AfterTurns(turns, flushBatch).consumed ==> AfterTurns(turns, flushBatch).exited
    ensures AfterTurns(turns, flushBatch).exited ==>
              Shutdown in AfterTurns(turns, flushBatch).consumed || exists t :: t in turns && t.first.Disconnected?
    decreases |turns|
  {
    if turns != [] {
      var n := |turns| - 1;
      ExitedIffTold(turns[..n], flushBatch);
      assert forall t :: t in turns[..n] ==> t in turns;
      assert turns[n] in turns;
    }
  }

  // ---- What is taken from the channel ----

  function TurnMessages<E, O>(t: Turn<E, O>): seq<Message<E>> {
    match t.first
    case Received(m) => [m] + t.drained
    case Timeout => t.drained
    case Disconnected => []
  }

  /** Everything that the channel delivers in these turns, in order. */
  function Delivered<E, O>(turns: seq<Turn<E, O>>): seq<Message<E>> {
    if turns == [] then []
    else Delivered(turns[..|turns| - 1]) + TurnMessages(turns[|turns| - 1])
  }

  /** The turn in which the loop is told to return. */
  predicate Ends<E(==), O>(t: Turn<E, O>) {
    t.first.Disconnected? || Shutdown in TurnMessages(t)
  }

  lemma TurnConsumes<E, O>(w: Worker<E, O>, t: Turn<E, O>, flushBatch: nat)
    requires !w.exited
    ensures AfterTurn(w, t, flushBatch).consumed == w.consumed + TurnMessages(t)
    ensures AfterTurn(w, t, flushBatch).exited <==> Ends(t)
  {
    match t.first
    case Received(m) =>
      ConcatAssoc<Message<E>>(w.consumed, [m], t.drained);
      assert Shutdown in [m] + t.drained <==> m == Shutdown || Shutdown in t.drained;
    case Timeout =>
    case Disconnected => assert w.consumed + [] == w.consumed;
  }

  /** The first `k` turns were taken: all of them, or those up to the one that ended the loop. */
  predicate StopsAt<E(==), O>(turns: seq<Turn<E, O>>, k: nat, exited: bool)
    requires k <= |turns|
  {
    && (forall i :: 0 <= i < k && Ends(turns[i]) ==> exited && i == k - 1)
    && (if exited then k > 0 && Ends(turns[k - 1]) else k == |turns|)
  }

  lemma OneMoreTurn<E, O>(turns: seq<Turn<E, O>>, flushBatch: nat)
    requires turns != []
    requires var n := |turns| - 1;
             var w := AfterTurns<E, O>(turns[..n], flushBatch);
             !w.exited && w.consumed == Delivered<E, O>(turns[..n]) && StopsAt<E, O>(turns[..n], n, false)
    ensures AfterTurns<E, O>(turns, flushBatch).consumed == Delivered<E, O>(turns)
    ensures StopsAt<E, O>(turns, |turns|, AfterTurns<E, O>(turns, flushBatch).exited)
  {
    var n := |turns| - 1;
    TurnConsumes<E, O>(AfterTurns<E, O>(turns[..n], flushBatch), turns[n], flushBatch);
    forall i | 0 <= i < n
      ensures !Ends<E, O>(turns[i])
    {
      assert turns[..n][i] == turns[i];
    }
  }

  lemma FewerTurns<E, O>(turns: seq<Turn<E, O>>, k: nat)
    requires turns != [] && k <= |turns| - 1 && StopsAt<E, O>(turns[..|turns| - 1], k, true)
    ensures StopsAt<E, O>(turns, k, true) && turns[..|turns| - 1][..k] == turns[..k]
  {
    forall i | 0 <= i < k
      ensures turns[..|turns| - 1][i] == turns[i]
    {
    }
  }

  /** The loop takes all that its turns deliver, up to the first one that ends it, and nothing else. */
  lemma {:induction false} ConsumedIsDelivered<E, O>(turns: seq<Turn<E, O>>, flushBatch: nat) returns (k: nat)
    ensures k <= |turns| && AfterTurns<E, O>(turns, flushBatch).consumed == Delivered<E, O>(turns[..k])
    ensures StopsAt<E, O>(turns, k, AfterTurns<E, O>(turns, flushBatch).exited)
    decreases |turns|
  {
    k := |turns|;
    assert turns[..k] == turns;
    if turns != [] {
      var n := |turns| - 1;
      var before := ConsumedIsDelivered<E, O>(turns[..n], flushBatch);
      if AfterTurns<E, O>(turns[..n], flushBatch).exited {
        k := before;
        FewerTurns<E, O>(turns, k);
      } else {
        assert turns[..n][..n] == turns[..n];
        OneMoreTurn<E, O>(turns, flushBatch);
      }
    }
  }

  /** A receive that times out leaves nothing buffered but what the drain finds after it. */
  lemma TimeoutFlushes<E, O>(turns: seq<Turn<E, O>>, t: Turn<E, O>, flushBatch: nat)
    requires t.first.Timeout? && !AfterTurns(turns, flushBatch).exited
    ensures |AfterTurns(turns + [t], flushBatch).buffer| <= |Events(t.drained)|
  {
    assert (turns + [t])[..|turns|] == turns;
  }

  lemma EventAt<E>(messages: seq<Message<E>>, i: nat)
    requires i < |messages| && messages[i].Logged?
    ensures |Events(messages[..i])| < |Events(messages)|
    ensures Events(messages)[|Events(messages[..i])|] == messages[i].event
  {
    var front, rest := messages[..i], messages[i + 1..];
    EventsSnoc<E>(front, messages[i]);
    EventsAppend<E>(front + [messages[i]], rest);
    assert front + [messages[i]] + rest == messages;
  }

  /**
   When the worker has taken a shutdown marker, every event sent ahead of it is in the flushed
   batches, at its own place: once, in order, whatever mixture of timeouts, full batches and final
   flush it went through. `sent` is the channel's whole history, of which a prefix was taken.
   */
  lemma NothingAheadOfShutdownIsLost<E, O>(
    turns: seq<Turn<E, O>>, flushBatch: nat, sent: seq<Message<E>>, i: nat, marker: nat)
    requires AfterTurns(turns, flushBatch).consumed <= sent
    requires i < marker < |AfterTurns(turns, flushBatch).consumed|
    requires sent[marker] == Shutdown && sent[i].Logged?
    ensures var flushed := Flatten(Batches(AfterTurns(turns, flushBatch).journal));
            && AfterTurns(turns, flushBatch).exited
            && flushed == Events(AfterTurns(turns, flushBatch).consumed)
            && |Events(sent[..i])| < |flushed| && flushed[|Events(sent[..i])|] == sent[i].event
  {
    var w := AfterTurns(turns, flushBatch);
    assert w.consumed[marker] == Shutdown;
    ExitedIffTold(turns, flushBatch);
    TurnsConserve(turns, flushBatch);
    assert Flatten(Batches(w.journal)) + [] == Flatten(Batches(w.journal));
    assert sent[..i] == w.consumed[..i];
    EventAt(w.consumed, i);
  }

  /** A flush is never empty, and full when it was the size that called for it. */
  predicate FlushFits<E, O>(f: Flush<E, O>, flushBatch: nat) {
    f.events != [] && (f.path == OnFull ==> |f.events| >= flushBatch)
  }

  predicate FlushesFit<E, O>(w: Worker<E, O>, flushBatch: nat) {
    forall i :: 0 <= i < |w.journal| ==> FlushFits(w.journal[i], flushBatch)
  }

  lemma FlushStaysFit<E, O>(w: Worker<E, O>, outcome: O, path: Path, flushBatch: nat)
    requires FlushesFit(w, flushBatch) && w.buffer != [] && (path == OnFull ==> |w.buffer| >= flushBatch)
    ensures FlushesFit(Flushed(w, outcome, path), flushBatch)
  {
  }

  lemma ExitStaysFit<E, O>(w: Worker<E, O>, t: Turn<E, O>, flushBatch: nat)
    requires FlushesFit(w, flushBatch)
    ensures FlushesFit(AfterExit(w, t), flushBatch) && AfterExit(w, t).buffer == []
  {
    if w.buffer != [] {
      FlushStaysFit(w, t.onExit, OnExit, flushBatch);
    }
  }

  lemma TurnStaysFit<E, O>(w: Worker<E, O>, t: Turn<E, O>, flushBatch: nat)
    requires flushBatch > 0 && |w.buffer| < flushBatch && FlushesFit(w, flushBatch)
    ensures |AfterTurn(w, t, flushBatch).buffer| < flushBatch && FlushesFit(AfterTurn(w, t, flushBatch), flushBatch)
  {
    if w.exited {
    } else if t.first.Disconnected? {
      ExitStaysFit(w, t, flushBatch);
    } else {
      if w.buffer != [] {
        FlushStaysFit(w, t.onTimeout, OnTimeout, flushBatch);
      }
      var took := Took(AfterFirst(w, t), t.drained);
      assert FlushesFit(took, flushBatch);
      if |took.buffer| >= flushBatch {
        FlushStaysFit(took, t.onFull, OnFull, flushBatch);
      }
      ExitStaysFit(AfterFull(took, t, flushBatch), t, flushBatch);
    }
  }

  /** Between turns less than a batch is buffered, and no flush is ever empty. */
  lemma {:induction false} BufferIsBounded<E, O>(turns: seq<Turn<E, O>>, flushBatch: nat)
    requires flushBatch > 0
    ensures |AfterTurns(turns, flushBatch).buffer| < flushBatch
    ensures FlushesFit(AfterTurns(turns, flushBatch), flushBatch)
    decreases |turns|
  {
    if turns != [] {
      BufferIsBounded(turns[..|turns| - 1], flushBatch);
      TurnStaysFit(AfterTurns(turns[..|turns| - 1], flushBatch), turns[|turns| - 1], flushBatch);
    }
  }
}
