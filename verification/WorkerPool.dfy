/**
 The analytics worker pool: N threads share one locked receiver, and shutting down sends one marker
 per join handle before joining. Modelled at the granularity of the code's own blocking points, with
 any number of concurrent shutdown callers.
 */
module WorkerPool {
  // ---- Counting ----

  function Total<T>(xs: seq<T>, weight: T -> nat): nat {
    if xs == [] then 0 else Total(xs[..|xs| - 1], weight) + weight(xs[|xs| - 1])
  }

  lemma {:induction false} TotalUpdate<T>(xs: seq<T>, i: nat, x: T, weight: T -> nat)
    requires i < |xs|
    ensures Total(xs[i := x], weight) + weight(xs[i]) == Total(xs, weight) + weight(x)
    decreases |xs|
  {
    var n := |xs| - 1;
    if i == n {
      assert xs[i := x][..n] == xs[..n];
    } else {
      TotalUpdate(xs[..n], i, x, weight);
      assert xs[i := x][..n] == xs[..n][i := x];
    }
  }

  lemma {:induction false} TotalAtLeast<T>(xs: seq<T>, i: nat, weight: T -> nat)
    requires i < |xs|
    ensures Total(xs, weight) >= weight(xs[i])
    decreases |xs|
  {
    if i < |xs| - 1 {
      TotalAtLeast(xs[..|xs| - 1], i, weight);
    }
  }

  lemma {:induction false} TotalZero<T>(xs: seq<T>, weight: T -> nat)
    requires forall i :: 0 <= i < |xs| ==> weight(xs[i]) == 0
    ensures Total(xs, weight) == 0
    decreases |xs|
  {
    if xs != [] {
      TotalZero(xs[..|xs| - 1], weight);
    }
  }

  // ---- State ----

  datatype Message = Request | Marker

  /** What a request's caller gets: a result, a failure, or a dropped reply sender after a panic. */
  datatype Reply = Answered | Failed | Dropped

  /** A worker runs the request, or stops for the marker, at its index of the log; or the channel hung up. */
  datatype Worker = Waiting | Holding | Running(index: nat) | Stopping(index: nat) | Exited(index: nat) | HungUp

  /** A call of `shutdown`: not started, still to send some markers, joining, or returned. */
  datatype Caller = Ready | Sending(left: nat) | Joining | Returned

  /**
   Everything ever sent is `log`; its first `taken` messages were received, the i-th by worker
   `takers[i]`. Handles are joined in order, so `joined` says which are left. `told` records that
   some call has counted the handles.
   */
  datatype Pool = Pool(
    log: seq<Message>, taken: nat, takers: seq<nat>, workers: seq<Worker>, replies: map<nat, Reply>,
    joined: nat, callers: seq<Caller>, closed: bool, told: bool)

  predicate Gone(w: Worker) {
    w.Exited? || w.HungUp?
  }

  function Retired(w: Worker): nat {
    if w.Stopping? || w.Exited? then 1 else 0
  }

  function Pending(c: Caller): nat {
    if c.Sending? then c.left else 0
  }

  function IsMarker(m: Message): nat {
    if m.Marker? then 1 else 0
  }

  function Markers(log: seq<Message>): nat {
    Total(log, IsMarker)
  }

  predicate AllExited(s: Pool) {
    forall w :: 0 <= w < |s.workers| ==> Gone(s.workers[w])
  }

  /** The receiver lives while some worker thread does. */
  predicate ReceiverAlive(s: Pool) {
    exists w :: 0 <= w < |s.workers| && !Gone(s.workers[w])
  }

  predicate QueueLockFree(s: Pool) {
    forall w :: 0 <= w < |s.workers| ==> !s.workers[w].Holding?
  }

  predicate HandlesLockFree(s: Pool) {
    forall c :: 0 <= c < |s.callers| ==> !s.callers[c].Joining?
  }

  function Initial(workers: nat, callers: nat): Pool {
    Pool([], 0, [], seq(workers, _ => Waiting), map[], 0, seq(callers, _ => Ready), false, false)
  }

  // ---- Steps ----

  datatype Step =
    | Submit
    | Lock(worker: nat)
    | Receive(worker: nat)
    | HangUp(worker: nat)
    | Finish(worker: nat, reply: Reply)
    | Leave(worker: nat)
    | Count(caller: nat)
    | Tell(caller: nat)
    | Grab(caller: nat)
    | Join(caller: nat)
    | Release(caller: nat)
    | Close

  predicate WorkerIs(s: Pool, w: nat, pc: Worker) {
    w < |s.workers| && s.workers[w] == pc
  }

  predicate CallerIs(s: Pool, c: nat, pc: Caller) {
    c < |s.callers| && s.callers[c] == pc
  }

  predicate IsWorkerStep(step: Step) {
    step.Lock? || step.Receive? || step.HangUp? || step.Finish? || step.Leave?
  }

  /** When a step can be taken: what each blocking call of the code waits for. */
  predicate Enabled(s: Pool, step: Step) {
    match step
    case Submit => !s.closed
    case Lock(w) => WorkerIs(s, w, Waiting) && QueueLockFree(s)
    case Receive(w) => WorkerIs(s, w, Holding) && s.taken < |s.log|
    case HangUp(w) => WorkerIs(s, w, Holding) && s.closed && s.taken == |s.log|
    case Finish(w, _) => w < |s.workers| && s.workers[w].Running?
    case Leave(w) => w < |s.workers| && s.workers[w].Stopping?
    case Count(c) => CallerIs(s, c, Ready) && HandlesLockFree(s)
    case Tell(c) => c < |s.callers| && s.callers[c].Sending? && s.callers[c].left > 0
    case Grab(c) => CallerIs(s, c, Sending(0)) && HandlesLockFree(s)
    case Join(c) => CallerIs(s, c, Joining) && s.joined < |s.workers| && Gone(s.workers[s.joined])
    case Release(c) => CallerIs(s, c, Joining) && s.joined == |s.workers|
    case Close => !s.closed && forall c :: 0 <= c < |s.callers| ==> s.callers[c].Returned?
  }

  /** A send reaches the queue only while its receiver lives. */
  function Sent(s: Pool, m: Message): Pool {
    if ReceiverAlive(s) then s.(log := s.log + [m]) else s
  }

  function Became(s: Pool, w: nat, pc: Worker): Pool
    requires w < |s.workers|
  {
    s.(workers := s.workers[w := pc])
  }

  function Moved(s: Pool, c: nat, pc: Caller): Pool
    requires c < |s.callers|
  {
    s.(callers := s.callers[c := pc])
  }

  function Next(s: Pool, step: Step): (r: Pool)
    requires Enabled(s, step) && s.joined <= |s.workers|
    ensures |r.workers| == |s.workers| && |r.callers| == |s.callers|
  {
    match step
    case Submit => Sent(s, Request)
    case Lock(w) => Became(s, w, Holding)
    case Receive(w) =>
      Became(s, w, if s.log[s.taken].Marker? then Stopping(s.taken) else Running(s.taken)).(
        taken := s.taken + 1, takers := s.takers + [w])
    case HangUp(w) => Became(s, w, HungUp)
    case Finish(w, reply) => Became(s, w, Waiting).(replies := s.replies[s.workers[w].index := reply])
    case Leave(w) => Became(s, w, Exited(s.workers[w].index))
    case Count(c) => Moved(s, c, Sending(|s.workers| - s.joined)).(told := true)
    case Tell(c) => Sent(Moved(s, c, Sending(s.callers[c].left - 1)), Marker)
    case Grab(c) => Moved(s, c, Joining)
    case Join(c) => s.(joined := s.joined + 1)
    case Release(c) => Moved(s, c, Returned)
    case Close => s.(closed := true)
  }

  // ---- Invariant ----

  predicate OneHolder(s: Pool) {
    forall v, w :: 0 <= v < |s.workers| && 0 <= w < |s.workers| && s.workers[v].Holding? && s.workers[w].Holding? ==> v == w
  }

  predicate OneJoiner(s: Pool) {
    forall b, c :: 0 <= b < |s.callers| && 0 <= c < |s.callers| && s.callers[b].Joining? && s.callers[c].Joining? ==> b == c
  }

  /** Handles are joined all or none, but for the call that is at it; those joined are of exited workers. */
  predicate JoinedInOrder(s: Pool) {
    && s.joined <= |s.workers|
    && (forall w :: 0 <= w < s.joined ==> Gone(s.workers[w]))
    && (HandlesLockFree(s) ==> s.joined == 0 || s.joined == |s.workers|)
  }

  predicate ToldFirst(s: Pool) {
    && (s.joined > 0 ==> s.told)
    && (forall c :: 0 <= c < |s.callers| && !s.callers[c].Ready? ==> s.told)
  }

  predicate ClosedLast(s: Pool) {
    && (s.closed ==> forall c :: 0 <= c < |s.callers| ==> s.callers[c].Returned?)
    && (forall c :: 0 <= c < |s.callers| && s.callers[c].Returned? ==> s.joined == |s.workers|)
  }

  /** One holder of each lock, and callers and handles in step. */
  ghost predicate Locks(s: Pool) {
    OneHolder(s) && OneJoiner(s) && JoinedInOrder(s) && ToldFirst(s) && ClosedLast(s)
  }

  predicate IsRunning(s: Pool, i: nat) {
    i < |s.takers| && s.takers[i] < |s.workers| && s.workers[s.takers[i]] == Running(i)
  }

  /** Every received message has one taker; a request is with it or replied to, never both. */
  ghost predicate Placed(s: Pool) {
    && |s.takers| == s.taken <= |s.log|
    && (forall i :: 0 <= i < s.taken ==> s.takers[i] < |s.workers|)
    && (forall w :: 0 <= w < |s.workers| && s.workers[w].Running? ==>
          var i := s.workers[w].index; i < s.taken && s.takers[i] == w && s.log[i].Request? && i !in s.replies)
    && (forall i :: i in s.replies ==> i < s.taken && s.log[i].Request?)
    && (forall i: nat :: i < s.taken && s.log[i].Request? ==> i in s.replies || IsRunning(s, i))
  }

  predicate IsRetiredBy(s: Pool, i: nat) {
    && i < |s.takers| && s.takers[i] < |s.workers|
    && (s.workers[s.takers[i]] == Stopping(i) || s.workers[s.takers[i]] == Exited(i))
  }

  /** Markers taken and workers retired by them correspond one to one. */
  ghost predicate OneMarkerEach(s: Pool) {
    && |s.takers| == s.taken <= |s.log|
    && (forall i: nat :: i < s.taken && s.log[i].Marker? ==> IsRetiredBy(s, i))
    && (forall w :: 0 <= w < |s.workers| && Retired(s.workers[w]) == 1 ==>
          var i := s.workers[w].index; i < s.taken && s.takers[i] == w && s.log[i].Marker?)
  }

  /** Once told, a marker is sent or about to be for every worker, and each one taken retired one. */
  ghost predicate EnoughMarkers(s: Pool) {
    && s.taken <= |s.log|
    && Markers(s.log[..s.taken]) == Total(s.workers, Retired)
    && (s.told && ReceiverAlive(s) ==> |s.workers| <= Markers(s.log) + Total(s.callers, Pending))
    && (forall w :: 0 <= w < |s.workers| && s.workers[w].HungUp? ==> s.closed && s.taken == |s.log|)
  }

  ghost predicate Inv(s: Pool) {
    Locks(s) && Placed(s) && OneMarkerEach(s) && EnoughMarkers(s)
  }

  lemma InitialInv(workers: nat, callers: nat)
    ensures Inv(Initial(workers, callers))
  {
    var s := Initial(workers, callers);
    TotalZero(s.workers, Retired);
    assert s.log[..s.taken] == [];
  }

  predicate IsCallerStep(step: Step) {
    step.Count? || step.Tell? || step.Grab? || step.Release?
  }

  /** What a worker's step leaves alone. */
  lemma WorkerStepFrame(s: Pool, step: Step)
    requires Enabled(s, step) && IsWorkerStep(step) && s.joined <= |s.workers|
    ensures var s', w := Next(s, step), step.worker;
            && w < |s.workers| && s'.workers == s.workers[w := s'.workers[w]] && !Gone(s.workers[w])
            && (s'.workers[w].Holding? ==> QueueLockFree(s))
            && s'.callers == s.callers && s'.joined == s.joined && s'.told == s.told && s'.closed == s.closed
            && s'.log == s.log
  {
  }

  /** What a caller's step leaves alone. */
  lemma CallerStepFrame(s: Pool, step: Step)
    requires Enabled(s, step) && IsCallerStep(step) && s.joined <= |s.workers|
    ensures var s', c := Next(s, step), step.caller;
            && c < |s.callers| && s'.callers == s.callers[c := s'.callers[c]]
            && !s.callers[c].Returned? && !s'.callers[c].Ready?
            && s'.workers == s.workers && s'.joined == s.joined && s'.closed == s.closed
            && s'.taken == s.taken && s'.takers == s.takers && s'.replies == s.replies
            && s.log <= s'.log
  {
  }

  lemma WorkerStepKeepsLocks(s: Pool, step: Step)
    requires Locks(s) && Enabled(s, step) && IsWorkerStep(step)
    ensures Locks(Next(s, step))
  {
    WorkerStepFrame(s, step);
  }

  lemma CallerStepKeepsOneJoiner(s: Pool, step: Step)
    requires Locks(s) && Enabled(s, step) && IsCallerStep(step)
    ensures OneJoiner(Next(s, step))
  {
    CallerStepFrame(s, step);
    assert Next(s, step).callers[step.caller].Joining? ==> HandlesLockFree(s);
  }

  lemma CallerStepKeepsOrder(s: Pool, step: Step)
    requires Locks(s) && Enabled(s, step) && IsCallerStep(step)
    ensures JoinedInOrder(Next(s, step))
  {
    var s' := Next(s, step);
    CallerStepFrame(s, step);
    if !step.Release? && HandlesLockFree(s') {
      forall j | 0 <= j < |s.callers|
        ensures !s.callers[j].Joining?
      {
        assert !s'.callers[j].Joining?;
      }
    }
  }

  lemma CallerStepKeepsTold(s: Pool, step: Step)
    requires Locks(s) && Enabled(s, step) && IsCallerStep(step)
    ensures ToldFirst(Next(s, step)) && ClosedLast(Next(s, step))
  {
    CallerStepFrame(s, step);
    assert s.told || step.Count?;
  }

  lemma NextKeepsLocks(s: Pool, step: Step)
    requires Locks(s) && Enabled(s, step)
    ensures Locks(Next(s, step))
  {
    if IsWorkerStep(step) {
      WorkerStepKeepsLocks(s, step);
    } else if IsCallerStep(step) {
      CallerStepFrame(s, step);
      CallerStepKeepsOneJoiner(s, step);
      CallerStepKeepsOrder(s, step);
      CallerStepKeepsTold(s, step);
    } else if step.Join? {
      assert !HandlesLockFree(s) && s.told;
    }
  }

  lemma ReceiveKeepsPlaced(s: Pool, w: nat)
    requires Locks(s) && Placed(s) && Enabled(s, Receive(w))
    ensures Placed(Next(s, Receive(w)))
  {
    var s' := Next(s, Receive(w));
    forall i: nat | i < s'.taken && s'.log[i].Request?
      ensures i in s'.replies || IsRunning(s', i)
    {
      assert i < s.taken ==> i in s.replies || IsRunning(s, i);
    }
  }

  lemma FinishKeepsPlaced(s: Pool, w: nat, reply: Reply)
    requires Locks(s) && Placed(s) && Enabled(s, Finish(w, reply))
    ensures Placed(Next(s, Finish(w, reply)))
  {
    var s' := Next(s, Finish(w, reply));
    forall i: nat | i < s'.taken && s'.log[i].Request?
      ensures i in s'.replies || IsRunning(s', i)
    {
      assert i in s.replies || IsRunning(s, i);
    }
  }

  /** Nothing was received or replied, and no worker began or ended a request or a marker. */
  predicate SamePlaces(s: Pool, s': Pool) {
    && s'.taken == s.taken && s'.takers == s.takers && s'.replies == s.replies && s.log <= s'.log
    && |s'.workers| == |s.workers|
    && forall w :: 0 <= w < |s.workers| && s'.workers[w] != s.workers[w] ==> Idle(s.workers[w]) && Idle(s'.workers[w])
  }

  predicate Idle(w: Worker) {
    !w.Running? && !w.Stopping? && !w.Exited?
  }

  lemma SamePlacesStayPlaced(s: Pool, s': Pool)
    requires Placed(s) && SamePlaces(s, s')
    ensures Placed(s')
  {
    forall i: nat | i < s'.taken && s'.log[i].Request?
      ensures i in s'.replies || IsRunning(s', i)
    {
      assert i in s.replies || IsRunning(s, i);
    }
  }

  lemma SamePlacesKeepMarkers(s: Pool, s': Pool)
    requires OneMarkerEach(s) && SamePlaces(s, s')
    ensures OneMarkerEach(s')
  {
    forall i: nat | i < s'.taken && s'.log[i].Marker?
      ensures IsRetiredBy(s', i)
    {
      assert IsRetiredBy(s, i);
    }
  }

  /** Steps other than a receive, the end of a request and the exit of a worker move nothing. */
  lemma OtherStepsMoveNothing(s: Pool, step: Step)
    requires Locks(s) && Enabled(s, step) && !step.Receive? && !step.Finish? && !step.Leave?
    ensures SamePlaces(s, Next(s, step))
  {
    if IsCallerStep(step) {
      CallerStepFrame(s, step);
    }
  }

  lemma LeaveKeepsPlaced(s: Pool, w: nat)
    requires Locks(s) && Placed(s) && Enabled(s, Leave(w))
    ensures Placed(Next(s, Leave(w)))
  {
    var s' := Next(s, Leave(w));
    forall i: nat | i < s'.taken && s'.log[i].Request?
      ensures i in s'.replies || IsRunning(s', i)
    {
      assert i in s.replies || IsRunning(s, i);
    }
  }

  lemma NextKeepsPlaced(s: Pool, step: Step)
    requires Locks(s) && Placed(s) && Enabled(s, step)
    ensures Placed(Next(s, step))
  {
    match step
    case Receive(w) => ReceiveKeepsPlaced(s, w);
    case Finish(w, reply) => FinishKeepsPlaced(s, w, reply);
    case Leave(w) => LeaveKeepsPlaced(s, w);
    case _ =>
      OtherStepsMoveNothing(s, step);
      SamePlacesStayPlaced(s, Next(s, step));
  }

  lemma ReceiveKeepsMarkers(s: Pool, w: nat)
    requires Locks(s) && OneMarkerEach(s) && Enabled(s, Receive(w))
    ensures OneMarkerEach(Next(s, Receive(w)))
  {
    var s' := Next(s, Receive(w));
    forall i: nat | i < s'.taken && s'.log[i].Marker?
      ensures IsRetiredBy(s', i)
    {
      assert i < s.taken ==> IsRetiredBy(s, i);
    }
  }

  lemma WorkerStepKeepsMarkers(s: Pool, step: Step)
    requires Locks(s) && OneMarkerEach(s) && Enabled(s, step) && (step.Finish? || step.Leave?)
    ensures OneMarkerEach(Next(s, step))
  {
    var s' := Next(s, step);
    forall i: nat | i < s'.taken && s'.log[i].Marker?
      ensures IsRetiredBy(s', i)
    {
      assert IsRetiredBy(s, i);
    }
  }

  lemma NextKeepsMarkers(s: Pool, step: Step)
    requires Locks(s) && OneMarkerEach(s) && Enabled(s, step)
    ensures OneMarkerEach(Next(s, step))
  {
    match step
    case Receive(w) => ReceiveKeepsMarkers(s, w);
    case Finish(_, _) => WorkerStepKeepsMarkers(s, step);
    case Leave(_) => WorkerStepKeepsMarkers(s, step);
    case _ =>
      OtherStepsMoveNothing(s, step);
      SamePlacesKeepMarkers(s, Next(s, step));
  }

  lemma MarkersSnoc(log: seq<Message>, m: Message)
    ensures Markers(log + [m]) == Markers(log) + IsMarker(m)
  {
    assert (log + [m])[..|log|] == log;
  }

  lemma ReceiveKeepsEnough(s: Pool, w: nat)
    requires Locks(s) && EnoughMarkers(s) && Enabled(s, Receive(w))
    ensures EnoughMarkers(Next(s, Receive(w)))
  {
    var s' := Next(s, Receive(w));
    TotalUpdate(s.workers, w, s'.workers[w], Retired);
    assert s.log[..s'.taken] == s.log[..s.taken] + [s.log[s.taken]];
    MarkersSnoc(s.log[..s.taken], s.log[s.taken]);
    assert !Gone(s.workers[w]);
  }

  /** A worker that exits, waits or holds keeps the markers and stays in the count. */
  lemma WorkerStepKeepsEnough(s: Pool, step: Step)
    requires Locks(s) && EnoughMarkers(s) && Enabled(s, step) && IsWorkerStep(step) && !step.Receive?
    ensures EnoughMarkers(Next(s, step))
  {
    var s', w := Next(s, step), step.worker;
    WorkerStepFrame(s, step);
    TotalUpdate(s.workers, w, s'.workers[w], Retired);
    assert s'.taken == s.taken && Retired(s'.workers[w]) == Retired(s.workers[w]);
    assert s'.workers[w].HungUp? ==> s.closed && s.taken == |s.log|;
  }

  lemma TellKeepsEnough(s: Pool, c: nat)
    requires Locks(s) && EnoughMarkers(s) && Enabled(s, Tell(c))
    ensures EnoughMarkers(Next(s, Tell(c)))
  {
    var s' := Next(s, Tell(c));
    TotalUpdate(s.callers, c, s'.callers[c], Pending);
    MarkersSnoc(s.log, Marker);
    assert s'.log[..s.taken] == s.log[..s.taken];
  }

  lemma CallerStepKeepsEnough(s: Pool, step: Step)
    requires Locks(s) && EnoughMarkers(s) && Enabled(s, step) && IsCallerStep(step) && !step.Tell?
    ensures EnoughMarkers(Next(s, step))
  {
    var s', c := Next(s, step), step.caller;
    CallerStepFrame(s, step);
    TotalUpdate(s.callers, c, s'.callers[c], Pending);
    if step.Count? {
      TotalAtLeast(s'.callers, c, Pending);
    }
  }

  lemma NextKeepsEnoughMarkers(s: Pool, step: Step)
    requires Locks(s) && EnoughMarkers(s) && Enabled(s, step)
    ensures EnoughMarkers(Next(s, step))
  {
    match step
    case Count(_) => CallerStepKeepsEnough(s, step);
    case Tell(c) => TellKeepsEnough(s, c);
    case Grab(_) => CallerStepKeepsEnough(s, step);
    case Release(_) => CallerStepKeepsEnough(s, step);
    case Submit => MarkersSnoc(s.log, Request);
      assert (s.log + [Request])[..s.taken] == s.log[..s.taken];
    case Join(c) =>
    case Close =>
    case Receive(w) => ReceiveKeepsEnough(s, w);
    case _ => WorkerStepKeepsEnough(s, step);
  }

  lemma NextKeepsInv(s: Pool, step: Step)
    requires Inv(s) && Enabled(s, step)
    ensures Inv(Next(s, step))
  {
    NextKeepsLocks(s, step);
    NextKeepsPlaced(s, step);
    NextKeepsMarkers(s, step);
    NextKeepsEnoughMarkers(s, step);
  }

  /** `s'` is reached from `s` by the steps, each enabled when taken. */
  ghost predicate Runs(s: Pool, steps: seq<Step>, s': Pool)
    decreases |steps|
  {
    if steps == [] then s' == s
    else
      var n := |steps| - 1;
      exists mid :: Runs(s, steps[..n], mid) && mid.joined <= |mid.workers| && Enabled(mid, steps[n]) && s' == Next(mid, steps[n])
  }

  lemma {:induction false} RunKeepsInv(s: Pool, steps: seq<Step>, s': Pool)
    requires Inv(s) && Runs(s, steps, s')
    ensures Inv(s')
    decreases |steps|
  {
    if steps != [] {
      var n := |steps| - 1;
      var mid :| Runs(s, steps[..n], mid) && mid.joined <= |mid.workers| && Enabled(mid, steps[n]) && s' == Next(mid, steps[n]);
      RunKeepsInv(s, steps[..n], mid);
      NextKeepsInv(mid, steps[n]);
    }
  }

  lemma {:induction false} RunKeepsSizes(s: Pool, steps: seq<Step>, s': Pool)
    requires Runs(s, steps, s')
    ensures |s'.workers| == |s.workers| && |s'.callers| == |s.callers|
    decreases |steps|
  {
    if steps != [] {
      var n := |steps| - 1;
      var mid :| Runs(s, steps[..n], mid) && mid.joined <= |mid.workers| && Enabled(mid, steps[n]) && s' == Next(mid, steps[n]);
      RunKeepsSizes(s, steps[..n], mid);
    }
  }

  // ---- Nothing is stuck ----

  lemma {:induction false} TotalBelow(workers: seq<Worker>, w: nat)
    requires w < |workers| && Retired(workers[w]) == 0
    ensures Total(workers, Retired) < |workers|
    decreases |workers|
  {
    var n := |workers| - 1;
    if w < n {
      TotalBelow(workers[..n], w);
    } else {
      TotalAtMost(workers[..n]);
    }
  }

  lemma {:induction false} TotalAtMost(workers: seq<Worker>)
    ensures Total(workers, Retired) <= |workers|
    decreases |workers|
  {
    if workers != [] {
      TotalAtMost(workers[..|workers| - 1]);
    }
  }

  /** A worker that has taken no marker, and with it the pool, can move while something is queued. */
  lemma WorkerCanMove(s: Pool, w: nat)
    requires w < |s.workers| && !Gone(s.workers[w])
    requires s.workers[w].Stopping? || s.taken < |s.log|
    ensures exists step: Step :: IsWorkerStep(step) && Enabled(s, step)
  {
    match s.workers[w]
    case Stopping(_) => assert Enabled(s, Leave(w));
    case Running(_) => assert Enabled(s, Finish(w, Answered));
    case Holding => assert Enabled(s, Receive(w));
    case Waiting =>
      if QueueLockFree(s) {
        assert Enabled(s, Lock(w));
      } else {
        var v :| 0 <= v < |s.workers| && s.workers[v].Holding?;
        assert Enabled(s, Receive(v));
      }
  }

  /** No reachable state is deadlocked: while a shutdown call has not returned, some step can be taken. */
  lemma NoDeadlock(s: Pool, c: nat)
    requires Inv(s) && c < |s.callers| && !s.callers[c].Returned?
    ensures exists step: Step :: !step.Submit? && Enabled(s, step)
  {
    if exists t :: 0 <= t < |s.callers| && s.callers[t].Sending? && s.callers[t].left > 0 {
      var t: nat :| t < |s.callers| && s.callers[t].Sending? && s.callers[t].left > 0;
      assert Enabled(s, Tell(t));
    } else if HandlesLockFree(s) {
      if s.callers[c].Ready? {
        assert Enabled(s, Count(c));
      } else {
        assert Enabled(s, Grab(c));
      }
    } else {
      var j: nat :| j < |s.callers| && s.callers[j].Joining?;
      if s.joined == |s.workers| {
        assert Enabled(s, Release(j));
      } else if Gone(s.workers[s.joined]) {
        assert Enabled(s, Join(j));
      } else {
        JoinedWorkerCanMove(s, s.joined);
      }
    }
  }

  lemma MarkersOfWhole(log: seq<Message>, taken: nat)
    requires taken <= |log|
    ensures taken == |log| ==> Markers(log[..taken]) == Markers(log)
  {
    if taken == |log| {
      assert log[..taken] == log;
    }
  }

  /** The worker being waited for can move: with no marker left to send, one is queued for it. */
  lemma JoinedWorkerCanMove(s: Pool, w: nat)
    requires Inv(s) && s.told && w < |s.workers| && !Gone(s.workers[w])
    requires forall t :: 0 <= t < |s.callers| && s.callers[t].Sending? ==> s.callers[t].left == 0
    ensures exists step: Step :: !step.Submit? && Enabled(s, step)
  {
    if !s.workers[w].Stopping? {
      TotalZero(s.callers, Pending);
      TotalBelow(s.workers, w);
      MarkersOfWhole(s.log, s.taken);
    }
    WorkerCanMove(s, w);
    var step :| IsWorkerStep(step) && Enabled(s, step);
  }

  // ---- Every run ends ----

  function Weight(w: Worker): nat {
    match w
    case Waiting => 2
    case Holding => 1
    case Running(_) => 3
    case Stopping(_) => 1
    case _ => 0
  }

  function Effort(workers: nat): Caller -> nat {
    (c: Caller) =>
      match c
      case Ready => 5 * workers + 3
      case Sending(k) => 5 * k + 2
      case Joining => 1
      case Returned => 0
  }

  /** What is left to do if only the first `end` messages are received. */
  function Remaining(s: Pool, end: nat): int {
    4 * (end - s.taken) + Total(s.workers, Weight) + Total(s.callers, Effort(|s.workers|))
    + (|s.workers| - s.joined) + if s.closed then 0 else 1
  }

  /** Queue length and live workers, weighted so that every step but a new request takes some away. */
  function Measure(s: Pool): int {
    Remaining(s, |s.log|)
  }

  /** A worker's step lowers its own weight, but for a message received, which paid for itself. */
  lemma WorkerStepWeighs(s: Pool, step: Step)
    requires Enabled(s, step) && IsWorkerStep(step) && s.joined <= |s.workers|
    ensures var s', w := Next(s, step), step.worker;
            w < |s.workers| && Weight(s'.workers[w]) < Weight(s.workers[w]) + 4 * (s'.taken - s.taken)
  {
  }

  lemma WorkerStepSpends(s: Pool, step: Step, end: nat)
    requires Inv(s) && Enabled(s, step) && IsWorkerStep(step)
    ensures Remaining(Next(s, step), end) < Remaining(s, end)
  {
    WorkerStepFrame(s, step);
    WorkerStepWeighs(s, step);
    TotalUpdate(s.workers, step.worker, Next(s, step).workers[step.worker], Weight);
  }

  lemma CallerStepWeighs(s: Pool, step: Step)
    requires Enabled(s, step) && IsCallerStep(step) && s.joined <= |s.workers|
    ensures var s', c, effort := Next(s, step), step.caller, Effort(|s.workers|);
            c < |s.callers| && effort(s'.callers[c]) < effort(s.callers[c]) - if step.Tell? then 4 else 0
  {
  }

  /** Sending a marker spends more than receiving it will cost. */
  lemma CallerStepSpends(s: Pool, step: Step, end: nat)
    requires Inv(s) && Enabled(s, step) && IsCallerStep(step)
    ensures Remaining(Next(s, step), end) < Remaining(s, end) - if step.Tell? then 4 else 0
  {
    CallerStepFrame(s, step);
    CallerStepWeighs(s, step);
    TotalUpdate(s.callers, step.caller, Next(s, step).callers[step.caller], Effort(|s.workers|));
  }

  lemma StepSpends(s: Pool, step: Step, end: nat)
    requires Inv(s) && Enabled(s, step)
    ensures step.Submit? ==> Remaining(Next(s, step), end) == Remaining(s, end)
    ensures !step.Submit? ==> Remaining(Next(s, step), end) < Remaining(s, end) - if step.Tell? then 4 else 0
  {
    if IsWorkerStep(step) {
      WorkerStepSpends(s, step, end);
    } else if IsCallerStep(step) {
      CallerStepSpends(s, step, end);
    }
  }

  lemma StepTakesAway(s: Pool, step: Step)
    requires Inv(s) && Enabled(s, step)
    ensures step.Submit? ==> Measure(Next(s, step)) <= Measure(s) + 4
    ensures !step.Submit? ==> Measure(Next(s, step)) < Measure(s)
  {
    StepSpends(s, step, |s.log|);
    LogGrows(s, step);
  }

  lemma LogGrows(s: Pool, step: Step)
    requires Enabled(s, step) && s.joined <= |s.workers|
    ensures |Next(s, step).log| <= |s.log| + if step.Submit? || step.Tell? then 1 else 0
  {
  }

  function Submits(steps: seq<Step>): nat {
    if steps == [] then 0 else Submits(steps[..|steps| - 1]) + if steps[|steps| - 1].Submit? then 1 else 0
  }

  /** Every run is finite up to new requests: its length is bounded by the measure and their number. */
  lemma {:induction false} RunIsBounded(s: Pool, steps: seq<Step>, s': Pool)
    requires Inv(s) && Runs(s, steps, s')
    ensures Measure(s') + |steps| <= Measure(s) + 5 * Submits(steps)
    ensures |steps| <= Measure(s) + 5 * Submits(steps)
    decreases |steps|
  {
    RunKeepsInv(s, steps, s');
    MeasureIsNatural(s');
    if steps != [] {
      var n := |steps| - 1;
      var mid :| Runs(s, steps[..n], mid) && mid.joined <= |mid.workers| && Enabled(mid, steps[n]) && s' == Next(mid, steps[n]);
      RunIsBounded(s, steps[..n], mid);
      RunKeepsInv(s, steps[..n], mid);
      StepTakesAway(mid, steps[n]);
      BoundGrows(Measure(s), Measure(mid), Measure(s'), steps);
    }
  }

  lemma MeasureIsNatural(s: Pool)
    requires Inv(s)
    ensures Measure(s) >= 0
  {
  }

  lemma BoundGrows(start: int, before: int, after: int, steps: seq<Step>)
    requires steps != [] && before + |steps| - 1 <= start + 5 * Submits(steps[..|steps| - 1])
    requires after <= before + if steps[|steps| - 1].Submit? then 4 else -1
    ensures after + |steps| <= start + 5 * Submits(steps)
  {
  }

  // ---- Shutdown under endless traffic ----

  /** The first `end` messages hold exactly one marker for every worker. */
  predicate MarkedBy(s: Pool, end: nat) {
    end <= |s.log| && Markers(s.log[..end]) == |s.workers|
  }

  /** A worker that can still receive has not seen the last of those markers. */
  lemma ReceivesAreBeforeEnd(s: Pool, w: nat, end: nat)
    requires Inv(s) && MarkedBy(s, end) && w < |s.workers| && Retired(s.workers[w]) == 0
    ensures s.taken < end
  {
    TotalBelow(s.workers, w);
    if end <= s.taken {
      MarkersMonotone(s.log, end, s.taken);
      assert false;
    }
  }

  lemma StaysMarked(s: Pool, step: Step, end: nat)
    requires MarkedBy(s, end) && s.joined <= |s.workers| && Enabled(s, step)
    ensures MarkedBy(Next(s, step), end)
  {
    assert Next(s, step).log[..end] == s.log[..end];
  }

  /** What is left never goes below what workers and callers weigh: nothing is received past the end. */
  lemma RemainingIsNatural(s: Pool, end: nat)
    requires Inv(s) && MarkedBy(s, end)
    ensures s.taken <= end ==> Remaining(s, end) >= 0
  {
  }

  lemma StaysBeforeEnd(s: Pool, step: Step, end: nat)
    requires Inv(s) && Enabled(s, step) && MarkedBy(s, end) && s.taken <= end
    ensures Next(s, step).taken <= end
  {
    if step.Receive? {
      ReceivesAreBeforeEnd(s, step.worker, end);
    }
  }

  /**
   Once there is a marker in the log for every worker, what workers and shutdown calls still do is
   bounded, however many requests keep arriving: requests behind those markers are never received.
   */
  lemma {:induction false} ShutdownEndsUnderTraffic(s: Pool, steps: seq<Step>, s': Pool, end: nat)
    requires Inv(s) && Runs(s, steps, s') && MarkedBy(s, end) && s.taken <= end
    ensures Inv(s') && MarkedBy(s', end) && s'.taken <= end
    ensures |steps| - Submits(steps) <= Remaining(s, end) - Remaining(s', end)
    ensures |steps| - Submits(steps) <= Remaining(s, end)
    decreases |steps|
  {
    if steps != [] {
      var n := |steps| - 1;
      var mid :| Runs(s, steps[..n], mid) && mid.joined <= |mid.workers| && Enabled(mid, steps[n]) && s' == Next(mid, steps[n]);
      ShutdownEndsUnderTraffic(s, steps[..n], mid, end);
      NextKeepsInv(mid, steps[n]);
      StaysMarked(mid, steps[n], end);
      StaysBeforeEnd(mid, steps[n], end);
      StepSpends(mid, steps[n], end);
    }
    RemainingIsNatural(s', end);
  }

  /** Such a place exists as soon as the log holds markers enough, and nothing past it was received. */
  lemma MarkerPlace(s: Pool) returns (end: nat)
    requires Inv(s) && Markers(s.log) >= |s.workers|
    ensures MarkedBy(s, end) && s.taken <= end
  {
    end := NthMarker(s.log, |s.workers|);
    if end < s.taken {
      MarkersMonotone(s.log, end, s.taken);
      TotalAtMost(s.workers);
      end := s.taken;
    }
  }

  lemma {:induction false} NthMarker(log: seq<Message>, n: nat) returns (end: nat)
    requires n <= Markers(log)
    ensures end <= |log| && Markers(log[..end]) == n
    decreases |log|
  {
    if Markers(log) == n {
      end := |log|;
      assert log[..end] == log;
    } else {
      var front := log[..|log| - 1];
      end := NthMarker(front, n);
      assert front[..end] == log[..end];
    }
  }

  /** Hence shutdown ends after a bounded number of steps of its own, whatever traffic there is. */
  lemma ShutdownIsBounded(s: Pool, steps: seq<Step>, s': Pool) returns (end: nat)
    requires Inv(s) && Runs(s, steps, s') && Markers(s.log) >= |s.workers|
    ensures end <= |s.log| && |steps| - Submits(steps) <= Remaining(s, end) <= Measure(s)
  {
    end := MarkerPlace(s);
    ShutdownEndsUnderTraffic(s, steps, s', end);
  }

  // ---- Requests reach the queue ----

  function IsRequest(m: Message): nat {
    if m.Request? then 1 else 0
  }

  function Requests(log: seq<Message>): nat {
    Total(log, IsRequest)
  }

  lemma RequestsSnoc(log: seq<Message>, m: Message)
    ensures Requests(log + [m]) == Requests(log) + IsRequest(m)
  {
    assert (log + [m])[..|log|] == log;
  }

  lemma StepQueues(s: Pool, step: Step)
    requires Enabled(s, step) && s.joined <= |s.workers| && ReceiverAlive(Next(s, step))
    ensures ReceiverAlive(s) && s.log <= Next(s, step).log
    ensures Requests(Next(s, step).log) == Requests(s.log) + if step.Submit? then 1 else 0
  {
    RequestsSnoc(s.log, Request);
    RequestsSnoc(s.log, Marker);
    var v :| 0 <= v < |Next(s, step).workers| && !Gone(Next(s, step).workers[v]);
    assert !Gone(s.workers[v]);
  }

  /** While a worker lives, every request submitted so far is in the log, once. */
  lemma {:induction false} SubmittedIsQueued(s: Pool, steps: seq<Step>, s': Pool)
    requires Runs(s, steps, s') && ReceiverAlive(s')
    ensures ReceiverAlive(s) && s.log <= s'.log
    ensures Requests(s'.log) == Requests(s.log) + Submits(steps)
    decreases |steps|
  {
    if steps != [] {
      var n := |steps| - 1;
      var mid :| Runs(s, steps[..n], mid) && mid.joined <= |mid.workers| && Enabled(mid, steps[n]) && s' == Next(mid, steps[n]);
      StepQueues(mid, steps[n]);
      SubmittedIsQueued(s, steps[..n], mid);
    }
  }

  // ---- What shutdown achieves ----

  /** Where a message that was sent is now. */
  datatype Status = Queued | AtWorker(worker: nat) | Replied(reply: Reply) | DroppedUnseen

  function StatusOf(s: Pool, i: nat): Status
    requires i < |s.log| && |s.takers| == s.taken
  {
    if i in s.replies then Replied(s.replies[i])
    else if i < s.taken then AtWorker(s.takers[i])
    else if ReceiverAlive(s) then Queued
    else DroppedUnseen
  }

  /**
   When a shutdown call has returned, every worker has exited, each having taken exactly one marker
   or found the channel closed; every request sent before the N-th marker was taken by a worker and
   replied to, and any other request has had its reply sender dropped. None is left waiting.
   */
  lemma ShutdownSettlesEverything(s: Pool, c: nat, i: nat)
    requires Inv(s) && c < |s.callers| && s.callers[c].Returned?
    requires i < |s.log| && s.log[i].Request?
    ensures AllExited(s)
    ensures StatusOf(s, i).Replied? || StatusOf(s, i).DroppedUnseen?
    ensures Markers(s.log[..i]) < |s.workers| ==> StatusOf(s, i).Replied?
  {
    assert AllExited(s);
    if i < s.taken {
      assert i in s.replies || IsRunning(s, i);
    } else {
      AllRetired(s.workers, s);
      MarkersMonotone(s.log, s.taken, i);
    }
  }

  lemma AllRetired(workers: seq<Worker>, s: Pool)
    requires Inv(s) && AllExited(s) && workers == s.workers && s.taken < |s.log|
    ensures Markers(s.log[..s.taken]) == |workers|
  {
    TotalOnes(workers);
  }

  lemma {:induction false} TotalOnes(workers: seq<Worker>)
    requires forall w :: 0 <= w < |workers| ==> Retired(workers[w]) == 1
    ensures Total(workers, Retired) == |workers|
    decreases |workers|
  {
    if workers != [] {
      TotalOnes(workers[..|workers| - 1]);
    }
  }

  lemma {:induction false} MarkersMonotone(log: seq<Message>, a: nat, b: nat)
    requires a <= b <= |log|
    ensures Markers(log[..a]) <= Markers(log[..b])
    decreases b - a
  {
    if a < b {
      MarkersMonotone(log, a, b - 1);
      assert log[..b][..b - 1] == log[..b - 1];
    }
  }

  /** No two of the markers taken went to the same worker: it exits on its first. */
  lemma OneMarkerPerWorker(s: Pool, i: nat, j: nat)
    requires Inv(s) && i < s.taken && j < s.taken && s.log[i].Marker? && s.log[j].Marker?
    requires s.takers[i] == s.takers[j]
    ensures i == j
  {
    assert IsRetiredBy(s, i) && IsRetiredBy(s, j);
  }

  /**
   From the start, under any interleaving, a run that can do nothing more than accept requests has
   every shutdown call returned, every worker gone and every request settled.
   */
  lemma FinishedRunsAreSettled(workers: nat, callers: nat, steps: seq<Step>, s: Pool, i: nat)
    requires Runs(Initial(workers, callers), steps, s) && callers > 0
    requires forall step: Step :: Enabled(s, step) ==> step.Submit?
    requires i < |s.log| && s.log[i].Request?
    ensures forall c :: 0 <= c < |s.callers| ==> s.callers[c].Returned?
    ensures AllExited(s) && |s.takers| == s.taken
    ensures StatusOf(s, i).Replied? || StatusOf(s, i).DroppedUnseen?
    ensures Markers(s.log[..i]) < workers ==> StatusOf(s, i).Replied?
  {
    InitialInv(workers, callers);
    RunKeepsInv(Initial(workers, callers), steps, s);
    RunKeepsSizes(Initial(workers, callers), steps, s);
    forall c: nat | c < |s.callers|
      ensures s.callers[c].Returned?
    {
      if !s.callers[c].Returned? {
        NoDeadlock(s, c);
        assert false;
      }
    }
    assert s.callers[0].Returned?;
    ShutdownSettlesEverything(s, 0, i);
  }
}
