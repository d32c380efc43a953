/**
 The log worker: batches are appended to three tables inside one transaction, retention runs after
 every so many successful flushes. Each append may break part-way and the transaction may fail to
 begin, commit or roll back; the committed tables still change by whole batches only.
 */
module LogWorker {
  import opened Arithmetic
  import opened ByteStrings
  import opened BatchWorker

  datatype Table = AccessLog | ProxyLog | AuditLog

  datatype LogEvent = LogEvent(table: Table, at: int, record: string)

  datatype Tables = Tables(access: seq<LogEvent>, proxy: seq<LogEvent>, audit: seq<LogEvent>) {
    function Of(t: Table): seq<LogEvent> {
      match t
      case AccessLog => access
      case ProxyLog => proxy
      case AuditLog => audit
    }
  }

  /** Committed tables, and what an open transaction sees. */
  datatype Connection = Connection(committed: Tables, open: Option<Tables>)

  /** An append lands, or breaks after some rows. */
  datatype Append = Landed | Broke(rows: nat)

  /** What the database decides about one flush and the retention run that may follow it. */
  datatype Outcome = Outcome(
    begins: bool, access: Append, proxy: Append, audit: Append, commits: bool, rollsBack: bool, purge: Purge)

  /** Retention deletes what is older than the cutoff, table by table; each delete may fail. */
  datatype Purge = Purge(cutoff: int, access: bool, proxy: bool, audit: bool)

  function RowsOf(t: Table, events: seq<LogEvent>): (r: seq<LogEvent>)
    ensures |r| <= |events|
  {
    if events == [] then []
    else
      var n := |events| - 1;
      RowsOf(t, events[..n]) + if events[n].table == t then [events[n]] else []
  }

  lemma {:induction false} RowsOfAppend(t: Table, a: seq<LogEvent>, b: seq<LogEvent>)
    ensures RowsOf(t, a + b) == RowsOf(t, a) + RowsOf(t, b)
    decreases |b|
  {
    if b == [] {
      assert a + b == a;
    } else {
      var n := |b| - 1;
      RowsOfAppend(t, a, b[..n]);
      assert (a + b)[..|a + b| - 1] == a + b[..n];
      ConcatAssoc(RowsOf(t, a), RowsOf(t, b[..n]), if b[n].table == t then [b[n]] else []);
    }
  }

  function Since(rows: seq<LogEvent>, cutoff: int): (r: seq<LogEvent>)
    ensures forall i :: 0 <= i < |r| ==> r[i].at >= cutoff
    ensures |r| <= |rows|
  {
    if rows == [] then []
    else
      var n := |rows| - 1;
      Since(rows[..n], cutoff) + if rows[n].at >= cutoff then [rows[n]] else []
  }

  function Times(e: LogEvent, rows: seq<LogEvent>): nat {
    multiset(rows)[e]
  }

  lemma TimesSnoc(e: LogEvent, rows: seq<LogEvent>, row: LogEvent)
    ensures Times(e, rows + [row]) == Times(e, rows) + if row == e then 1 else 0
  {
  }

  /** Filtering keeps each row that passes as often as it was there, and the order. */
  lemma {:induction false} SinceExactly(rows: seq<LogEvent>, cutoff: int, e: LogEvent)
    ensures Times(e, Since(rows, cutoff)) == if e.at >= cutoff then Times(e, rows) else 0
    decreases |rows|
  {
    if rows != [] {
      var n := |rows| - 1;
      SinceExactly(rows[..n], cutoff, e);
      assert rows == rows[..n] + [rows[n]];
      TimesSnoc(e, rows[..n], rows[n]);
      TimesSnoc(e, Since(rows[..n], cutoff), rows[n]);
      assert Since(rows[..n], cutoff) + [] == Since(rows[..n], cutoff);
    }
  }

  lemma {:induction false} SinceSelects(rows: seq<LogEvent>, cutoff: int)
    ensures Selects(Since(rows, cutoff), rows)
    decreases |rows|
  {
    if rows != [] {
      var n := |rows| - 1;
      SinceSelects(rows[..n], cutoff);
      SelectsOneMore(Since(rows[..n], cutoff), rows);
      assert Since(rows[..n], cutoff) + [] == Since(rows[..n], cutoff);
    }
  }

  lemma {:induction false} RowsOfExactly(t: Table, events: seq<LogEvent>, e: LogEvent)
    ensures Times(e, RowsOf(t, events)) == if e.table == t then Times(e, events) else 0
    decreases |events|
  {
    if events != [] {
      var n := |events| - 1;
      RowsOfExactly(t, events[..n], e);
      assert events == events[..n] + [events[n]];
      TimesSnoc(e, events[..n], events[n]);
      TimesSnoc(e, RowsOf(t, events[..n]), events[n]);
      assert RowsOf(t, events[..n]) + [] == RowsOf(t, events[..n]);
    }
  }

  lemma {:induction false} RowsOfSelects(t: Table, events: seq<LogEvent>)
    ensures Selects(RowsOf(t, events), events)
    decreases |events|
  {
    if events != [] {
      var n := |events| - 1;
      RowsOfSelects(t, events[..n]);
      SelectsOneMore(RowsOf(t, events[..n]), events);
      assert RowsOf(t, events[..n]) + [] == RowsOf(t, events[..n]);
    }
  }

  /** `some` is `all` with elements left out: the order stays, none is invented or repeated. */
  ghost predicate Selects<T>(some: seq<T>, all: seq<T>)
    decreases |all|
  {
    if all == [] then some == []
    else
      var n := |all| - 1;
      Selects(some, all[..n]) || (some != [] && some[|some| - 1] == all[n] && Selects(some[..|some| - 1], all[..n]))
  }

  lemma SelectsOneMore<T>(some: seq<T>, all: seq<T>)
    requires all != [] && Selects(some, all[..|all| - 1])
    ensures Selects(some, all) && Selects(some + [all[|all| - 1]], all)
  {
    var more := some + [all[|all| - 1]];
    assert more[..|more| - 1] == some;
  }

  // ---- One flush ----

  /** The rows an append leaves in the table; nothing is attempted for no rows. */
  function Appended(table: seq<LogEvent>, rows: seq<LogEvent>, o: Append): seq<LogEvent> {
    if rows == [] then table
    else match o
         case Landed => table + rows
         case Broke(n) => table + rows[..if n < |rows| then n else |rows|]
  }

  predicate Lands(rows: seq<LogEvent>, o: Append) {
    rows == [] || o.Landed?
  }

  predicate AllLand(events: seq<LogEvent>, o: Outcome) {
    && Lands(RowsOf(AccessLog, events), o.access)
    && Lands(RowsOf(ProxyLog, events), o.proxy)
    && Lands(RowsOf(AuditLog, events), o.audit)
  }

  /** What the transaction sees when its appends end: each table is attempted if those before landed. */
  function InTransaction(t: Tables, events: seq<LogEvent>, o: Outcome): Tables {
    var access := RowsOf(AccessLog, events);
    var proxy := RowsOf(ProxyLog, events);
    var t1 := t.(access := Appended(t.access, access, o.access));
    if !Lands(access, o.access) then t1
    else
      var t2 := t1.(proxy := Appended(t.proxy, proxy, o.proxy));
      if !Lands(proxy, o.proxy) then t2
      else t2.(audit := Appended(t.audit, RowsOf(AuditLog, events), o.audit))
  }

  /** A flush succeeds exactly when no step of it fails; an open transaction cannot be begun again. */
  predicate Succeeds(c: Connection, events: seq<LogEvent>, o: Outcome) {
    o.begins && c.open.None? && AllLand(events, o) && o.commits
  }

  function AfterFlush(c: Connection, events: seq<LogEvent>, o: Outcome): Connection {
    if !o.begins || c.open.Some? then c
    else
      var seen := InTransaction(c.committed, events, o);
      if AllLand(events, o) then Connection(if o.commits then seen else c.committed, None)
      else Connection(c.committed, if o.rollsBack then None else Some(seen))
  }

  /** All or nothing: every event lands in its own table in batch order, or no table changes. */
  lemma FlushIsAtomic(c: Connection, events: seq<LogEvent>, o: Outcome, t: Table)
    ensures AfterFlush(c, events, o).committed.Of(t) ==
            if Succeeds(c, events, o) then c.committed.Of(t) + RowsOf(t, events) else c.committed.Of(t)
    ensures Succeeds(c, events, o) ==> AfterFlush(c, events, o).open.None?
  {
    if RowsOf(t, events) == [] {
      assert c.committed.Of(t) + [] == c.committed.Of(t);
    }
  }

  // ---- The worker's log ----

  datatype Log = Log(conn: Connection, flushCount: nat, written: seq<seq<LogEvent>>, purges: seq<Purge>)

  function Purged(c: Connection, p: Purge): Connection {
    c.(committed := Tables(
       if p.access then Since(c.committed.access, p.cutoff) else c.committed.access,
       if p.proxy then Since(c.committed.proxy, p.cutoff) else c.committed.proxy,
       if p.audit then Since(c.committed.audit, p.cutoff) else c.committed.audit))
  }

  predicate RetentionDue(flushCount: nat, every: nat) {
    every > 0 && flushCount % every == 0
  }

  /** The log after one flush, before retention: the last flush does not count. */
  function Recorded(l: Log, f: Flush<LogEvent, Outcome>, flushed: Connection, ok: bool): Log {
    if !ok then l.(conn := flushed)
    else Log(flushed, if f.path == OnExit then l.flushCount else l.flushCount + 1, l.written + [f.events], l.purges)
  }

  function Maintained(l: Log, f: Flush<LogEvent, Outcome>, ok: bool, every: nat): Log {
    if ok && f.path != OnExit && RetentionDue(l.flushCount, every) then
      l.(conn := Purged(l.conn, f.outcome.purge), purges := l.purges + [f.outcome.purge])
    else l
  }

  function AfterEntry(l: Log, f: Flush<LogEvent, Outcome>, every: nat): Log {
    var ok := Succeeds(l.conn, f.events, f.outcome);
    Maintained(Recorded(l, f, AfterFlush(l.conn, f.events, f.outcome), ok), f, ok, every)
  }

  const EMPTY: Log := Log(Connection(Tables([], [], []), None), 0, [], [])

  function AfterJournal(journal: seq<Flush<LogEvent, Outcome>>, every: nat): Log {
    if journal == [] then EMPTY
    else AfterEntry(AfterJournal(journal[..|journal| - 1], every), journal[|journal| - 1], every)
  }

  // ---- What the tables hold ----

  lemma {:induction false} SinceAppend(a: seq<LogEvent>, b: seq<LogEvent>, cutoff: int)
    ensures Since(a + b, cutoff) == Since(a, cutoff) + Since(b, cutoff)
    decreases |b|
  {
    if b == [] {
      assert a + b == a;
    } else {
      var n := |b| - 1;
      SinceAppend(a, b[..n], cutoff);
      assert (a + b)[..|a + b| - 1] == a + b[..n];
      ConcatAssoc(Since(a, cutoff), Since(b[..n], cutoff), if b[n].at >= cutoff then [b[n]] else []);
    }
  }

  lemma {:induction false} SinceTwice(rows: seq<LogEvent>, earlier: int, cutoff: int)
    requires earlier <= cutoff
    ensures Since(Since(rows, earlier), cutoff) == Since(rows, cutoff)
    decreases |rows|
  {
    if rows != [] {
      var n := |rows| - 1;
      SinceTwice(rows[..n], earlier, cutoff);
      SinceAppend(Since(rows[..n], earlier), if rows[n].at >= earlier then [rows[n]] else [], cutoff);
      assert [rows[n]][..0] == [];
    }
  }

  ghost predicate HoldsWritten(l: Log, cutoff: int) {
    forall t: Table :: Since(l.conn.committed.Of(t), cutoff) == Since(RowsOf(t, Flatten(l.written)), cutoff)
  }

  lemma RecordHoldsWritten(l: Log, f: Flush<LogEvent, Outcome>, l': Log, cutoff: int, t: Table)
    requires Since(l.conn.committed.Of(t), cutoff) == Since(RowsOf(t, Flatten(l.written)), cutoff)
    requires l' == Recorded(l, f, AfterFlush(l.conn, f.events, f.outcome), Succeeds(l.conn, f.events, f.outcome))
    ensures Since(l'.conn.committed.Of(t), cutoff) == Since(RowsOf(t, Flatten(l'.written)), cutoff)
  {
    FlushIsAtomic(l.conn, f.events, f.outcome, t);
    if Succeeds(l.conn, f.events, f.outcome) {
      FlattenSnoc(l.written, f.events);
      RowsOfAppend(t, Flatten(l.written), f.events);
      SinceAppend(l.conn.committed.Of(t), RowsOf(t, f.events), cutoff);
      SinceAppend(RowsOf(t, Flatten(l.written)), RowsOf(t, f.events), cutoff);
    }
  }

  lemma PurgeHoldsWritten(l: Log, p: Purge, cutoff: int)
    requires HoldsWritten(l, cutoff) && p.cutoff <= cutoff
    ensures HoldsWritten(l.(conn := Purged(l.conn, p)), cutoff)
  {
    forall t: Table
      ensures Since(Purged(l.conn, p).committed.Of(t), cutoff) == Since(l.conn.committed.Of(t), cutoff)
    {
      SinceTwice(l.conn.committed.Of(t), p.cutoff, cutoff);
    }
  }

  lemma MaintainedHoldsWritten(l: Log, f: Flush<LogEvent, Outcome>, ok: bool, every: nat, cutoff: int)
    requires HoldsWritten(l, cutoff)
    requires forall p :: p in Maintained(l, f, ok, every).purges ==> p.cutoff <= cutoff
    ensures HoldsWritten(Maintained(l, f, ok, every), cutoff)
  {
    if Maintained(l, f, ok, every) != l {
      assert f.outcome.purge in Maintained(l, f, ok, every).purges;
      PurgeHoldsWritten(l, f.outcome.purge, cutoff);
    }
  }

  lemma EntryHoldsWritten(l: Log, f: Flush<LogEvent, Outcome>, every: nat, cutoff: int)
    requires HoldsWritten(l, cutoff)
    requires forall p :: p in AfterEntry(l, f, every).purges ==> p.cutoff <= cutoff
    ensures HoldsWritten(AfterEntry(l, f, every), cutoff)
  {
    var ok := Succeeds(l.conn, f.events, f.outcome);
    var l' := Recorded(l, f, AfterFlush(l.conn, f.events, f.outcome), ok);
    forall t: Table
      ensures Since(l'.conn.committed.Of(t), cutoff) == Since(RowsOf(t, Flatten(l'.written)), cutoff)
    {
      RecordHoldsWritten(l, f, l', cutoff, t);
    }
    MaintainedHoldsWritten(l', f, ok, every, cutoff);
  }

  /**
   The tables hold what was written: of every table, the rows at or past every cutoff used so far
   are exactly the rows of the successfully flushed batches, in order and without repetition.
   */
  lemma {:induction false} TablesHoldWhatWasWritten(journal: seq<Flush<LogEvent, Outcome>>, every: nat, cutoff: int)
    requires forall p :: p in AfterJournal(journal, every).purges ==> p.cutoff <= cutoff
    ensures HoldsWritten(AfterJournal(journal, every), cutoff)
    decreases |journal|
  {
    if journal == [] {
      assert Flatten(EMPTY.written) == [];
    } else {
      var front := AfterJournal(journal[..|journal| - 1], every);
      assert forall p :: p in front.purges ==> p in AfterJournal(journal, every).purges;
      TablesHoldWhatWasWritten(journal[..|journal| - 1], every, cutoff);
      EntryHoldsWritten(front, journal[|journal| - 1], every, cutoff);
    }
  }

  lemma BatchesSnoc(journal: seq<Flush<LogEvent, Outcome>>, f: Flush<LogEvent, Outcome>)
    ensures Batches(journal + [f]) == Batches(journal) + [f.events]
  {
  }

  /** Written batches are flushed batches, in order: none is invented, repeated or split. */
  lemma {:induction false} WrittenAreBatches(journal: seq<Flush<LogEvent, Outcome>>, every: nat)
    ensures Selects(AfterJournal(journal, every).written, Batches(journal))
    decreases |journal|
  {
    if journal != [] {
      var n := |journal| - 1;
      WrittenAreBatches(journal[..n], every);
      BatchesSnoc(journal[..n], journal[n]);
      assert journal == journal[..n] + [journal[n]];
      assert Batches(journal)[..n] == Batches(journal[..n]);
      var before := AfterJournal(journal[..n], every);
      assert (before.written + [journal[n].events])[..|before.written|] == before.written;
    }
  }

  predicate Healthy(f: Flush<LogEvent, Outcome>) {
    f.outcome.begins && f.outcome.commits && AllLand(f.events, f.outcome)
  }

  lemma {:induction false} HealthyBatchesAreWritten(journal: seq<Flush<LogEvent, Outcome>>, every: nat)
    requires forall f :: f in journal ==> Healthy(f)
    ensures AfterJournal(journal, every).written == Batches(journal)
    ensures AfterJournal(journal, every).conn.open.None?
    decreases |journal|
  {
    if journal != [] {
      var n := |journal| - 1;
      assert forall f :: f in journal[..n] ==> f in journal;
      HealthyBatchesAreWritten(journal[..n], every);
      assert Healthy(journal[n]);
      BatchesSnoc(journal[..n], journal[n]);
      assert journal == journal[..n] + [journal[n]];
    }
  }

  lemma CountingQuotient(n: nat, every: nat)
    requires every > 0
    ensures (n + 1) / every == n / every + if RetentionDue(n + 1, every) then 1 else 0
  {
    var q, r := n / every, n % every;
    assert n == every * q + r;
    if r + 1 == every {
      assert n + 1 == every * (q + 1);
      QuotientIs(n + 1, every, q + 1, 0);
    } else {
      QuotientIs(n + 1, every, q, r + 1);
    }
  }

  /** What one flush does to the counter and to retention, whatever became of the connection. */
  lemma EntryCounts(l: Log, f: Flush<LogEvent, Outcome>, flushed: Connection, ok: bool, every: nat)
    ensures var l' := Maintained(Recorded(l, f, flushed, ok), f, ok, every);
            var counts := ok && f.path != OnExit;
            var due := counts && RetentionDue(l.flushCount + 1, every);
            && l'.flushCount == (if counts then l.flushCount + 1 else l.flushCount)
            && |l'.purges| == (if due then |l.purges| + 1 else |l.purges|)
            && l'.conn == (if due then Purged(flushed, f.outcome.purge) else flushed)
  {
  }

  /** Retention has run once per `every` counted flushes. */
  lemma {:induction false} RetentionEveryNth(journal: seq<Flush<LogEvent, Outcome>>, every: nat)
    ensures every == 0 ==> AfterJournal(journal, every).purges == []
    ensures every > 0 ==> |AfterJournal(journal, every).purges| == AfterJournal(journal, every).flushCount / every
    decreases |journal|
  {
    if journal != [] {
      var n := |journal| - 1;
      RetentionEveryNth(journal[..n], every);
      var l, f := AfterJournal(journal[..n], every), journal[n];
      EntryCounts(l, f, AfterFlush(l.conn, f.events, f.outcome), Succeeds(l.conn, f.events, f.outcome), every);
      if every > 0 {
        CountingQuotient(l.flushCount, every);
      }
    }
  }

  /**
   A rollback that fails leaves the transaction open, and from then on every flush fails to begin:
   nothing that is flushed later is ever written.
   */
  lemma {:induction false} FailedRollbackStopsWriting(
    journal: seq<Flush<LogEvent, Outcome>>, later: seq<Flush<LogEvent, Outcome>>, every: nat)
    requires AfterJournal(journal, every).conn.open.Some?
    ensures AfterJournal(journal + later, every) == AfterJournal(journal, every)
    decreases |later|
  {
    if later == [] {
      assert journal + later == journal;
    } else {
      FailedRollbackStopsWriting(journal, later[..|later| - 1], every);
      assert (journal + later)[..|journal + later| - 1] == journal + later[..|later| - 1];
    }
  }

  /**
   The whole worker: when it has returned on a shutdown marker and no flush failed, the tables hold,
   in order, every event sent ahead of the marker that is not past the retention cutoff.
   */
  lemma ShutdownWritesEverything(
    turns: seq<Turn<LogEvent, Outcome>>, flushBatch: nat, every: nat, cutoff: int, t: Table)
    requires Shutdown in AfterTurns(turns, flushBatch).consumed
    requires forall f :: f in AfterTurns(turns, flushBatch).journal ==> Healthy(f)
    requires forall p :: p in AfterJournal(AfterTurns(turns, flushBatch).journal, every).purges ==> p.cutoff <= cutoff
    ensures var w := AfterTurns(turns, flushBatch);
            Since(AfterJournal(w.journal, every).conn.committed.Of(t), cutoff) ==
            Since(RowsOf(t, Events(w.consumed)), cutoff)
  {
    var w := AfterTurns(turns, flushBatch);
    ExitedIffTold(turns, flushBatch);
    TurnsConserve(turns, flushBatch);
    HealthyBatchesAreWritten(w.journal, every);
    TablesHoldWhatWasWritten(w.journal, every, cutoff);
    assert Flatten(Batches(w.journal)) + [] == Flatten(Batches(w.journal));
  }

  /** Event by event: each received one that is not past the cutoff stands in its table as often as it was received. */
  lemma ShutdownKeepsEveryEvent(
    turns: seq<Turn<LogEvent, Outcome>>, flushBatch: nat, every: nat, cutoff: int, e: LogEvent)
    requires Shutdown in AfterTurns(turns, flushBatch).consumed
    requires forall f :: f in AfterTurns(turns, flushBatch).journal ==> Healthy(f)
    requires forall p :: p in AfterJournal(AfterTurns(turns, flushBatch).journal, every).purges ==> p.cutoff <= cutoff
    ensures var w := AfterTurns(turns, flushBatch);
            var tables := AfterJournal(w.journal, every).conn.committed;
            e.at >= cutoff ==>
              forall t: Table :: Times(e, tables.Of(t)) == if t == e.table then Times(e, Events(w.consumed)) else 0
  {
    var w := AfterTurns(turns, flushBatch);
    forall t: Table
      ensures e.at >= cutoff ==>
                Times(e, AfterJournal(w.journal, every).conn.committed.Of(t)) ==
                if t == e.table then Times(e, Events(w.consumed)) else 0
    {
      ShutdownWritesEverything(turns, flushBatch, every, cutoff, t);
      SinceExactly(AfterJournal(w.journal, every).conn.committed.Of(t), cutoff, e);
      SinceExactly(RowsOf(t, Events(w.consumed)), cutoff, e);
      RowsOfExactly(t, Events(w.consumed), e);
    }
  }

  predicate Deletes(p: Purge, t: Table) {
    match t
    case AccessLog => p.access
    case ProxyLog => p.proxy
    case AuditLog => p.audit
  }

  /** The flush succeeds, counts, and makes the counter a multiple of `every`. */
  predicate Purges(l: Log, f: Flush<LogEvent, Outcome>, every: nat) {
    && Succeeds(l.conn, f.events, f.outcome) && f.path != OnExit
    && every > 0 && (l.flushCount + 1) % every == 0
  }

  /**
   After a flush, retention has run if it was due: of a table whose delete succeeded exactly the rows
   past the cutoff remain, and otherwise every row does.
   */
  lemma RetentionDeletes(journal: seq<Flush<LogEvent, Outcome>>, f: Flush<LogEvent, Outcome>, every: nat, t: Table, e: LogEvent)
    ensures var l, l' := AfterJournal(journal, every), AfterJournal(journal + [f], every);
            var held := l.conn.committed.Of(t) + if Succeeds(l.conn, f.events, f.outcome) then RowsOf(t, f.events) else [];
            var counts := Succeeds(l.conn, f.events, f.outcome) && f.path != OnExit;
            && l'.flushCount == l.flushCount + (if counts then 1 else 0)
            && if Purges(l, f, every) && Deletes(f.outcome.purge, t) then
                 && (forall row :: row in l'.conn.committed.Of(t) ==> row.at >= f.outcome.purge.cutoff)
                 && Times(e, l'.conn.committed.Of(t)) == (if e.at >= f.outcome.purge.cutoff then Times(e, held) else 0)
                 && Selects(l'.conn.committed.Of(t), held)
               else l'.conn.committed.Of(t) == held
  {
    var l := AfterJournal(journal, every);
    JournalSnoc(journal, f, every);
    var ok := Succeeds(l.conn, f.events, f.outcome);
    EntryCounts(l, f, AfterFlush(l.conn, f.events, f.outcome), ok, every);
    FlushIsAtomic(l.conn, f.events, f.outcome, t);
    var held := l.conn.committed.Of(t) + if ok then RowsOf(t, f.events) else [];
    assert AfterFlush(l.conn, f.events, f.outcome).committed.Of(t) == held;
    SinceExactly(held, f.outcome.purge.cutoff, e);
    SinceSelects(held, f.outcome.purge.cutoff);
  }

  // ---- The code ----

  /** Append rows one by one, as far as the appender gets. */
  method AppendRows(table: seq<LogEvent>, rows: seq<LogEvent>, o: Append) returns (grown: seq<LogEvent>, ok: bool)
    ensures grown == Appended(table, rows, o) && ok == Lands(rows, o)
  {
    grown, ok := table, true;
    var i := 0;
    while i < |rows|
      invariant 0 <= i <= |rows|
      invariant grown == table + rows[..i]
      invariant o.Broke? ==> i <= o.rows
    {
      if o.Broke? && i == o.rows {
        return grown, false;
      }
      assert rows[..i + 1] == rows[..i] + [rows[i]];
      grown := grown + [rows[i]];
      i := i + 1;
    }
    assert rows[..|rows|] == rows;
    ok := Lands(rows, o);
  }

  /** The connection and the counter are those the journal leaves. */
  predicate Tracks(journal: seq<Flush<LogEvent, Outcome>>, every: nat, conn: Connection, flushCount: nat) {
    AfterJournal(journal, every).conn == conn && AfterJournal(journal, every).flushCount == flushCount
  }

  class Worker {
    var conn: Connection
    var buffer: seq<LogEvent>
    var flushCount: nat
    const flushBatch: nat
    const retentionEvery: nat
    ghost var journal: seq<Flush<LogEvent, Outcome>>
    ghost var consumed: seq<Message<LogEvent>>
    var exited: bool

    ghost function Abs(): BatchWorker.Worker<LogEvent, Outcome>
      reads this
    {
      BatchWorker.Worker(buffer, journal, consumed, exited)
    }

    ghost predicate Valid()
      reads this
    {
      Tracks(journal, retentionEvery, conn, flushCount)
    }

    constructor (flushBatch: nat, retentionEvery: nat)
      ensures Valid() && Abs() == AfterTurns([], flushBatch)
      ensures this.flushBatch == flushBatch && this.retentionEvery == retentionEvery
    {
      this.flushBatch, this.retentionEvery := flushBatch, retentionEvery;
      conn, buffer, flushCount := EMPTY.conn, [], 0;
      journal, consumed, exited := [], [], false;
    }

    /** Partition the batch by table and append each part inside one transaction. */
    method FlushEvents(events: seq<LogEvent>, o: Outcome) returns (ok: bool)
      modifies this`conn
      ensures conn == AfterFlush(old(conn), events, o) && ok == Succeeds(old(conn), events, o)
    {
      var access, proxy, audit := Partition(events);
      if !o.begins || conn.open.Some? {
        return false;
      }
      var seen, landed := AppendAll(conn.committed, access, proxy, audit, o);
      if landed {
        conn := Connection(if o.commits then seen else conn.committed, None);
        return o.commits;
      }
      conn := Connection(conn.committed, if o.rollsBack then None else Some(seen));
      return false;
    }

    static method Partition(events: seq<LogEvent>)
      returns (access: seq<LogEvent>, proxy: seq<LogEvent>, audit: seq<LogEvent>)
      ensures access == RowsOf(AccessLog, events) && proxy == RowsOf(ProxyLog, events) && audit == RowsOf(AuditLog, events)
    {
      access, proxy, audit := [], [], [];
      for i := 0 to |events|
        invariant access == RowsOf(AccessLog, events[..i])
        invariant proxy == RowsOf(ProxyLog, events[..i])
        invariant audit == RowsOf(AuditLog, events[..i])
      {
        assert events[..i + 1][..i] == events[..i];
        match events[i].table
        case AccessLog => access := access + [events[i]];
        case ProxyLog => proxy := proxy + [events[i]];
        case AuditLog => audit := audit + [events[i]];
      }
      assert events[..|events|] == events;
    }

    static method AppendAll(t: Tables, access: seq<LogEvent>, proxy: seq<LogEvent>, audit: seq<LogEvent>, o: Outcome)
      returns (seen: Tables, landed: bool)
      ensures forall events :: access == RowsOf(AccessLog, events) && proxy == RowsOf(ProxyLog, events) && audit == RowsOf(AuditLog, events)
                ==> seen == InTransaction(t, events, o)
      ensures landed == (Lands(access, o.access) && Lands(proxy, o.proxy) && Lands(audit, o.audit))
    {
      seen := t;
      var rows, ok := AppendRows(t.access, access, o.access);
      seen := seen.(access := rows);
      if !ok {
        return seen, false;
      }
      rows, ok := AppendRows(t.proxy, proxy, o.proxy);
      seen := seen.(proxy := rows);
      if !ok {
        return seen, false;
      }
      rows, landed := AppendRows(t.audit, audit, o.audit);
      seen := seen.(audit := rows);
    }

    /** Count a successful flush and run retention when it is due. */
    method Maintain(o: Outcome)
      modifies this`conn, this`flushCount
      ensures flushCount == old(flushCount) + 1
      ensures conn == if RetentionDue(flushCount, retentionEvery) then Purged(old(conn), o.purge) else old(conn)
    {
      flushCount := flushCount + 1;
      if RetentionDue(flushCount, retentionEvery) {
        conn := Purged(conn, o.purge);
      }
    }

    /** Flush the buffer and see to what follows a success. */
    method FlushCounted(o: Outcome, path: Path, ghost l: Log)
      requires path != OnExit && l.conn == conn && l.flushCount == flushCount
      modifies this`conn, this`flushCount
      ensures AfterEntry(l, Flush(buffer, o, path), retentionEvery).conn == conn
      ensures AfterEntry(l, Flush(buffer, o, path), retentionEvery).flushCount == flushCount
    {
      var ok := FlushEvents(buffer, o);
      EntryCounts(l, Flush(buffer, o, path), conn, ok, retentionEvery);
      if ok {
        Maintain(o);
      }
    }

    method FlushJournaled(o: Outcome, path: Path)
      requires Valid() && path != OnExit
      modifies this`conn, this`flushCount, this`journal
      ensures Valid() && journal == old(journal) + [Flush(buffer, o, path)]
    {
      JournalSnoc(journal, Flush(buffer, o, path), retentionEvery);
      FlushCounted(o, path, AfterJournal(journal, retentionEvery));
      journal := journal + [Flush(buffer, o, path)];
    }

    /** Flush and clear the buffer, whether or not the flush succeeded. */
    method FlushBuffer(o: Outcome, path: Path)
      requires Valid() && path != OnExit
      modifies this
      ensures Valid() && Abs() == Flushed(old(Abs()), o, path)
    {
      ghost var before := Abs();
      FlushJournaled(o, path);
      assert Abs() == before.(journal := before.journal + [Flush(before.buffer, o, path)]);
      buffer := [];
    }

    /** The flush on the way out, and the return. */
    method Exit(o: Outcome)
      requires Valid()
      modifies this
      ensures Valid() && Abs() == FlushedUnlessEmpty(old(Abs()), o, OnExit).(exited := true)
    {
      if buffer != [] {
        ghost var f := Flush(buffer, o, OnExit);
        JournalSnoc(journal, f, retentionEvery);
        var _ := FlushEvents(buffer, o);
        journal := journal + [f];
        buffer := [];
      }
      exited := true;
    }

    method Take(m: Message<LogEvent>) returns (shutdown: bool)
      requires Valid()
      modifies this`buffer, this`consumed
      ensures Valid() && Abs() == Took(old(Abs()), [m]) && shutdown == m.Shutdown?
    {
      assert Events([m]) == if m.Logged? then [m.event] else [] by {
        assert [m][..0] == [];
      }
      shutdown := m.Shutdown?;
      if m.Logged? {
        buffer := buffer + [m.event];
      }
      consumed := consumed + [m];
    }

    method Drain(messages: seq<Message<LogEvent>>) returns (shutdown: bool)
      requires Valid()
      modifies this`buffer, this`consumed
      ensures Valid() && Abs() == Took(old(Abs()), messages) && shutdown == (Shutdown in messages)
    {
      shutdown := false;
      ghost var before := Abs();
      var i := 0;
      while i < |messages|
        invariant 0 <= i <= |messages|
        invariant Valid() && Abs() == Took(before, messages[..i])
        invariant shutdown == (Shutdown in messages[..i])
      {
        ghost var taken := Abs();
        var marker := Take(messages[i]);
        assert Abs() == Took(taken, [messages[i]]);
        TookTook(before, messages[..i], [messages[i]]);
        assert messages[..i + 1] == messages[..i] + [messages[i]];
        shutdown := shutdown || marker;
        i := i + 1;
      }
      assert messages[..|messages|] == messages;
    }

    method Receive(t: Turn<LogEvent, Outcome>) returns (shutdown: bool)
      requires Valid() && !t.first.Disconnected?
      modifies this
      ensures Valid() && Abs() == AfterFirst(old(Abs()), t) && shutdown == (t.first == Received(Shutdown))
    {
      shutdown := false;
      match t.first {
        case Received(m) =>
          shutdown := Take(m);
        case Timeout =>
          if buffer != [] {
            FlushBuffer(t.onTimeout, OnTimeout);
          }
      }
    }

    /** One round of the worker loop. */
    method Round(t: Turn<LogEvent, Outcome>)
      requires Valid() && !exited
      modifies this
      ensures Valid() && Abs() == AfterTurn(old(Abs()), t, flushBatch)
    {
      if t.first.Disconnected? {
        Exit(t.onExit);
        return;
      }
      var shutdown := Receive(t);
      var marker := Drain(t.drained);
      if |buffer| >= flushBatch {
        FlushBuffer(t.onFull, OnFull);
      }
      if shutdown || marker {
        Exit(t.onExit);
      }
    }

    /** Rounds until the worker returns or the script ends. */
    method WorkerLoop(turns: seq<Turn<LogEvent, Outcome>>)
      requires Valid() && Abs() == AfterTurns([], flushBatch)
      modifies this
      ensures Valid() && Abs() == AfterTurns(turns, flushBatch)
    {
      var i := 0;
      while i < |turns|
        invariant 0 <= i <= |turns|
        invariant Valid() && Abs() == AfterTurns(turns[..i], flushBatch)
      {
        assert turns[..i + 1][..i] == turns[..i];
        if !exited {
          Round(turns[i]);
        }
        i := i + 1;
      }
      assert turns[..|turns|] == turns;
    }
  }

  lemma JournalSnoc(journal: seq<Flush<LogEvent, Outcome>>, f: Flush<LogEvent, Outcome>, every: nat)
    ensures AfterJournal(journal + [f], every) == AfterEntry(AfterJournal(journal, every), f, every)
  {
    assert (journal + [f])[..|journal|] == journal;
  }

  lemma TookTook(w: BatchWorker.Worker<LogEvent, Outcome>, a: seq<Message<LogEvent>>, b: seq<Message<LogEvent>>)
    ensures Took(Took(w, a), b) == Took(w, a + b)
  {
    EventsAppend(a, b);
    ConcatAssoc(w.buffer, Events(a), Events(b));
    ConcatAssoc(w.consumed, a, b);
  }
}
