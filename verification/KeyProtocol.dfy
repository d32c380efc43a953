/**
 The revision guard of the API-key cache, at the code's own step granularity: a lookup loads the
 revision, reads the row, reloads the revision and inserts; a delete or update commits, drops the
 cached entries and bumps the revision. Any number of both interleave, one step at a time.

 Each step happens at its own instant; rows, lookups and cache entries carry the instants that
 produced them, so that "before" and "after" can be said of any run.
 */
module KeyProtocol {
  import opened ByteStrings

  type Hash = string

  datatype Row = Row(name: string, enabled: bool, expiresAt: Option<int>)

  datatype Lookup =
    | Loaded(hash: Hash, revision: nat, loadedAt: nat)
    | HasRead(hash: Hash, revision: nat, loadedAt: nat, row: Option<Row>, readAt: nat)
    | Checked(hash: Hash, current: bool, row: Option<Row>, readAt: nat, checkedAt: nat)

  /** A committed delete or update and how far its handler has come. */
  datatype Mutation = Mutation(
    hash: Hash,
    update: bool,
    committedAt: nat,
    removedAt: Option<nat>,
    forgotten: bool,
    bumpedAt: Option<nat>)

  datatype Entry = Entry(row: Row, readAt: nat, checkedAt: nat, insertedAt: nat)

  datatype State = State(
    now: nat,
    db: map<Hash, Row>,
    seen: set<Hash>,
    revision: nat,
    cache: map<Hash, Entry>,
    negative: set<Hash>,
    lookups: map<nat, Lookup>,
    mutations: seq<Mutation>)

  const INITIAL := State(0, map[], {}, 0, map[], {}, map[], [])

  datatype Action =
    | Create(hash: Hash, row: Row)
    | LoadRevision(id: nat, hash: Hash)
    | ReadRow(id: nat)
    | ReloadRevision(id: nat)
    | Insert(id: nat, room: bool)
    | CommitDelete(hash: Hash)
    | CommitUpdate(hash: Hash, row: Row)
    | RemoveEntry(mutation: nat)
    | ForgetNegative(mutation: nat)
    | Bump(mutation: nat)
    | Evict(hash: Hash)
    | ExpireNegative(hash: Hash)

  function Get<K, V>(m: map<K, V>, k: K): Option<V> {
    if k in m then Some(m[k]) else None
  }

  /** Keys are random, so a new one has never been looked up. */
  predicate Enabled(s: State, a: Action) {
    match a
    case Create(hash, _) => hash !in s.db && hash !in s.seen
    case LoadRevision(id, _) => id !in s.lookups
    case ReadRow(id) => id in s.lookups && s.lookups[id].Loaded?
    case ReloadRevision(id) => id in s.lookups && s.lookups[id].HasRead?
    case Insert(id, _) => id in s.lookups && s.lookups[id].Checked?
    case CommitDelete(hash) => hash in s.db
    case CommitUpdate(hash, _) => hash in s.db
    case RemoveEntry(m) => m < |s.mutations| && s.mutations[m].removedAt.None?
    case ForgetNegative(m) =>
      m < |s.mutations| && s.mutations[m].update && s.mutations[m].removedAt.Some? && !s.mutations[m].forgotten
    case Bump(m) =>
      && m < |s.mutations| && s.mutations[m].removedAt.Some? && s.mutations[m].bumpedAt.None?
      && (s.mutations[m].update ==> s.mutations[m].forgotten)
    case Evict(_) => true
    case ExpireNegative(_) => true
  }

  function Apply(s: State, a: Action): State
    requires Enabled(s, a)
  {
    match a
    case Create(hash, row) => s.(db := s.db[hash := row])
    case LoadRevision(id, hash) =>
      s.(lookups := s.lookups[id := Loaded(hash, s.revision, s.now)], seen := s.seen + {hash})
    case ReadRow(id) =>
      var l := s.lookups[id];
      s.(lookups := s.lookups[id := HasRead(l.hash, l.revision, l.loadedAt, Get(s.db, l.hash), s.now)])
    case ReloadRevision(id) =>
      var l := s.lookups[id];
      s.(lookups := s.lookups[id := Checked(l.hash, s.revision == l.revision, l.row, l.readAt, s.now)])
    case Insert(id, room) =>
      var l := s.lookups[id];
      var s1 := s.(lookups := s.lookups - {id});
      if !l.current then s1
      else if l.row.Some? then
        s1.(cache := s.cache[l.hash := Entry(l.row.value, l.readAt, l.checkedAt, s.now)])
      else if room then s1.(negative := s.negative + {l.hash})
      else s1
    case CommitDelete(hash) =>
      s.(db := s.db - {hash}, mutations := s.mutations + [Mutation(hash, false, s.now, None, false, None)])
    case CommitUpdate(hash, row) =>
      s.(db := s.db[hash := row], mutations := s.mutations + [Mutation(hash, true, s.now, None, false, None)])
    case RemoveEntry(m) =>
      s.(cache := s.cache - {s.mutations[m].hash},
         mutations := s.mutations[m := s.mutations[m].(removedAt := Some(s.now))])
    case ForgetNegative(m) =>
      s.(negative := s.negative - {s.mutations[m].hash},
         mutations := s.mutations[m := s.mutations[m].(forgotten := true)])
    case Bump(m) =>
      s.(revision := s.revision + 1,
         mutations := s.mutations[m := s.mutations[m].(bumpedAt := Some(s.now))])
    case Evict(hash) => s.(cache := s.cache - {hash})
    case ExpireNegative(hash) => s.(negative := s.negative - {hash})
  }

  /** One step; an action that is not enabled does nothing. Every step takes an instant. */
  function Next(s: State, a: Action): State {
    var s' := if Enabled(s, a) then Apply(s, a) else s;
    s'.(now := s.now + 1)
  }

  function Run(s: State, actions: seq<Action>): State {
    if actions == [] then s
    else Next(Run(s, actions[..|actions| - 1]), actions[|actions| - 1])
  }

  // ---- The invariant ----

  predicate BumpedBefore(m: Mutation, t: nat) {
    m.bumpedAt.Some? && m.bumpedAt.value < t
  }

  /** How many mutations had bumped the revision before instant `t`. */
  function Bumps(mutations: seq<Mutation>, t: nat): nat {
    if mutations == [] then 0
    else Bumps(mutations[..|mutations| - 1], t) + if BumpedBefore(mutations[|mutations| - 1], t) then 1 else 0
  }

  /** Whatever bumped before the reload had committed before the read. */
  predicate Guarded(mutations: seq<Mutation>, readAt: nat, checkedAt: nat) {
    forall i :: 0 <= i < |mutations| && BumpedBefore(mutations[i], checkedAt) ==> mutations[i].committedAt < readAt
  }

  predicate CommittedAfter(mutations: seq<Mutation>, hash: Hash, t: nat) {
    exists i :: 0 <= i < |mutations| && mutations[i].hash == hash && t < mutations[i].committedAt
  }

  predicate DeletedAfter(mutations: seq<Mutation>, hash: Hash, t: nat) {
    exists i :: 0 <= i < |mutations| && Deletes(mutations[i], hash) && t < mutations[i].committedAt
  }

  predicate Deletes(m: Mutation, hash: Hash) {
    m.hash == hash && !m.update
  }

  predicate MutationOk(s: State, m: Mutation) {
    && m.committedAt < s.now
    && (m.removedAt.Some? ==> m.committedAt < m.removedAt.value < s.now)
    && (m.bumpedAt.Some? ==> m.removedAt.Some? && m.removedAt.value < m.bumpedAt.value < s.now)
  }

  /**
   What was read is still there unless a mutation of that key committed since; a key that was there
   is gone exactly when a delete did, for a key once seen is never created again.
   */
  predicate ReadOk(s: State, hash: Hash, row: Option<Row>, readAt: nat) {
    && hash in s.seen && readAt < s.now
    && (row.None? ==> hash !in s.db)
    && (row.Some? ==> (hash !in s.db <==> DeletedAfter(s.mutations, hash, readAt)))
    && (Get(s.db, hash) == row || CommittedAfter(s.mutations, hash, readAt))
  }

  predicate LookupOk(s: State, l: Lookup) {
    match l
    case Loaded(hash, revision, loadedAt) =>
      hash in s.seen && loadedAt < s.now && revision == Bumps(s.mutations, loadedAt)
    case HasRead(hash, revision, loadedAt, row, readAt) =>
      loadedAt < readAt && revision == Bumps(s.mutations, loadedAt) && ReadOk(s, hash, row, readAt)
    case Checked(hash, current, row, readAt, checkedAt) =>
      && readAt < checkedAt < s.now && ReadOk(s, hash, row, readAt)
      && (current ==> Guarded(s.mutations, readAt, checkedAt))
  }

  /** Every removal of this key's entry came before `t`. */
  predicate RemovedBefore(mutations: seq<Mutation>, hash: Hash, t: nat) {
    forall i :: 0 <= i < |mutations| && mutations[i].hash == hash && mutations[i].removedAt.Some? ==>
      mutations[i].removedAt.value < t
  }

  predicate EntryOk(s: State, hash: Hash, e: Entry) {
    && e.readAt < e.checkedAt < e.insertedAt < s.now
    && ReadOk(s, hash, Some(e.row), e.readAt)
    && Guarded(s.mutations, e.readAt, e.checkedAt)
    && RemovedBefore(s.mutations, hash, e.insertedAt)
  }

  predicate Inv(s: State) {
    && s.revision == Bumps(s.mutations, s.now)
    && (forall i :: 0 <= i < |s.mutations| ==> MutationOk(s, s.mutations[i]))
    && (forall id :: id in s.lookups ==> LookupOk(s, s.lookups[id]))
    && (forall hash :: hash in s.cache ==> EntryOk(s, hash, s.cache[hash]))
    && (forall hash :: hash in s.negative ==> hash in s.seen && hash !in s.db)
  }

  // ---- Counting bumps ----

  lemma {:induction false} BumpsPointwise(a: seq<Mutation>, t: nat, b: seq<Mutation>, u: nat)
    requires |a| == |b|
    requires forall i :: 0 <= i < |a| ==> BumpedBefore(a[i], t) == BumpedBefore(b[i], u)
    ensures Bumps(a, t) == Bumps(b, u)
    decreases |a|
  {
    if a != [] {
      BumpsPointwise(a[..|a| - 1], t, b[..|b| - 1], u);
    }
  }

  lemma {:induction false} BumpsOneMore(a: seq<Mutation>, t: nat, b: seq<Mutation>, u: nat, k: nat)
    requires |a| == |b| && k < |a|
    requires forall i :: 0 <= i < |a| && i != k ==> BumpedBefore(a[i], t) == BumpedBefore(b[i], u)
    requires !BumpedBefore(a[k], t) && BumpedBefore(b[k], u)
    ensures Bumps(b, u) == Bumps(a, t) + 1
    decreases |a|
  {
    var a', b' := a[..|a| - 1], b[..|b| - 1];
    if k == |a| - 1 {
      BumpsPointwise(a', t, b', u);
    } else {
      BumpsOneMore(a', t, b', u, k);
    }
  }

  /** Two equal readings of the revision: nothing bumped it in between. */
  lemma {:induction false} EqualReadings(mutations: seq<Mutation>, t: nat, u: nat)
    requires t <= u
    ensures Bumps(mutations, t) <= Bumps(mutations, u)
    ensures Bumps(mutations, t) == Bumps(mutations, u) ==>
              forall i :: 0 <= i < |mutations| && BumpedBefore(mutations[i], u) ==> BumpedBefore(mutations[i], t)
    decreases |mutations|
  {
    if mutations != [] {
      EqualReadings(mutations[..|mutations| - 1], t, u);
    }
  }

  lemma BumpsSnoc(mutations: seq<Mutation>, m: Mutation, t: nat)
    requires m.bumpedAt.None?
    ensures Bumps(mutations + [m], t) == Bumps(mutations, t)
  {
    assert (mutations + [m])[..|mutations|] == mutations;
  }

  // ---- Every step keeps it ----

  /** What was established about past reads and reloads in `s` still holds in `s'`. */
  ghost predicate Carries(s: State, s': State) {
    && s.now < s'.now && s.seen <= s'.seen
    && (forall h: Hash, row: Option<Row>, t: nat :: ReadOk(s, h, row, t) ==> ReadOk(s', h, row, t))
    && (forall t: nat :: t <= s.now ==> Bumps(s'.mutations, t) == Bumps(s.mutations, t))
    && (forall t: nat, u: nat :: u <= s.now && Guarded(s.mutations, t, u) ==> Guarded(s'.mutations, t, u))
  }

  lemma LookupsCarry(s: State, s': State)
    requires Inv(s) && Carries(s, s')
    requires forall id :: id in s'.lookups ==> id in s.lookups && s'.lookups[id] == s.lookups[id]
    ensures forall id :: id in s'.lookups ==> LookupOk(s', s'.lookups[id])
  {
    forall id | id in s'.lookups
      ensures LookupOk(s', s'.lookups[id])
    {
      assert LookupOk(s, s.lookups[id]);
    }
  }

  lemma EntriesCarry(s: State, s': State)
    requires Inv(s) && Carries(s, s')
    requires forall h :: h in s'.cache ==> h in s.cache && s'.cache[h] == s.cache[h]
    requires forall h: Hash, t: nat :: h in s'.cache && RemovedBefore(s.mutations, h, t) ==> RemovedBefore(s'.mutations, h, t)
    ensures forall h :: h in s'.cache ==> EntryOk(s', h, s'.cache[h])
  {
    forall h | h in s'.cache
      ensures EntryOk(s', h, s'.cache[h])
    {
      assert EntryOk(s, h, s.cache[h]);
    }
  }

  lemma BumpsNow(s: State)
    requires forall i :: 0 <= i < |s.mutations| ==> MutationOk(s, s.mutations[i])
    ensures Bumps(s.mutations, s.now + 1) == Bumps(s.mutations, s.now)
  {
    forall i | 0 <= i < |s.mutations|
      ensures BumpedBefore(s.mutations[i], s.now) == BumpedBefore(s.mutations[i], s.now + 1)
    {
      assert MutationOk(s, s.mutations[i]);
    }
    BumpsPointwise(s.mutations, s.now, s.mutations, s.now + 1);
  }

  /** `s'` is one instant later and has the same rows and mutations. */
  predicate SameTables(s: State, s': State) {
    && s'.now == s.now + 1 && s'.db == s.db && s.seen <= s'.seen
    && s'.mutations == s.mutations && s'.revision == s.revision
  }

  lemma SameTablesCarry(s: State, s': State)
    requires Inv(s) && SameTables(s, s')
    ensures Carries(s, s')
    ensures s'.revision == Bumps(s'.mutations, s'.now)
    ensures forall i :: 0 <= i < |s'.mutations| ==> MutationOk(s', s'.mutations[i])
  {
    BumpsNow(s);
    forall i | 0 <= i < |s'.mutations|
      ensures MutationOk(s', s'.mutations[i])
    {
      assert MutationOk(s, s.mutations[i]);
    }
  }

  /** Forgetting lookups, entries or verdicts is always safe. */
  lemma ShrinkKeepsInv(s: State, s': State)
    requires Inv(s) && SameTables(s, s') && s'.seen == s.seen
    requires forall id :: id in s'.lookups ==> id in s.lookups && s'.lookups[id] == s.lookups[id]
    requires forall h :: h in s'.cache ==> h in s.cache && s'.cache[h] == s.cache[h]
    requires s'.negative <= s.negative
    ensures Inv(s')
  {
    SameTablesCarry(s, s');
    LookupsCarry(s, s');
    EntriesCarry(s, s');
  }

  /** A reload that sees the revision unchanged is guarded. */
  lemma ReloadIsGuarded(s: State, l: Lookup)
    requires Inv(s) && l.HasRead? && LookupOk(s, l) && s.revision == l.revision
    ensures Guarded(s.mutations, l.readAt, s.now)
  {
    EqualReadings(s.mutations, l.loadedAt, s.now);
    forall i | 0 <= i < |s.mutations| && BumpedBefore(s.mutations[i], s.now)
      ensures s.mutations[i].committedAt < l.readAt
    {
      assert MutationOk(s, s.mutations[i]);
    }
  }

  /** A lookup's own step: only that lookup changes. */
  lemma LookupStepKeepsInv(s: State, s': State, id: nat, l: Lookup)
    requires Inv(s) && SameTables(s, s')
    requires s' == s.(now := s'.now, seen := s'.seen, lookups := s.lookups[id := l])
    requires LookupOk(s', l)
    ensures Inv(s')
  {
    SameTablesCarry(s, s');
    EntriesCarry(s, s');
    forall x | x in s'.lookups
      ensures LookupOk(s', s'.lookups[x])
    {
      if x != id {
        assert LookupOk(s, s.lookups[x]);
      }
    }
  }

  lemma NewLookupOk(s: State, a: Action)
    requires Inv(s) && Enabled(s, a) && (a.LoadRevision? || a.ReadRow? || a.ReloadRevision?)
    ensures LookupOk(Next(s, a), Next(s, a).lookups[a.id])
  {
    if a.LoadRevision? {
    } else {
      var l := s.lookups[a.id];
      assert LookupOk(s, l);
      if a.ReloadRevision? && s.revision == l.revision {
        ReloadIsGuarded(s, l);
      }
    }
  }

  lemma AddEntryKeepsInv(s: State, hash: Hash, e: Entry)
    requires Inv(s) && EntryOk(s, hash, e)
    ensures Inv(s.(cache := s.cache[hash := e]))
  {
    var s' := s.(cache := s.cache[hash := e]);
    forall i | 0 <= i < |s'.mutations|
      ensures MutationOk(s', s'.mutations[i])
    {
      assert MutationOk(s, s.mutations[i]);
    }
    forall id | id in s'.lookups
      ensures LookupOk(s', s'.lookups[id])
    {
      assert LookupOk(s, s.lookups[id]);
    }
    forall h | h in s'.cache
      ensures EntryOk(s', h, s'.cache[h])
    {
      assert h != hash ==> EntryOk(s, h, s.cache[h]);
    }
  }

  lemma AddNegativeKeepsInv(s: State, hash: Hash)
    requires Inv(s) && hash in s.seen && hash !in s.db
    ensures Inv(s.(negative := s.negative + {hash}))
  {
  }

  lemma InsertKeepsInv(s: State, id: nat, room: bool)
    requires Inv(s) && Enabled(s, Insert(id, room))
    ensures Inv(Next(s, Insert(id, room)))
  {
    var l := s.lookups[id];
    var s1 := s.(lookups := s.lookups - {id}, now := s.now + 1);
    ShrinkKeepsInv(s, s1);
    assert LookupOk(s, l);
    if l.current && l.row.Some? {
      var e := Entry(l.row.value, l.readAt, l.checkedAt, s.now);
      InsertedEntryOk(s, s1, id, e);
      AddEntryKeepsInv(s1, l.hash, e);
    } else if l.current && room {
      AddNegativeKeepsInv(s1, l.hash);
    }
  }

  lemma InsertedEntryOk(s: State, s1: State, id: nat, e: Entry)
    requires Inv(s) && Enabled(s, Insert(id, true)) && s.lookups[id].current
    requires s1 == s.(lookups := s.lookups - {id}, now := s.now + 1)
    requires var l := s.lookups[id]; l.row == Some(e.row) && e == Entry(e.row, l.readAt, l.checkedAt, s.now)
    ensures EntryOk(s1, s.lookups[id].hash, e)
  {
    assert LookupOk(s, s.lookups[id]);
    RemovalsPast(s, s.lookups[id].hash);
  }

  lemma RemovalsPast(s: State, hash: Hash)
    requires Inv(s)
    ensures RemovedBefore(s.mutations, hash, s.now)
  {
    forall i | 0 <= i < |s.mutations| && s.mutations[i].removedAt.Some?
      ensures s.mutations[i].removedAt.value < s.now
    {
      assert MutationOk(s, s.mutations[i]);
    }
  }

  function Committed(s: State, hash: Hash, db: map<Hash, Row>, update: bool): State {
    s.(now := s.now + 1, db := db,
       mutations := s.mutations + [Mutation(hash, update, s.now, None, false, None)])
  }

  lemma DeletedSnoc(mutations: seq<Mutation>, m: Mutation, hash: Hash, t: nat)
    ensures DeletedAfter(mutations + [m], hash, t) <==>
            DeletedAfter(mutations, hash, t) || (Deletes(m, hash) && t < m.committedAt)
  {
    var more := mutations + [m];
    assert more[|mutations|] == m && forall i :: 0 <= i < |mutations| ==> more[i] == mutations[i];
    if DeletedAfter(mutations, hash, t) {
      var i :| 0 <= i < |mutations| && Deletes(mutations[i], hash) && t < mutations[i].committedAt;
      assert Deletes(more[i], hash);
    }
  }

  /** A new commit can only make what was read before it out of date. */
  lemma CommitCarries(s: State, hash: Hash, db: map<Hash, Row>, update: bool)
    requires Inv(s) && hash in s.db
    requires forall h :: h != hash ==> Get(db, h) == Get(s.db, h)
    requires hash in db <==> update
    ensures Carries(s, Committed(s, hash, db, update))
  {
    var s' := Committed(s, hash, db, update);
    var m := s'.mutations[|s.mutations|];
    forall h: Hash, row: Option<Row>, t: nat | ReadOk(s, h, row, t)
      ensures ReadOk(s', h, row, t)
    {
      if CommittedAfter(s.mutations, h, t) {
        var i :| 0 <= i < |s.mutations| && s.mutations[i].hash == h && t < s.mutations[i].committedAt;
        assert s'.mutations[i].hash == h && t < s'.mutations[i].committedAt;
      }
      DeletedSnoc(s.mutations, m, h, t);
      if h == hash {
        assert m.hash == h && t < m.committedAt;
        assert CommittedAfter(s'.mutations, h, t);
      } else {
        assert Get(db, h) == Get(s.db, h);
      }
    }
    forall t: nat
      ensures Bumps(s'.mutations, t) == Bumps(s.mutations, t)
    {
      BumpsSnoc(s.mutations, m, t);
    }
  }

  lemma CommitKeepsInv(s: State, hash: Hash, db: map<Hash, Row>, update: bool)
    requires Inv(s) && hash in s.db && db.Keys <= s.db.Keys
    requires forall h :: h != hash ==> Get(db, h) == Get(s.db, h)
    requires hash in db <==> update
    ensures Inv(Committed(s, hash, db, update))
  {
    var s' := Committed(s, hash, db, update);
    CommitCarries(s, hash, db, update);
    LookupsCarry(s, s');
    EntriesCarry(s, s');
    BumpsNow(s);
    BumpsSnoc(s.mutations, s'.mutations[|s.mutations|], s.now + 1);
    forall i | 0 <= i < |s'.mutations|
      ensures MutationOk(s', s'.mutations[i])
    {
      if i < |s.mutations| {
        assert MutationOk(s, s.mutations[i]);
      }
    }
  }

  predicate SameCommits(a: seq<Mutation>, b: seq<Mutation>) {
    |a| == |b| && forall i :: 0 <= i < |a| ==> SameCommit(a[i], b[i])
  }

  predicate SameCommit(a: Mutation, b: Mutation) {
    a.hash == b.hash && a.update == b.update && a.committedAt == b.committedAt
  }

  lemma SameCommitsSameDeletes(a: seq<Mutation>, b: seq<Mutation>, hash: Hash, t: nat)
    requires SameCommits(a, b)
    ensures DeletedAfter(a, hash, t) <==> DeletedAfter(b, hash, t)
  {
    forall i | 0 <= i < |a|
      ensures Deletes(a[i], hash) == Deletes(b[i], hash) && a[i].committedAt == b[i].committedAt
    {
      assert SameCommit(a[i], b[i]);
    }
  }

  /** A handler moving on changes neither rows nor commits, and bumps only now. */
  lemma HandlerCarries(s: State, s': State)
    requires SameCommits(s.mutations, s'.mutations) && s'.db == s.db && s'.seen == s.seen && s.now < s'.now
    requires forall i, t: nat :: 0 <= i < |s.mutations| && t <= s.now ==>
               BumpedBefore(s'.mutations[i], t) == BumpedBefore(s.mutations[i], t)
    ensures Carries(s, s')
  {
    forall h: Hash, row: Option<Row>, t: nat | ReadOk(s, h, row, t)
      ensures ReadOk(s', h, row, t)
    {
      SameCommitsSameDeletes(s.mutations, s'.mutations, h, t);
      if CommittedAfter(s.mutations, h, t) {
        var i :| 0 <= i < |s.mutations| && s.mutations[i].hash == h && t < s.mutations[i].committedAt;
        assert SameCommit(s.mutations[i], s'.mutations[i]);
        assert s'.mutations[i].hash == h && t < s'.mutations[i].committedAt;
      }
    }
    forall t: nat | t <= s.now
      ensures Bumps(s'.mutations, t) == Bumps(s.mutations, t)
    {
      BumpsPointwise(s'.mutations, t, s.mutations, t);
    }
    forall t: nat, u: nat | u <= s.now && Guarded(s.mutations, t, u)
      ensures Guarded(s'.mutations, t, u)
    {
      forall i | 0 <= i < |s'.mutations| && BumpedBefore(s'.mutations[i], u)
        ensures s'.mutations[i].committedAt < t
      {
        assert BumpedBefore(s.mutations[i], u) && SameCommit(s.mutations[i], s'.mutations[i]);
      }
    }
  }

  /** `s'` is `s` with the handler of mutation `k` one step on. */
  predicate HandlerStep(s: State, s': State, k: nat) {
    && k < |s.mutations| == |s'.mutations|
    && s' == s.(now := s.now + 1, cache := s'.cache, negative := s'.negative, revision := s'.revision,
                mutations := s.mutations[k := s'.mutations[k]])
    && SameCommit(s.mutations[k], s'.mutations[k])
    && (s'.mutations[k].bumpedAt == s.mutations[k].bumpedAt
        || (s.mutations[k].bumpedAt.None? && s'.mutations[k].bumpedAt == Some(s.now)))
  }

  lemma HandlerKeepsInv(s: State, s': State, k: nat)
    requires Inv(s) && HandlerStep(s, s', k) && MutationOk(s', s'.mutations[k])
    requires s'.revision == Bumps(s'.mutations, s'.now)
    requires s'.negative <= s.negative
    requires forall h :: h in s'.cache ==> h in s.cache && s'.cache[h] == s.cache[h]
    requires s'.mutations[k].removedAt == s.mutations[k].removedAt || s.mutations[k].hash !in s'.cache
    ensures Inv(s')
  {
    HandlerCarries(s, s');
    LookupsCarry(s, s');
    OtherRemovals(s.mutations, s'.mutations, k);
    EntriesCarry(s, s');
    forall i | 0 <= i < |s'.mutations|
      ensures MutationOk(s', s'.mutations[i])
    {
      assert MutationOk(s, s.mutations[i]);
    }
  }

  lemma OtherRemovals(a: seq<Mutation>, b: seq<Mutation>, k: nat)
    requires SameCommits(a, b) && k < |a| && b == a[k := b[k]]
    ensures forall h: Hash, t: nat :: h != a[k].hash && RemovedBefore(a, h, t) ==> RemovedBefore(b, h, t)
    ensures a[k].removedAt == b[k].removedAt ==>
              forall h: Hash, t: nat :: RemovedBefore(a, h, t) ==> RemovedBefore(b, h, t)
  {
    assert SameCommit(a[k], b[k]);
  }

  /** Dropping cached entries leaves the revision where it is. */
  lemma QuietStepKeepsInv(s: State, s': State, k: nat)
    requires Inv(s) && HandlerStep(s, s', k) && MutationOk(s', s'.mutations[k])
    requires s'.mutations[k].bumpedAt == s.mutations[k].bumpedAt && s'.revision == s.revision
    requires s'.negative <= s.negative
    requires forall h :: h in s'.cache ==> h in s.cache && s'.cache[h] == s.cache[h]
    requires s'.mutations[k].removedAt == s.mutations[k].removedAt || s.mutations[k].hash !in s'.cache
    ensures Inv(s')
  {
    BumpsNow(s);
    BumpsPointwise(s'.mutations, s'.now, s.mutations, s.now + 1);
    HandlerKeepsInv(s, s', k);
  }

  lemma RemoveKeepsInv(s: State, k: nat)
    requires Inv(s) && Enabled(s, RemoveEntry(k))
    ensures Inv(Next(s, RemoveEntry(k)))
  {
    assert MutationOk(s, s.mutations[k]);
    QuietStepKeepsInv(s, Next(s, RemoveEntry(k)), k);
  }

  lemma ForgetKeepsInv(s: State, k: nat)
    requires Inv(s) && Enabled(s, ForgetNegative(k))
    ensures Inv(Next(s, ForgetNegative(k)))
  {
    assert MutationOk(s, s.mutations[k]);
    QuietStepKeepsInv(s, Next(s, ForgetNegative(k)), k);
  }

  lemma BumpCounts(s: State, k: nat)
    requires Inv(s) && Enabled(s, Bump(k))
    ensures var s' := Next(s, Bump(k)); s'.revision == Bumps(s'.mutations, s'.now)
  {
    var s' := Next(s, Bump(k));
    forall i | 0 <= i < |s.mutations| && i != k
      ensures BumpedBefore(s.mutations[i], s.now) == BumpedBefore(s'.mutations[i], s'.now)
    {
      assert MutationOk(s, s.mutations[i]);
    }
    BumpsOneMore(s.mutations, s.now, s'.mutations, s'.now, k);
  }

  lemma BumpIsHandlerStep(s: State, k: nat)
    requires Inv(s) && Enabled(s, Bump(k))
    ensures var s' := Next(s, Bump(k)); HandlerStep(s, s', k) && MutationOk(s', s'.mutations[k])
  {
    assert MutationOk(s, s.mutations[k]);
  }

  lemma BumpKeepsInv(s: State, k: nat)
    requires Inv(s) && Enabled(s, Bump(k))
    ensures Inv(Next(s, Bump(k)))
  {
    BumpCounts(s, k);
    BumpIsHandlerStep(s, k);
    HandlerKeepsInv(s, Next(s, Bump(k)), k);
  }

  lemma CreateKeepsInv(s: State, hash: Hash, row: Row)
    requires Inv(s) && hash !in s.db && hash !in s.seen
    ensures Inv(s.(db := s.db[hash := row], now := s.now + 1))
  {
    var s' := s.(db := s.db[hash := row], now := s.now + 1);
    forall h: Hash, r: Option<Row>, t: nat | ReadOk(s, h, r, t)
      ensures ReadOk(s', h, r, t)
    {
      assert h != hash;
    }
    BumpsNow(s);
    LookupsCarry(s, s');
    EntriesCarry(s, s');
    forall i | 0 <= i < |s'.mutations|
      ensures MutationOk(s', s'.mutations[i])
    {
      assert MutationOk(s, s.mutations[i]);
    }
  }

  lemma LookupKeepsInv(s: State, a: Action)
    requires Inv(s) && Enabled(s, a) && (a.LoadRevision? || a.ReadRow? || a.ReloadRevision?)
    ensures Inv(Next(s, a))
  {
    NewLookupOk(s, a);
    var s' := Next(s, a);
    LookupStepKeepsInv(s, s', a.id, s'.lookups[a.id]);
  }

  lemma NextKeepsInv(s: State, a: Action)
    requires Inv(s)
    ensures Inv(Next(s, a))
  {
    if !Enabled(s, a) {
      ShrinkKeepsInv(s, Next(s, a));
    } else {
      match a
      case Create(hash, row) => CreateKeepsInv(s, hash, row);
      case LoadRevision(_, _) => LookupKeepsInv(s, a);
      case ReadRow(_) => LookupKeepsInv(s, a);
      case ReloadRevision(_) => LookupKeepsInv(s, a);
      case Insert(id, room) => InsertKeepsInv(s, id, room);
      case CommitDelete(hash) => CommitKeepsInv(s, hash, s.db - {hash}, false);
      case CommitUpdate(hash, row) => CommitKeepsInv(s, hash, s.db[hash := row], true);
      case RemoveEntry(m) => RemoveKeepsInv(s, m);
      case ForgetNegative(m) => ForgetKeepsInv(s, m);
      case Bump(m) => BumpKeepsInv(s, m);
      case Evict(_) => ShrinkKeepsInv(s, Next(s, a));
      case ExpireNegative(_) => ShrinkKeepsInv(s, Next(s, a));
    }
  }

  lemma {:induction false} RunKeepsInv(actions: seq<Action>)
    ensures Inv(Run(INITIAL, actions))
    decreases |actions|
  {
    if actions != [] {
      RunKeepsInv(actions[..|actions| - 1]);
      NextKeepsInv(Run(INITIAL, actions[..|actions| - 1]), actions[|actions| - 1]);
    }
  }

  // ---- The guarantees ----

  /**
   The revision guard: in no interleaving is a row cached that was read before a delete or update
   committed, by a lookup that reloaded the revision after that mutation had bumped it.
   */
  lemma GuardHolds(actions: seq<Action>, hash: Hash, k: nat)
    requires var s := Run(INITIAL, actions);
             && hash in s.cache && k < |s.mutations|
             && s.mutations[k].bumpedAt.Some? && s.mutations[k].bumpedAt.value < s.cache[hash].checkedAt
    ensures var s := Run(INITIAL, actions);
            s.mutations[k].committedAt < s.cache[hash].readAt
  {
    RunKeepsInv(actions);
    var s := Run(INITIAL, actions);
    assert EntryOk(s, hash, s.cache[hash]);
    assert BumpedBefore(s.mutations[k], s.cache[hash].checkedAt);
  }

  /**
   The handler straddles the lookup: committed after the read, entry removed before the insertion,
   revision not yet bumped at the reload.
   */
  predicate Straddles(m: Mutation, e: Entry) {
    && e.readAt < m.committedAt
    && (m.removedAt.Some? ==> m.removedAt.value < e.insertedAt)
    && (m.bumpedAt.Some? ==> e.checkedAt <= m.bumpedAt.value)
  }

  /**
   A cached row differs from the table only if some delete or update of that key committed after
   the row was read, removed the cache entry before it was inserted, and had not bumped the
   revision when it was reloaded.
   */
  lemma StaleOnlyIfStraddled(actions: seq<Action>, hash: Hash) returns (k: nat)
    requires var s := Run(INITIAL, actions);
             hash in s.cache && Get(s.db, hash) != Some(s.cache[hash].row)
    ensures var s := Run(INITIAL, actions);
            k < |s.mutations| && s.mutations[k].hash == hash && Straddles(s.mutations[k], s.cache[hash])
  {
    RunKeepsInv(actions);
    var s := Run(INITIAL, actions);
    var e := s.cache[hash];
    assert EntryOk(s, hash, e);
    k :| 0 <= k < |s.mutations| && s.mutations[k].hash == hash && e.readAt < s.mutations[k].committedAt;
    assert MutationOk(s, s.mutations[k]);
    assert !BumpedBefore(s.mutations[k], e.checkedAt);
  }

  /** Hence an entry is out of date exactly when a mutation of its key straddled its insertion. */
  lemma OutOfDateIffStraddled(actions: seq<Action>, hash: Hash)
    requires hash in Run(INITIAL, actions).cache
    ensures var s := Run(INITIAL, actions);
            var e := s.cache[hash];
            && (CommittedAfter(s.mutations, hash, e.readAt) <==>
                  exists k :: 0 <= k < |s.mutations| && s.mutations[k].hash == hash && Straddles(s.mutations[k], e))
            && (!CommittedAfter(s.mutations, hash, e.readAt) ==> Get(s.db, hash) == Some(e.row))
  {
    RunKeepsInv(actions);
    var s := Run(INITIAL, actions);
    var e := s.cache[hash];
    assert EntryOk(s, hash, e);
    if CommittedAfter(s.mutations, hash, e.readAt) {
      var k :| 0 <= k < |s.mutations| && s.mutations[k].hash == hash && e.readAt < s.mutations[k].committedAt;
      assert !BumpedBefore(s.mutations[k], e.checkedAt);
      assert Straddles(s.mutations[k], e);
    }
  }

  /**
   A revoked key is cached exactly when a delete straddled the insertion of its entry: then, and in
   no other way, is a deleted key still in the cache.
   */
  lemma DeletedIsCachedIffStraddled(actions: seq<Action>, hash: Hash)
    requires hash in Run(INITIAL, actions).cache
    ensures var s := Run(INITIAL, actions);
            hash !in s.db <==>
            exists k :: 0 <= k < |s.mutations| && Deletes(s.mutations[k], hash) && Straddles(s.mutations[k], s.cache[hash])
  {
    RunKeepsInv(actions);
    var s := Run(INITIAL, actions);
    var e := s.cache[hash];
    assert EntryOk(s, hash, e);
    if hash !in s.db {
      var k :| 0 <= k < |s.mutations| && Deletes(s.mutations[k], hash) && e.readAt < s.mutations[k].committedAt;
      assert !BumpedBefore(s.mutations[k], e.checkedAt);
      assert Straddles(s.mutations[k], e);
    }
  }

  /** A key is never in the negative cache while its row exists, whatever the interleaving. */
  lemma NegativeIsNeverWrong(actions: seq<Action>, hash: Hash)
    requires hash in Run(INITIAL, actions).negative
    ensures hash !in Run(INITIAL, actions).db
  {
    RunKeepsInv(actions);
  }

  // ---- Against the table alone ----

  /** What an action does to the table, whatever else is under way. */
  function TableStep(table: map<Hash, Row>, a: Action): map<Hash, Row> {
    match a
    case Create(hash, row) => table[hash := row]
    case CommitUpdate(hash, row) => table[hash := row]
    case CommitDelete(hash) => table - {hash}
    case _ => table
  }

  /** The table as the commits alone leave it, one after the other. */
  function TableAfter(actions: seq<Action>): map<Hash, Row> {
    if actions == [] then map[] else TableStep(TableAfter(actions[..|actions| - 1]), actions[|actions| - 1])
  }

  /** Every action was enabled when it was taken. */
  predicate Legal(actions: seq<Action>) {
    forall i :: 0 <= i < |actions| ==> Enabled(Run(INITIAL, actions[..i]), actions[i])
  }

  lemma StepTable(s: State, a: Action)
    requires Enabled(s, a)
    ensures Next(s, a).db == TableStep(s.db, a)
  {
  }

  lemma LegalFront(actions: seq<Action>)
    requires Legal(actions) && actions != []
    ensures Legal(actions[..|actions| - 1])
    ensures Enabled(Run(INITIAL, actions[..|actions| - 1]), actions[|actions| - 1])
  {
    var front := actions[..|actions| - 1];
    forall i | 0 <= i < |front|
      ensures Enabled(Run(INITIAL, front[..i]), front[i])
    {
      assert front[..i] == actions[..i];
    }
  }

  lemma {:induction false} TableIsSequential(actions: seq<Action>)
    requires Legal(actions)
    ensures Run(INITIAL, actions).db == TableAfter(actions)
    decreases |actions|
  {
    if actions != [] {
      var n := |actions| - 1;
      LegalFront(actions);
      TableIsSequential(actions[..n]);
      StepTable(Run(INITIAL, actions[..n]), actions[n]);
    }
  }

  /**
   Of an interleaving nothing shows in the caches but the commits, in their order, unless a mutation
   straddled the lookup: a cached row is the one they left, and a key cached as invalid has none.
   */
  lemma CachesAreTheTable(actions: seq<Action>, hash: Hash)
    requires Legal(actions)
    ensures var s := Run(INITIAL, actions);
            && (hash in s.cache && (forall m :: m in s.mutations && m.hash == hash ==> !Straddles(m, s.cache[hash])) ==>
                  Get(TableAfter(actions), hash) == Some(s.cache[hash].row))
            && (hash in s.negative ==> hash !in TableAfter(actions))
  {
    TableIsSequential(actions);
    var s := Run(INITIAL, actions);
    if hash in s.cache && Get(s.db, hash) != Some(s.cache[hash].row) {
      var k := StaleOnlyIfStraddled(actions, hash);
      assert s.mutations[k] in s.mutations;
    }
    if hash in s.negative {
      NegativeIsNeverWrong(actions, hash);
    }
  }

  // ---- Undisturbed handlers ----

  lemma RunThree(s: State, a: Action, b: Action, c: Action)
    ensures Run(s, [a] + [b] + [c]) == Next(Next(Next(s, a), b), c)
  {
    assert [] + [a] == [a];
    RunMore(s, [], a);
    RunMore(s, [a], b);
    RunMore(s, [a] + [b], c);
  }

  lemma RunMore(s: State, actions: seq<Action>, a: Action)
    ensures Run(s, actions + [a]) == Next(Run(s, actions), a)
  {
    assert (actions + [a])[..|actions|] == actions;
  }

  lemma RunFour(s: State, a: Action, b: Action, c: Action, d: Action)
    ensures Run(s, [a] + [b] + [c] + [d]) == Next(Next(Next(Next(s, a), b), c), d)
  {
    RunThree(s, a, b, c);
    RunMore(s, [a] + [b] + [c], d);
  }

  function WholeLookup(id: nat, hash: Hash): seq<Action> {
    [LoadRevision(id, hash)] + [ReadRow(id)] + [ReloadRevision(id)] + [Insert(id, true)]
  }

  /** A lookup that nothing interrupts caches what the table holds: the row, or that there is none. */
  lemma UndisturbedLookupCaches(s: State, id: nat, hash: Hash)
    requires id !in s.lookups
    ensures var s' := Run(s, WholeLookup(id, hash));
            && s'.db == s.db && id !in s'.lookups
            && (hash in s.db ==> hash in s'.cache && s'.cache[hash].row == s.db[hash])
            && (hash !in s.db ==> hash in s'.negative && s'.cache == s.cache)
  {
    RunFour(s, LoadRevision(id, hash), ReadRow(id), ReloadRevision(id), Insert(id, true));
    var s3 := Next(Next(Next(s, LoadRevision(id, hash)), ReadRow(id)), ReloadRevision(id));
    LookupGetsReady(s, id, hash);
    assert Next(s3, Insert(id, true)).lookups == s3.lookups - {id};
  }

  lemma LookupGetsReady(s: State, id: nat, hash: Hash)
    requires id !in s.lookups
    ensures var s3 := Next(Next(Next(s, LoadRevision(id, hash)), ReadRow(id)), ReloadRevision(id));
            && s3.db == s.db && s3.cache == s.cache && s3.negative == s.negative
            && id in s3.lookups && s3.lookups[id] == Checked(hash, true, Get(s.db, hash), s.now + 1, s.now + 2)
  {
    var s1 := Next(s, LoadRevision(id, hash));
    assert s1.lookups[id] == Loaded(hash, s.revision, s.now);
    var s2 := Next(s1, ReadRow(id));
    assert s2.lookups[id] == HasRead(hash, s.revision, s.now, Get(s.db, hash), s.now + 1);
  }

  function WholeDelete(s: State, hash: Hash): seq<Action> {
    [CommitDelete(hash)] + [RemoveEntry(|s.mutations|)] + [Bump(|s.mutations|)]
  }

  function WholeUpdate(s: State, hash: Hash, row: Row): seq<Action> {
    [CommitUpdate(hash, row)] + [RemoveEntry(|s.mutations|)] + [ForgetNegative(|s.mutations|)] + [Bump(|s.mutations|)]
  }

  /** A whole delete takes the key out of table and cache, and moves the revision on. */
  lemma UndisturbedDeleteClears(s: State, hash: Hash)
    requires hash in s.db
    ensures var s' := Run(s, WholeDelete(s, hash));
            && s'.db == s.db - {hash} && s'.cache == s.cache - {hash}
            && s'.negative == s.negative && s'.revision == s.revision + 1
  {
    var m := |s.mutations|;
    RunThree(s, CommitDelete(hash), RemoveEntry(m), Bump(m));
    var s1 := Next(s, CommitDelete(hash));
    assert s1.mutations[m] == Mutation(hash, false, s.now, None, false, None);
    var s2 := Next(s1, RemoveEntry(m));
    assert s2.mutations[m] == Mutation(hash, false, s.now, Some(s.now + 1), false, None);
  }

  /** A whole update puts its row into the table, forgets what was cached of the key, and moves the revision on. */
  lemma UndisturbedUpdateClears(s: State, hash: Hash, row: Row)
    requires hash in s.db
    ensures var s' := Run(s, WholeUpdate(s, hash, row));
            && s'.db == s.db[hash := row] && s'.cache == s.cache - {hash}
            && s'.negative == s.negative - {hash} && s'.revision == s.revision + 1
  {
    var m := |s.mutations|;
    RunFour(s, CommitUpdate(hash, row), RemoveEntry(m), ForgetNegative(m), Bump(m));
    UpdatedAndRemoved(s, hash, row);
    ForgottenAndBumped(Next(Next(s, CommitUpdate(hash, row)), RemoveEntry(m)), m);
  }

  lemma UpdatedAndRemoved(s: State, hash: Hash, row: Row)
    requires hash in s.db
    ensures var m := |s.mutations|;
            var s' := Next(Next(s, CommitUpdate(hash, row)), RemoveEntry(m));
            && s'.db == s.db[hash := row] && s'.cache == s.cache - {hash}
            && s'.negative == s.negative && s'.revision == s.revision
            && |s'.mutations| == m + 1 && s'.mutations[m] == Mutation(hash, true, s.now, Some(s.now + 1), false, None)
  {
    var committed := Next(s, CommitUpdate(hash, row));
    assert committed.mutations[|s.mutations|] == Mutation(hash, true, s.now, None, false, None);
  }

  lemma ForgottenAndBumped(s: State, m: nat)
    requires m < |s.mutations| && s.mutations[m].update && s.mutations[m].removedAt.Some?
    requires !s.mutations[m].forgotten && s.mutations[m].bumpedAt.None?
    ensures var s' := Next(Next(s, ForgetNegative(m)), Bump(m));
            && s'.db == s.db && s'.cache == s.cache
            && s'.negative == s.negative - {s.mutations[m].hash} && s'.revision == s.revision + 1
  {
    var forgotten := Next(s, ForgetNegative(m));
    assert forgotten.mutations[m] == s.mutations[m].(forgotten := true);
  }

  // ---- What the guard leaves open ----

  /** A lookup reads and reloads; a whole delete runs; the lookup inserts. */
  function Race(hash: Hash, row: Row): (actions: seq<Action>) {
    [Create(hash, row)] + [LoadRevision(0, hash)] + [ReadRow(0)] + [ReloadRevision(0)]
    + [CommitDelete(hash)] + [RemoveEntry(0)] + [Bump(0)] + [Insert(0, true)]
  }

  lemma LookupThenDelete(hash: Hash, row: Row) returns (actions: seq<Action>, s: State)
    ensures Race(hash, row) == actions + [Insert(0, true)] && s == Run(INITIAL, actions)
    ensures s == INITIAL.(now := 7, seen := {hash}, revision := 1,
                          lookups := map[0 := Checked(hash, true, Some(row), 2, 3)],
                          mutations := [Mutation(hash, false, 4, Some(5), false, Some(6))])
  {
    var a1 := [Create(hash, row)];
    var a2 := a1 + [LoadRevision(0, hash)];
    var a3 := a2 + [ReadRow(0)];
    var a4 := a3 + [ReloadRevision(0)];
    var a5 := a4 + [CommitDelete(hash)];
    var a6 := a5 + [RemoveEntry(0)];
    var a7 := a6 + [Bump(0)];
    assert [] + a1 == a1;
    RunMore(INITIAL, [], Create(hash, row));
    RunMore(INITIAL, a1, LoadRevision(0, hash));
    RunMore(INITIAL, a2, ReadRow(0));
    assert Run(INITIAL, a3).lookups == map[0 := HasRead(hash, 0, 1, Some(row), 2)];
    RunMore(INITIAL, a3, ReloadRevision(0));
    assert Run(INITIAL, a4).lookups == map[0 := Checked(hash, true, Some(row), 2, 3)];
    RunMore(INITIAL, a4, CommitDelete(hash));
    assert Run(INITIAL, a5).db == map[];
    RunMore(INITIAL, a5, RemoveEntry(0));
    assert Run(INITIAL, a6).cache == map[];
    RunMore(INITIAL, a6, Bump(0));
    actions, s := a7, Run(INITIAL, a7);
  }

  /**
   The reload and the insertion are two steps: a delete that fits between them leaves a deleted
   key in the cache when every handler and every lookup has finished.
   */
  lemma DeletedKeyCanStayCached(hash: Hash, row: Row)
    ensures var s := Run(INITIAL, Race(hash, row));
            && s.lookups == map[] && |s.mutations| == 1 && s.mutations[0].bumpedAt.Some?
            && hash !in s.db && hash in s.cache && s.cache[hash].row == row
            && Straddles(s.mutations[0], s.cache[hash])
  {
    var actions, s := LookupThenDelete(hash, row);
    RunMore(INITIAL, actions, Insert(0, true));
  }
}
