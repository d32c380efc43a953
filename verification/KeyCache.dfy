/**
 API-key authentication with whole handlers as steps: the cached decision always equals the
 decision on the table row, through hits, misses, negative hits, expiry, cleanup and mutation.
 `KeyProtocol` says what remains of this when the steps of handlers interleave.
 */
module KeyCache {
  import opened ByteStrings
  import opened CacheTtls

  type Hash = string

  datatype KeyRow = KeyRow(hash: Hash, name: string, enabled: bool, expiresAt: Option<int>)

  datatype KeyUpdate = KeyUpdate(name: Option<string>, enabled: Option<bool>, expiresAt: Option<int>)

  /** The table by key id, and the two caches by key hash, each entry with its instant. */
  datatype Keys = Keys(
    table: map<string, KeyRow>,
    cache: map<Hash, (KeyRow, int)>,
    negative: map<Hash, int>,
    revision: nat)

  predicate RowIs(table: map<string, KeyRow>, id: string, hash: Hash) {
    id in table && table[id].hash == hash
  }

  predicate HasRow(table: map<string, KeyRow>, hash: Hash) {
    exists id :: id in table && RowIs(table, id, hash)
  }

  /** The `UNIQUE` constraint on `key_hash`. */
  ghost predicate UniqueHashes(table: map<string, KeyRow>) {
    forall a, b :: a in table && b in table && table[a].hash == table[b].hash ==> a == b
  }

  /** The row a lookup by hash finds. */
  ghost function FindRow(table: map<string, KeyRow>, hash: Hash): Option<KeyRow> {
    if HasRow(table, hash) then
      var id :| id in table && RowIs(table, id, hash);
      Some(table[id])
    else None
  }

  lemma FoundRow(table: map<string, KeyRow>, id: string)
    requires UniqueHashes(table) && id in table
    ensures FindRow(table, table[id].hash) == Some(table[id])
  {
    assert RowIs(table, id, table[id].hash);
  }

  predicate Verify(row: KeyRow, utc: int) {
    row.enabled && (row.expiresAt.Some? ==> row.expiresAt.value > utc)
  }

  /** What authentication promises: the row exists, is enabled and has not expired. */
  ghost predicate Acceptable(table: map<string, KeyRow>, hash: Hash, utc: int) {
    FindRow(table, hash).Some? && Verify(FindRow(table, hash).value, utc)
  }

  /** What is promised, on the row's own fields. */
  predicate Admits(row: KeyRow, hash: Hash, utc: int) {
    row.hash == hash && row.enabled && (row.expiresAt == None || utc < row.expiresAt.value)
  }

  /** Some row has the hash, is enabled and has not expired. */
  predicate Admitted(table: map<string, KeyRow>, hash: Hash, utc: int) {
    exists id :: id in table && Admits(table[id], hash, utc)
  }

  lemma AcceptableIffAdmitted(table: map<string, KeyRow>, hash: Hash, utc: int)
    requires UniqueHashes(table)
    ensures Acceptable(table, hash, utc) <==> Admitted(table, hash, utc)
  {
    if id :| id in table && Admits(table[id], hash, utc) {
      FoundRow(table, id);
    }
    if Acceptable(table, hash, utc) {
      var id :| id in table && RowIs(table, id, hash);
      FoundRow(table, id);
      assert Admits(table[id], hash, utc);
    }
  }

  predicate NegativeHit(s: Keys, hash: Hash, now: int) {
    hash in s.negative && now - s.negative[hash] < NEGATIVE_CACHE_TTL
  }

  predicate PositiveHit(s: Keys, hash: Hash, now: int) {
    hash in s.cache && now - s.cache[hash].1 < CACHE_TTL
  }

  /** The decision as the code takes it: negative cache, then positive cache, then the table. */
  ghost predicate Decision(s: Keys, hash: Hash, now: int, utc: int) {
    if NegativeHit(s, hash, now) then false
    else if PositiveHit(s, hash, now) then Verify(s.cache[hash].0, utc)
    else Acceptable(s.table, hash, utc)
  }

  // ---- Operations ----

  /** The caches after authenticating `hash`. */
  ghost function AfterAuth(s: Keys, hash: Hash, now: int, maxEntries: nat): Keys {
    if NegativeHit(s, hash, now) then s
    else if PositiveHit(s, hash, now) then s.(cache := s.cache[hash := (s.cache[hash].0, now)])
    else
      match FindRow(s.table, hash)
      case Some(row) => s.(cache := s.cache[hash := (row, now)])
      case None => if |s.negative| < maxEntries then s.(negative := s.negative[hash := now]) else s
  }

  function AfterDelete(s: Keys, id: string): Keys {
    if id !in s.table then s
    else s.(table := s.table - {id}, cache := s.cache - {s.table[id].hash}, revision := s.revision + 1)
  }

  /** Absent fields stay; an expiry of zero clears the expiry. */
  function Updated(row: KeyRow, u: KeyUpdate): KeyRow {
    row.(name := u.name.UnwrapOr(row.name),
         enabled := u.enabled.UnwrapOr(row.enabled),
         expiresAt := match u.expiresAt
                      case None => row.expiresAt
                      case Some(t) => if t == 0 then None else Some(t))
  }

  /** The update field by field: what it does not mention stays. */
  predicate Changes(row: KeyRow, u: KeyUpdate, changed: KeyRow) {
    && changed.hash == row.hash
    && (if u.name.Some? then changed.name == u.name.value else changed.name == row.name)
    && (if u.enabled.Some? then changed.enabled == u.enabled.value else changed.enabled == row.enabled)
    && match u.expiresAt
       case None => changed.expiresAt == row.expiresAt
       case Some(t) => if t == 0 then changed.expiresAt == None else changed.expiresAt == Some(t)
  }

  function AfterUpdate(s: Keys, id: string, u: KeyUpdate): Keys {
    if id !in s.table then s
    else
      var hash := s.table[id].hash;
      s.(table := s.table[id := Updated(s.table[id], u)],
         cache := s.cache - {hash}, negative := s.negative - {hash}, revision := s.revision + 1)
  }

  /** A new key is enabled; no cache is touched. */
  function AfterCreate(s: Keys, id: string, hash: Hash, name: string, expiresAt: Option<int>): Keys {
    s.(table := s.table[id := KeyRow(hash, name, true, expiresAt)])
  }

  function AfterCleanup(s: Keys, now: int, maxEntries: nat): Keys {
    var ttl := CleanupTtl(|s.cache|, maxEntries);
    s.(cache := map h | h in s.cache && now - s.cache[h].1 < ttl :: s.cache[h],
       negative := map h | h in s.negative && now - s.negative[h] < NEGATIVE_CACHE_TTL :: s.negative[h])
  }

  // ---- Agreement ----

  /** Cached rows are the table's; hashes known as invalid have no row. */
  ghost predicate Agrees(s: Keys) {
    && UniqueHashes(s.table)
    && (forall h :: h in s.cache ==> FindRow(s.table, h) == Some(s.cache[h].0))
    && (forall h :: h in s.negative ==> FindRow(s.table, h) == None)
  }

  /** The fast path decides as the table does. */
  lemma DecisionIsTheRow(s: Keys, hash: Hash, now: int, utc: int)
    requires Agrees(s)
    ensures Decision(s, hash, now, utc) <==> Admitted(s.table, hash, utc)
  {
    AcceptableIffAdmitted(s.table, hash, utc);
  }

  lemma AuthKeepsAgreement(s: Keys, hash: Hash, now: int, maxEntries: nat)
    requires Agrees(s)
    ensures Agrees(AfterAuth(s, hash, now, maxEntries))
  {
  }

  lemma OtherRowsStay(before: map<string, KeyRow>, after: map<string, KeyRow>, id: string, hash: Hash)
    requires UniqueHashes(before) && UniqueHashes(after)
    requires forall i :: i != id ==> (i in before <==> i in after) && (i in before ==> before[i] == after[i])
    requires id in before ==> before[id].hash != hash
    requires id in after ==> after[id].hash != hash
    ensures FindRow(before, hash) == FindRow(after, hash)
  {
    if HasRow(before, hash) {
      var i :| i in before && RowIs(before, i, hash);
      assert RowIs(after, i, hash);
      FoundRow(before, i);
      FoundRow(after, i);
    }
  }

  lemma DeleteKeepsAgreement(s: Keys, id: string)
    requires Agrees(s)
    ensures Agrees(AfterDelete(s, id))
  {
    if id in s.table {
      var s', gone := AfterDelete(s, id), s.table[id].hash;
      assert !HasRow(s'.table, gone);
      forall h | h != gone
        ensures FindRow(s'.table, h) == FindRow(s.table, h)
      {
        OtherRowsStay(s.table, s'.table, id, h);
      }
    }
  }

  lemma UpdateKeepsAgreement(s: Keys, id: string, u: KeyUpdate)
    requires Agrees(s)
    ensures Agrees(AfterUpdate(s, id, u))
  {
    if id in s.table {
      var s', hash := AfterUpdate(s, id, u), s.table[id].hash;
      forall h | h != hash
        ensures FindRow(s'.table, h) == FindRow(s.table, h)
      {
        OtherRowsStay(s.table, s'.table, id, h);
      }
    }
  }

  /** Ids and keys are random: neither was used or offered before. */
  ghost predicate FreshKey(s: Keys, id: string, hash: Hash) {
    id !in s.table && !HasRow(s.table, hash) && hash !in s.negative
  }

  lemma CreateKeepsAgreement(s: Keys, id: string, hash: Hash, name: string, expiresAt: Option<int>)
    requires Agrees(s) && FreshKey(s, id, hash)
    ensures Agrees(AfterCreate(s, id, hash, name, expiresAt))
  {
    var s' := AfterCreate(s, id, hash, name, expiresAt);
    assert forall i :: i in s.table ==> RowIs(s.table, i, s.table[i].hash);
    forall h | h != hash
      ensures FindRow(s'.table, h) == FindRow(s.table, h)
    {
      OtherRowsStay(s.table, s'.table, id, h);
    }
  }

  /**
   A new key is judged by its row at once exactly when no live negative verdict names it: creation
   clears no cache and relies on the key not having been offered in the last 30 seconds.
   */
  lemma NewKeyWorksIffNotRejected(s: Keys, id: string, hash: Hash, name: string, expiresAt: Option<int>, now: int)
    requires Agrees(s) && id !in s.table && !HasRow(s.table, hash)
    ensures var s' := AfterCreate(s, id, hash, name, expiresAt);
            (forall utc :: Decision(s', hash, now, utc) <==> Admitted(s'.table, hash, utc)) <==> !NegativeHit(s, hash, now)
  {
    var s' := AfterCreate(s, id, hash, name, expiresAt);
    var row := KeyRow(hash, name, true, expiresAt);
    assert RowIs(s'.table, id, hash);
    assert forall i :: i in s.table ==> RowIs(s.table, i, s.table[i].hash);
    FoundRow(s'.table, id);
    assert hash !in s.cache;
    var utc := if expiresAt.Some? then expiresAt.value - 1 else 0;
    assert Admits(s'.table[id], hash, utc);
    assert UniqueHashes(s'.table);
    forall utc
      ensures Acceptable(s'.table, hash, utc) <==> Admitted(s'.table, hash, utc)
    {
      AcceptableIffAdmitted(s'.table, hash, utc);
    }
    assert NegativeHit(s', hash, now) == NegativeHit(s, hash, now);
    assert NegativeHit(s, hash, now) ==> !Decision(s', hash, now, utc);
  }

  // ---- Every run ----

  datatype Op =
    | Auth(hash: Hash, now: int, maxEntries: nat)
    | Delete(id: string)
    | Update(id: string, update: KeyUpdate)
    | Create(id: string, hash: Hash, name: string, expiresAt: Option<int>)
    | Cleanup(now: int, maxEntries: nat)

  /** One whole handler; a key that is not fresh is never generated. */
  ghost function Apply(s: Keys, op: Op): Keys {
    match op
    case Auth(hash, now, maxEntries) => AfterAuth(s, hash, now, maxEntries)
    case Delete(id) => AfterDelete(s, id)
    case Update(id, u) => AfterUpdate(s, id, u)
    case Create(id, hash, name, expiresAt) =>
      if FreshKey(s, id, hash) then AfterCreate(s, id, hash, name, expiresAt) else s
    case Cleanup(now, maxEntries) => AfterCleanup(s, now, maxEntries)
  }

  ghost function Run(s: Keys, ops: seq<Op>): Keys {
    if ops == [] then s else Apply(Run(s, ops[..|ops| - 1]), ops[|ops| - 1])
  }

  lemma {:induction false} RunAgrees(s: Keys, ops: seq<Op>)
    requires Agrees(s)
    ensures Agrees(Run(s, ops))
    decreases |ops|
  {
    if ops != [] {
      var front := ops[..|ops| - 1];
      RunAgrees(s, front);
      var t := Run(s, front);
      match ops[|ops| - 1]
      case Auth(hash, now, maxEntries) => AuthKeepsAgreement(t, hash, now, maxEntries);
      case Delete(id) => DeleteKeepsAgreement(t, id);
      case Update(id, u) => UpdateKeepsAgreement(t, id, u);
      case Create(id, hash, name, expiresAt) =>
        if FreshKey(t, id, hash) {
          CreateKeepsAgreement(t, id, hash, name, expiresAt);
        }
      case Cleanup(now, maxEntries) =>
    }
  }

  /** After any run, at any time, a key is accepted exactly when its row is. */
  lemma AcceptedIffRowIs(table: map<string, KeyRow>, ops: seq<Op>, hash: Hash, now: int, utc: int)
    requires UniqueHashes(table)
    ensures var s := Run(Keys(table, map[], map[], 0), ops);
            Decision(s, hash, now, utc) <==> Admitted(s.table, hash, utc)
  {
    RunAgrees(Keys(table, map[], map[], 0), ops);
    DecisionIsTheRow(Run(Keys(table, map[], map[], 0), ops), hash, now, utc);
  }

  // ---- The code ----

  class AuthState {
    var table: map<string, KeyRow>
    var cache: map<Hash, (KeyRow, int)>
    var negative: map<Hash, int>
    var revision: nat
    const maxEntries: nat

    ghost function Abs(): Keys
      reads this
    {
      Keys(table, cache, negative, revision)
    }

    constructor (table: map<string, KeyRow>, maxEntries: nat)
      requires UniqueHashes(table)
      ensures Abs() == Keys(table, map[], map[], 0) && Agrees(Abs()) && this.maxEntries == maxEntries
    {
      this.table, this.cache, this.negative, this.revision := table, map[], map[], 0;
      this.maxEntries := maxEntries;
    }

    method GetByHash(hash: Hash) returns (row: Option<KeyRow>)
      requires UniqueHashes(table)
      ensures row == FindRow(table, hash)
    {
      var ids := table.Keys;
      while ids != {}
        invariant ids <= table.Keys
        invariant forall id :: id in table && id !in ids ==> table[id].hash != hash
        decreases ids
      {
        var id :| id in ids;
        if table[id].hash == hash {
          FoundRow(table, id);
          return Some(table[id]);
        }
        ids := ids - {id};
      }
      return None;
    }

    /** Authenticate: accepted exactly when an enabled, unexpired row has the hash, whatever the caches hold. */
    method Authenticate(hash: Hash, now: int, utc: int) returns (accepted: bool)
      requires Agrees(Abs())
      modifies this
      ensures accepted <==> Admitted(table, hash, utc)
      ensures accepted ==> hash in cache && cache[hash].1 == now
      ensures Abs() == AfterAuth(old(Abs()), hash, now, maxEntries) && Agrees(Abs())
    {
      AcceptableIffAdmitted(table, hash, utc);
      AuthKeepsAgreement(Abs(), hash, now, maxEntries);
      if hash in negative && now - negative[hash] < NEGATIVE_CACHE_TTL {
        return false;
      }
      if hash in cache {
        var (row, at) := cache[hash];
        if now - at < CACHE_TTL {
          cache := cache[hash := (row, now)];
          return Verify(row, utc);
        }
      }
      var loaded := revision;
      var row := GetByHash(hash);
      var stillCurrent := revision == loaded;
      match row {
        case Some(info) =>
          if stillCurrent {
            cache := cache[hash := (info, now)];
          }
          return Verify(info, utc);
        case None =>
          if stillCurrent && |negative| < maxEntries {
            negative := negative[hash := now];
          }
          return false;
      }
    }

    /** Delete a key: once done, the key is refused. */
    method DeleteKey(id: string) returns (found: bool)
      requires Agrees(Abs())
      modifies this
      ensures found <==> id in old(table)
      ensures Abs() == AfterDelete(old(Abs()), id) && Agrees(Abs())
      ensures found ==> table == old(table) - {id}
      ensures found ==> forall utc :: !Admitted(table, old(table)[id].hash, utc)
      ensures found ==> forall now, utc :: !Decision(Abs(), old(table)[id].hash, now, utc)
    {
      DeleteKeepsAgreement(Abs(), id);
      if id !in table {
        return false;
      }
      var hash := table[id].hash;
      table := table - {id};
      cache := cache - {hash};
      revision := revision + 1;
      return true;
    }

    static method Change(stored: KeyRow, u: KeyUpdate) returns (row: KeyRow)
      ensures row == Updated(stored, u)
    {
      row := stored;
      if u.name.Some? {
        row := row.(name := u.name.value);
      }
      if u.enabled.Some? {
        row := row.(enabled := u.enabled.value);
      }
      match u.expiresAt {
        case None =>
        case Some(t) => row := row.(expiresAt := if t == 0 then None else Some(t));
      }
    }

    method UpdateKey(id: string, u: KeyUpdate) returns (found: bool)
      requires Agrees(Abs())
      modifies this
      ensures found <==> id in old(table)
      ensures Abs() == AfterUpdate(old(Abs()), id, u) && Agrees(Abs())
      ensures found ==> table == old(table)[id := table[id]] && Changes(old(table)[id], u, table[id])
      ensures found ==> forall utc :: Admitted(table, table[id].hash, utc) <==> Admits(table[id], table[id].hash, utc)
      ensures found && u.enabled == Some(false) ==> forall now, utc :: !Decision(Abs(), table[id].hash, now, utc)
      ensures found && u.expiresAt.Some? && u.expiresAt.value != 0 ==>
                forall now, utc :: Decision(Abs(), table[id].hash, now, utc) ==> utc < u.expiresAt.value
      ensures found ==>
                forall now, utc :: Decision(Abs(), table[id].hash, now, utc) <==> Admits(table[id], table[id].hash, utc)
    {
      UpdateKeepsAgreement(Abs(), id, u);
      if id !in table {
        return false;
      }
      var row := table[id];
      var hash := row.hash;
      row := Change(row, u);
      table := table[id := row];
      cache := cache - {hash};
      negative := negative - {hash};
      revision := revision + 1;
      FoundRow(table, id);
      return true;
    }

    method CreateKey(id: string, hash: Hash, name: string, expiresAt: Option<int>)
      requires Agrees(Abs()) && FreshKey(Abs(), id, hash)
      modifies this
      ensures Abs() == AfterCreate(old(Abs()), id, hash, name, expiresAt) && Agrees(Abs())
      ensures table == old(table)[id := KeyRow(hash, name, true, expiresAt)]
      ensures forall now, utc :: Decision(Abs(), hash, now, utc) <==> expiresAt == None || utc < expiresAt.value
    {
      CreateKeepsAgreement(Abs(), id, hash, name, expiresAt);
      table := table[id := KeyRow(hash, name, true, expiresAt)];
      FoundRow(table, id);
    }

    method CleanupKeys(now: int)
      requires Agrees(Abs())
      modifies this
      ensures Abs() == AfterCleanup(old(Abs()), now, maxEntries) && Agrees(Abs())
      ensures forall h :: h in cache <==>
                h in old(cache) && now - old(cache)[h].1 < if 10 * |old(cache)| > 9 * maxEntries then 150_000 else 300_000
      ensures forall h :: h in negative <==> h in old(negative) && now - old(negative)[h] < 30_000
    {
      var ttl := CleanupTtl(|cache|, maxEntries);
      cache := map h | h in cache && now - cache[h].1 < ttl :: cache[h];
      negative := map h | h in negative && now - negative[h] < NEGATIVE_CACHE_TTL :: negative[h];
    }
  }
}
