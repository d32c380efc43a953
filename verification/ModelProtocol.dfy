/**
 Model resolution where lookups and handlers interleave. A lookup that misses both caches reads the
 tables, then stores the client, then the model, then takes its client; no revision guards these
 stores. Handlers commit and invalidate as one step. Cached verdicts carry the instants of their read
 and their store: one is stale only if a mutation in between changed its answer, and which mutations
 do is exact.
 */
module ModelProtocol {
  import opened ByteStrings
  import opened CacheTtls
  import opened CappedCache
  import opened ModelCache

  // ---- What a mutation does to an answer ----

  predicate IsHandler(q: Request) {
    !q.Proxy? && !q.Refuse?
  }

  function TablesAfter(t: Tables, q: Request): Tables {
    match q
    case CreateModel(m) => InsertModel(t, m).0
    case UpdateModel(name, u) => UpdateModelRow(t, name, u).0
    case DeleteModel(name) => t.(models := t.models - {name})
    case CreateProvider(p) => InsertProvider(t, p).0
    case UpdateProvider(id, u) => UpdateProviderRow(t, id, u).0
    case DeleteProvider(id) => if id in t.providers then DeleteProviderRow(t, id) else t
    case _ => t
  }

  /** A new model answers for its name if that was free and model and provider are enabled. */
  predicate CreationSpoils(t: Tables, m: Model, name: string) {
    && m.name == name && name !in t.models
    && m.enabled && m.providerId in t.providers && t.providers[m.providerId].enabled
  }

  /** An accepted update that changes the row found, or makes an unresolved model resolvable. */
  predicate ModelUpdateSpoils(t: Tables, n: string, u: ModelUpdate, name: string) {
    && n == name && name in t.models
    && var m := ChangedModel(t.models[name], u);
       && m.providerId in t.providers
       && if Join(t, name).Some? then m != t.models[name] else m.enabled && t.providers[m.providerId].enabled
  }

  /** The same for the provider of the model found, or of an enabled model not resolved. */
  predicate ProviderUpdateSpoils(t: Tables, id: string, u: ProviderUpdate, name: string) {
    && id in t.providers
    && var p := ChangedProvider(t.providers[id], u);
       match Join(t, name)
       case Some(found) => found.1.id == id && p != found.1
       case None => name in t.models && t.models[name].providerId == id && t.models[name].enabled && p.enabled
  }

  /** Told from a handler's arguments and the tables it runs on: it changes the answer for `name`. */
  predicate Spoils(t: Tables, q: Request, name: string) {
    match q
    case CreateModel(m) => CreationSpoils(t, m, name)
    case UpdateModel(n, u) => ModelUpdateSpoils(t, n, u, name)
    case DeleteModel(n) => n == name && Join(t, name).Some?
    case UpdateProvider(id, u) => ProviderUpdateSpoils(t, id, u, name)
    case DeleteProvider(id) => Join(t, name).Some? && Join(t, name).value.1.id == id
    case _ => false
  }

  lemma CreationSpoilsIff(t: Tables, m: Model, name: string)
    requires Schema(t)
    ensures Join(InsertModel(t, m).0, name) != Join(t, name) <==> CreationSpoils(t, m, name)
  {
  }

  lemma ModelUpdateSpoilsIff(t: Tables, n: string, u: ModelUpdate, name: string)
    requires Schema(t)
    ensures Join(UpdateModelRow(t, n, u).0, name) != Join(t, name) <==> ModelUpdateSpoils(t, n, u, name)
  {
  }

  lemma ProviderUpdateSpoilsIff(t: Tables, id: string, u: ProviderUpdate, name: string)
    requires Schema(t)
    ensures Join(UpdateProviderRow(t, id, u).0, name) != Join(t, name) <==> ProviderUpdateSpoils(t, id, u, name)
  {
  }

  lemma ProviderDeletionSpoilsIff(t: Tables, id: string, name: string)
    requires Schema(t)
    ensures Join(TablesAfter(t, DeleteProvider(id)), name) != Join(t, name) <==> Spoils(t, DeleteProvider(id), name)
  {
  }

  /** Handler by handler, the arguments decide whether the answer for a name changes. */
  lemma SpoilsIff(t: Tables, q: Request, name: string)
    requires Schema(t)
    ensures Join(TablesAfter(t, q), name) != Join(t, name) <==> Spoils(t, q, name)
  {
    match q
    case CreateModel(m) => CreationSpoilsIff(t, m, name);
    case UpdateModel(n, u) => ModelUpdateSpoilsIff(t, n, u, name);
    case UpdateProvider(id, u) => ProviderUpdateSpoilsIff(t, id, u, name);
    case DeleteProvider(id) => ProviderDeletionSpoilsIff(t, id, name);
    case _ =>
  }

  function RowOf(t: Tables, id: string): Option<Provider> {
    if id in t.providers then Some(t.providers[id]) else None
  }

  /** The handler changes the provider's row. */
  predicate RowSpoils(t: Tables, q: Request, id: string) {
    match q
    case CreateProvider(p) => p.id == id && id !in t.providers
    case UpdateProvider(i, u) => i == id && id in t.providers && ChangedProvider(t.providers[id], u) != t.providers[id]
    case DeleteProvider(i) => i == id && id in t.providers
    case _ => false
  }

  lemma RowSpoilsIff(t: Tables, q: Request, id: string)
    ensures RowOf(TablesAfter(t, q), id) != RowOf(t, id) <==> RowSpoils(t, q, id)
  {
  }

  /**
   One mutation between a lookup's read and its store: the caches agree with the tables afterwards if
   and only if the mutation's arguments do not spoil the answer read.
   */
  lemma StraddledStoreAgreesIff(
    s: Caches, q: Request, mid: Caches, name: string, now: int, maxEntries: nat, s': Caches)
    requires Agrees(s) && maxEntries > 0 && IsHandler(q) && Next(s, q, maxEntries, mid)
    requires Stored(mid, name, Join(s.t, name), now, maxEntries, s')
    ensures Agrees(s') <==> !Spoils(s.t, q, name)
  {
    NextKeepsAgreement(s, q, maxEntries, mid);
    LateStoreAgreesIff(mid, name, Join(s.t, name), now, maxEntries, s');
    HandlerTables(s, q, maxEntries, mid);
    SpoilsIff(s.t, q, name);
  }

  lemma HandlerTables(s: Caches, q: Request, maxEntries: nat, s': Caches)
    requires IsHandler(q) && Next(s, q, maxEntries, s')
    ensures s'.t == TablesAfter(s.t, q)
  {
    if q.DeleteModel? && q.name !in s.t.models {
      assert s.t.models - {q.name} == s.t.models;
    }
  }

  // ---- The machine ----

  /** Where a lookup is: it has missed, read, stored the client, or found its model and provider. */
  datatype Lookup =
    | HasMissed(name: string)
    | HasRead(name: string, answer: Option<Resolved>, readAt: nat)
    | HasClient(name: string, found: Resolved, readAt: nat)
    | HasFound(found: Resolved, readAt: nat)

  datatype Origin = Origin(readAt: nat, storedAt: nat)

  /** The tables before every step so far, the lookups under way and the origins of cached verdicts. */
  datatype State = State(
    s: Caches, past: seq<Tables>, lookups: map<nat, Lookup>,
    modelsFrom: map<string, Origin>, negativeFrom: map<string, Origin>, upstreamsFrom: map<string, Origin>)

  datatype Step =
    | Handle(request: Request)
    | Miss(id: nat, name: string, now: int)
    | Read(id: nat)
    | Hit(id: nat, name: string, now: int)
    | StoreUnknown(id: nat, now: int)
    | StoreClient(id: nat, now: int)
    | StoreModel(id: nat, now: int)
    | Connect(id: nat, now: int)
    | Abandon(id: nat)

  /** A store under a cap of zero keeps nothing. */
  function Noted(from: map<string, Origin>, key: string, origin: Origin, maxEntries: nat): map<string, Origin> {
    if maxEntries == 0 then from else from[key := origin]
  }

  predicate Known(a: State, id: nat) {
    id in a.lookups
  }

  ghost predicate Handles(a: State, q: Request, maxEntries: nat, b: State) {
    IsHandler(q) && Next(a.s, q, maxEntries, b.s) && b == a.(s := b.s, past := a.past + [a.s.t])
  }

  ghost predicate Misses(a: State, id: nat, name: string, now: int, b: State) {
    && !Known(a, id) && !Fresh(a.s.negative, name, now, NEGATIVE_CACHE_TTL) && !Fresh(a.s.models, name, now, CACHE_TTL)
    && b == a.(past := a.past + [a.s.t], lookups := a.lookups[id := HasMissed(name)])
  }

  ghost predicate Reads(a: State, id: nat, b: State) {
    && Known(a, id) && a.lookups[id].HasMissed?
    && var name := a.lookups[id].name;
       b == a.(past := a.past + [a.s.t], lookups := a.lookups[id := HasRead(name, Join(a.s.t, name), |a.past|)])
  }

  ghost predicate Hits(a: State, id: nat, name: string, now: int, b: State) {
    && !Known(a, id) && !Fresh(a.s.negative, name, now, NEGATIVE_CACHE_TTL) && Fresh(a.s.models, name, now, CACHE_TTL)
    && name in a.modelsFrom
    && b == a.(past := a.past + [a.s.t], s := a.s.(models := Slid(a.s.models, name, now)),
               lookups := a.lookups[id := HasFound(a.s.models[name].value, a.modelsFrom[name].readAt)])
  }

  ghost predicate StoresUnknown(a: State, id: nat, now: int, maxEntries: nat, b: State) {
    && Known(a, id) && a.lookups[id].HasRead? && a.lookups[id].answer.None?
    && var l := a.lookups[id];
       && Inserted(a.s.negative, l.name, Entry((), now), maxEntries, b.s.negative)
       && b == a.(past := a.past + [a.s.t], s := a.s.(negative := b.s.negative), lookups := a.lookups - {id},
                  negativeFrom := Noted(a.negativeFrom, l.name, Origin(l.readAt, |a.past|), maxEntries))
  }

  ghost predicate StoresClient(a: State, id: nat, now: int, maxEntries: nat, b: State) {
    && Known(a, id) && a.lookups[id].HasRead? && a.lookups[id].answer.Some?
    && var l := a.lookups[id];
       var p := l.answer.value.1;
       && Inserted(a.s.upstreams, p.id, Entry(Upstream(p), now), maxEntries, b.s.upstreams)
       && b == a.(past := a.past + [a.s.t], s := a.s.(upstreams := b.s.upstreams),
                  lookups := a.lookups[id := HasClient(l.name, l.answer.value, l.readAt)],
                  upstreamsFrom := Noted(a.upstreamsFrom, p.id, Origin(l.readAt, |a.past|), maxEntries))
  }

  ghost predicate StoresModel(a: State, id: nat, now: int, maxEntries: nat, b: State) {
    && Known(a, id) && a.lookups[id].HasClient?
    && var l := a.lookups[id];
       && Inserted(a.s.models, l.name, Entry(l.found, now), maxEntries, b.s.models)
       && b == a.(past := a.past + [a.s.t], s := a.s.(models := b.s.models),
                  lookups := a.lookups[id := HasFound(l.found, l.readAt)],
                  modelsFrom := Noted(a.modelsFrom, l.name, Origin(l.readAt, |a.past|), maxEntries))
  }

  /** The client is taken from the cache while fresh, else built from the row the lookup holds. */
  ghost predicate ConnectsTo(a: State, id: nat, now: int, maxEntries: nat, b: State) {
    && Known(a, id) && a.lookups[id].HasFound?
    && var l := a.lookups[id];
       var p := l.found.1;
       && (exists up :: Connects(a.s, p, now, maxEntries, b.s, up))
       && b == a.(past := a.past + [a.s.t], s := b.s, lookups := a.lookups - {id},
                  upstreamsFrom := if Fresh(a.s.upstreams, p.id, now, CACHE_TTL) then a.upstreamsFrom
                                   else Noted(a.upstreamsFrom, p.id, Origin(l.readAt, |a.past|), maxEntries))
  }

  ghost predicate Moves(a: State, step: Step, maxEntries: nat, b: State) {
    match step
    case Handle(q) => Handles(a, q, maxEntries, b)
    case Miss(id, name, now) => Misses(a, id, name, now, b)
    case Read(id) => Reads(a, id, b)
    case Hit(id, name, now) => Hits(a, id, name, now, b)
    case StoreUnknown(id, now) => StoresUnknown(a, id, now, maxEntries, b)
    case StoreClient(id, now) => StoresClient(a, id, now, maxEntries, b)
    case StoreModel(id, now) => StoresModel(a, id, now, maxEntries, b)
    case Connect(id, now) => ConnectsTo(a, id, now, maxEntries, b)
    case Abandon(id) => b == a.(past := a.past + [a.s.t], lookups := a.lookups - {id})
  }

  function Initial(t: Tables): State {
    State(Caches(t, map[], map[], map[]), [], map[], map[], map[], map[])
  }

  ghost predicate Reached(t: Tables, steps: seq<Step>, maxEntries: nat, b: State)
    decreases |steps|
  {
    if steps == [] then b == Initial(t)
    else
      var n := |steps| - 1;
      exists a :: Reached(t, steps[..n], maxEntries, a) && Moves(a, steps[n], maxEntries, b)
  }

  // ---- The invariant ----

  predicate Within(past: seq<Tables>, o: Origin) {
    o.readAt < o.storedAt < |past|
  }

  /** The verdict was the answer when read and, if it still was when stored, it is the answer now. */
  predicate AnswerOk(past: seq<Tables>, t: Tables, o: Origin, name: string, answer: Option<Resolved>) {
    && Within(past, o) && Join(past[o.readAt], name) == answer
    && (Join(past[o.storedAt], name) == answer ==> Join(t, name) == answer)
  }

  predicate RowOk(past: seq<Tables>, t: Tables, o: Origin, id: string, row: Provider) {
    && Within(past, o) && RowOf(past[o.readAt], id) == Some(row)
    && (RowOf(past[o.storedAt], id) == Some(row) ==> RowOf(t, id) == Some(row))
  }

  predicate ModelsOk(a: State) {
    forall n :: n in a.s.models ==>
      n in a.modelsFrom && AnswerOk(a.past, a.s.t, a.modelsFrom[n], n, Some(a.s.models[n].value))
  }

  predicate NegativeOk(a: State) {
    forall n :: n in a.s.negative ==>
      n in a.negativeFrom && AnswerOk(a.past, a.s.t, a.negativeFrom[n], n, None)
  }

  predicate UpstreamsOk(a: State) {
    forall id :: id in a.s.upstreams ==>
      id in a.upstreamsFrom && RowOk(a.past, a.s.t, a.upstreamsFrom[id], id, a.s.upstreams[id].value.row)
  }

  predicate LookupOk(past: seq<Tables>, l: Lookup) {
    match l
    case HasMissed(_) => true
    case HasRead(name, answer, r) => r < |past| && Join(past[r], name) == answer
    case HasClient(name, found, r) => r < |past| && Join(past[r], name) == Some(found)
    case HasFound(found, r) => r < |past| && Join(past[r], found.0.name) == Some(found)
  }

  predicate LookupsOk(a: State) {
    forall id :: id in a.lookups ==> LookupOk(a.past, a.lookups[id])
  }

  predicate Schemas(a: State) {
    Schema(a.s.t) && forall i :: 0 <= i < |a.past| ==> Schema(a.past[i])
  }

  ghost predicate Inv(a: State) {
    Schemas(a) && LookupsOk(a) && ModelsOk(a) && NegativeOk(a) && UpstreamsOk(a)
  }

  lemma AnswerStays(past: seq<Tables>, t: Tables, o: Origin, name: string, answer: Option<Resolved>, t': Tables)
    requires AnswerOk(past, t, o, name, answer) && (Join(t, name) == answer ==> Join(t', name) == answer)
    ensures AnswerOk(past + [t], t', o, name, answer)
  {
  }

  lemma RowStays(past: seq<Tables>, t: Tables, o: Origin, id: string, row: Provider, t': Tables)
    requires RowOk(past, t, o, id, row) && (RowOf(t, id) == Some(row) ==> RowOf(t', id) == Some(row))
    ensures RowOk(past + [t], t', o, id, row)
  {
  }

  lemma LookupsStay(a: State, b: State)
    requires LookupsOk(a) && b.past == a.past + [a.s.t]
    requires forall id :: id in b.lookups ==>
               (id in a.lookups && b.lookups[id] == a.lookups[id]) || LookupOk(b.past, b.lookups[id])
    ensures LookupsOk(b)
  {
    forall id | id in b.lookups
      ensures LookupOk(b.past, b.lookups[id])
    {
      assert id in a.lookups && b.lookups[id] == a.lookups[id] ==> LookupOk(a.past, a.lookups[id]);
    }
  }

  lemma SchemasStay(a: State, b: State)
    requires Schemas(a) && Schema(b.s.t) && b.past == a.past + [a.s.t]
    ensures Schemas(b)
  {
  }

  // ---- Handlers ----

  lemma HandlerKeepsModel(s: Caches, q: Request, maxEntries: nat, s': Caches, n: string)
    requires Schema(s.t) && IsHandler(q) && Next(s, q, maxEntries, s')
    requires n in s'.models && n in s.models
    ensures s'.models[n].value == s.models[n].value
    ensures Join(s.t, n) == Some(s.models[n].value) ==> Join(s'.t, n) == Some(s.models[n].value)
  {
    if Join(s.t, n) == Some(s.models[n].value) {
      var alone := Caches(s.t, map[n := s.models[n]], map[], map[]);
      ModelAlone(s, q, maxEntries, s', n, alone);
    }
  }

  /** On one entry a handler does what it does on a cache of that entry alone. */
  lemma ModelAlone(s: Caches, q: Request, maxEntries: nat, s': Caches, n: string, alone: Caches)
    requires IsHandler(q) && Next(s, q, maxEntries, s') && n in s'.models && n in s.models
    requires alone == Caches(s.t, map[n := s.models[n]], map[], map[]) && Agrees(alone)
    ensures Join(s'.t, n) == Some(s.models[n].value)
  {
    match q
    case CreateModel(m) => CreateModelKeepsAgreement(alone, m);
      assert n in AfterCreateModel(alone, m).models;
    case UpdateModel(name, u) => UpdateModelKeepsAgreement(alone, name, u);
      assert n in AfterUpdateModel(alone, name, u).models;
    case DeleteModel(name) => DeleteModelKeepsAgreement(alone, name);
      assert n in AfterDeleteModel(alone, name).models;
    case CreateProvider(p) => CreateProviderKeepsAgreement(alone, p);
      assert n in AfterCreateProvider(alone, p).models;
    case UpdateProvider(id, u) => UpdateProviderKeepsAgreement(alone, id, u);
      assert n in AfterUpdateProvider(alone, id, u).models;
    case DeleteProvider(id) => DeleteProviderKeepsAgreement(alone, id);
      assert n in AfterDeleteProvider(alone, id).models;
    case Cleanup(now) =>
  }

  lemma HandlerKeepsUnknown(s: Caches, q: Request, maxEntries: nat, s': Caches, n: string)
    requires Schema(s.t) && IsHandler(q) && Next(s, q, maxEntries, s')
    requires n in s'.negative && n in s.negative && Join(s.t, n) == None
    ensures Join(s'.t, n) == None
  {
    var alone := Caches(s.t, map[], map[n := s.negative[n]], map[]);
    match q
    case CreateModel(m) => CreateModelKeepsAgreement(alone, m);
      assert n in AfterCreateModel(alone, m).negative;
    case UpdateModel(name, u) => UpdateModelKeepsAgreement(alone, name, u);
      assert n in AfterUpdateModel(alone, name, u).negative;
    case DeleteModel(name) => DeleteModelKeepsAgreement(alone, name);
      assert n in AfterDeleteModel(alone, name).negative;
    case CreateProvider(p) => CreateProviderKeepsAgreement(alone, p);
      assert n in AfterCreateProvider(alone, p).negative;
    case UpdateProvider(id, u) => UpdateProviderKeepsAgreement(alone, id, u);
      assert n in AfterUpdateProvider(alone, id, u).negative;
    case DeleteProvider(id) => DeleteProviderKeepsAgreement(alone, id);
      assert n in AfterDeleteProvider(alone, id).negative;
    case Cleanup(now) =>
  }

  lemma HandlerKeepsClient(s: Caches, q: Request, maxEntries: nat, s': Caches, id: string)
    requires IsHandler(q) && Next(s, q, maxEntries, s') && id in s'.upstreams && id in s.upstreams
    ensures s'.upstreams[id].value == s.upstreams[id].value
    ensures RowOf(s.t, id).Some? ==> RowOf(s'.t, id) == RowOf(s.t, id)
  {
    HandlerTables(s, q, maxEntries, s');
    RowSpoilsIff(s.t, q, id);
  }

  lemma HandlerKeepsSchema(s: Caches, q: Request, maxEntries: nat, s': Caches)
    requires Schema(s.t) && IsHandler(q) && Next(s, q, maxEntries, s')
    ensures Schema(s'.t)
  {
    var empty := Caches(s.t, map[], map[], map[]);
    match q
    case CreateModel(m) => CreateModelKeepsAgreement(empty, m);
    case UpdateModel(name, u) => UpdateModelKeepsAgreement(empty, name, u);
    case DeleteModel(name) => DeleteModelKeepsAgreement(empty, name);
    case CreateProvider(p) => CreateProviderKeepsAgreement(empty, p);
    case UpdateProvider(id, u) => UpdateProviderKeepsAgreement(empty, id, u);
    case DeleteProvider(id) => DeleteProviderKeepsAgreement(empty, id);
    case Cleanup(now) =>
  }

  lemma HandleKeepsCaches(a: State, q: Request, maxEntries: nat, b: State)
    requires Inv(a) && Handles(a, q, maxEntries, b)
    ensures ModelsOk(b) && NegativeOk(b) && UpstreamsOk(b)
  {
    MutationsOnlyRemove(a.s, q, maxEntries, b.s);
    forall n | n in b.s.models
      ensures n in b.modelsFrom && AnswerOk(b.past, b.s.t, b.modelsFrom[n], n, Some(b.s.models[n].value))
    {
      HandlerKeepsModel(a.s, q, maxEntries, b.s, n);
      AnswerStays(a.past, a.s.t, a.modelsFrom[n], n, Some(a.s.models[n].value), b.s.t);
    }
    forall n | n in b.s.negative
      ensures n in b.negativeFrom && AnswerOk(b.past, b.s.t, b.negativeFrom[n], n, None)
    {
      if Join(a.s.t, n) == None {
        HandlerKeepsUnknown(a.s, q, maxEntries, b.s, n);
      }
      AnswerStays(a.past, a.s.t, a.negativeFrom[n], n, None, b.s.t);
    }
    forall id | id in b.s.upstreams
      ensures id in b.upstreamsFrom && RowOk(b.past, b.s.t, b.upstreamsFrom[id], id, b.s.upstreams[id].value.row)
    {
      HandlerKeepsClient(a.s, q, maxEntries, b.s, id);
      RowStays(a.past, a.s.t, a.upstreamsFrom[id], id, a.s.upstreams[id].value.row, b.s.t);
    }
  }

  lemma HandleKeepsInv(a: State, q: Request, maxEntries: nat, b: State)
    requires Inv(a) && Handles(a, q, maxEntries, b)
    ensures Inv(b)
  {
    HandlerKeepsSchema(a.s, q, maxEntries, b.s);
    SchemasStay(a, b);
    LookupsStay(a, b);
    HandleKeepsCaches(a, q, maxEntries, b);
  }

  // ---- Lookups ----

  /** Another step of a lookup: the tables stay. */
  predicate SameTables(a: State, b: State) {
    b.past == a.past + [a.s.t] && b.s.t == a.s.t
  }

  lemma ModelsStay(a: State, b: State)
    requires ModelsOk(a) && SameTables(a, b) && b.s.models == a.s.models && b.modelsFrom == a.modelsFrom
    ensures ModelsOk(b)
  {
    forall n | n in b.s.models
      ensures AnswerOk(b.past, b.s.t, b.modelsFrom[n], n, Some(b.s.models[n].value))
    {
      AnswerStays(a.past, a.s.t, a.modelsFrom[n], n, Some(a.s.models[n].value), b.s.t);
    }
  }

  lemma NegativeStays(a: State, b: State)
    requires NegativeOk(a) && SameTables(a, b) && b.s.negative == a.s.negative && b.negativeFrom == a.negativeFrom
    ensures NegativeOk(b)
  {
    forall n | n in b.s.negative
      ensures AnswerOk(b.past, b.s.t, b.negativeFrom[n], n, None)
    {
      AnswerStays(a.past, a.s.t, a.negativeFrom[n], n, None, b.s.t);
    }
  }

  lemma UpstreamsStay(a: State, b: State)
    requires UpstreamsOk(a) && SameTables(a, b) && b.upstreamsFrom == a.upstreamsFrom
    requires b.s.upstreams.Keys == a.s.upstreams.Keys
    requires forall id :: id in b.s.upstreams ==> b.s.upstreams[id].value == a.s.upstreams[id].value
    ensures UpstreamsOk(b)
  {
    forall id | id in b.s.upstreams
      ensures id in b.upstreamsFrom && RowOk(b.past, b.s.t, b.upstreamsFrom[id], id, b.s.upstreams[id].value.row)
    {
      assert id in a.s.upstreams;
      RowStays(a.past, a.s.t, a.upstreamsFrom[id], id, a.s.upstreams[id].value.row, b.s.t);
    }
  }

  /** Sliding an entry changes its instant only. */
  lemma SlideKeepsModels(a: State, b: State, name: string, now: int)
    requires ModelsOk(a) && SameTables(a, b) && b.s.models == Slid(a.s.models, name, now) && b.modelsFrom == a.modelsFrom
    ensures ModelsOk(b)
  {
    forall n | n in b.s.models
      ensures n in b.modelsFrom && AnswerOk(b.past, b.s.t, b.modelsFrom[n], n, Some(b.s.models[n].value))
    {
      assert n in a.s.models && b.s.models[n].value == a.s.models[n].value;
      AnswerStays(a.past, a.s.t, a.modelsFrom[n], n, Some(a.s.models[n].value), b.s.t);
    }
  }

  /** A store: what was read at its origin, against the tables it runs on. */
  lemma StoredAnswerOk(past: seq<Tables>, t: Tables, readAt: nat, name: string, answer: Option<Resolved>)
    requires readAt < |past| && Join(past[readAt], name) == answer
    ensures AnswerOk(past + [t], t, Origin(readAt, |past|), name, answer)
  {
  }

  lemma StoredRowOk(past: seq<Tables>, t: Tables, readAt: nat, id: string, row: Provider)
    requires readAt < |past| && RowOf(past[readAt], id) == Some(row)
    ensures RowOk(past + [t], t, Origin(readAt, |past|), id, row)
  {
  }

  /** Every entry is the stored one or an old one. */
  predicate GrewBy<V(==)>(before: Cache<V>, key: string, value: V, after: Cache<V>) {
    forall k :: k in after ==>
      if k == key then after[k].value == value else k in before && after[k].value == before[k].value
  }

  lemma InsertedGrew<V>(before: Cache<V>, key: string, entry: Entry<V>, maxEntries: nat, after: Cache<V>)
    requires maxEntries > 0 && Inserted(before, key, entry, maxEntries, after)
    ensures GrewBy(before, key, entry.value, after)
  {
    InsertStaysCapped(before, key, entry, maxEntries, after);
  }

  lemma GrownModelsOk(a: State, b: State, name: string, found: Resolved, readAt: nat)
    requires ModelsOk(a) && SameTables(a, b) && readAt < |a.past| && Join(a.past[readAt], name) == Some(found)
    requires GrewBy(a.s.models, name, found, b.s.models)
    requires b.modelsFrom == a.modelsFrom[name := Origin(readAt, |a.past|)]
    ensures ModelsOk(b)
  {
    StoredAnswerOk(a.past, a.s.t, readAt, name, Some(found));
    forall n | n in b.s.models
      ensures n in b.modelsFrom && AnswerOk(b.past, b.s.t, b.modelsFrom[n], n, Some(b.s.models[n].value))
    {
      if n != name {
        AnswerStays(a.past, a.s.t, a.modelsFrom[n], n, Some(a.s.models[n].value), b.s.t);
      }
    }
  }

  lemma StoreKeepsModels(a: State, b: State, name: string, found: Resolved, readAt: nat, now: int, maxEntries: nat)
    requires ModelsOk(a) && SameTables(a, b) && readAt < |a.past| && Join(a.past[readAt], name) == Some(found)
    requires Inserted(a.s.models, name, Entry(found, now), maxEntries, b.s.models)
    requires b.modelsFrom == Noted(a.modelsFrom, name, Origin(readAt, |a.past|), maxEntries)
    ensures ModelsOk(b)
  {
    if maxEntries == 0 {
      ModelsStay(a, b);
    } else {
      InsertedGrew(a.s.models, name, Entry(found, now), maxEntries, b.s.models);
      GrownModelsOk(a, b, name, found, readAt);
    }
  }

  lemma GrownNegativeOk(a: State, b: State, name: string, readAt: nat)
    requires NegativeOk(a) && SameTables(a, b) && readAt < |a.past| && Join(a.past[readAt], name) == None
    requires GrewBy(a.s.negative, name, (), b.s.negative)
    requires b.negativeFrom == a.negativeFrom[name := Origin(readAt, |a.past|)]
    ensures NegativeOk(b)
  {
    StoredAnswerOk(a.past, a.s.t, readAt, name, None);
    forall n | n in b.s.negative
      ensures n in b.negativeFrom && AnswerOk(b.past, b.s.t, b.negativeFrom[n], n, None)
    {
      if n != name {
        AnswerStays(a.past, a.s.t, a.negativeFrom[n], n, None, b.s.t);
      }
    }
  }

  lemma StoreKeepsNegative(a: State, b: State, name: string, readAt: nat, now: int, maxEntries: nat)
    requires NegativeOk(a) && SameTables(a, b) && readAt < |a.past| && Join(a.past[readAt], name) == None
    requires Inserted(a.s.negative, name, Entry((), now), maxEntries, b.s.negative)
    requires b.negativeFrom == Noted(a.negativeFrom, name, Origin(readAt, |a.past|), maxEntries)
    ensures NegativeOk(b)
  {
    if maxEntries == 0 {
      NegativeStays(a, b);
    } else {
      InsertedGrew(a.s.negative, name, Entry((), now), maxEntries, b.s.negative);
      GrownNegativeOk(a, b, name, readAt);
    }
  }

  lemma GrownUpstreamsOk(a: State, b: State, p: Provider, readAt: nat)
    requires UpstreamsOk(a) && SameTables(a, b) && readAt < |a.past| && RowOf(a.past[readAt], p.id) == Some(p)
    requires GrewBy(a.s.upstreams, p.id, Upstream(p), b.s.upstreams)
    requires b.upstreamsFrom == a.upstreamsFrom[p.id := Origin(readAt, |a.past|)]
    ensures UpstreamsOk(b)
  {
    StoredRowOk(a.past, a.s.t, readAt, p.id, p);
    forall id | id in b.s.upstreams
      ensures id in b.upstreamsFrom && RowOk(b.past, b.s.t, b.upstreamsFrom[id], id, b.s.upstreams[id].value.row)
    {
      if id != p.id {
        RowStays(a.past, a.s.t, a.upstreamsFrom[id], id, a.s.upstreams[id].value.row, b.s.t);
      }
    }
  }

  /** Storing a client: its row is the one the lookup read. */
  lemma StoreKeepsUpstreams(a: State, b: State, p: Provider, readAt: nat, now: int, maxEntries: nat)
    requires UpstreamsOk(a) && SameTables(a, b) && readAt < |a.past| && RowOf(a.past[readAt], p.id) == Some(p)
    requires Inserted(a.s.upstreams, p.id, Entry(Upstream(p), now), maxEntries, b.s.upstreams)
    requires b.upstreamsFrom == Noted(a.upstreamsFrom, p.id, Origin(readAt, |a.past|), maxEntries)
    ensures UpstreamsOk(b)
  {
    if maxEntries == 0 {
      UpstreamsStay(a, b);
    } else {
      InsertedGrew(a.s.upstreams, p.id, Entry(Upstream(p), now), maxEntries, b.s.upstreams);
      GrownUpstreamsOk(a, b, p, readAt);
    }
  }

  lemma FoundName(t: Tables, name: string)
    requires Schema(t) && Join(t, name).Some?
    ensures Join(t, name).value.0.name == name
    ensures RowOf(t, Join(t, name).value.1.id) == Some(Join(t, name).value.1)
  {
  }

  /** What a lookup that found something knows: the instant, the answer then and the row then. */
  lemma FoundThen(a: State, name: string, found: Resolved, readAt: nat)
    requires Schemas(a) && readAt < |a.past| && Join(a.past[readAt], name) == Some(found)
    ensures found.0.name == name && RowOf(a.past[readAt], found.1.id) == Some(found.1)
  {
    FoundName(a.past[readAt], name);
  }

  lemma MissKeepsInv(a: State, id: nat, name: string, now: int, b: State)
    requires Inv(a) && Misses(a, id, name, now, b)
    ensures Inv(b)
  {
    SchemasStay(a, b);
    LookupsStay(a, b);
    ModelsStay(a, b);
    NegativeStays(a, b);
    UpstreamsStay(a, b);
  }

  lemma ReadKeepsInv(a: State, id: nat, b: State)
    requires Inv(a) && Reads(a, id, b)
    ensures Inv(b)
  {
    SchemasStay(a, b);
    LookupsStay(a, b);
    ModelsStay(a, b);
    NegativeStays(a, b);
    UpstreamsStay(a, b);
  }

  lemma HitKeepsInv(a: State, id: nat, name: string, now: int, b: State)
    requires Inv(a) && Hits(a, id, name, now, b)
    ensures Inv(b)
  {
    var o := a.modelsFrom[name];
    assert AnswerOk(a.past, a.s.t, o, name, Some(a.s.models[name].value));
    FoundThen(a, name, a.s.models[name].value, o.readAt);
    assert b.past[o.readAt] == a.past[o.readAt] && LookupOk(b.past, b.lookups[id]);
    SchemasStay(a, b);
    LookupsStay(a, b);
    SlideKeepsModels(a, b, name, now);
    NegativeStays(a, b);
    UpstreamsStay(a, b);
  }

  lemma StoreUnknownKeepsInv(a: State, id: nat, now: int, maxEntries: nat, b: State)
    requires Inv(a) && StoresUnknown(a, id, now, maxEntries, b)
    ensures Inv(b)
  {
    var l := a.lookups[id];
    assert LookupOk(a.past, l);
    SchemasStay(a, b);
    LookupsStay(a, b);
    ModelsStay(a, b);
    StoreKeepsNegative(a, b, l.name, l.readAt, now, maxEntries);
    UpstreamsStay(a, b);
  }

  lemma StoreModelKeepsInv(a: State, id: nat, now: int, maxEntries: nat, b: State)
    requires Inv(a) && StoresModel(a, id, now, maxEntries, b)
    ensures Inv(b)
  {
    var l := a.lookups[id];
    assert LookupOk(a.past, l);
    FoundThen(a, l.name, l.found, l.readAt);
    assert b.past[l.readAt] == a.past[l.readAt] && LookupOk(b.past, b.lookups[id]);
    SchemasStay(a, b);
    LookupsStay(a, b);
    StoreKeepsModels(a, b, l.name, l.found, l.readAt, now, maxEntries);
    NegativeStays(a, b);
    UpstreamsStay(a, b);
  }

  lemma StoreClientKeepsInv(a: State, id: nat, now: int, maxEntries: nat, b: State)
    requires Inv(a) && StoresClient(a, id, now, maxEntries, b)
    ensures Inv(b)
  {
    var l := a.lookups[id];
    assert LookupOk(a.past, l);
    FoundThen(a, l.name, l.answer.value, l.readAt);
    assert b.past[l.readAt] == a.past[l.readAt] && LookupOk(b.past, b.lookups[id]);
    SchemasStay(a, b);
    LookupsStay(a, b);
    ModelsStay(a, b);
    NegativeStays(a, b);
    StoreKeepsUpstreams(a, b, l.answer.value.1, l.readAt, now, maxEntries);
  }

  lemma ConnectKeepsInv(a: State, id: nat, now: int, maxEntries: nat, b: State)
    requires Inv(a) && ConnectsTo(a, id, now, maxEntries, b)
    ensures Inv(b)
  {
    var l := a.lookups[id];
    assert LookupOk(a.past, l);
    FoundThen(a, l.found.0.name, l.found, l.readAt);
    var p := l.found.1;
    var up :| Connects(a.s, p, now, maxEntries, b.s, up);
    SchemasStay(a, b);
    LookupsStay(a, b);
    ModelsStay(a, b);
    NegativeStays(a, b);
    if Fresh(a.s.upstreams, p.id, now, CACHE_TTL) {
      SlidKeys(a.s.upstreams, p.id, now);
      UpstreamsStay(a, b);
    } else {
      StoreKeepsUpstreams(a, b, p, l.readAt, now, maxEntries);
    }
  }

  lemma SlidKeys(c: Cache<Upstream>, id: string, now: int)
    ensures Slid(c, id, now).Keys == c.Keys
    ensures forall i :: i in c ==> Slid(c, id, now)[i].value == c[i].value
  {
  }

  lemma AbandonKeepsInv(a: State, id: nat, b: State)
    requires Inv(a) && b == a.(past := a.past + [a.s.t], lookups := a.lookups - {id})
    ensures Inv(b)
  {
    SchemasStay(a, b);
    LookupsStay(a, b);
    ModelsStay(a, b);
    NegativeStays(a, b);
    UpstreamsStay(a, b);
  }

  lemma MoveKeepsInv(a: State, step: Step, maxEntries: nat, b: State)
    requires Inv(a) && Moves(a, step, maxEntries, b)
    ensures Inv(b)
  {
    match step
    case Handle(q) => HandleKeepsInv(a, q, maxEntries, b);
    case Miss(id, name, now) => MissKeepsInv(a, id, name, now, b);
    case Read(id) => ReadKeepsInv(a, id, b);
    case Hit(id, name, now) => HitKeepsInv(a, id, name, now, b);
    case StoreUnknown(id, now) => StoreUnknownKeepsInv(a, id, now, maxEntries, b);
    case StoreClient(id, now) => StoreClientKeepsInv(a, id, now, maxEntries, b);
    case StoreModel(id, now) => StoreModelKeepsInv(a, id, now, maxEntries, b);
    case Connect(id, now) => ConnectKeepsInv(a, id, now, maxEntries, b);
    case Abandon(id) => AbandonKeepsInv(a, id, b);
  }

  lemma {:induction false} ReachedKeepsInv(t: Tables, steps: seq<Step>, maxEntries: nat, b: State)
    requires Schema(t) && Reached(t, steps, maxEntries, b)
    ensures Inv(b)
    decreases |steps|
  {
    if steps != [] {
      var n := |steps| - 1;
      var a :| Reached(t, steps[..n], maxEntries, a) && Moves(a, steps[n], maxEntries, b);
      ReachedKeepsInv(t, steps[..n], maxEntries, a);
      MoveKeepsInv(a, steps[n], maxEntries, b);
    }
  }

  // ---- History ----

  function At(a: State, i: nat): Tables
    requires i <= |a.past|
  {
    if i < |a.past| then a.past[i] else a.s.t
  }

  function StepTables(t: Tables, step: Step): Tables {
    match step
    case Handle(q) => TablesAfter(t, q)
    case _ => t
  }

  ghost predicate Recounts(a: State, steps: seq<Step>) {
    |a.past| == |steps| && forall i: nat :: i < |steps| ==> At(a, i + 1) == StepTables(At(a, i), steps[i])
  }

  lemma MoveTables(a: State, step: Step, maxEntries: nat, b: State)
    requires Moves(a, step, maxEntries, b)
    ensures b.past == a.past + [a.s.t] && b.s.t == StepTables(a.s.t, step)
  {
    if step.Handle? {
      HandlerTables(a.s, step.request, maxEntries, b.s);
    }
  }

  lemma MoveRecounts(a: State, steps: seq<Step>, step: Step, maxEntries: nat, b: State)
    requires Recounts(a, steps) && Moves(a, step, maxEntries, b)
    ensures Recounts(b, steps + [step])
  {
    MoveTables(a, step, maxEntries, b);
    forall i: nat | i < |steps| + 1
      ensures At(b, i + 1) == StepTables(At(b, i), (steps + [step])[i])
    {
      if i < |steps| {
        assert At(a, i + 1) == StepTables(At(a, i), steps[i]);
      }
    }
  }

  lemma {:induction false} ReachedRecounts(t: Tables, steps: seq<Step>, maxEntries: nat, b: State)
    requires Reached(t, steps, maxEntries, b)
    ensures Recounts(b, steps)
    decreases |steps|
  {
    if steps != [] {
      var n := |steps| - 1;
      var a :| Reached(t, steps[..n], maxEntries, a) && Moves(a, steps[n], maxEntries, b);
      ReachedRecounts(t, steps[..n], maxEntries, a);
      MoveRecounts(a, steps[..n], steps[n], maxEntries, b);
      assert steps == steps[..n] + [steps[n]];
    }
  }

  /** Between two instants with different answers some handler changed the answer. */
  lemma {:induction false} AnswerChange(a: State, steps: seq<Step>, name: string, from: nat, to: nat) returns (i: nat)
    requires Schemas(a) && Recounts(a, steps) && from <= to < |a.past|
    requires Join(a.past[from], name) != Join(a.past[to], name)
    ensures from <= i < to && steps[i].Handle? && Spoils(a.past[i], steps[i].request, name)
    decreases |a.past| - from
  {
    if Join(a.past[from], name) != Join(a.past[from + 1], name) {
      i := from;
      assert At(a, i + 1) == StepTables(At(a, i), steps[i]);
      SpoilsIff(a.past[i], steps[i].request, name);
    } else {
      i := AnswerChange(a, steps, name, from + 1, to);
    }
  }

  lemma {:induction false} RowChange(a: State, steps: seq<Step>, id: string, from: nat, to: nat) returns (i: nat)
    requires Recounts(a, steps) && from <= to < |a.past|
    requires RowOf(a.past[from], id) != RowOf(a.past[to], id)
    ensures from <= i < to && steps[i].Handle? && RowSpoils(a.past[i], steps[i].request, id)
    decreases |a.past| - from
  {
    if RowOf(a.past[from], id) != RowOf(a.past[from + 1], id) {
      i := from;
      assert At(a, i + 1) == StepTables(At(a, i), steps[i]);
      RowSpoilsIff(a.past[i], steps[i].request, id);
    } else {
      i := RowChange(a, steps, id, from + 1, to);
    }
  }

  // ---- Stale only if straddled ----

  /** A cached model that is not the join comes from a lookup that a spoiling mutation straddled. */
  lemma StaleModelIsStraddled(t: Tables, steps: seq<Step>, maxEntries: nat, a: State, name: string) returns (i: nat)
    requires Schema(t) && Reached(t, steps, maxEntries, a)
    requires name in a.s.models && Join(a.s.t, name) != Some(a.s.models[name].value)
    ensures |a.past| == |steps| && name in a.modelsFrom
    ensures a.modelsFrom[name].readAt <= i < a.modelsFrom[name].storedAt < |steps|
    ensures steps[i].Handle? && Spoils(a.past[i], steps[i].request, name)
  {
    ReachedKeepsInv(t, steps, maxEntries, a);
    ReachedRecounts(t, steps, maxEntries, a);
    var o := a.modelsFrom[name];
    assert AnswerOk(a.past, a.s.t, o, name, Some(a.s.models[name].value));
    i := AnswerChange(a, steps, name, o.readAt, o.storedAt);
  }

  /** A name cached as unknown that does resolve comes from such a lookup too. */
  lemma StaleUnknownIsStraddled(t: Tables, steps: seq<Step>, maxEntries: nat, a: State, name: string) returns (i: nat)
    requires Schema(t) && Reached(t, steps, maxEntries, a)
    requires name in a.s.negative && Join(a.s.t, name).Some?
    ensures |a.past| == |steps| && name in a.negativeFrom
    ensures a.negativeFrom[name].readAt <= i < a.negativeFrom[name].storedAt < |steps|
    ensures steps[i].Handle? && Spoils(a.past[i], steps[i].request, name)
  {
    ReachedKeepsInv(t, steps, maxEntries, a);
    ReachedRecounts(t, steps, maxEntries, a);
    var o := a.negativeFrom[name];
    assert AnswerOk(a.past, a.s.t, o, name, None);
    i := AnswerChange(a, steps, name, o.readAt, o.storedAt);
  }

  /** A client built from an outdated row: its provider was changed between the read and the store. */
  lemma StaleClientIsStraddled(t: Tables, steps: seq<Step>, maxEntries: nat, a: State, id: string) returns (i: nat)
    requires Schema(t) && Reached(t, steps, maxEntries, a)
    requires id in a.s.upstreams && RowOf(a.s.t, id) != Some(a.s.upstreams[id].value.row)
    ensures |a.past| == |steps| && id in a.upstreamsFrom
    ensures a.upstreamsFrom[id].readAt <= i < a.upstreamsFrom[id].storedAt < |steps|
    ensures steps[i].Handle? && RowSpoils(a.past[i], steps[i].request, id)
  {
    ReachedKeepsInv(t, steps, maxEntries, a);
    ReachedRecounts(t, steps, maxEntries, a);
    var o := a.upstreamsFrom[id];
    assert RowOk(a.past, a.s.t, o, id, a.s.upstreams[id].value.row);
    i := RowChange(a, steps, id, o.readAt, o.storedAt);
  }

  /** A store leaves a stale model exactly when the answer had changed since the read. */
  lemma StoreIsStaleIff(t: Tables, steps: seq<Step>, maxEntries: nat, a: State, id: nat, now: int, b: State)
    requires Schema(t) && Reached(t, steps, maxEntries, a) && maxEntries > 0 && StoresModel(a, id, now, maxEntries, b)
    ensures a.lookups[id].readAt < |a.past| && a.lookups[id].name in b.s.models
    ensures var l := a.lookups[id];
            Join(b.s.t, l.name) != Some(b.s.models[l.name].value) <==> Join(a.s.t, l.name) != Join(a.past[l.readAt], l.name)
  {
    ReachedKeepsInv(t, steps, maxEntries, a);
    var l := a.lookups[id];
    assert LookupOk(a.past, l);
    InsertStaysCapped(a.s.models, l.name, Entry(l.found, now), maxEntries, b.s.models);
  }

  // ---- An example ----

  lemma ReachedSnoc(t: Tables, steps: seq<Step>, maxEntries: nat, a: State, step: Step, b: State)
    requires Reached(t, steps, maxEntries, a) && Moves(a, step, maxEntries, b)
    ensures Reached(t, steps + [step], maxEntries, b)
  {
    assert (steps + [step])[..|steps|] == steps;
  }

  const PROVIDER := Provider("p", "", "", "", None, true)
  const MODEL := Model("1", "m", "p", "u", true)
  const SERVED := Tables(map["p" := PROVIDER], map["m" := MODEL])
  const DISABLE := ModelUpdate(None, None, Some(false))
  const DISABLED := Tables(map["p" := PROVIDER], map["m" := MODEL.(enabled := false)])

  /** A lookup misses and reads; the model is disabled; the lookup stores what it read and goes on. */
  const RACE: seq<Step> :=
    [Miss(0, "m", 0)] + [Read(0)] + [Handle(UpdateModel("m", DISABLE))] + [StoreClient(0, 0)] + [StoreModel(0, 0)]
    + [Abandon(0)]

  const READ := State(Caches(SERVED, map[], map[], map[]), [SERVED] + [SERVED],
                      map[0 := HasRead("m", Some((MODEL, PROVIDER)), 1)], map[], map[], map[])

  lemma LookupReads()
    ensures Reached(SERVED, [Miss(0, "m", 0)] + [Read(0)], 10, READ)
  {
    var start := Initial(SERVED);
    var missed := start.(past := [SERVED], lookups := map[0 := HasMissed("m")]);
    assert [] + [SERVED] == [SERVED] && start.lookups[0 := HasMissed("m")] == missed.lookups;
    assert Misses(start, 0, "m", 0, missed);
    ReachedSnoc(SERVED, [], 10, start, Miss(0, "m", 0), missed);
    assert [] + [Miss(0, "m", 0)] == [Miss(0, "m", 0)];
    assert missed.lookups[0 := READ.lookups[0]] == READ.lookups;
    assert Reads(missed, 0, READ);
    ReachedSnoc(SERVED, [Miss(0, "m", 0)], 10, missed, Read(0), READ);
  }

  lemma RaceReads() returns (a: State)
    ensures Reached(SERVED, [Miss(0, "m", 0)] + [Read(0)] + [Handle(UpdateModel("m", DISABLE))], 10, a)
    ensures a == READ.(s := a.s, past := READ.past + [SERVED]) && a.s == Caches(DISABLED, map[], map[], map[])
  {
    LookupReads();
    a := READ.(s := AfterUpdateModel(READ.s, "m", DISABLE), past := READ.past + [SERVED]);
    assert UpdateModelRow(SERVED, "m", DISABLE).0.models == DISABLED.models;
    assert a.s == Caches(DISABLED, map[], map[], map[]);
    assert Handles(READ, UpdateModel("m", DISABLE), 10, a);
    ReachedSnoc(SERVED, [Miss(0, "m", 0)] + [Read(0)], 10, READ, Handle(UpdateModel("m", DISABLE)), a);
  }

  /** The two stores of a lookup that read a model found, on caches that are empty. */
  lemma StoresInto(a: State, l: Lookup) returns (b: State, c: State)
    requires a.lookups == map[0 := l] && l.HasRead? && l.answer.Some?
    requires a.s.models == map[] && a.s.upstreams == map[]
    ensures StoresClient(a, 0, 0, 10, b) && StoresModel(b, 0, 0, 10, c)
    ensures c.s == a.s.(upstreams := c.s.upstreams, models := map[l.name := Entry(l.answer.value, 0)])
    ensures c.lookups == map[0 := HasFound(l.answer.value, l.readAt)]
    ensures c.modelsFrom == a.modelsFrom[l.name := Origin(l.readAt, |a.past| + 1)]
  {
    var p := l.answer.value.1;
    b := a.(past := a.past + [a.s.t], s := a.s.(upstreams := map[p.id := Entry(Upstream(p), 0)]),
            lookups := a.lookups[0 := HasClient(l.name, l.answer.value, l.readAt)],
            upstreamsFrom := a.upstreamsFrom[p.id := Origin(l.readAt, |a.past|)]);
    assert StoresClient(a, 0, 0, 10, b);
    c := b.(past := b.past + [b.s.t], s := b.s.(models := map[l.name := Entry(l.answer.value, 0)]),
            lookups := b.lookups[0 := HasFound(l.answer.value, l.readAt)],
            modelsFrom := b.modelsFrom[l.name := Origin(l.readAt, |b.past|)]);
    assert StoresModel(b, 0, 0, 10, c);
  }

  lemma RaceStores() returns (a: State)
    ensures Reached(SERVED, RACE[..5], 10, a)
    ensures a.s.t == DISABLED && a.s.negative == map[] && a.s.models == map["m" := Entry((MODEL, PROVIDER), 0)]
    ensures a.lookups == map[0 := HasFound((MODEL, PROVIDER), 1)]
    ensures "m" in a.modelsFrom && a.modelsFrom["m"].readAt == 1
  {
    var read := RaceReads();
    var start := [Miss(0, "m", 0)] + [Read(0)] + [Handle(UpdateModel("m", DISABLE))];
    var half, full := StoresInto(read, read.lookups[0]);
    ReachedSnoc(SERVED, start, 10, read, StoreClient(0, 0), half);
    ReachedSnoc(SERVED, start + [StoreClient(0, 0)], 10, half, StoreModel(0, 0), full);
    assert RACE[..5] == start + [StoreClient(0, 0)] + [StoreModel(0, 0)];
    a := full;
  }

  lemma NextLookupHits(a: State)
    requires a.lookups == map[] && a.s.negative == map[] && a.s.models == map["m" := Entry((MODEL, PROVIDER), 0)]
    requires "m" in a.modelsFrom
    ensures exists later :: Hits(a, 1, "m", 1, later) && later.lookups[1] == HasFound((MODEL, PROVIDER), a.modelsFrom["m"].readAt)
  {
    var l := HasFound((MODEL, PROVIDER), a.modelsFrom["m"].readAt);
    var later := a.(past := a.past + [a.s.t], s := a.s.(models := Slid(a.s.models, "m", 1)), lookups := a.lookups[1 := l]);
    assert Hits(a, 1, "m", 1, later) && later.lookups[1] == l;
  }

  /**
   The run: a model disabled between a lookup's read and its stores is cached as enabled when every
   lookup and handler has finished, and the next lookup is answered from the cache.
   */
  lemma DisabledModelCanStayCached() returns (a: State)
    ensures Schema(SERVED) && Reached(SERVED, RACE, 10, a) && a.lookups == map[] && "m" in a.modelsFrom
    ensures Join(a.s.t, "m") == None && "m" in a.s.models && a.s.models["m"].value == (MODEL, PROVIDER)
    ensures exists later :: Hits(a, 1, "m", 1, later) && later.lookups[1] == HasFound((MODEL, PROVIDER), a.modelsFrom["m"].readAt)
  {
    var full := RaceStores();
    a := full.(past := full.past + [full.s.t], lookups := full.lookups - {0});
    ReachedSnoc(SERVED, RACE[..5], 10, full, Abandon(0), a);
    assert RACE == RACE[..5] + [Abandon(0)];
    NextLookupHits(a);
  }
}
