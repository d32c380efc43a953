/**
 Model resolution on the proxy path: three caches over the provider and model tables. With every
 handler, lookup, eviction and cleanup as one step, resolution always equals the join on enabled
 model and provider, and the upstream client is always built from the provider's current row.
 */
module ModelCache {
  import opened ByteStrings
  import opened CacheTtls
  import opened CappedCache

  // ---- Tables ----

  datatype Provider = Provider(
    id: string, name: string, kind: string, baseUrl: string, apiKey: Option<string>, enabled: bool)

  datatype Model = Model(id: string, name: string, providerId: string, upstreamModel: string, enabled: bool)

  datatype ModelUpdate = ModelUpdate(
    providerId: Option<string>, upstreamModel: Option<string>, enabled: Option<bool>)

  datatype ProviderUpdate = ProviderUpdate(
    name: Option<string>, kind: Option<string>, baseUrl: Option<string>, apiKey: Option<string>, enabled: Option<bool>)

  datatype DbError = NotFound | Duplicate | Storage

  datatype DbResult<T> = Done(value: T) | Failed(error: DbError)

  /** Providers by id and models by their unique name. */
  datatype Tables = Tables(providers: map<string, Provider>, models: map<string, Model>)

  /** The schema: rows sit under their keys and every model's provider exists. */
  predicate Schema(t: Tables) {
    && (forall id :: id in t.providers ==> t.providers[id].id == id)
    && (forall name :: name in t.models ==> t.models[name].name == name && t.models[name].providerId in t.providers)
  }

  type Resolved = (Model, Provider)

  /** The join of an enabled model with its enabled provider. */
  function Join(t: Tables, name: string): Option<Resolved> {
    if name in t.models && t.models[name].providerId in t.providers then
      var m := t.models[name];
      var p := t.providers[m.providerId];
      if m.enabled && p.enabled then Some((m, p)) else None
    else None
  }

  /** What a name resolves to, on the rows' own fields: an enabled model and its enabled provider. */
  predicate Serves(t: Tables, name: string, m: Model, p: Provider) {
    && name in t.models && t.models[name] == m && m.enabled
    && m.providerId in t.providers && t.providers[m.providerId] == p && p.enabled
  }

  /** The client built for a provider row. */
  datatype Upstream = Upstream(row: Provider)

  // ---- Store operations ----

  /** Inserting reports a missing provider before a taken name. */
  function InsertModel(t: Tables, m: Model): (Tables, DbResult<Model>) {
    if m.providerId !in t.providers then (t, Failed(NotFound))
    else if m.name in t.models then (t, Failed(Duplicate))
    else (t.(models := t.models[m.name := m]), Done(m))
  }

  function ChangedModel(m: Model, u: ModelUpdate): Model {
    m.(providerId := u.providerId.UnwrapOr(m.providerId),
       upstreamModel := u.upstreamModel.UnwrapOr(m.upstreamModel),
       enabled := u.enabled.UnwrapOr(m.enabled))
  }

  /** Moving a model to a provider that does not exist breaks the foreign key and changes nothing. */
  function UpdateModelRow(t: Tables, name: string, u: ModelUpdate): (Tables, DbResult<Model>) {
    if name !in t.models then (t, Failed(NotFound))
    else
      var m := ChangedModel(t.models[name], u);
      if m.providerId !in t.providers then (t, Failed(Storage))
      else (t.(models := t.models[name := m]), Done(m))
  }

  function InsertProvider(t: Tables, p: Provider): (Tables, DbResult<Provider>) {
    if p.id in t.providers then (t, Failed(Storage))
    else (t.(providers := t.providers[p.id := p]), Done(p))
  }

  /** The updates field by field: what they do not mention stays, and an empty api key clears the stored one. */
  predicate ModelChanges(m: Model, u: ModelUpdate, changed: Model) {
    && changed.id == m.id && changed.name == m.name
    && (if u.providerId.Some? then changed.providerId == u.providerId.value else changed.providerId == m.providerId)
    && (if u.upstreamModel.Some? then changed.upstreamModel == u.upstreamModel.value else changed.upstreamModel == m.upstreamModel)
    && (if u.enabled.Some? then changed.enabled == u.enabled.value else changed.enabled == m.enabled)
  }

  predicate ProviderChanges(p: Provider, u: ProviderUpdate, changed: Provider) {
    && changed.id == p.id
    && (if u.name.Some? then changed.name == u.name.value else changed.name == p.name)
    && (if u.kind.Some? then changed.kind == u.kind.value else changed.kind == p.kind)
    && (if u.baseUrl.Some? then changed.baseUrl == u.baseUrl.value else changed.baseUrl == p.baseUrl)
    && (if u.enabled.Some? then changed.enabled == u.enabled.value else changed.enabled == p.enabled)
    && match u.apiKey
       case None => changed.apiKey == p.apiKey
       case Some(key) => changed.apiKey == if key == "" then None else Some(key)
  }

  /** An empty api key clears the stored one. */
  function ChangedProvider(p: Provider, u: ProviderUpdate): Provider {
    p.(name := u.name.UnwrapOr(p.name),
       kind := u.kind.UnwrapOr(p.kind),
       baseUrl := u.baseUrl.UnwrapOr(p.baseUrl),
       apiKey := if u.apiKey.None? then p.apiKey else if u.apiKey.value == "" then None else u.apiKey,
       enabled := u.enabled.UnwrapOr(p.enabled))
  }

  function UpdateProviderRow(t: Tables, id: string, u: ProviderUpdate): (Tables, DbResult<Provider>) {
    if id !in t.providers then (t, Failed(NotFound))
    else
      var p := ChangedProvider(t.providers[id], u);
      (t.(providers := t.providers[id := p]), Done(p))
  }

  /** Deleting a provider cascades to its models. */
  function DeleteProviderRow(t: Tables, id: string): Tables {
    Tables(t.providers - {id}, map n | n in t.models && t.models[n].providerId != id :: t.models[n])
  }

  // ---- Caches ----

  datatype Caches = Caches(
    t: Tables, models: Cache<Resolved>, negative: Cache<()>, upstreams: Cache<Upstream>)

  /** Every cached verdict is the one the tables would give now. */
  ghost predicate Agrees(s: Caches) {
    && Schema(s.t)
    && (forall n :: n in s.models ==> Join(s.t, n) == Some(s.models[n].value))
    && (forall n :: n in s.negative ==> Join(s.t, n) == None)
    && (forall id :: id in s.upstreams ==> id in s.t.providers && s.upstreams[id].value == Upstream(s.t.providers[id]))
  }

  ghost predicate Capped(s: Caches, maxEntries: nat) {
    |s.models| <= maxEntries && |s.negative| <= maxEntries && |s.upstreams| <= maxEntries
  }

  /** What a lookup that reached the database does to the caches with the answer it got. */
  ghost predicate Stored(s: Caches, name: string, answer: Option<Resolved>, now: int, maxEntries: nat, s': Caches) {
    && s'.t == s.t
    && match answer
       case Some(found) =>
         && s'.negative == s.negative
         && Inserted(s.upstreams, found.1.id, Entry(Upstream(found.1), now), maxEntries, s'.upstreams)
         && Inserted(s.models, name, Entry(found, now), maxEntries, s'.models)
       case None =>
         && s'.models == s.models && s'.upstreams == s.upstreams
         && Inserted(s.negative, name, Entry((), now), maxEntries, s'.negative)
  }

  /** Known-unknown first, then the model cache, then the database. */
  ghost predicate Resolves(s: Caches, name: string, now: int, maxEntries: nat, s': Caches, r: Option<Resolved>) {
    if Fresh(s.negative, name, now, NEGATIVE_CACHE_TTL) then s' == s && r == None
    else if Fresh(s.models, name, now, CACHE_TTL) then
      s' == s.(models := Slid(s.models, name, now)) && r == Some(s.models[name].value)
    else r == Join(s.t, name) && Stored(s, name, r, now, maxEntries, s')
  }

  ghost predicate Connects(s: Caches, p: Provider, now: int, maxEntries: nat, s': Caches, up: Upstream) {
    && s' == s.(upstreams := s'.upstreams)
    && if Fresh(s.upstreams, p.id, now, CACHE_TTL) then
         s'.upstreams == Slid(s.upstreams, p.id, now) && up == s.upstreams[p.id].value
       else
         up == Upstream(p) && Inserted(s.upstreams, p.id, Entry(up, now), maxEntries, s'.upstreams)
  }

  function AfterCreateModel(s: Caches, m: Model): Caches {
    var (t, r) := InsertModel(s.t, m);
    if r.Done? then s.(t := t, negative := s.negative - {m.name}) else s
  }

  function AfterUpdateModel(s: Caches, name: string, u: ModelUpdate): Caches {
    var (t, r) := UpdateModelRow(s.t, name, u);
    if r.Done? then s.(t := t, models := s.models - {name}, negative := s.negative - {name}) else s
  }

  /** The negative cache is left alone: a deleted model's name had no negative entry to lose. */
  function AfterDeleteModel(s: Caches, name: string): Caches {
    if name in s.t.models then s.(t := s.t.(models := s.t.models - {name}), models := s.models - {name}) else s
  }

  function AfterCreateProvider(s: Caches, p: Provider): Caches {
    s.(t := InsertProvider(s.t, p).0)
  }

  function ElsewhereServed(c: Cache<Resolved>, id: string): (r: Cache<Resolved>)
    ensures r.Keys <= c.Keys
  {
    map n | n in c && c[n].value.1.id != id :: c[n]
  }

  /** Both provider mutations drop the client, every model it serves and all negative verdicts. */
  function ProviderChanged(s: Caches, t: Tables, id: string): Caches {
    Caches(t, ElsewhereServed(s.models, id), map[], s.upstreams - {id})
  }

  function AfterUpdateProvider(s: Caches, id: string, u: ProviderUpdate): Caches {
    var (t, r) := UpdateProviderRow(s.t, id, u);
    if r.Done? then ProviderChanged(s, t, id) else s
  }

  function AfterDeleteProvider(s: Caches, id: string): Caches {
    if id in s.t.providers then ProviderChanged(s, DeleteProviderRow(s.t, id), id) else s
  }

  function AfterCleanup(s: Caches, now: int, maxEntries: nat): Caches {
    s.(models := Kept(s.models, now, CleanupTtl(|s.models|, maxEntries)),
       upstreams := Kept(s.upstreams, now, CleanupTtl(|s.upstreams|, maxEntries)),
       negative := Kept(s.negative, now, NEGATIVE_CACHE_TTL))
  }

  // ---- Lookups are right ----

  /** A fresh client for a current row joins clients for current rows. */
  lemma ClientKeepsAgreement(t: Tables, c: Cache<Upstream>, p: Provider, now: int, maxEntries: nat, c': Cache<Upstream>)
    requires forall id :: id in c ==> id in t.providers && c[id].value == Upstream(t.providers[id])
    requires p.id in t.providers && t.providers[p.id] == p
    requires Inserted(c, p.id, Entry(Upstream(p), now), maxEntries, c')
    ensures forall id :: id in c' ==> id in t.providers && c'[id].value == Upstream(t.providers[id])
    ensures |c| <= maxEntries ==> |c'| <= maxEntries
  {
    InsertStaysCapped(c, p.id, Entry(Upstream(p), now), maxEntries, c');
  }

  lemma ModelKeepsAgreement(
    t: Tables, c: Cache<Resolved>, name: string, found: Resolved, now: int, maxEntries: nat, c': Cache<Resolved>)
    requires forall n :: n in c ==> Join(t, n) == Some(c[n].value)
    requires Join(t, name) == Some(found) && Inserted(c, name, Entry(found, now), maxEntries, c')
    ensures forall n :: n in c' ==> Join(t, n) == Some(c'[n].value)
    ensures |c| <= maxEntries ==> |c'| <= maxEntries
  {
    InsertStaysCapped(c, name, Entry(found, now), maxEntries, c');
  }

  lemma FoundKeepsAgreement(s: Caches, name: string, found: Resolved, now: int, maxEntries: nat, s': Caches)
    requires Agrees(s) && Join(s.t, name) == Some(found) && Stored(s, name, Some(found), now, maxEntries, s')
    ensures Agrees(s')
    ensures Capped(s, maxEntries) ==> Capped(s', maxEntries)
  {
    ClientKeepsAgreement(s.t, s.upstreams, found.1, now, maxEntries, s'.upstreams);
    ModelKeepsAgreement(s.t, s.models, name, found, now, maxEntries, s'.models);
  }

  lemma UnknownKeepsAgreement(s: Caches, name: string, now: int, maxEntries: nat, s': Caches)
    requires Agrees(s) && Join(s.t, name) == None && Stored(s, name, None, now, maxEntries, s')
    ensures Agrees(s')
    ensures Capped(s, maxEntries) ==> Capped(s', maxEntries)
  {
    InsertStaysCapped(s.negative, name, Entry((), now), maxEntries, s'.negative);
  }

  lemma StoredKeepsAgreement(s: Caches, name: string, answer: Option<Resolved>, now: int, maxEntries: nat, s': Caches)
    requires Agrees(s) && answer == Join(s.t, name) && Stored(s, name, answer, now, maxEntries, s')
    ensures Agrees(s')
    ensures Capped(s, maxEntries) ==> Capped(s', maxEntries)
  {
    match answer
    case Some(found) => FoundKeepsAgreement(s, name, found, now, maxEntries, s');
    case None => UnknownKeepsAgreement(s, name, now, maxEntries, s');
  }

  /** Resolution through the caches equals the join. */
  lemma ResolvesAsJoin(s: Caches, name: string, now: int, maxEntries: nat, s': Caches, r: Option<Resolved>)
    requires Agrees(s) && Resolves(s, name, now, maxEntries, s', r)
    ensures r == Join(s.t, name)
    ensures Agrees(s') && s'.t == s.t
    ensures Capped(s, maxEntries) ==> Capped(s', maxEntries)
  {
    if Fresh(s.negative, name, now, NEGATIVE_CACHE_TTL) {
    } else if Fresh(s.models, name, now, CACHE_TTL) {
      SubCacheSize(s.models, s'.models);
    } else {
      StoredKeepsAgreement(s, name, r, now, maxEntries, s');
    }
  }

  /** The client handed out is built from the provider's current row. */
  lemma ConnectsToCurrentRow(s: Caches, p: Provider, now: int, maxEntries: nat, s': Caches, up: Upstream)
    requires Agrees(s) && Connects(s, p, now, maxEntries, s', up)
    requires p.id in s.t.providers && s.t.providers[p.id] == p
    ensures up == Upstream(s.t.providers[p.id])
    ensures Agrees(s') && s'.t == s.t
    ensures Capped(s, maxEntries) ==> Capped(s', maxEntries)
  {
    if Fresh(s.upstreams, p.id, now, CACHE_TTL) {
      SubCacheSize(s.upstreams, s'.upstreams);
    } else {
      InsertStaysCapped(s.upstreams, p.id, Entry(up, now), maxEntries, s'.upstreams);
    }
  }

  // ---- Handlers keep agreement ----

  lemma CreateModelKeepsAgreement(s: Caches, m: Model)
    requires Agrees(s)
    ensures Agrees(AfterCreateModel(s, m))
  {
    forall n | n != m.name
      ensures Join(AfterCreateModel(s, m).t, n) == Join(s.t, n)
    {
    }
  }

  lemma UpdateModelKeepsAgreement(s: Caches, name: string, u: ModelUpdate)
    requires Agrees(s)
    ensures Agrees(AfterUpdateModel(s, name, u))
  {
    forall n | n != name
      ensures Join(AfterUpdateModel(s, name, u).t, n) == Join(s.t, n)
    {
    }
  }

  lemma DeleteModelKeepsAgreement(s: Caches, name: string)
    requires Agrees(s)
    ensures Agrees(AfterDeleteModel(s, name))
  {
    forall n | n != name
      ensures Join(AfterDeleteModel(s, name).t, n) == Join(s.t, n)
    {
    }
  }

  lemma CreateProviderKeepsAgreement(s: Caches, p: Provider)
    requires Agrees(s)
    ensures Agrees(AfterCreateProvider(s, p))
  {
    forall n
      ensures Join(AfterCreateProvider(s, p).t, n) == Join(s.t, n)
    {
    }
  }

  /** Whatever happens to one provider and its models, the answers for the others' models stay. */
  lemma ProviderChangedKeepsAgreement(s: Caches, t: Tables, id: string)
    requires Agrees(s) && Schema(t)
    requires t.providers - {id} == s.t.providers - {id}
    requires forall n :: n in s.t.models && s.t.models[n].providerId != id ==> n in t.models && t.models[n] == s.t.models[n]
    ensures Agrees(ProviderChanged(s, t, id))
  {
    var s' := ProviderChanged(s, t, id);
    forall i | i != id && i in s.t.providers
      ensures i in t.providers && t.providers[i] == s.t.providers[i]
    {
      assert i in s.t.providers - {id};
    }
    forall n | n in s'.models
      ensures Join(t, n) == Some(s'.models[n].value)
    {
      assert Join(s.t, n) == Some(s.models[n].value);
      assert s.t.models[n].providerId == s.models[n].value.1.id;
    }
  }

  lemma UpdateProviderKeepsAgreement(s: Caches, id: string, u: ProviderUpdate)
    requires Agrees(s)
    ensures Agrees(AfterUpdateProvider(s, id, u))
  {
    if id in s.t.providers {
      var t := UpdateProviderRow(s.t, id, u).0;
      assert t.providers - {id} == s.t.providers - {id};
      ProviderChangedKeepsAgreement(s, t, id);
    }
  }

  lemma DeleteProviderKeepsAgreement(s: Caches, id: string)
    requires Agrees(s)
    ensures Agrees(AfterDeleteProvider(s, id))
  {
    if id in s.t.providers {
      var t := DeleteProviderRow(s.t, id);
      assert t.providers - {id} == s.t.providers - {id};
      ProviderChangedKeepsAgreement(s, t, id);
    }
  }

  lemma CleanupKeepsAgreement(s: Caches, now: int, maxEntries: nat)
    requires Agrees(s)
    ensures Agrees(AfterCleanup(s, now, maxEntries))
  {
  }

  // ---- Every run ----

  datatype Request =
    | Proxy(name: string, now: int)
    | Refuse(name: string, now: int)
    | CreateModel(model: Model)
    | UpdateModel(name: string, modelUpdate: ModelUpdate)
    | DeleteModel(name: string)
    | CreateProvider(provider: Provider)
    | UpdateProvider(id: string, providerUpdate: ProviderUpdate)
    | DeleteProvider(id: string)
    | Cleanup(now: int)

  /**
   A proxied request: resolve, then take the upstream client of the provider found. One whose
   endpoint the provider does not support stops in between; `Refuse` is that step.
   */
  ghost predicate Proxies(s: Caches, name: string, now: int, maxEntries: nat, s': Caches, r: Option<(Resolved, Upstream)>) {
    exists mid, found ::
      && Resolves(s, name, now, maxEntries, mid, found)
      && match found
         case None => s' == mid && r == None
         case Some(f) => r.Some? && r.value.0 == f && Connects(mid, f.1, now, maxEntries, s', r.value.1)
  }

  ghost predicate Next(s: Caches, q: Request, maxEntries: nat, s': Caches) {
    match q
    case Proxy(name, now) => exists r :: Proxies(s, name, now, maxEntries, s', r)
    case Refuse(name, now) => exists r :: Resolves(s, name, now, maxEntries, s', r)
    case CreateModel(m) => s' == AfterCreateModel(s, m)
    case UpdateModel(name, u) => s' == AfterUpdateModel(s, name, u)
    case DeleteModel(name) => s' == AfterDeleteModel(s, name)
    case CreateProvider(p) => s' == AfterCreateProvider(s, p)
    case UpdateProvider(id, u) => s' == AfterUpdateProvider(s, id, u)
    case DeleteProvider(id) => s' == AfterDeleteProvider(s, id)
    case Cleanup(now) => s' == AfterCleanup(s, now, maxEntries)
  }

  /** The request is answered from the join, with a client for the provider's current row. */
  lemma ProxiesCurrentRows(s: Caches, name: string, now: int, maxEntries: nat, s': Caches, r: Option<(Resolved, Upstream)>)
    requires Agrees(s) && Proxies(s, name, now, maxEntries, s', r)
    ensures r.Some? <==> Join(s.t, name).Some?
    ensures r.Some? ==> Join(s.t, name) == Some(r.value.0)
    ensures r.Some? ==> r.value.0.1.id in s.t.providers && r.value.1 == Upstream(s.t.providers[r.value.0.1.id])
    ensures Agrees(s') && s'.t == s.t
    ensures Capped(s, maxEntries) ==> Capped(s', maxEntries)
  {
    var mid, found :|
      && Resolves(s, name, now, maxEntries, mid, found)
      && match found
         case None => s' == mid && r == None
         case Some(f) => r.Some? && r.value.0 == f && Connects(mid, f.1, now, maxEntries, s', r.value.1);
    ResolvesAsJoin(s, name, now, maxEntries, mid, found);
    if found.Some? {
      ConnectsToCurrentRow(mid, found.value.1, now, maxEntries, s', r.value.1);
    }
  }

  lemma NextKeepsAgreement(s: Caches, q: Request, maxEntries: nat, s': Caches)
    requires Agrees(s) && Next(s, q, maxEntries, s')
    ensures Agrees(s')
  {
    match q
    case Proxy(name, now) =>
      var r :| Proxies(s, name, now, maxEntries, s', r);
      ProxiesCurrentRows(s, name, now, maxEntries, s', r);
    case Refuse(name, now) =>
      var r :| Resolves(s, name, now, maxEntries, s', r);
      ResolvesAsJoin(s, name, now, maxEntries, s', r);
    case CreateModel(m) => CreateModelKeepsAgreement(s, m);
    case UpdateModel(name, u) => UpdateModelKeepsAgreement(s, name, u);
    case DeleteModel(name) => DeleteModelKeepsAgreement(s, name);
    case CreateProvider(p) => CreateProviderKeepsAgreement(s, p);
    case UpdateProvider(id, u) => UpdateProviderKeepsAgreement(s, id, u);
    case DeleteProvider(id) => DeleteProviderKeepsAgreement(s, id);
    case Cleanup(now) => CleanupKeepsAgreement(s, now, maxEntries);
  }

  ghost predicate Shrinks(s: Caches, s': Caches) {
    && s'.models.Keys <= s.models.Keys
    && s'.negative.Keys <= s.negative.Keys
    && s'.upstreams.Keys <= s.upstreams.Keys
  }

  lemma ProviderChangedShrinks(s: Caches, t: Tables, id: string)
    ensures Shrinks(s, ProviderChanged(s, t, id))
  {
    assert (s.upstreams - {id}).Keys == s.upstreams.Keys - {id};
  }

  /** Only requests to be proxied add entries. */
  lemma MutationsOnlyRemove(s: Caches, q: Request, maxEntries: nat, s': Caches)
    requires !q.Proxy? && !q.Refuse? && Next(s, q, maxEntries, s')
    ensures Shrinks(s, s')
  {
    match q
    case CreateModel(m) =>
    case UpdateModel(name, u) =>
    case DeleteModel(name) =>
    case CreateProvider(p) =>
    case UpdateProvider(id, u) => ProviderChangedShrinks(s, UpdateProviderRow(s.t, id, u).0, id);
    case DeleteProvider(id) => ProviderChangedShrinks(s, DeleteProviderRow(s.t, id), id);
    case Cleanup(now) =>
  }

  lemma NextStaysCapped(s: Caches, q: Request, maxEntries: nat, s': Caches)
    requires Agrees(s) && Capped(s, maxEntries) && Next(s, q, maxEntries, s')
    ensures Capped(s', maxEntries)
  {
    if q.Proxy? {
      var r :| Proxies(s, q.name, q.now, maxEntries, s', r);
      ProxiesCurrentRows(s, q.name, q.now, maxEntries, s', r);
    } else if q.Refuse? {
      var r :| Resolves(s, q.name, q.now, maxEntries, s', r);
      ResolvesAsJoin(s, q.name, q.now, maxEntries, s', r);
    } else {
      MutationsOnlyRemove(s, q, maxEntries, s');
      SubCacheSize(s.models, s'.models);
      SubCacheSize(s.negative, s'.negative);
      SubCacheSize(s.upstreams, s'.upstreams);
    }
  }

  ghost predicate Reachable(t: Tables, requests: seq<Request>, maxEntries: nat, s: Caches)
    decreases |requests|
  {
    if requests == [] then s == Caches(t, map[], map[], map[])
    else
      var n := |requests| - 1;
      exists before :: Reachable(t, requests[..n], maxEntries, before) && Next(before, requests[n], maxEntries, s)
  }

  lemma {:induction false} ReachableAgrees(t: Tables, requests: seq<Request>, maxEntries: nat, s: Caches)
    requires Schema(t) && Reachable(t, requests, maxEntries, s)
    ensures Agrees(s) && Capped(s, maxEntries)
    decreases |requests|
  {
    if requests != [] {
      var n := |requests| - 1;
      var before :| Reachable(t, requests[..n], maxEntries, before) && Next(before, requests[n], maxEntries, s);
      ReachableAgrees(t, requests[..n], maxEntries, before);
      NextKeepsAgreement(before, requests[n], maxEntries, s);
      NextStaysCapped(before, requests[n], maxEntries, s);
    }
  }

  /** After any run, a proxied request sees exactly the join and a client for the current row. */
  lemma CachesAgree(
    t: Tables, requests: seq<Request>, maxEntries: nat, s: Caches,
    name: string, now: int, s': Caches, r: Option<(Resolved, Upstream)>)
    requires Schema(t) && Reachable(t, requests, maxEntries, s) && Proxies(s, name, now, maxEntries, s', r)
    ensures forall m, p, up :: r == Some(((m, p), up)) <==> Serves(s.t, name, m, p) && up == Upstream(p)
  {
    ReachableAgrees(t, requests, maxEntries, s);
    ProxiesCurrentRows(s, name, now, maxEntries, s', r);
  }

  // ---- Where a lookup straddles a mutation ----

  /**
   Unlike the key cache, no revision guards these caches: a lookup that read the tables before a
   mutation and stores its answer after it leaves agreement exactly when the answer is still right.
   */
  lemma LateStoreAgreesIff(s: Caches, name: string, answer: Option<Resolved>, now: int, maxEntries: nat, s': Caches)
    requires Agrees(s) && maxEntries > 0 && Stored(s, name, answer, now, maxEntries, s')
    ensures Agrees(s') <==> Join(s.t, name) == answer
  {
    if Join(s.t, name) == answer {
      StoredKeepsAgreement(s, name, answer, now, maxEntries, s');
    } else if answer.Some? {
      InsertStaysCapped(s.models, name, Entry(answer.value, now), maxEntries, s'.models);
    } else {
      InsertStaysCapped(s.negative, name, Entry((), now), maxEntries, s'.negative);
    }
  }

  // ---- The code ----

  class AppCaches {
    var providers: map<string, Provider>
    var models: map<string, Model>
    const modelCache: CappedMap<Resolved>
    const negativeCache: CappedMap<()>
    const providerCache: CappedMap<Upstream>
    const maxEntries: nat

    ghost function Abs(): Caches
      reads this, modelCache, negativeCache, providerCache
    {
      Caches(Tables(providers, models), modelCache.entries, negativeCache.entries, providerCache.entries)
    }

    constructor (maxEntries: nat)
      ensures Abs() == Caches(Tables(map[], map[]), map[], map[], map[]) && Agrees(Abs())
      ensures this.maxEntries == maxEntries
      ensures fresh(modelCache) && fresh(negativeCache) && fresh(providerCache)
    {
      this.maxEntries := maxEntries;
      providers, models := map[], map[];
      modelCache := new CappedMap();
      negativeCache := new CappedMap();
      providerCache := new CappedMap();
    }

    method ResolveModel(name: string) returns (row: Option<Resolved>)
      requires Schema(Tables(providers, models))
      ensures row == Join(Tables(providers, models), name)
    {
      row := None;
      if name in models {
        var m := models[name];
        var p := providers[m.providerId];
        if m.enabled && p.enabled {
          row := Some((m, p));
        }
      }
    }

    /** Keep what the database answered: client and row, or the negative verdict. */
    method StoreAnswer(name: string, answer: Option<Resolved>, now: int)
      modifies modelCache, negativeCache, providerCache
      ensures Stored(old(Abs()), name, answer, now, maxEntries, Abs())
      ensures maxEntries > 0 ==>
                match answer
                case Some(found) => name in modelCache.entries && modelCache.entries[name] == Entry(found, now)
                case None => name in negativeCache.entries && negativeCache.entries[name] == Entry((), now)
    {
      if answer.Some? {
        var p := answer.value.1;
        providerCache.InsertCapped(p.id, Entry(Upstream(p), now), maxEntries);
        modelCache.InsertCapped(name, Entry(answer.value, now), maxEntries);
      } else {
        negativeCache.InsertCapped(name, Entry((), now), maxEntries);
      }
    }

    /** The caches' answer, whichever of them gives it, is the join. */
    method ResolveModelAndProvider(name: string, now: int) returns (r: Option<Resolved>)
      requires Agrees(Abs())
      modifies modelCache, negativeCache, providerCache
      ensures Resolves(old(Abs()), name, now, maxEntries, Abs(), r)
      ensures r == Join(Tables(providers, models), name) && Agrees(Abs())
      ensures forall m, p :: r == Some((m, p)) <==> Serves(Tables(providers, models), name, m, p)
      ensures maxEntries > 0 && r.Some? ==> name in modelCache.entries && modelCache.entries[name].at == now
      ensures maxEntries > 0 && r.None? ==> name in negativeCache.entries
    {
      ghost var before := Abs();
      if name in negativeCache.entries && now - negativeCache.entries[name].at < NEGATIVE_CACHE_TTL {
        return None;
      }
      r := modelCache.GetSliding(name, now);
      if r.None? {
        r := ResolveModel(name);
        StoreAnswer(name, r, now);
      }
      ResolvesAsJoin(before, name, now, maxEntries, Abs(), r);
    }

    method CachedUpstream(p: Provider, now: int) returns (up: Upstream)
      requires Agrees(Abs()) && p.id in providers && providers[p.id] == p
      modifies providerCache
      ensures Connects(old(Abs()), p, now, maxEntries, Abs(), up)
      ensures up == Upstream(providers[p.id]) && Agrees(Abs())
      ensures maxEntries > 0 ==> p.id in providerCache.entries && providerCache.entries[p.id] == Entry(up, now)
    {
      ghost var before := Abs();
      var cached := providerCache.GetSliding(p.id, now);
      if cached.Some? {
        up := cached.value;
      } else {
        up := Upstream(p);
        providerCache.InsertCapped(p.id, Entry(up, now), maxEntries);
      }
      ConnectsToCurrentRow(before, p, now, maxEntries, Abs(), up);
    }

    /** The front of a proxied request. */
    method Proxy(name: string, now: int) returns (r: Option<(Resolved, Upstream)>)
      requires Agrees(Abs())
      modifies modelCache, negativeCache, providerCache
      ensures Proxies(old(Abs()), name, now, maxEntries, Abs(), r) && Agrees(Abs())
      ensures forall m, p, up :: r == Some(((m, p), up)) <==>
                Serves(Tables(providers, models), name, m, p) && up == Upstream(p)
    {
      var found := ResolveModelAndProvider(name, now);
      if found.None? {
        return None;
      }
      var up := CachedUpstream(found.value.1, now);
      return Some((found.value, up));
    }

    method CreateModelHandler(m: Model) returns (r: DbResult<Model>)
      requires Agrees(Abs())
      modifies this, negativeCache
      ensures Abs() == AfterCreateModel(old(Abs()), m) && Agrees(Abs())
      ensures r == if m.providerId !in old(providers) then Failed(NotFound) else if m.name in old(models) then Failed(Duplicate) else Done(m)
      ensures providers == old(providers) && models == if r.Done? then old(models)[m.name := m] else old(models)
    {
      CreateModelKeepsAgreement(Abs(), m);
      if m.providerId !in providers {
        return Failed(NotFound);
      }
      if m.name in models {
        return Failed(Duplicate);
      }
      models := models[m.name := m];
      negativeCache.entries := negativeCache.entries - {m.name};
      return Done(m);
    }

    static method ChangeModel(row: Model, u: ModelUpdate) returns (m: Model)
      ensures m == ChangedModel(row, u)
    {
      m := row;
      if u.providerId.Some? {
        m := m.(providerId := u.providerId.value);
      }
      if u.upstreamModel.Some? {
        m := m.(upstreamModel := u.upstreamModel.value);
      }
      if u.enabled.Some? {
        m := m.(enabled := u.enabled.value);
      }
    }

    method UpdateModelHandler(name: string, u: ModelUpdate) returns (r: DbResult<Model>)
      requires Agrees(Abs())
      modifies this, modelCache, negativeCache
      ensures Abs() == AfterUpdateModel(old(Abs()), name, u) && Agrees(Abs())
      ensures r == Failed(NotFound) <==> name !in old(models)
      ensures r == Failed(Storage) <==> name in old(models) && u.providerId.Some? && u.providerId.value !in old(providers)
      ensures r.Failed? ==> (r.error.NotFound? || r.error.Storage?) && models == old(models)
      ensures r.Done? ==>
                && name in models && r.value == models[name] && ModelChanges(old(models)[name], u, models[name])
                && models == old(models)[name := models[name]]
      ensures providers == old(providers)
    {
      UpdateModelKeepsAgreement(Abs(), name, u);
      if name !in models {
        return Failed(NotFound);
      }
      var m := models[name];
      m := ChangeModel(m, u);
      if m.providerId !in providers {
        return Failed(Storage);
      }
      models := models[name := m];
      modelCache.entries := modelCache.entries - {name};
      negativeCache.entries := negativeCache.entries - {name};
      return Done(m);
    }

    method DeleteModelHandler(name: string) returns (found: bool)
      requires Agrees(Abs())
      modifies this, modelCache
      ensures Abs() == AfterDeleteModel(old(Abs()), name) && Agrees(Abs())
      ensures found <==> name in old(models)
      ensures models == old(models) - {name} && providers == old(providers)
    {
      DeleteModelKeepsAgreement(Abs(), name);
      found := name in models;
      if found {
        models := models - {name};
        modelCache.entries := modelCache.entries - {name};
      }
    }

    method CreateProviderHandler(p: Provider) returns (r: DbResult<Provider>)
      requires Agrees(Abs())
      modifies this
      ensures Abs() == AfterCreateProvider(old(Abs()), p) && Agrees(Abs())
      ensures r == if p.id in old(providers) then Failed(Storage) else Done(p)
      ensures models == old(models) && providers == if r.Done? then old(providers)[p.id := p] else old(providers)
    {
      CreateProviderKeepsAgreement(Abs(), p);
      if p.id in providers {
        return Failed(Storage);
      }
      providers := providers[p.id := p];
      return Done(p);
    }

    /** What both provider mutations do to the caches once the row is committed. */
    method ForgetProvider(id: string)
      modifies modelCache, negativeCache, providerCache
      ensures Abs() == ProviderChanged(old(Abs()), old(Abs()).t, id)
    {
      providerCache.entries := providerCache.entries - {id};
      modelCache.entries :=
        map n | n in modelCache.entries && modelCache.entries[n].value.1.id != id :: modelCache.entries[n];
      negativeCache.entries := map[];
    }

    static method ChangeProvider(row: Provider, u: ProviderUpdate) returns (p: Provider)
      ensures p == ChangedProvider(row, u)
    {
      p := row;
      if u.name.Some? {
        p := p.(name := u.name.value);
      }
      if u.kind.Some? {
        p := p.(kind := u.kind.value);
      }
      if u.baseUrl.Some? {
        p := p.(baseUrl := u.baseUrl.value);
      }
      match u.apiKey {
        case None =>
        case Some(key) => p := p.(apiKey := if key == "" then None else Some(key));
      }
      if u.enabled.Some? {
        p := p.(enabled := u.enabled.value);
      }
    }

    method UpdateProviderHandler(id: string, u: ProviderUpdate) returns (r: DbResult<Provider>)
      requires Agrees(Abs())
      modifies this, modelCache, negativeCache, providerCache
      ensures Abs() == AfterUpdateProvider(old(Abs()), id, u) && Agrees(Abs())
      ensures r.Done? <==> id in old(providers)
      ensures !r.Done? ==> r == Failed(NotFound) && providers == old(providers)
      ensures r.Done? ==>
                && id in providers && r.value == providers[id] && ProviderChanges(old(providers)[id], u, providers[id])
                && providers == old(providers)[id := providers[id]]
      ensures models == old(models)
    {
      UpdateProviderKeepsAgreement(Abs(), id, u);
      if id !in providers {
        return Failed(NotFound);
      }
      var p := providers[id];
      p := ChangeProvider(p, u);
      providers := providers[id := p];
      ForgetProvider(id);
      return Done(p);
    }

    method DeleteProviderHandler(id: string) returns (found: bool)
      requires Agrees(Abs())
      modifies this, modelCache, negativeCache, providerCache
      ensures Abs() == AfterDeleteProvider(old(Abs()), id) && Agrees(Abs())
      ensures found <==> id in old(providers)
      ensures providers == old(providers) - {id}
      ensures forall n :: n in models <==> n in old(models) && old(models)[n].providerId != id
      ensures forall n :: n in models ==> models[n] == old(models)[n]
    {
      DeleteProviderKeepsAgreement(Abs(), id);
      found := id in providers;
      if found {
        providers := providers - {id};
        models := map n | n in models && models[n].providerId != id :: models[n];
        ForgetProvider(id);
      }
    }

    method CleanupCaches(now: int)
      requires Agrees(Abs())
      modifies modelCache, negativeCache, providerCache
      ensures Abs() == AfterCleanup(old(Abs()), now, maxEntries) && Agrees(Abs())
      ensures forall n :: n in negativeCache.entries <==>
                n in old(negativeCache.entries) && now - old(negativeCache.entries)[n].at < 30_000
      ensures forall n :: n in modelCache.entries <==>
                && n in old(modelCache.entries)
                && now - old(modelCache.entries)[n].at < if 10 * |old(modelCache.entries)| > 9 * maxEntries then 150_000 else 300_000
    {
      CleanupKeepsAgreement(Abs(), now, maxEntries);
      modelCache.RetainFresh(now, CleanupTtl(|modelCache.entries|, maxEntries));
      providerCache.RetainFresh(now, CleanupTtl(|providerCache.entries|, maxEntries));
      negativeCache.RetainFresh(now, NEGATIVE_CACHE_TTL);
    }
  }
}
