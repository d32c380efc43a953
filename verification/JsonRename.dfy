/**
 The response rewrites of the providers: the model name shadowed in every object response, and for
 Ollama the key `reasoning` renamed to `reasoning_content` at every depth.
 */
module JsonRename {
  import opened ByteStrings
  import opened JsonTree

  const REASONING := "reasoning"
  const REASONING_CONTENT := "reasoning_content"

  /** The key an entry of the renamed object came from: a renamed entry displaces a present one. */
  function SourceKey(m: map<string, Json>, key: string): string {
    if key == REASONING_CONTENT && REASONING in m then REASONING else key
  }

  function RenamedKeys(m: map<string, Json>): set<string> {
    if REASONING in m then m.Keys - {REASONING} + {REASONING_CONTENT} else m.Keys
  }

  function Renamed(v: Json): Json {
    match v
    case Array(items) => Array(seq(|items|, i requires 0 <= i < |items| => Renamed(items[i])))
    case Object(m) => Object(map k | k in RenamedKeys(m) :: Renamed(m[SourceKey(m, k)]))
    case _ => v
  }

  /** No object at any depth has the key. */
  ghost predicate Lacks(v: Json, key: string) {
    match v
    case Array(items) => forall i :: 0 <= i < |items| ==> Lacks(items[i], key)
    case Object(m) => key !in m && forall k :: k in m ==> Lacks(m[k], key)
    case _ => true
  }

  lemma {:induction false} RenamedLacksReasoning(v: Json)
    ensures Lacks(Renamed(v), REASONING)
  {
    match v
    case Array(items) =>
      forall i | 0 <= i < |items|
        ensures Lacks(Renamed(items[i]), REASONING)
      {
        RenamedLacksReasoning(items[i]);
      }
    case Object(m) =>
      forall k | k in RenamedKeys(m)
        ensures Lacks(Renamed(m[SourceKey(m, k)]), REASONING)
      {
        RenamedLacksReasoning(m[SourceKey(m, k)]);
      }
    case _ =>
  }

  /** The rewrite changes a value exactly when the key occurs in it. */
  lemma {:induction false} UnchangedIffLacking(v: Json)
    ensures Renamed(v) == v <==> Lacks(v, REASONING)
  {
    RenamedLacksReasoning(v);
    match v
    case Array(items) =>
      forall i | 0 <= i < |items|
        ensures Renamed(items[i]) == items[i] <==> Lacks(items[i], REASONING)
      {
        UnchangedIffLacking(items[i]);
      }
    case Object(m) =>
      forall k | k in m
        ensures Renamed(m[k]) == m[k] <==> Lacks(m[k], REASONING)
      {
        UnchangedIffLacking(m[k]);
      }
    case _ =>
  }

  lemma RenameIsIdempotent(v: Json)
    ensures Renamed(Renamed(v)) == Renamed(v)
  {
    RenamedLacksReasoning(v);
    UnchangedIffLacking(Renamed(v));
  }

  /** Where in the original the value at a path of the rewrite came from. */
  function SourcePath(v: Json, path: seq<PathStep>): (r: seq<PathStep>)
    ensures |r| == |path|
    decreases |path|
  {
    if path == [] then []
    else
      match path[0]
      case Key(k) =>
        if v.Object? && SourceKey(v.members, k) in v.members then
          [Key(SourceKey(v.members, k))] + SourcePath(v.members[SourceKey(v.members, k)], path[1..])
        else path
      case Index(i) =>
        if v.Array? && i < |v.items| then [Index(i)] + SourcePath(v.items[i], path[1..]) else path
  }

  /**
   Every value of the rewrite is the rewrite of the value it came from: nothing but the renamed
   entries, and the entries they displace, differs from the original.
   */
  lemma {:induction false} RestIsUnchanged(v: Json, path: seq<PathStep>)
    ensures Lookup(Renamed(v), path) ==
            if Key(REASONING) in path then None
            else match Lookup(v, SourcePath(v, path))
                 case Some(x) => Some(Renamed(x))
                 case None => None
    decreases |path|
  {
    if path != [] {
      assert path == [path[0]] + path[1..];
      var source := SourcePath(v, path);
      match path[0]
      case Key(k) =>
        if v.Object? && SourceKey(v.members, k) in v.members {
          var from := SourceKey(v.members, k);
          RestIsUnchanged(v.members[from], path[1..]);
          assert source[0] == Key(from) && source[1..] == SourcePath(v.members[from], path[1..]);
        }
      case Index(i) =>
        if v.Array? && i < |v.items| {
          RestIsUnchanged(v.items[i], path[1..]);
          assert source[0] == Index(i) && source[1..] == SourcePath(v.items[i], path[1..]);
        }
    }
  }

  // ---- Shadowing the model name ----

  const MODEL := "model"
  const SYSTEM_FINGERPRINT := "system_fingerprint"
  const FINGERPRINT := String("ait-proxy")

  function Injected(v: Json, model: string): Json {
    match v
    case Object(m) => Object(m[MODEL := String(model)][SYSTEM_FINGERPRINT := FINGERPRINT])
    case _ => v
  }

  /** Ollama's response rewrite on a parsed body. */
  function Rewritten(v: Json, model: string): Json {
    Renamed(Injected(v, model))
  }

  lemma KeysDiffer()
    ensures MODEL != REASONING && MODEL != REASONING_CONTENT && MODEL != SYSTEM_FINGERPRINT
    ensures SYSTEM_FINGERPRINT != REASONING && SYSTEM_FINGERPRINT != REASONING_CONTENT
  {
    assert |MODEL| == 5 && |REASONING| == 9 && |REASONING_CONTENT| == 17 && |SYSTEM_FINGERPRINT| == 18;
  }

  predicate Shadows(v: Json, model: string) {
    v.Object? ==>
      && MODEL in v.members && v.members[MODEL] == String(model)
      && SYSTEM_FINGERPRINT in v.members && v.members[SYSTEM_FINGERPRINT] == FINGERPRINT
  }

  lemma KeptKey(m: map<string, Json>, k: string)
    requires k in m && k != REASONING && k != REASONING_CONTENT
    ensures Renamed(Object(m)).Object? && k in Renamed(Object(m)).members
    ensures Renamed(Object(m)).members[k] == Renamed(m[k])
  {
    assert k in RenamedKeys(m) && SourceKey(m, k) == k;
  }

  /** The shadowed entries survive the rename. */
  lemma RewrittenShadows(v: Json, model: string)
    ensures Shadows(Rewritten(v, model), model)
  {
    KeysDiffer();
    if v.Object? {
      var m := Injected(v, model).members;
      assert m[MODEL] == String(model) && m[SYSTEM_FINGERPRINT] == FINGERPRINT;
      KeptKey(m, MODEL);
      KeptKey(m, SYSTEM_FINGERPRINT);
    }
  }

  /** Shadowing leaves every other member as it is, and a body that is no object altogether. */
  lemma InjectedKeepsRest(v: Json, model: string, path: seq<PathStep>)
    requires path != [] && path[0] != Key(MODEL) && path[0] != Key(SYSTEM_FINGERPRINT)
    ensures Lookup(Injected(v, model), path) == Lookup(v, path)
    ensures !v.Object? ==> Injected(v, model) == v
  {
  }

  /** So under every other key the rewritten body is the renamed one. */
  lemma RewrittenKeepsRest(v: Json, model: string, path: seq<PathStep>)
    requires path != [] && path[0] != Key(MODEL) && path[0] != Key(SYSTEM_FINGERPRINT)
    ensures Lookup(Rewritten(v, model), path) == Lookup(Renamed(v), path)
  {
    KeysDiffer();
    if v.Object? && path[0].Key? {
      var k, m, injected := path[0].name, v.members, Injected(v, model).members;
      assert SourceKey(injected, k) == SourceKey(m, k);
      assert k in RenamedKeys(injected) <==> k in RenamedKeys(m);
      if k in RenamedKeys(m) {
        SameMember(m, injected, k);
      }
    }
  }

  lemma SameMember(m: map<string, Json>, n: map<string, Json>, k: string)
    requires k in RenamedKeys(m) && k in RenamedKeys(n) && SourceKey(m, k) == SourceKey(n, k)
    requires m[SourceKey(m, k)] == n[SourceKey(n, k)]
    ensures Renamed(Object(m)).members[k] == Renamed(Object(n)).members[k]
  {
  }

  lemma InjectingTwice(v: Json, model: string)
    requires Shadows(v, model)
    ensures Injected(v, model) == v
  {
    if v.Object? {
      assert v.members[MODEL := String(model)][SYSTEM_FINGERPRINT := FINGERPRINT] == v.members;
    }
  }

  /** Rewriting a rewritten body changes nothing. */
  lemma RewriteIsIdempotent(v: Json, model: string)
    ensures Rewritten(Rewritten(v, model), model) == Rewritten(v, model)
  {
    RewrittenShadows(v, model);
    InjectingTwice(Rewritten(v, model), model);
    RenameIsIdempotent(Injected(v, model));
  }

  // ---- The code ----

  /** Remove the key and insert its value under the new one. */
  method MoveEntry(m: map<string, Json>) returns (r: map<string, Json>)
    ensures r.Keys == RenamedKeys(m)
    ensures forall k :: k in r ==> SourceKey(m, k) in m && r[k] == m[SourceKey(m, k)]
  {
    r := m;
    if REASONING in m {
      r := r - {REASONING};
      r := r[REASONING_CONTENT := m[REASONING]];
    }
  }

  method RenameMembers(ghost whole: Json, m: map<string, Json>) returns (done: map<string, Json>)
    requires whole == Object(m)
    ensures Object(done) == Renamed(whole)
    decreases whole, 0
  {
    var moved := MoveEntry(m);
    done := map[];
    var rest := moved.Keys;
    while rest != {}
      invariant rest <= moved.Keys && done.Keys == moved.Keys - rest
      invariant forall k :: k in done ==> done[k] == Renamed(m[SourceKey(m, k)])
      decreases rest
    {
      var k :| k in rest;
      var val := RenameReasoningKey(m[SourceKey(m, k)]);
      done := done[k := val];
      rest := rest - {k};
    }
    MembersRenamed(m, done);
  }

  lemma MembersRenamed(m: map<string, Json>, done: map<string, Json>)
    requires done.Keys == RenamedKeys(m)
    requires forall k :: k in done ==> done[k] == Renamed(m[SourceKey(m, k)])
    ensures Object(done) == Renamed(Object(m))
  {
  }

  method RenameItems(ghost whole: Json, items: seq<Json>) returns (done: seq<Json>)
    requires whole == Array(items)
    ensures Array(done) == Renamed(whole)
    decreases whole, 0
  {
    done := [];
    for i := 0 to |items|
      invariant |done| == i && forall j :: 0 <= j < i ==> done[j] == Renamed(items[j])
    {
      var val := RenameReasoningKey(items[i]);
      done := done + [val];
    }
  }

  method RenameReasoningKey(v: Json) returns (r: Json)
    ensures r == Renamed(v)
    decreases v, 1
  {
    match v {
      case Object(m) =>
        var members := RenameMembers(v, m);
        r := Object(members);
      case Array(items) =>
        var renamed := RenameItems(v, items);
        r := Array(renamed);
      case _ => r := v;
    }
  }
}
