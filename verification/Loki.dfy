/**
 The Loki push payload: a batch of events grouped into one stream per label set, each stream sorted
 by nanosecond timestamp. Grouping is a permutation of the batch and the sort is stable.
 */
module Loki {
  type Labels = map<string, string>

  /** An event with its timestamp in nanoseconds, the fields that become labels, and its JSON line. */
  datatype LogEvent =
    | Access(at: int, httpMethod: string, line: string)
    | Proxy(at: int, modelName: string, status: string, isStreaming: bool, line: string)
    | Audit(at: int, action: string, resource: string, line: string)
    | Shutdown

  datatype Entry = Entry(ns: int, line: string)

  datatype Stream = Stream(labels: Labels, values: seq<Entry>)

  /** An event's labels override static labels of the same name. */
  function LabelsOf(e: LogEvent, labels: Labels): Labels {
    match e
    case Access(_, m, _) => labels["event_type" := "access"]["method" := m]
    case Proxy(_, m, status, streaming, _) =>
      labels["event_type" := "proxy"]["model_name" := m]["status" := status]["is_streaming" := if streaming then "true" else "false"]
    case Audit(_, action, resource, _) => labels["event_type" := "audit"]["action" := action]["resource" := resource]
    case Shutdown => labels
  }

  /** The events agree on their kind and on the fields of bounded cardinality. */
  predicate SameBounded(a: LogEvent, b: LogEvent) {
    match (a, b)
    case (Access(_, m, _), Access(_, n, _)) => m == n
    case (Proxy(_, m, s, x, _), Proxy(_, n, t, y, _)) => m == n && s == t && x == y
    case (Audit(_, c, r, _), Audit(_, d, q, _)) => c == d && r == q
    case _ => false
  }

  lemma LabelNamesDiffer()
    ensures "event_type" != "method" && "event_type" != "model_name" && "event_type" != "status"
    ensures "event_type" != "is_streaming" && "event_type" != "action" && "event_type" != "resource"
    ensures "model_name" != "status" && "model_name" != "is_streaming" && "status" != "is_streaming"
    ensures "action" != "resource"
    ensures "access" != "proxy" && "access" != "audit" && "proxy" != "audit" && "true" != "false"
  {
    assert "event_type"[0] == 'e' && "model_name"[0] == 'm';
    assert "proxy"[0] == 'p' && "audit"[0] == 'a';
  }

  /** Events share a stream exactly when their bounded fields agree; no static label gets in the way. */
  lemma SharedLabelsIff(a: LogEvent, b: LogEvent, labels: Labels)
    requires !a.Shutdown? && !b.Shutdown?
    ensures LabelsOf(a, labels) == LabelsOf(b, labels) <==> SameBounded(a, b)
  {
    LabelNamesDiffer();
    var x, y := LabelsOf(a, labels), LabelsOf(b, labels);
    assert x["event_type"] == if a.Access? then "access" else if a.Proxy? then "proxy" else "audit";
    assert y["event_type"] == if b.Access? then "access" else if b.Proxy? then "proxy" else "audit";
    match (a, b)
    case (Access(_, m, _), Access(_, n, _)) => assert x["method"] == m && y["method"] == n;
    case (Proxy(_, m, s, _, _), Proxy(_, n, t, _, _)) =>
      assert x["model_name"] == m && y["model_name"] == n && x["status"] == s && y["status"] == t;
      assert x["is_streaming"] == (if a.isStreaming then "true" else "false");
      assert y["is_streaming"] == (if b.isStreaming then "true" else "false");
    case (Audit(_, c, r, _), Audit(_, d, q, _)) =>
      assert x["action"] == c && y["action"] == d && x["resource"] == r && y["resource"] == q;
    case _ =>
  }

  /** A timestamp outside the 64-bit nanosecond range counts as zero. */
  function Nanos(at: int): int {
    if -0x8000_0000_0000_0000 <= at < 0x8000_0000_0000_0000 then at else 0
  }

  function EntryOf(e: LogEvent): Entry
    requires !e.Shutdown?
  {
    Entry(Nanos(e.at), e.line)
  }

  // ---- Groups ----

  predicate Belongs(e: LogEvent, labels: Labels, to: Labels) {
    !e.Shutdown? && LabelsOf(e, labels) == to
  }

  /** The entries of the events with one label set, in batch order. */
  function Group(events: seq<LogEvent>, labels: Labels, of: Labels): seq<Entry> {
    if events == [] then []
    else
      var n := |events| - 1;
      if Belongs(events[n], labels, of) then Group(events[..n], labels, of) + [EntryOf(events[n])]
      else Group(events[..n], labels, of)
  }

  lemma {:induction false} GroupIsEmptyIff(events: seq<LogEvent>, labels: Labels, of: Labels)
    ensures Group(events, labels, of) != [] <==> exists e :: e in events && Belongs(e, labels, of)
    decreases |events|
  {
    if events != [] {
      var n := |events| - 1;
      GroupIsEmptyIff(events[..n], labels, of);
      assert forall e :: e in events <==> e in events[..n] || e == events[n];
    }
  }

  lemma GroupSnoc(events: seq<LogEvent>, e: LogEvent, labels: Labels, of: Labels)
    ensures Group(events + [e], labels, of) ==
            if Belongs(e, labels, of) then Group(events, labels, of) + [EntryOf(e)] else Group(events, labels, of)
  {
    assert (events + [e])[..|events|] == events;
  }

  function Entries(events: seq<LogEvent>): seq<Entry> {
    if events == [] then []
    else
      var n := |events| - 1;
      Entries(events[..n]) + if events[n].Shutdown? then [] else [EntryOf(events[n])]
  }

  // ---- Stable sorting ----

  predicate Ascending(values: seq<Entry>) {
    forall i, j :: 0 <= i < j < |values| ==> values[i].ns <= values[j].ns
  }

  /** The entries of one instant, in order. */
  function AtNs(values: seq<Entry>, ns: int): seq<Entry> {
    if values == [] then []
    else if values[0].ns == ns then [values[0]] + AtNs(values[1..], ns)
    else AtNs(values[1..], ns)
  }

  /** A stable sort: ascending, and the entries of every instant as they were. */
  ghost predicate StablySorted(values: seq<Entry>, sorted: seq<Entry>) {
    Ascending(sorted) && forall ns :: AtNs(sorted, ns) == AtNs(values, ns)
  }

  function InsertFirst(v: Entry, sorted: seq<Entry>): seq<Entry> {
    if sorted == [] || v.ns <= sorted[0].ns then [v] + sorted
    else [sorted[0]] + InsertFirst(v, sorted[1..])
  }

  function SortByNs(values: seq<Entry>): seq<Entry> {
    if values == [] then [] else InsertFirst(values[0], SortByNs(values[1..]))
  }

  lemma {:induction false} InsertPermutes(v: Entry, sorted: seq<Entry>)
    ensures multiset(InsertFirst(v, sorted)) == multiset(sorted) + multiset{v}
  {
    if sorted != [] && v.ns > sorted[0].ns {
      InsertPermutes(v, sorted[1..]);
      assert sorted == [sorted[0]] + sorted[1..];
    }
  }

  lemma {:induction false} SortPermutes(values: seq<Entry>)
    ensures multiset(SortByNs(values)) == multiset(values)
  {
    if values != [] {
      SortPermutes(values[1..]);
      InsertPermutes(values[0], SortByNs(values[1..]));
      assert values == [values[0]] + values[1..];
    }
  }

  lemma ConsAscends(v: Entry, rest: seq<Entry>)
    requires Ascending(rest) && forall x :: x in rest ==> v.ns <= x.ns
    ensures Ascending([v] + rest)
  {
  }

  lemma {:induction false} InsertAscends(v: Entry, sorted: seq<Entry>)
    requires Ascending(sorted)
    ensures Ascending(InsertFirst(v, sorted))
    ensures forall x :: x in InsertFirst(v, sorted) ==> x == v || x in sorted
  {
    if sorted == [] || v.ns <= sorted[0].ns {
      ConsAscends(v, sorted);
    } else {
      InsertAscends(v, sorted[1..]);
      ConsAscends(sorted[0], InsertFirst(v, sorted[1..]));
    }
  }

  lemma ConsAtNs(v: Entry, rest: seq<Entry>, ns: int)
    ensures AtNs([v] + rest, ns) == if v.ns == ns then [v] + AtNs(rest, ns) else AtNs(rest, ns)
  {
    assert ([v] + rest)[1..] == rest;
  }

  lemma {:induction false} InsertStable(v: Entry, sorted: seq<Entry>, ns: int)
    ensures AtNs(InsertFirst(v, sorted), ns) == AtNs([v] + sorted, ns)
  {
    ConsAtNs(v, sorted, ns);
    if sorted != [] && v.ns > sorted[0].ns {
      var rest := sorted[1..];
      InsertStable(v, rest, ns);
      ConsAtNs(v, rest, ns);
      ConsAtNs(sorted[0], InsertFirst(v, rest), ns);
      ConsAtNs(sorted[0], rest, ns);
      assert sorted == [sorted[0]] + rest;
    }
  }

  lemma {:induction false} SortIsStable(values: seq<Entry>)
    ensures StablySorted(values, SortByNs(values))
  {
    if values != [] {
      var rest := values[1..];
      SortIsStable(rest);
      InsertAscends(values[0], SortByNs(rest));
      forall ns
        ensures AtNs(SortByNs(values), ns) == AtNs(values, ns)
      {
        InsertStable(values[0], SortByNs(rest), ns);
        ConsAtNs(values[0], SortByNs(rest), ns);
        ConsAtNs(values[0], rest, ns);
        assert values == [values[0]] + rest;
      }
    }
  }

  lemma {:induction false} AtNsMembers(values: seq<Entry>, v: Entry)
    ensures v in AtNs(values, v.ns) <==> v in values
  {
    if values != [] {
      AtNsMembers(values[1..], v);
    }
  }

  /** A stable sort is unique, so `SortByNs` is the result of whichever algorithm is used. */
  lemma {:induction false} StableSortIsUnique(a: seq<Entry>, b: seq<Entry>)
    requires Ascending(a) && Ascending(b) && forall ns :: AtNs(a, ns) == AtNs(b, ns)
    ensures a == b
  {
    var first := if b != [] then b[0] else Entry(0, "");
    assert b != [] ==> first in b;
    forall v
      ensures v in a <==> v in b
    {
      AtNsMembers(a, v);
      AtNsMembers(b, v);
    }
    if a != [] {
      assert a[0] in b && b[0] in a;
      assert a[0].ns == b[0].ns;
      assert AtNs(a, a[0].ns)[0] == a[0] && AtNs(b, a[0].ns)[0] == b[0];
      var v := a[0];
      assert a == [v] + a[1..] && b == [v] + b[1..];
      forall ns
        ensures AtNs(a[1..], ns) == AtNs(b[1..], ns)
      {
        ConsAtNs(v, a[1..], ns);
        ConsAtNs(v, b[1..], ns);
        assert v.ns == ns ==> AtNs(a[1..], ns) == AtNs(a, ns)[1..] && AtNs(b[1..], ns) == AtNs(b, ns)[1..];
      }
      StableSortIsUnique(a[1..], b[1..]);
    }
  }

  // ---- The payload ----

  ghost predicate Distinct(streams: seq<Stream>) {
    forall i, j :: 0 <= i < j < |streams| ==> streams[i].labels != streams[j].labels
  }

  predicate Names(streams: seq<Stream>, labels: Labels) {
    exists s :: s in streams && s.labels == labels
  }

  /** One stream per label set that occurs, each the stable sort of its own group. */
  ghost predicate PayloadOf(events: seq<LogEvent>, labels: Labels, streams: seq<Stream>) {
    && Distinct(streams)
    && (forall s :: s in streams ==> s.values == SortByNs(Group(events, labels, s.labels)) && s.values != [])
    && (forall e :: e in events && !e.Shutdown? ==> Names(streams, LabelsOf(e, labels)))
  }

  function AllValues(streams: seq<Stream>): seq<Entry> {
    if streams == [] then [] else AllValues(streams[..|streams| - 1]) + streams[|streams| - 1].values
  }

  /** The groups of the streams' label sets, before sorting. */
  function Unsorted(events: seq<LogEvent>, labels: Labels, streams: seq<Stream>): seq<Entry> {
    if streams == [] then []
    else
      var n := |streams| - 1;
      Unsorted(events, labels, streams[..n]) + Group(events, labels, streams[n].labels)
  }

  /** What one more event adds to the stream, or streams, of a label set. */
  function Added(e: LogEvent, labels: Labels, to: bool): multiset<Entry> {
    if !e.Shutdown? && to then multiset{EntryOf(e)} else multiset{}
  }

  lemma GroupGrows(events: seq<LogEvent>, labels: Labels, of: Labels)
    requires events != []
    ensures var n := |events| - 1;
            multiset(Group(events, labels, of)) ==
            multiset(Group(events[..n], labels, of)) + Added(events[n], labels, LabelsOf(events[n], labels) == of)
  {
  }

  lemma NamesSnoc(streams: seq<Stream>, s: Stream)
    ensures forall l :: Names(streams + [s], l) <==> Names(streams, l) || l == s.labels
  {
    assert forall o :: o in streams + [s] <==> o in streams || o == s;
  }

  lemma LastName(streams: seq<Stream>, l: Labels)
    requires streams != [] && Distinct(streams)
    ensures var m := |streams| - 1;
            && (Names(streams, l) <==> Names(streams[..m], l) || l == streams[m].labels)
            && !(Names(streams[..m], l) && l == streams[m].labels)
  {
    var m := |streams| - 1;
    NamesSnoc(streams[..m], streams[m]);
    assert streams == streams[..m] + [streams[m]];
  }

  lemma AddedToOne(e: LogEvent, labels: Labels, a: bool, b: bool)
    requires !(a && b)
    ensures Added(e, labels, a) + Added(e, labels, b) == Added(e, labels, a || b)
  {
  }

  lemma {:induction false} OneMoreEvent(events: seq<LogEvent>, labels: Labels, streams: seq<Stream>)
    requires events != [] && Distinct(streams)
    ensures var n := |events| - 1;
            multiset(Unsorted(events, labels, streams)) ==
            multiset(Unsorted(events[..n], labels, streams)) +
            Added(events[n], labels, Names(streams, LabelsOf(events[n], labels)))
    decreases |streams|
  {
    if streams != [] {
      var m, e := |streams| - 1, events[|events| - 1];
      OneMoreEvent(events, labels, streams[..m]);
      GroupGrows(events, labels, streams[m].labels);
      LastName(streams, LabelsOf(e, labels));
      AddedToOne(e, labels, Names(streams[..m], LabelsOf(e, labels)), LabelsOf(e, labels) == streams[m].labels);
    }
  }

  lemma {:induction false} GroupsPartition(events: seq<LogEvent>, labels: Labels, streams: seq<Stream>)
    requires Distinct(streams)
    requires forall e :: e in events && !e.Shutdown? ==> Names(streams, LabelsOf(e, labels))
    ensures multiset(Unsorted(events, labels, streams)) == multiset(Entries(events))
    decreases |events|
  {
    if events == [] {
      NothingUnsorted(labels, streams);
    } else {
      var n := |events| - 1;
      assert forall e :: e in events[..n] ==> e in events;
      assert events[n] in events;
      GroupsPartition(events[..n], labels, streams);
      OneMoreEvent(events, labels, streams);
    }
  }

  lemma {:induction false} NothingUnsorted(labels: Labels, streams: seq<Stream>)
    ensures Unsorted([], labels, streams) == []
    decreases |streams|
  {
    if streams != [] {
      NothingUnsorted(labels, streams[..|streams| - 1]);
    }
  }

  lemma {:induction false} SortingKeepsValues(events: seq<LogEvent>, labels: Labels, streams: seq<Stream>)
    requires forall s :: s in streams ==> s.values == SortByNs(Group(events, labels, s.labels))
    ensures multiset(AllValues(streams)) == multiset(Unsorted(events, labels, streams))
    decreases |streams|
  {
    if streams != [] {
      var m := |streams| - 1;
      assert forall s :: s in streams[..m] ==> s in streams;
      assert streams[m] in streams;
      SortingKeepsValues(events, labels, streams[..m]);
      SortPermutes(Group(events, labels, streams[m].labels));
    }
  }

  /** The payload is a permutation of the batch's events: each exactly once, none invented. */
  lemma PayloadIsPermutation(events: seq<LogEvent>, labels: Labels, streams: seq<Stream>)
    requires PayloadOf(events, labels, streams)
    ensures multiset(AllValues(streams)) == multiset(Entries(events))
  {
    SortingKeepsValues(events, labels, streams);
    GroupsPartition(events, labels, streams);
  }

  /** Each stream ascends, keeps batch order within an instant, and only holds its own events. */
  lemma StreamsAreStable(events: seq<LogEvent>, labels: Labels, streams: seq<Stream>, s: Stream)
    requires PayloadOf(events, labels, streams) && s in streams
    ensures Ascending(s.values)
    ensures forall ns :: AtNs(s.values, ns) == AtNs(Group(events, labels, s.labels), ns)
    ensures exists e :: e in events && Belongs(e, labels, s.labels)
  {
    SortIsStable(Group(events, labels, s.labels));
    SortPermutes(Group(events, labels, s.labels));
    assert s.values[0] in multiset(s.values);
    GroupIsEmptyIff(events, labels, s.labels);
  }

  // ---- What each entry says ----

  /** The labels an event gets of its own. */
  function Tags(e: LogEvent): Labels {
    match e
    case Access(_, m, _) => map["event_type" := "access", "method" := m]
    case Proxy(_, m, status, streaming, _) =>
      map["event_type" := "proxy", "model_name" := m, "status" := status, "is_streaming" := if streaming then "true" else "false"]
    case Audit(_, action, resource, _) => map["event_type" := "audit", "action" := action, "resource" := resource]
    case Shutdown => map[]
  }

  /** The event's own labels, and every static label that none of them overrides. */
  predicate Tagged(to: Labels, labels: Labels, e: LogEvent) {
    && to.Keys == labels.Keys + Tags(e).Keys
    && forall k :: k in to ==> to[k] == if k in Tags(e) then Tags(e)[k] else labels[k]
  }

  lemma LabelsAreTags(e: LogEvent, labels: Labels)
    ensures Tagged(LabelsOf(e, labels), labels, e)
  {
    LabelNamesDiffer();
    TagsDiffer(e);
  }

  lemma TagsDiffer(e: LogEvent)
    ensures Tags(e).Keys == match e
                            case Access(_, _, _) => {"event_type", "method"}
                            case Proxy(_, _, _, _, _) => {"event_type", "model_name", "status", "is_streaming"}
                            case Audit(_, _, _, _) => {"event_type", "action", "resource"}
                            case Shutdown => {}
  {
  }

  /** Its own line, at its own instant if that is a 64-bit number of nanoseconds and at zero if not. */
  predicate Tells(v: Entry, e: LogEvent) {
    && !e.Shutdown? && v.line == e.line
    && v.ns == if e.at < -0x8000_0000_0000_0000 || e.at >= 0x8000_0000_0000_0000 then 0 else e.at
  }

  /** The stream carries the event: under its labels, with its instant and line. */
  predicate Carries(s: Stream, labels: Labels, e: LogEvent) {
    Tagged(s.labels, labels, e) && exists v :: v in s.values && Tells(v, e)
  }

  lemma {:induction false} GroupTells(events: seq<LogEvent>, labels: Labels, of: Labels, v: Entry)
    requires v in Group(events, labels, of)
    ensures exists e :: e in events && Tagged(of, labels, e) && Tells(v, e)
    decreases |events|
  {
    var n := |events| - 1;
    if v in Group(events[..n], labels, of) {
      GroupTells(events[..n], labels, of, v);
    } else {
      LabelsAreTags(events[n], labels);
      assert Tells(v, events[n]);
    }
  }

  lemma {:induction false} GroupHasEntry(events: seq<LogEvent>, labels: Labels, e: LogEvent)
    requires e in events && !e.Shutdown?
    ensures EntryOf(e) in Group(events, labels, LabelsOf(e, labels))
    decreases |events|
  {
    var n := |events| - 1;
    if e in events[..n] {
      GroupHasEntry(events[..n], labels, e);
    }
  }

  /** Every event of the batch that is no marker is carried by a stream, with its own labels, instant and line. */
  lemma EventsAreCarried(events: seq<LogEvent>, labels: Labels, streams: seq<Stream>, e: LogEvent)
    requires PayloadOf(events, labels, streams) && e in events && !e.Shutdown?
    ensures exists s :: s in streams && Carries(s, labels, e)
  {
    var l := LabelsOf(e, labels);
    var s :| s in streams && s.labels == l;
    LabelsAreTags(e, labels);
    GroupHasEntry(events, labels, e);
    SortPermutes(Group(events, labels, l));
    assert EntryOf(e) in multiset(s.values);
    assert Tells(EntryOf(e), e);
  }

  /** Nothing else is: an entry of a stream tells of an event of the batch that has the stream's labels. */
  lemma EntriesAreEvents(events: seq<LogEvent>, labels: Labels, streams: seq<Stream>, s: Stream, v: Entry)
    requires PayloadOf(events, labels, streams) && s in streams && v in s.values
    ensures exists e :: e in events && Tagged(s.labels, labels, e) && Tells(v, e)
  {
    SortPermutes(Group(events, labels, s.labels));
    assert v in multiset(s.values);
    GroupTells(events, labels, s.labels, v);
  }

  // ---- The code ----

  type Groups = map<Labels, seq<Entry>>

  ghost predicate GroupsOf(events: seq<LogEvent>, labels: Labels, groups: Groups) {
    && (forall l :: l in groups ==> groups[l] == Group(events, labels, l) && groups[l] != [])
    && (forall e :: e in events && !e.Shutdown? ==> LabelsOf(e, labels) in groups)
  }

  /** The groups after one more event, as the map entry API updates them. */
  function Grown(groups: Groups, labels: Labels, e: LogEvent): Groups {
    if e.Shutdown? then groups
    else
      var l := LabelsOf(e, labels);
      groups[l := (if l in groups then groups[l] else []) + [EntryOf(e)]]
  }

  lemma GroupsGrow(events: seq<LogEvent>, labels: Labels, groups: Groups, e: LogEvent)
    requires GroupsOf(events, labels, groups)
    ensures GroupsOf(events + [e], labels, Grown(groups, labels, e))
  {
    var grown := Grown(groups, labels, e);
    forall l | l in grown
      ensures grown[l] == Group(events + [e], labels, l) && grown[l] != []
    {
      GroupSnoc(events, e, labels, l);
      GroupIsEmptyIff(events, labels, l);
    }
    assert forall o :: o in events + [e] <==> o in events || o == e;
  }

  method GroupEvents(events: seq<LogEvent>, labels: Labels) returns (groups: Groups)
    ensures GroupsOf(events, labels, groups)
  {
    groups := map[];
    for i := 0 to |events|
      invariant GroupsOf(events[..i], labels, groups)
    {
      GroupsGrow(events[..i], labels, groups, events[i]);
      assert events[..i + 1] == events[..i] + [events[i]];
      groups := Grown(groups, labels, events[i]);
    }
    assert events[..|events|] == events;
  }

  predicate StreamOf(groups: Groups, s: Stream) {
    s.labels in groups && s.values == SortByNs(groups[s.labels])
  }

  /** Every group sorted into a stream; which order the streams come in is left open. */
  method SortGroups(groups: Groups) returns (streams: seq<Stream>)
    ensures Distinct(streams) && forall s :: s in streams ==> StreamOf(groups, s)
    ensures forall l :: l in groups ==> Names(streams, l)
  {
    streams := [];
    var rest := groups.Keys;
    while rest != {}
      invariant rest <= groups.Keys
      invariant Distinct(streams) && forall s :: s in streams ==> StreamOf(groups, s) && s.labels !in rest
      invariant forall l :: l in groups && l !in rest ==> Names(streams, l)
      decreases rest
    {
      var l :| l in rest;
      var s := Stream(l, SortByNs(groups[l]));
      NamesSnoc(streams, s);
      streams := streams + [s];
      rest := rest - {l};
    }
  }

  /** Group the batch by label set, then sort each group. */
  method BuildPushPayload(events: seq<LogEvent>, labels: Labels) returns (streams: seq<Stream>)
    ensures PayloadOf(events, labels, streams)
    ensures multiset(AllValues(streams)) == multiset(Entries(events))
  {
    var groups := GroupEvents(events, labels);
    streams := SortGroups(groups);
    forall s | s in streams
      ensures s.values == SortByNs(Group(events, labels, s.labels)) && s.values != []
    {
      assert StreamOf(groups, s);
      SortPermutes(groups[s.labels]);
      assert groups[s.labels][0] in multiset(s.values);
    }
    PayloadIsPermutation(events, labels, streams);
  }
}
