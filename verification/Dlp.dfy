/**
 The sensitive-value scan: a JSON tree is searched leaf by leaf with a multi-pattern matcher that
 reports non-overlapping matches, and the lowest rule index seen wins. A scan blocks exactly the
 bodies in which a rule occurs; when it also names the first configured rule is stated exactly.
 */
module Dlp {
  import opened ByteStrings
  import opened JsonTree

  // ---- Occurrences ----

  datatype Match = Match(pattern: nat, start: nat)

  predicate NonEmpty(rules: seq<string>) {
    forall k :: 0 <= k < |rules| ==> rules[k] != ""
  }

  /** `m` is an occurrence of its rule that starts at `at` or later. */
  predicate IsMatch(rules: seq<string>, text: string, at: nat, m: Match) {
    && m.pattern < |rules| && at <= m.start
    && m.start + |rules[m.pattern]| <= |text|
    && text[m.start..m.start + |rules[m.pattern]|] == rules[m.pattern]
  }

  function End(rules: seq<string>, m: Match): nat
    requires m.pattern < |rules|
  {
    m.start + |rules[m.pattern]|
  }

  predicate Occurs(rules: seq<string>, text: string, k: nat) {
    k < |rules| && exists i: nat | i <= |text| :: IsMatch(rules, text, 0, Match(k, i))
  }

  // ---- The matcher ----

  ghost predicate Earliest(rules: seq<string>, text: string, at: nat, m: Match) {
    && IsMatch(rules, text, at, m)
    && forall o :: IsMatch(rules, text, at, o) ==> End(rules, m) <= End(rules, o)
  }

  /**
   What iterating the matcher reports: from `at`, a match that ends first, whichever of those it
   picks, then the same from its end on.
   */
  ghost predicate FindIter(rules: seq<string>, text: string, at: nat, matches: seq<Match>)
    decreases |matches|
  {
    if matches == [] then forall m :: !IsMatch(rules, text, at, m)
    else Earliest(rules, text, at, matches[0]) && FindIter(rules, text, End(rules, matches[0]), matches[1..])
  }

  function Patterns(matches: seq<Match>): set<nat> {
    set m | m in matches :: m.pattern
  }

  lemma PatternsSplit(matches: seq<Match>)
    requires matches != []
    ensures Patterns(matches) == {matches[0].pattern} + Patterns(matches[1..])
  {
    assert matches == [matches[0]] + matches[1..];
  }

  lemma {:induction false} EarliestExists(rules: seq<string>, text: string, at: nat, m: Match) returns (first: Match)
    requires IsMatch(rules, text, at, m)
    ensures Earliest(rules, text, at, first)
    decreases End(rules, m)
  {
    first := m;
    if o :| IsMatch(rules, text, at, o) && End(rules, o) < End(rules, m) {
      first := EarliestExists(rules, text, at, o);
    }
  }

  /** The matcher has a report for every text. */
  lemma {:induction false} FindIterExists(rules: seq<string>, text: string, at: nat) returns (matches: seq<Match>)
    requires NonEmpty(rules)
    ensures FindIter(rules, text, at, matches)
    decreases |text| + 1 - at
  {
    if m :| IsMatch(rules, text, at, m) {
      var first := EarliestExists(rules, text, at, m);
      var rest := FindIterExists(rules, text, End(rules, first));
      matches := [first] + rest;
    } else {
      matches := [];
    }
  }

  lemma {:induction false} ReportedOccur(rules: seq<string>, text: string, at: nat, matches: seq<Match>)
    requires FindIter(rules, text, at, matches)
    ensures forall k :: k in Patterns(matches) ==> Occurs(rules, text, k)
    decreases |matches|
  {
    if matches != [] {
      var m := matches[0];
      ReportedOccur(rules, text, End(rules, m), matches[1..]);
      assert IsMatch(rules, text, 0, Match(m.pattern, m.start));
      assert forall o :: o in matches ==> o == m || o in matches[1..];
    }
  }

  /** Something is reported exactly when some rule occurs. */
  lemma ReportsIffOccurs(rules: seq<string>, text: string, matches: seq<Match>)
    requires FindIter(rules, text, 0, matches)
    ensures Patterns(matches) != {} <==> exists k: nat :: Occurs(rules, text, k)
  {
    ReportedOccur(rules, text, 0, matches);
    if matches != [] {
      assert matches[0].pattern in Patterns(matches);
    }
  }

  // ---- Which rule is named ----

  /** The first configured rule that occurs. */
  predicate Lowest(rules: seq<string>, text: string, k: nat) {
    Occurs(rules, text, k) && forall l: nat :: l < k ==> !Occurs(rules, text, l)
  }

  /** Placed `d` characters into `a`, `b` agrees with it on every character they share. */
  predicate Overlaps(a: string, b: string, d: nat) {
    d < |a| && forall x :: 0 <= x < |b| && d + x < |a| ==> a[d + x] == b[x]
  }

  predicate CannotOverlap(rules: seq<string>) {
    forall k: nat, l: nat, d: nat ::
      k < |rules| && l < |rules| && k != l && d < |rules[k]| ==> !Overlaps(rules[k], rules[l], d)
  }

  lemma SharingMeansOverlap(rules: seq<string>, text: string, a: Match, b: Match)
    requires IsMatch(rules, text, 0, a) && IsMatch(rules, text, 0, b)
    requires a.start <= b.start < End(rules, a)
    ensures Overlaps(rules[a.pattern], rules[b.pattern], b.start - a.start)
  {
    var d, ra, rb := b.start - a.start, rules[a.pattern], rules[b.pattern];
    forall x | 0 <= x < |rb| && d + x < |ra|
      ensures ra[d + x] == rb[x]
    {
      assert ra[d + x] == text[a.start..End(rules, a)][d + x] && rb[x] == text[b.start..End(rules, b)][x];
    }
  }

  /** When distinct rules cannot overlap, every rule that occurs is reported. */
  lemma {:induction false} AllAreReported(rules: seq<string>, text: string, at: nat, matches: seq<Match>, m: Match)
    requires NonEmpty(rules) && CannotOverlap(rules)
    requires FindIter(rules, text, at, matches) && IsMatch(rules, text, at, m)
    ensures m.pattern in Patterns(matches)
    decreases |matches|
  {
    var first := matches[0];
    if first.pattern != m.pattern {
      if m.start < End(rules, first) {
        if first.start <= m.start {
          SharingMeansOverlap(rules, text, first, m);
        } else {
          SharingMeansOverlap(rules, text, m, first);
        }
        assert false;
      }
      AllAreReported(rules, text, End(rules, first), matches[1..], m);
    }
  }

  /** The first configured rule that occurs goes unreported under some choice of the matcher. */
  ghost predicate Misses(rules: seq<string>, text: string) {
    exists matches, k: nat :: FindIter(rules, text, 0, matches) && Lowest(rules, text, k) && k !in Patterns(matches)
  }

  /** The input: `ab` ends before `bc` does, and takes its first character. */
  lemma LowestCanBeMissed()
    ensures NonEmpty(["bc", "ab"]) && Misses(["bc", "ab"], "abc")
  {
    var rules, text := ["bc", "ab"], "abc";
    var m := Match(1, 0);
    assert text[0..2] == "ab" && text[1..3] == "bc";
    assert IsMatch(rules, text, 0, m) && IsMatch(rules, text, 0, Match(0, 1));
    assert FindIter(rules, text, 2, []);
    assert [m][1..] == [];
    assert FindIter(rules, text, 0, [m]);
    assert Lowest(rules, text, 0) && 0 !in Patterns([m]);
  }

  /** The match that keeps an unreported occurrence of `k` from being found, where the iterator meets it. */
  lemma {:induction false} Blocker(rules: seq<string>, text: string, at: nat, matches: seq<Match>, m: Match)
    returns (from: nat, rest: seq<Match>)
    requires FindIter(rules, text, at, matches) && IsMatch(rules, text, at, m) && m.pattern !in Patterns(matches)
    ensures FindIter(rules, text, from, rest) && rest != [] && from <= m.start < End(rules, rest[0])
    ensures Patterns(rest) <= Patterns(matches)
    decreases |matches|
  {
    if matches != [] {
      PatternsSplit(matches);
    }
    if End(rules, matches[0]) <= m.start {
      from, rest := Blocker(rules, text, End(rules, matches[0]), matches[1..], m);
    } else {
      from, rest := at, matches;
    }
  }

  lemma SliceOfSlice(text: string, lo: nat, hi: nat, a: nat, b: nat)
    requires lo <= a <= b <= hi <= |text|
    ensures text[lo..hi][a - lo..b - lo] == text[a..b]
  {
    var part := text[lo..hi];
    assert forall i :: a - lo <= i < b - lo ==> part[i] == text[lo + i];
  }

  lemma MatchInSlice(rules: seq<string>, text: string, lo: nat, hi: nat, at: nat, m: Match)
    requires lo <= at && lo <= hi <= |text| && m.start >= lo && m.pattern < |rules|
    ensures IsMatch(rules, text[lo..hi], at - lo, Match(m.pattern, m.start - lo)) <==>
            IsMatch(rules, text, at, m) && End(rules, m) <= hi
  {
    if End(rules, m) <= hi {
      SliceOfSlice(text, lo, hi, m.start, End(rules, m));
    }
  }

  lemma MatchFromSlice(rules: seq<string>, text: string, lo: nat, hi: nat, at: nat, o: Match)
    requires lo <= at && lo <= hi <= |text| && IsMatch(rules, text[lo..hi], at - lo, o)
    ensures IsMatch(rules, text, at, Match(o.pattern, o.start + lo)) && End(rules, o) + lo <= hi
  {
    MatchInSlice(rules, text, lo, hi, at, Match(o.pattern, o.start + lo));
    assert Match(o.pattern, o.start + lo - lo) == o;
  }

  /** A slice that ends before the earliest match of the text does has none. */
  lemma NoneInSlice(rules: seq<string>, text: string, lo: nat, hi: nat, at: nat)
    requires lo <= at && lo <= hi <= |text|
    requires forall m :: IsMatch(rules, text, at, m) ==> End(rules, m) > hi
    ensures FindIter(rules, text[lo..hi], at - lo, [])
  {
    var piece, from := text[lo..hi], at - lo;
    forall o
      ensures !IsMatch(rules, piece, from, o)
    {
      if IsMatch(rules, piece, from, o) {
        MatchFromSlice(rules, text, lo, hi, at, o);
        assert false;
      }
    }
  }

  lemma EarliestInSlice(rules: seq<string>, text: string, lo: nat, hi: nat, at: nat, m: Match)
    requires lo <= at && lo <= hi <= |text| && Earliest(rules, text, at, m) && End(rules, m) <= hi
    ensures Earliest(rules, text[lo..hi], at - lo, Match(m.pattern, m.start - lo))
  {
    MatchInSlice(rules, text, lo, hi, at, m);
    var piece, from := text[lo..hi], at - lo;
    forall o | IsMatch(rules, piece, from, o)
      ensures End(rules, Match(m.pattern, m.start - lo)) <= End(rules, o)
    {
      MatchFromSlice(rules, text, lo, hi, at, o);
    }
  }

  lemma ConsFindIter(rules: seq<string>, text: string, at: nat, m: Match, rest: seq<Match>)
    requires Earliest(rules, text, at, m) && FindIter(rules, text, End(rules, m), rest)
    ensures FindIter(rules, text, at, [m] + rest)
    ensures Patterns([m] + rest) == {m.pattern} + Patterns(rest)
  {
    assert ([m] + rest)[1..] == rest;
    PatternsSplit([m] + rest);
  }

  /** Matches inside a slice are found there too, and nothing else. */
  lemma {:induction false} FindIterInSlice(rules: seq<string>, text: string, lo: nat, hi: nat, at: nat, matches: seq<Match>)
    returns (inside: seq<Match>)
    requires FindIter(rules, text, at, matches) && lo <= at && lo <= hi <= |text|
    ensures FindIter(rules, text[lo..hi], at - lo, inside)
    ensures Patterns(inside) <= Patterns(matches)
    decreases |matches|
  {
    if matches == [] || End(rules, matches[0]) > hi {
      inside := [];
      NoneInSlice(rules, text, lo, hi, at);
    } else {
      var m := matches[0];
      var rest := FindIterInSlice(rules, text, lo, hi, End(rules, m), matches[1..]);
      EarliestInSlice(rules, text, lo, hi, at, m);
      inside := [Match(m.pattern, m.start - lo)] + rest;
      ConsFindIter(rules, text[lo..hi], at - lo, Match(m.pattern, m.start - lo), rest);
      PatternsSplit(matches);
    }
  }

  lemma OccursInSlice(rules: seq<string>, text: string, lo: nat, hi: nat, k: nat)
    requires lo <= hi <= |text| && Occurs(rules, text[lo..hi], k)
    ensures Occurs(rules, text, k)
  {
    var i: nat :| i <= |text[lo..hi]| && IsMatch(rules, text[lo..hi], 0, Match(k, i));
    MatchInSlice(rules, text, lo, hi, lo, Match(k, i + lo));
    assert Match(k, i + lo - lo) == Match(k, i);
    assert IsMatch(rules, text, 0, Match(k, i + lo));
  }

  /** A rule's tail run into by another rule's head: where scans go wrong, if anywhere. */
  function Spliced(rules: seq<string>, l: nat, d: nat, k: nat): string
    requires k < |rules| && l < |rules| && d < |rules[l]|
  {
    rules[l][..d] + rules[k]
  }

  ghost predicate MissesASplice(rules: seq<string>) {
    exists l: nat, d: nat, k: nat ::
      k < |rules| && l < |rules| && d < |rules[l]| && Misses(rules, Spliced(rules, l, d, k))
  }

  /** A miss that begins at `lo` is already a miss on the text up to the end of the missed rule. */
  lemma MissInSlice(rules: seq<string>, text: string, lo: nat, i: nat, k: nat, rest: seq<Match>)
    requires lo <= i && IsMatch(rules, text, 0, Match(k, i)) && Lowest(rules, text, k)
    requires FindIter(rules, text, lo, rest) && k !in Patterns(rest)
    ensures Misses(rules, text[lo..i + |rules[k]|])
  {
    var hi := i + |rules[k]|;
    var inside := FindIterInSlice(rules, text, lo, hi, lo, rest);
    MatchInSlice(rules, text, lo, hi, lo, Match(k, i));
    assert Occurs(rules, text[lo..hi], k);
    forall l: nat | l < k
      ensures !Occurs(rules, text[lo..hi], l)
    {
      if Occurs(rules, text[lo..hi], l) {
        OccursInSlice(rules, text, lo, hi, l);
      }
    }
    assert Lowest(rules, text[lo..hi], k) && k !in Patterns(inside);
  }

  lemma SliceIsSplice(rules: seq<string>, text: string, m: Match, k: nat, i: nat)
    requires IsMatch(rules, text, 0, m) && IsMatch(rules, text, 0, Match(k, i)) && m.start <= i < End(rules, m)
    ensures text[m.start..i + |rules[k]|] == Spliced(rules, m.pattern, i - m.start, k)
  {
    var hi := i + |rules[k]|;
    assert text[m.start..hi] == text[m.start..i] + text[i..hi];
    SliceOfSlice(text, m.start, End(rules, m), m.start, i);
  }

  /** The missed rule and the match that blocked it make a splice that misses too. */
  lemma BlockedSpliceMisses(rules: seq<string>, text: string, k: nat, i: nat, m: Match, from: nat, rest: seq<Match>)
    requires NonEmpty(rules) && IsMatch(rules, text, 0, Match(k, i)) && Lowest(rules, text, k)
    requires FindIter(rules, text, from, rest) && rest != [] && m == rest[0]
    requires from <= i < End(rules, m) && k !in Patterns(rest)
    ensures MissesASplice(rules)
  {
    assert IsMatch(rules, text, 0, m);
    if m.start <= i {
      EarliestFromStart(rules, text, from, rest, m.start);
      MissInSlice(rules, text, m.start, i, k, rest);
      SliceIsSplice(rules, text, m, k, i);
      assert Misses(rules, Spliced(rules, m.pattern, i - m.start, k));
    } else {
      EarliestFromStart(rules, text, from, rest, i);
      MissInSlice(rules, text, i, i, k, rest);
      assert text[i..i + |rules[k]|] == Spliced(rules, m.pattern, 0, k);
      assert Misses(rules, Spliced(rules, m.pattern, 0, k));
    }
  }

  /** Starting later, but not after the first match begins, changes no report. */
  lemma EarliestFromStart(rules: seq<string>, text: string, at: nat, matches: seq<Match>, later: nat)
    requires FindIter(rules, text, at, matches) && matches != [] && at <= later <= matches[0].start
    ensures FindIter(rules, text, later, matches)
  {
    forall o | IsMatch(rules, text, later, o)
      ensures End(rules, matches[0]) <= End(rules, o)
    {
      assert IsMatch(rules, text, at, o);
    }
  }

  lemma MissNarrows(rules: seq<string>, text: string)
    requires NonEmpty(rules) && Misses(rules, text)
    ensures MissesASplice(rules)
  {
    var matches, k: nat :| FindIter(rules, text, 0, matches) && Lowest(rules, text, k) && k !in Patterns(matches);
    var i: nat :| i <= |text| && IsMatch(rules, text, 0, Match(k, i));
    var from, rest := Blocker(rules, text, 0, matches, Match(k, i));
    BlockedSpliceMisses(rules, text, k, i, rest[0], from, rest);
  }

  /**
   Exactly when the first configured rule is always the one named: there is a text on which some
   choice of the matcher misses it if and only if one of the finitely many splices of two rules is.
   */
  lemma AlwaysLowestIff(rules: seq<string>)
    requires NonEmpty(rules)
    ensures (exists text :: Misses(rules, text)) <==> MissesASplice(rules)
  {
    if text :| Misses(rules, text) {
      MissNarrows(rules, text);
    }
  }

  // ---- The tree ----

  function SetOf(best: Option<nat>): set<nat> {
    match best
    case Some(k) => {k}
    case None => {}
  }

  /** `best` is the least member, if there is one. */
  predicate IsLeast(best: Option<nat>, s: set<nat>) {
    match best
    case Some(k) => k in s && forall l :: l in s ==> k <= l
    case None => s == {}
  }

  /** The leaves that are scanned: strings, and numbers if they are to be; never keys. */
  function Leaves(v: Json, scanNumbers: bool): set<string> {
    match v
    case String(text) => {text}
    case Number(literal) => if scanNumbers then {literal} else {}
    case Array(items) => set i, t | 0 <= i < |items| && t in Leaves(items[i], scanNumbers) :: t
    case Object(m) => set k, t | k in m && t in Leaves(m[k], scanNumbers) :: t
    case _ => {}
  }

  /** At the path is a string with this text, or a number if numbers are scanned. */
  predicate HeldAt(v: Json, path: seq<PathStep>, text: string, scanNumbers: bool) {
    Lookup(v, path) == Some(String(text)) || (scanNumbers && Lookup(v, path) == Some(Number(text)))
  }

  lemma {:induction false} LeafAtPath(v: Json, path: seq<PathStep>, text: string, scanNumbers: bool)
    requires HeldAt(v, path, text, scanNumbers)
    ensures text in Leaves(v, scanNumbers)
    decreases |path|
  {
    if path != [] {
      match path[0]
      case Key(k) => LeafAtPath(v.members[k], path[1..], text, scanNumbers);
      case Index(i) => LeafAtPath(v.items[i], path[1..], text, scanNumbers);
    }
  }

  lemma LongerPath(v: Json, step: PathStep, inner: Json, path: seq<PathStep>)
    requires Lookup(v, [step]) == Some(inner)
    ensures Lookup(v, [step] + path) == Lookup(inner, path)
  {
    assert ([step] + path)[1..] == path && [step][1..] == [];
  }

  lemma {:induction false} PathToLeaf(v: Json, text: string, scanNumbers: bool) returns (path: seq<PathStep>)
    requires text in Leaves(v, scanNumbers)
    ensures HeldAt(v, path, text, scanNumbers)
  {
    match v
    case Array(items) =>
      var i: nat :| i < |items| && text in Leaves(items[i], scanNumbers);
      var rest := PathToLeaf(items[i], text, scanNumbers);
      path := [Index(i)] + rest;
      LongerPath(v, Index(i), items[i], rest);
    case Object(m) =>
      var k :| k in m && text in Leaves(m[k], scanNumbers);
      var rest := PathToLeaf(m[k], text, scanNumbers);
      path := [Key(k)] + rest;
      LongerPath(v, Key(k), m[k], rest);
    case _ => path := [];
  }

  /** The scanned leaves are the texts that paths lead to. */
  lemma LeafIffAtPath(v: Json, text: string, scanNumbers: bool)
    ensures text in Leaves(v, scanNumbers) <==> exists path :: HeldAt(v, path, text, scanNumbers)
  {
    if path :| HeldAt(v, path, text, scanNumbers) {
      LeafAtPath(v, path, text, scanNumbers);
    }
    if text in Leaves(v, scanNumbers) {
      var path := PathToLeaf(v, text, scanNumbers);
    }
  }

  type Finder = string -> seq<Match>

  predicate FoundAt(find: Finder, v: Json, path: seq<PathStep>, text: string, m: Match, scanNumbers: bool) {
    HeldAt(v, path, text, scanNumbers) && m in find(text)
  }

  /** `r` is the least of the rule so far and the rules reported in texts that paths lead to. */
  ghost predicate LeastFound(find: Finder, best: Option<nat>, v: Json, scanNumbers: bool, r: Option<nat>) {
    && (best.Some? ==> r.Some? && r.value <= best.value)
    && (forall path, text, m :: FoundAt(find, v, path, text, m, scanNumbers) ==> r.Some? && r.value <= m.pattern)
    && (r != best ==>
          r.Some? && exists path, text, m :: FoundAt(find, v, path, text, m, scanNumbers) && m.pattern == r.value)
  }

  lemma BestIsLeastFound(find: Finder, best: Option<nat>, v: Json, scanNumbers: bool, r: Option<nat>)
    requires BestOf(find, best, Leaves(v, scanNumbers), r)
    ensures LeastFound(find, best, v, scanNumbers, r)
  {
    var leaves := Leaves(v, scanNumbers);
    assert best.Some? ==> best.value in SetOf(best) + Reported(find, leaves);
    forall path, text, m | FoundAt(find, v, path, text, m, scanNumbers)
      ensures r.Some? && r.value <= m.pattern
    {
      LeafAtPath(v, path, text, scanNumbers);
      assert m.pattern in Patterns(find(text));
      assert m.pattern in SetOf(best) + Reported(find, leaves);
    }
    if r != best {
      assert r.value in Reported(find, leaves);
      var text :| text in leaves && r.value in Patterns(find(text));
      var m :| m in find(text) && m.pattern == r.value;
      var path := PathToLeaf(v, text, scanNumbers);
      assert FoundAt(find, v, path, text, m, scanNumbers);
    }
  }

  /** Every rule reported in some leaf. */
  function Reported(find: Finder, leaves: set<string>): set<nat> {
    set t, k | t in leaves && k in Patterns(find(t)) :: k
  }

  lemma ReportedUnion(find: Finder, a: set<string>, b: set<string>)
    ensures Reported(find, a + b) == Reported(find, a) + Reported(find, b)
  {
  }

  /** The leaves of the first `n` items, or of the values under some keys. */
  function LeavesOfItems(items: seq<Json>, n: nat, scanNumbers: bool): set<string>
    requires n <= |items|
  {
    set i, t | 0 <= i < n && t in Leaves(items[i], scanNumbers) :: t
  }

  function LeavesUnder(m: map<string, Json>, keys: set<string>, scanNumbers: bool): set<string>
    requires keys <= m.Keys
  {
    set k, t | k in keys && t in Leaves(m[k], scanNumbers) :: t
  }

  // ---- The code ----

  /** Fold one text's matches into the best rule so far, stopping once nothing can be better. */
  method ScanText(matches: seq<Match>, best: Option<nat>) returns (r: Option<nat>)
    requires IsLeast(best, SetOf(best))
    ensures IsLeast(r, SetOf(best) + Patterns(matches))
  {
    r := best;
    var i := 0;
    while i < |matches|
      invariant 0 <= i <= |matches|
      invariant IsLeast(r, SetOf(best) + Patterns(matches[..i]))
    {
      var k := matches[i].pattern;
      PatternsSnoc(matches, i);
      r := Some(if r.Some? && r.value < k then r.value else k);
      i := i + 1;
      if r == Some(0) {
        assert Patterns(matches[..i]) <= Patterns(matches);
        return;
      }
    }
    assert matches[..|matches|] == matches;
  }

  lemma PatternsSnoc(matches: seq<Match>, i: nat)
    requires i < |matches|
    ensures Patterns(matches[..i + 1]) == Patterns(matches[..i]) + {matches[i].pattern}
  {
    assert matches[..i + 1] == matches[..i] + [matches[i]];
  }

  method ScanItem(find: Finder, ghost whole: Json, items: seq<Json>, i: nat, scanNumbers: bool, ghost best: Option<nat>, r: Option<nat>)
    returns (next: Option<nat>)
    requires whole == Array(items) && i < |items| && BestOf(find, best, LeavesOfItems(items, i, scanNumbers), r)
    ensures BestOf(find, best, LeavesOfItems(items, i + 1, scanNumbers), next)
    ensures next == Some(0) ==> BestOf(find, best, Leaves(whole, scanNumbers), next)
    decreases whole, 0
  {
    next := ScanValue(find, items[i], scanNumbers, r);
    NextItem(items, i, scanNumbers);
    LeastGrows(find, r, next, best, LeavesOfItems(items, i, scanNumbers), Leaves(items[i], scanNumbers));
    if next == Some(0) {
      ZeroStaysLeast(find, LeavesOfItems(items, i + 1, scanNumbers), Leaves(whole, scanNumbers), best);
    }
  }

  method ScanItems(find: Finder, ghost whole: Json, items: seq<Json>, scanNumbers: bool, best: Option<nat>)
    returns (r: Option<nat>)
    requires whole == Array(items)
    ensures BestOf(find, best, Leaves(whole, scanNumbers), r)
    decreases whole, 1
  {
    r := best;
    NothingFound(find, best, LeavesOfItems(items, 0, scanNumbers));
    for i := 0 to |items|
      invariant BestOf(find, best, LeavesOfItems(items, i, scanNumbers), r)
    {
      r := ScanItem(find, whole, items, i, scanNumbers, best, r);
      if r == Some(0) {
        return;
      }
    }
    AllItems(items, scanNumbers);
  }

  method ScanMember(
    find: Finder, ghost whole: Json, m: map<string, Json>, k: string, ghost seen: set<string>, scanNumbers: bool,
    ghost best: Option<nat>, r: Option<nat>)
    returns (next: Option<nat>)
    requires whole == Object(m) && k in m && seen <= m.Keys && BestOf(find, best, LeavesUnder(m, seen, scanNumbers), r)
    ensures BestOf(find, best, LeavesUnder(m, seen + {k}, scanNumbers), next)
    ensures next == Some(0) ==> BestOf(find, best, LeavesUnder(m, m.Keys, scanNumbers), next)
    decreases whole, 0
  {
    next := ScanValue(find, m[k], scanNumbers, r);
    NextMember(m, seen, k, scanNumbers);
    LeastGrows(find, r, next, best, LeavesUnder(m, seen, scanNumbers), Leaves(m[k], scanNumbers));
    if next == Some(0) {
      ZeroStaysLeast(find, LeavesUnder(m, seen + {k}, scanNumbers), LeavesUnder(m, m.Keys, scanNumbers), best);
    }
  }

  method ScanMembers(find: Finder, ghost whole: Json, m: map<string, Json>, scanNumbers: bool, best: Option<nat>)
    returns (r: Option<nat>)
    requires whole == Object(m)
    ensures BestOf(find, best, LeavesUnder(m, m.Keys, scanNumbers), r)
    decreases whole, 1
  {
    r := best;
    var rest := m.Keys;
    ghost var seen: set<string> := {};
    NothingFound(find, best, LeavesUnder(m, seen, scanNumbers));
    while rest != {}
      invariant seen <= m.Keys && rest == m.Keys - seen
      invariant BestOf(find, best, LeavesUnder(m, seen, scanNumbers), r)
      decreases rest
    {
      var k :| k in rest;
      r := ScanMember(find, whole, m, k, seen, scanNumbers, best, r);
      if r == Some(0) {
        return;
      }
      rest, seen := rest - {k}, seen + {k};
    }
    assert seen == m.Keys;
  }

  /** Search one value, unless the first configured rule was already seen. */
  method ScanValue(find: Finder, v: Json, scanNumbers: bool, best: Option<nat>) returns (r: Option<nat>)
    ensures BestOf(find, best, Leaves(v, scanNumbers), r)
    ensures LeastFound(find, best, v, scanNumbers, r)
    decreases v, 2
  {
    if best == Some(0) {
      BestIsLeastFound(find, best, v, scanNumbers, best);
      return best;
    }
    match v {
      case String(text) =>
        r := ScanText(find(text), best);
        assert Reported(find, {text}) == Patterns(find(text));
      case Number(literal) =>
        if scanNumbers {
          r := ScanText(find(literal), best);
          assert Reported(find, {literal}) == Patterns(find(literal));
        } else {
          r := best;
        }
      case Array(items) => r := ScanItems(find, v, items, scanNumbers, best);
      case Object(m) =>
        r := ScanMembers(find, v, m, scanNumbers, best);
        AllMembers(m, scanNumbers);
      case _ => r := best;
    }
    BestIsLeastFound(find, best, v, scanNumbers, r);
  }

  /** `r` is the least of the rule so far and the rules reported in the leaves. */
  predicate BestOf(find: Finder, best: Option<nat>, leaves: set<string>, r: Option<nat>) {
    IsLeast(r, SetOf(best) + Reported(find, leaves))
  }

  lemma NothingFound(find: Finder, best: Option<nat>, leaves: set<string>)
    requires leaves == {}
    ensures BestOf(find, best, leaves, best)
  {
    assert SetOf(best) + Reported(find, leaves) == SetOf(best);
  }

  lemma AllItems(items: seq<Json>, scanNumbers: bool)
    ensures LeavesOfItems(items, |items|, scanNumbers) == Leaves(Array(items), scanNumbers)
  {
  }

  lemma AllMembers(m: map<string, Json>, scanNumbers: bool)
    ensures LeavesUnder(m, m.Keys, scanNumbers) == Leaves(Object(m), scanNumbers)
  {
  }

  lemma NextItem(items: seq<Json>, i: nat, scanNumbers: bool)
    requires i < |items|
    ensures LeavesOfItems(items, i + 1, scanNumbers) == LeavesOfItems(items, i, scanNumbers) + Leaves(items[i], scanNumbers)
    ensures LeavesOfItems(items, i + 1, scanNumbers) <= Leaves(Array(items), scanNumbers)
  {
  }

  lemma NextMember(m: map<string, Json>, seen: set<string>, k: string, scanNumbers: bool)
    requires seen <= m.Keys && k in m
    ensures LeavesUnder(m, seen + {k}, scanNumbers) == LeavesUnder(m, seen, scanNumbers) + Leaves(m[k], scanNumbers)
    ensures LeavesUnder(m, seen + {k}, scanNumbers) <= LeavesUnder(m, m.Keys, scanNumbers)
  {
  }

  lemma LeastGrows(
    find: Finder, r: Option<nat>, next: Option<nat>, best: Option<nat>, seen: set<string>, leaf: set<string>)
    requires BestOf(find, best, seen, r) && BestOf(find, r, leaf, next)
    ensures BestOf(find, best, seen + leaf, next)
  {
    ReportedUnion(find, seen, leaf);
    LeastOfBoth(r, next, SetOf(best) + Reported(find, seen), Reported(find, leaf));
    assert SetOf(best) + Reported(find, seen + leaf) == SetOf(best) + Reported(find, seen) + Reported(find, leaf);
  }

  lemma LeastOfBoth(r: Option<nat>, next: Option<nat>, a: set<nat>, b: set<nat>)
    requires IsLeast(r, a) && IsLeast(next, SetOf(r) + b)
    ensures IsLeast(next, a + b)
  {
  }

  lemma ZeroStaysLeast(find: Finder, some: set<string>, all: set<string>, best: Option<nat>)
    requires some <= all && BestOf(find, best, some, Some(0))
    ensures BestOf(find, best, all, Some(0))
  {
    assert Reported(find, some) <= Reported(find, all);
  }

  // ---- The scanner ----

  datatype Config = Config(enabled: bool, sensitiveValues: seq<string>, scanNumbers: bool)

  datatype Scanner = Scanner(enabled: bool, rules: seq<string>, matcher: Option<Finder>, scanNumbers: bool)

  ghost predicate IsFinder(rules: seq<string>, find: Finder) {
    forall text :: FindIter(rules, text, 0, find(text))
  }

  ghost predicate Valid(s: Scanner) {
    NonEmpty(s.rules) && (s.enabled ==> s.matcher.Some? && IsFinder(s.rules, s.matcher.value))
  }

  function Configured(values: seq<string>): (r: seq<string>)
    ensures NonEmpty(r) && forall v :: v in r <==> v in values && v != ""
  {
    if values == [] then []
    else Configured(values[..|values| - 1]) + if values[|values| - 1] != "" then [values[|values| - 1]] else []
  }

  /** Empty values are dropped; without a value or an automaton the scanner is off. */
  method NewScanner(config: Config, built: Option<Finder>) returns (s: Scanner)
    requires built.Some? ==> IsFinder(Configured(config.sensitiveValues), built.value)
    ensures Valid(s) && s.scanNumbers == config.scanNumbers
    ensures forall v :: v in s.rules <==> v in config.sensitiveValues && v != ""
    ensures s.enabled <==> config.enabled && built.Some? && exists v :: v in config.sensitiveValues && v != ""
  {
    var rules: seq<string> := [];
    for i := 0 to |config.sensitiveValues|
      invariant rules == Configured(config.sensitiveValues[..i])
    {
      assert config.sensitiveValues[..i + 1][..i] == config.sensitiveValues[..i];
      if config.sensitiveValues[i] != "" {
        rules := rules + [config.sensitiveValues[i]];
      }
    }
    assert config.sensitiveValues[..|config.sensitiveValues|] == config.sensitiveValues;
    assert rules != [] ==> rules[0] in rules;
    s := Scanner(config.enabled && rules != [] && built.Some?, rules, built, config.scanNumbers);
  }

  ghost predicate OccursIn(rules: seq<string>, leaves: set<string>, k: nat) {
    exists t :: t in leaves && Occurs(rules, t, k)
  }

  /** The rule occurs in a text that some path of the body leads to. */
  ghost predicate OccursWithin(rules: seq<string>, body: Json, scanNumbers: bool, k: nat) {
    exists path, text :: HeldAt(body, path, text, scanNumbers) && Occurs(rules, text, k)
  }

  lemma OccursWithinIff(rules: seq<string>, body: Json, scanNumbers: bool, k: nat)
    ensures OccursWithin(rules, body, scanNumbers, k) <==> OccursIn(rules, Leaves(body, scanNumbers), k)
  {
    if path, text :| HeldAt(body, path, text, scanNumbers) && Occurs(rules, text, k) {
      LeafAtPath(body, path, text, scanNumbers);
    }
    if text :| text in Leaves(body, scanNumbers) && Occurs(rules, text, k) {
      var path := PathToLeaf(body, text, scanNumbers);
    }
  }

  ghost predicate SomeOccurs(rules: seq<string>, leaves: set<string>) {
    exists k: nat :: OccursIn(rules, leaves, k)
  }

  /** The first configured rule occurring in any of the leaves. */
  ghost predicate LowestIn(rules: seq<string>, leaves: set<string>, k: nat) {
    OccursIn(rules, leaves, k) && forall l: nat :: l < k ==> !OccursIn(rules, leaves, l)
  }

  /** No rule configured earlier occurs within the body. */
  ghost predicate FirstWithin(rules: seq<string>, body: Json, scanNumbers: bool, k: nat) {
    && OccursWithin(rules, body, scanNumbers, k)
    && forall l: nat :: l < k ==> !OccursWithin(rules, body, scanNumbers, l)
  }

  lemma ReportedAreOccurring(rules: seq<string>, find: Finder, leaves: set<string>)
    requires IsFinder(rules, find)
    ensures forall k :: k in Reported(find, leaves) ==> OccursIn(rules, leaves, k)
    ensures Reported(find, leaves) != {} <==> SomeOccurs(rules, leaves)
  {
    forall t | t in leaves
      ensures forall k :: k in Patterns(find(t)) ==> Occurs(rules, t, k)
      ensures Patterns(find(t)) != {} <==> exists k: nat :: Occurs(rules, t, k)
    {
      ReportedOccur(rules, t, 0, find(t));
      ReportsIffOccurs(rules, t, find(t));
    }
    if k: nat :| OccursIn(rules, leaves, k) {
      var t :| t in leaves && Occurs(rules, t, k);
      var l :| l in Patterns(find(t));
      assert l in Reported(find, leaves);
    }
  }

  /** Unless some splice misses, the first configured rule in the body is reported. */
  lemma LowestIsReported(rules: seq<string>, find: Finder, leaves: set<string>, k: nat)
    requires NonEmpty(rules) && IsFinder(rules, find) && LowestIn(rules, leaves, k) && !MissesASplice(rules)
    ensures k in Reported(find, leaves)
  {
    var t :| t in leaves && Occurs(rules, t, k);
    forall l: nat | l < k
      ensures !Occurs(rules, t, l)
    {
      assert !OccursIn(rules, leaves, l);
    }
    AlwaysLowestIff(rules);
    assert !Misses(rules, t);
    assert FindIter(rules, t, 0, find(t)) && Lowest(rules, t, k);
    assert k in Patterns(find(t));
  }

  /** Rules that cannot overlap are the plain case: no splice, and so no text, misses. */
  lemma NoOverlapNoMiss(rules: seq<string>)
    requires NonEmpty(rules) && CannotOverlap(rules)
    ensures !MissesASplice(rules)
  {
    if text :| Misses(rules, text) {
      var matches, k: nat :| FindIter(rules, text, 0, matches) && Lowest(rules, text, k) && k !in Patterns(matches);
      var i: nat :| i <= |text| && IsMatch(rules, text, 0, Match(k, i));
      AllAreReported(rules, text, 0, matches, Match(k, i));
      assert false;
    }
    AlwaysLowestIff(rules);
  }

  predicate IsRule(rules: seq<string>, k: nat, value: string) {
    k < |rules| && rules[k] == value
  }

  /**
   A body is blocked exactly when the scanner is on and some path leads to a scanned text in which a
   rule occurs. The value named is such a rule, and whenever no splice of two rules misses it is the
   first configured one.
   */
  method Scan(s: Scanner, body: Json) returns (r: Option<string>)
    requires Valid(s)
    ensures r.Some? <==> s.enabled && exists k: nat :: OccursWithin(s.rules, body, s.scanNumbers, k)
    ensures r.Some? ==> exists k: nat :: IsRule(s.rules, k, r.value) && OccursWithin(s.rules, body, s.scanNumbers, k)
    ensures r.Some? && !MissesASplice(s.rules) ==>
              exists k: nat :: IsRule(s.rules, k, r.value) && FirstWithin(s.rules, body, s.scanNumbers, k)
  {
    forall k: nat
      ensures OccursWithin(s.rules, body, s.scanNumbers, k) <==> OccursIn(s.rules, Leaves(body, s.scanNumbers), k)
    {
      OccursWithinIff(s.rules, body, s.scanNumbers, k);
    }
    if !s.enabled {
      return None;
    }
    var find := s.matcher.value;
    ghost var leaves := Leaves(body, s.scanNumbers);
    var best := ScanValue(find, body, s.scanNumbers, None);
    ReportedAreOccurring(s.rules, find, leaves);
    assert SetOf(None) + Reported(find, leaves) == Reported(find, leaves);
    match best {
      case None => return None;
      case Some(k) =>
        assert OccursIn(s.rules, leaves, k) && IsRule(s.rules, k, s.rules[k]);
        if !MissesASplice(s.rules) {
          LeastReportedIsLowest(s.rules, find, leaves, k);
        }
        return Some(s.rules[k]);
    }
  }

  lemma {:induction false} LeastReportedIsLowest(rules: seq<string>, find: Finder, leaves: set<string>, k: nat)
    requires NonEmpty(rules) && IsFinder(rules, find) && !MissesASplice(rules)
    requires IsLeast(Some(k), Reported(find, leaves)) && OccursIn(rules, leaves, k)
    ensures LowestIn(rules, leaves, k)
  {
    var low := LowestExists(rules, leaves, k);
    LowestIsReported(rules, find, leaves, low);
  }

  lemma {:induction false} LowestExists(rules: seq<string>, leaves: set<string>, k: nat) returns (low: nat)
    requires OccursIn(rules, leaves, k)
    ensures low <= k && LowestIn(rules, leaves, low)
  {
    low := k;
    if l: nat :| l < k && OccursIn(rules, leaves, l) {
      low := LowestExists(rules, leaves, l);
    }
  }
}
