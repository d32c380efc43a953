/**
 Event boundaries: where the stream may be cut, which cut the code takes, and how the
 segments it cuts relate to the smallest possible events.
 */
module Boundaries {
  import opened ByteStrings

  /** The two byte patterns that end an event for this proxy. */
  datatype Terminator = LfLf | CrLfCrLf {
    function Width(): nat { if LfLf? then 2 else 4 }
  }

  predicate OccursAt(s: Bytes, t: Terminator, i: nat) {
    && i + t.Width() <= |s|
    && match t
       case LfLf => s[i] == LF && s[i + 1] == LF
       case CrLfCrLf => s[i] == CR && s[i + 1] == LF && s[i + 2] == CR && s[i + 3] == LF
  }

  /** First position at or after `from` where `t` occurs. */
  function Position(s: Bytes, t: Terminator, from: nat): (r: Option<nat>)
    ensures r.Some? ==> from <= r.value && OccursAt(s, t, r.value)
    ensures r.Some? ==> forall j :: from <= j < r.value ==> !OccursAt(s, t, j)
    ensures r.None? ==> forall j :: from <= j ==> !OccursAt(s, t, j)
    decreases |s| - from
  {
    if from + t.Width() > |s| then None
    else if OccursAt(s, t, from) then Some(from)
    else Position(s, t, from + 1)
  }

  /** The cut the code looks for, scanning from `from`: a CRLFCRLF anywhere wins over an LFLF. */
  function ScanFrom(s: Bytes, from: nat): (r: Option<nat>)
    ensures r.Some? ==> from < r.value <= |s|
  {
    match Position(s, CrLfCrLf, from)
    case Some(i) => Some(i + 4)
    case None =>
      match Position(s, LfLf, from)
      case Some(i) => Some(i + 2)
      case None => None
  }

  /** The simple form: rescan the whole buffer. */
  function FullScan(s: Bytes): Option<nat> {
    ScanFrom(s, 0)
  }

  /** No boundary begins before `k`. */
  ghost predicate CleanBefore(s: Bytes, k: nat) {
    forall i :: 0 <= i < k ==> !OccursAt(s, CrLfCrLf, i) && !OccursAt(s, LfLf, i)
  }

  /** A scan may skip any prefix in which no boundary begins. */
  lemma IncrementalScan(s: Bytes, k: nat)
    requires CleanBefore(s, k)
    ensures ScanFrom(s, k) == FullScan(s)
  {
    var a, b := Position(s, CrLfCrLf, 0), Position(s, CrLfCrLf, k);
    assert a == b;
    var c, d := Position(s, LfLf, 0), Position(s, LfLf, k);
    assert c == d;
  }

  /** After a fruitless scan, all but the last three bytes stay scanned whatever arrives next. */
  lemma ScannedStaysClean(s: Bytes, more: Bytes)
    requires FullScan(s).None?
    ensures CleanBefore(s + more, if |s| >= 3 then |s| - 3 else 0)
  {
    var k := if |s| >= 3 then |s| - 3 else 0;
    forall i | 0 <= i < k
      ensures !OccursAt(s + more, CrLfCrLf, i) && !OccursAt(s + more, LfLf, i)
    {
      assert !OccursAt(s, CrLfCrLf, i) && !OccursAt(s, LfLf, i);
    }
  }

  // ---- Minimal events ----

  predicate BoundaryEndsAt(s: Bytes, e: nat) {
    || (2 <= e <= |s| && OccursAt(s, LfLf, e - 2))
    || (4 <= e <= |s| && OccursAt(s, CrLfCrLf, e - 4))
  }

  function BoundaryEndFrom(s: Bytes, from: nat): (r: Option<nat>)
    ensures r.Some? ==> from <= r.value <= |s| && BoundaryEndsAt(s, r.value)
    ensures r.Some? ==> forall e :: from <= e < r.value ==> !BoundaryEndsAt(s, e)
    ensures r.None? ==> forall e :: from <= e ==> !BoundaryEndsAt(s, e)
    decreases |s| - from
  {
    if from > |s| then None
    else if BoundaryEndsAt(s, from) then Some(from)
    else BoundaryEndFrom(s, from + 1)
  }

  /** End of the earliest-ending boundary. */
  function EarliestEnd(s: Bytes): (r: Option<nat>)
    ensures r.Some? ==> 2 <= r.value <= |s|
  {
    BoundaryEndFrom(s, 0)
  }

  /** The minimal events of `s`: cut at the earliest-ending boundary, over and over. */
  function MinimalEvents(s: Bytes): (events: seq<Bytes>)
    decreases |s|
  {
    match EarliestEnd(s)
    case None => []
    case Some(e) => [s[..e]] + MinimalEvents(s[e..])
  }

  /** What follows the last minimal event. */
  function Unfinished(s: Bytes): Bytes
    decreases |s|
  {
    match EarliestEnd(s)
    case None => s
    case Some(e) => Unfinished(s[e..])
  }

  /** One or more whole minimal events and nothing else. */
  predicate Whole(s: Bytes) {
    s != [] && Unfinished(s) == []
  }

  lemma BoundaryEndsAppend(a: Bytes, b: Bytes, e: nat)
    requires e <= |a|
    ensures BoundaryEndsAt(a + b, e) == BoundaryEndsAt(a, e)
  {
  }

  lemma EarliestEndAppend(a: Bytes, b: Bytes)
    requires EarliestEnd(a).Some?
    ensures EarliestEnd(a + b) == EarliestEnd(a)
  {
    var e := EarliestEnd(a).value;
    BoundaryEndsAppend(a, b, e);
    forall e' | 0 <= e' < e
      ensures !BoundaryEndsAt(a + b, e')
    {
      BoundaryEndsAppend(a, b, e');
    }
  }

  /** Whole events in front do not disturb the events behind them. */
  lemma {:induction false} MinimalEventsAppend(a: Bytes, b: Bytes)
    requires Unfinished(a) == []
    ensures MinimalEvents(a + b) == MinimalEvents(a) + MinimalEvents(b)
    ensures Unfinished(a + b) == Unfinished(b)
    decreases |a|
  {
    if a == [] {
      assert a + b == b;
    } else {
      var e := EarliestEnd(a).value;
      EarliestEndAppend(a, b);
      assert (a + b)[..e] == a[..e];
      assert (a + b)[e..] == a[e..] + b;
      MinimalEventsAppend(a[e..], b);
      ConcatAssoc([a[..e]], MinimalEvents(a[e..]), MinimalEvents(b));
    }
  }

  /** A text whose only CRLFCRLF is its end consists of whole events. */
  lemma {:induction false} WholeUpToCrLf(s: Bytes)
    requires |s| >= 4 && OccursAt(s, CrLfCrLf, |s| - 4)
    requires forall i :: 0 <= i < |s| - 4 ==> !OccursAt(s, CrLfCrLf, i)
    ensures Unfinished(s) == []
    decreases |s|
  {
    assert BoundaryEndsAt(s, |s|);
    var e := EarliestEnd(s).value;
    if e < |s| {
      assert OccursAt(s, LfLf, e - 2);
      assert e <= |s| - 4;
      var t := s[e..];
      assert OccursAt(t, CrLfCrLf, |t| - 4);
      forall i | 0 <= i < |t| - 4
        ensures !OccursAt(t, CrLfCrLf, i)
      {
        assert !OccursAt(s, CrLfCrLf, e + i);
      }
      WholeUpToCrLf(t);
    } else {
      assert s[e..] == [];
    }
  }

  lemma FirstBoundaryIsOneEvent(s: Bytes, e: nat)
    requires EarliestEnd(s) == Some(e)
    ensures MinimalEvents(s[..e]) == [s[..e]] && Unfinished(s[..e]) == []
  {
    var t := s[..e];
    assert t + s[e..] == s;
    forall e' | 0 <= e' <= e
      ensures BoundaryEndsAt(t, e') == BoundaryEndsAt(s, e')
    {
      BoundaryEndsAppend(t, s[e..], e');
    }
    assert EarliestEnd(t) == Some(e);
    assert t[..e] == t && t[e..] == [];
    assert EarliestEnd([]).None?;
  }

  /** The code's cut takes one or more whole minimal events. */
  lemma CutIsWhole(s: Bytes, e: nat)
    requires FullScan(s) == Some(e)
    ensures Whole(s[..e])
  {
    var t := s[..e];
    match Position(s, CrLfCrLf, 0)
    case Some(i) =>
      forall j | 0 <= j < |t| - 4
        ensures !OccursAt(t, CrLfCrLf, j)
      {
        assert !OccursAt(s, CrLfCrLf, j);
      }
      WholeUpToCrLf(t);
    case None =>
      CutWithoutCrLf(s, e);
      FirstBoundaryIsOneEvent(s, e);
  }

  lemma CutWithoutCrLf(s: Bytes, e: nat)
    requires FullScan(s) == Some(e) && Position(s, CrLfCrLf, 0).None?
    ensures EarliestEnd(s) == Some(e)
  {
    assert OccursAt(s, LfLf, e - 2);
    assert BoundaryEndsAt(s, e);
    forall e' | 0 <= e' < e
      ensures !BoundaryEndsAt(s, e')
    {
      assert e' >= 4 ==> !OccursAt(s, CrLfCrLf, e' - 4);
      assert e' >= 2 ==> !OccursAt(s, LfLf, e' - 2);
    }
  }

  lemma CutWithoutLfLf(s: Bytes, e: nat)
    requires FullScan(s) == Some(e) && Position(s, LfLf, 0).None?
    ensures EarliestEnd(s) == Some(e)
  {
    assert OccursAt(s, CrLfCrLf, e - 4);
    assert BoundaryEndsAt(s, e);
    forall e' | 0 <= e' < e
      ensures !BoundaryEndsAt(s, e')
    {
      assert e' >= 4 ==> !OccursAt(s, CrLfCrLf, e' - 4);
      assert e' >= 2 ==> !OccursAt(s, LfLf, e' - 2);
    }
  }

  /** The stream uses one terminator only: no LfLf, or no CRLFCRLF. */
  predicate OneTerminator(s: Bytes) {
    Position(s, CrLfCrLf, 0).None? || Position(s, LfLf, 0).None?
  }

  /** With one terminator in use, the code's cut takes exactly one minimal event. */
  lemma CutIsOneEvent(s: Bytes, e: nat)
    requires FullScan(s) == Some(e) && OneTerminator(s)
    ensures MinimalEvents(s[..e]) == [s[..e]]
  {
    if Position(s, CrLfCrLf, 0).None? {
      CutWithoutCrLf(s, e);
    } else {
      CutWithoutLfLf(s, e);
    }
    FirstBoundaryIsOneEvent(s, e);
  }

  lemma NoCutNoEvents(s: Bytes)
    requires FullScan(s).None?
    ensures EarliestEnd(s).None? && MinimalEvents(s) == [] && Unfinished(s) == s
  {
    forall e: nat
      ensures !BoundaryEndsAt(s, e)
    {
      assert e >= 4 ==> !OccursAt(s, CrLfCrLf, e - 4);
      assert e >= 2 ==> !OccursAt(s, LfLf, e - 2);
    }
  }

  lemma OneTerminatorInfix(a: Bytes, b: Bytes, c: Bytes)
    requires OneTerminator(a + b + c)
    ensures OneTerminator(b)
  {
    var s := a + b + c;
    forall j: nat
      ensures OccursAt(b, CrLfCrLf, j) ==> OccursAt(s, CrLfCrLf, |a| + j)
      ensures OccursAt(b, LfLf, j) ==> OccursAt(s, LfLf, |a| + j)
    {
    }
  }

  /** Every minimal event, and what follows the last one, fits in `cap` bytes. */
  predicate EventsFit(s: Bytes, cap: nat) {
    && |Unfinished(s)| <= cap
    && forall i :: 0 <= i < |MinimalEvents(s)| ==> |MinimalEvents(s)[i]| <= cap
  }

  /** A buffer without a boundary is part of the next event, so it fits if that event does. */
  lemma NoCutFits(front: Bytes, buffered: Bytes, later: Bytes, cap: nat)
    requires Unfinished(front) == [] && FullScan(buffered).None?
    requires EventsFit(front + (buffered + later), cap)
    ensures |buffered| <= cap
  {
    var s := buffered + later;
    MinimalEventsAppend(front, s);
    NoCutNoEvents(buffered);
    if EarliestEnd(s).Some? {
      var e := EarliestEnd(s).value;
      if e <= |buffered| {
        BoundaryEndsAppend(buffered, later, e);
      }
      assert MinimalEvents(s)[0] == s[..e];
      assert MinimalEvents(front + s)[|MinimalEvents(front)|] == s[..e];
    }
  }
}
