// Cutting ranges out of an engagement timeline, and the two later stages that must not fill
// them again.
module Removal {
  import opened Common
  import opened Timelines
  import opened EngagementModel

  predicate InRanges<W>(ranges: seq<Interval<W>>, t: Time) {
    exists i :: 0 <= i < |ranges| && Covers(ranges[i], t)
  }

  lemma InRangesIsCovered<W>(ranges: seq<Interval<W>>, t: Time)
    ensures InRanges(ranges, t) <==> At(ranges, t).Some?
  {
    AtWitness(ranges, t);
  }

  // tl outside the ranges, nothing inside; the result satisfies every validator although
  // the source builds it without running them.
  method RemoveRanges<V(==,!new), W>(tl: seq<Interval<V>>, ranges: seq<Interval<W>>) returns (r: seq<Interval<V>>)
    requires Ordered(tl)
    ensures Canonical(r) && PassesValidators(r)
    ensures forall t :: At(r, t) == if InRanges(ranges, t) then None else At(tl, t)
  {
    ghost var f := (t: Time) => if InRanges(ranges, t) then None else At(tl, t);
    forall t ensures InRanges(ranges, t) <==> At(ranges, t).Some? {
      InRangesIsCovered(ranges, t);
    }
    var e := MergedCuts(tl, ranges);
    var acc: seq<Interval<V>> := [];
    var k := 0;
    while k < |e| - 1
      invariant e == [] ==> acc == []
      invariant e != [] ==> 0 <= k < |e| && RealisedBelow(acc, f, e[k])
    {
      assert SteadyAt(tl, e, k) && SteadyAt(ranges, e, k);
      if InRanges(ranges, e[k]) || At(tl, e[k]).None? {
        ExtendNone(acc, f, e[k], e[k + 1]);
      } else {
        ExtendSome(acc, f, e[k], e[k + 1], At(tl, e[k]).value);
        acc := acc + [Interval(e[k], e[k + 1], At(tl, e[k]).value)];
      }
      k := k + 1;
    }
    if e != [] {
      RealisedEverywhere(acc, f, e[k]);
    }
    CombineRealises(acc, f);
    r := CombineIntervals(acc);
    CanonicalIffValid(r);
  }

  const NOTHING := EngAt(None, None, None, None, None, None, None)

  // t lies in an interval that ended in the past and places the engagement in the unknown unit.
  ghost predicate PastUnknown(tl: EngagementTimeline, unknown: Uuid, now: Time, t: Time) {
    exists i :: 0 <= i < |tl.unit| && Covers(tl.unit[i], t) && tl.unit[i].value == unknown && tl.unit[i].end <= now
  }

  // No interval in the unknown unit that has ended is left.
  ghost predicate PastIsCleared(r: EngagementTimeline, tl: EngagementTimeline, unknown: Uuid, now: Time) {
    forall i, t ::
      0 <= i < |tl.unit| && Covers(tl.unit[i], t) ==>
        tl.unit[i].value == unknown ==> tl.unit[i].end <= now ==> At(r.active, t).None? && At(r.unit, t).None?
  }

  lemma ClearedIfSo(r: EngagementTimeline, tl: EngagementTimeline, unknown: Uuid, now: Time)
    requires forall t :: PastUnknown(tl, unknown, now, t) ==> RecordAt(r, t) == NOTHING
    ensures PastIsCleared(r, tl, unknown, now)
  {
    forall i, t | 0 <= i < |tl.unit| && Covers(tl.unit[i], t) && tl.unit[i].value == unknown && tl.unit[i].end <= now
      ensures At(r.active, t).None? && At(r.unit, t).None?
    {
      assert PastUnknown(tl, unknown, now, t);
      assert RecordAt(r, t) == NOTHING;
    }
  }

  method TerminateInPastWhereUnitUnknown(tl: EngagementTimeline, unknown: Option<Uuid>, now: Time)
    returns (r: EngagementTimeline)
    requires CanonicalTimeline(tl)
    ensures CanonicalTimeline(r)
    ensures unknown.None? ==> r == tl
    ensures unknown.Some? ==> forall t ::
      RecordAt(r, t) == if PastUnknown(tl, unknown.value, now, t) then NOTHING else RecordAt(tl, t)
    ensures unknown.Some? ==> PastIsCleared(r, tl, unknown.value, now)
  {
    if unknown.None? {
      return tl;
    }
    var inPast := (i: Interval<Uuid>) => i.value == unknown.value && i.end <= now;
    var ranges := Filter(tl.unit, inPast);
    FilterMembers(tl.unit, inPast);
    forall t ensures InRanges(ranges, t) <==> PastUnknown(tl, unknown.value, now, t) {
      if InRanges(ranges, t) {
        var i :| 0 <= i < |ranges| && Covers(ranges[i], t);
        assert ranges[i] in tl.unit;
      }
      if PastUnknown(tl, unknown.value, now, t) {
        var i :| 0 <= i < |tl.unit| && Covers(tl.unit[i], t) && tl.unit[i].value == unknown.value && tl.unit[i].end <= now;
        assert tl.unit[i] in ranges;
      }
    }
    if ranges == [] {
      assert forall t :: !InRanges(ranges, t);
      ClearedIfSo(tl, tl, unknown.value, now);
      return tl;
    }
    var active := RemoveRanges(tl.active, ranges);
    var key := RemoveRanges(tl.key, ranges);
    var name := RemoveRanges(tl.name, ranges);
    var unit := RemoveRanges(tl.unit, ranges);
    var sdUnit := RemoveRanges(tl.sdUnit, ranges);
    var unitId := RemoveRanges(tl.unitId, ranges);
    var engType := RemoveRanges(tl.engType, ranges);
    r := EngagementTimeline(active, key, name, unit, sdUnit, unitId, engType);
    ClearedIfSo(r, tl, unknown.value, now);
  }

  // An interval of the engagement unit that ends after now, or lies in another unit, is left
  // as it is in every field.
  lemma CurrentPlacementUntouched(tl: EngagementTimeline, unknown: Uuid, now: Time, i: nat, t: Time)
    requires CanonicalTimeline(tl) && i < |tl.unit| && Covers(tl.unit[i], t)
    requires now < tl.unit[i].end || tl.unit[i].value != unknown
    ensures !PastUnknown(tl, unknown, now, t)
  {
    forall j | 0 <= j < |tl.unit| && Covers(tl.unit[j], t) ensures j == i {
      AtMostOneCovers(tl.unit, t, i, j);
    }
  }

  // ----- the stages that run after the removal

  // Job functions MO does not know are replaced by "unknown".
  method FixMissingJobFunctions(tl: EngagementTimeline, jobFunctions: set<string>) returns (r: EngagementTimeline)
    requires CanonicalTimeline(tl)
    ensures CanonicalTimeline(r) && r == tl.(key := r.key)
    ensures forall t ::
      At(r.key, t) == match At(tl.key, t)
                      case None => None
                      case Some(key) => Some(if key in jobFunctions then key else "unknown")
  {
    ghost var f := (t: Time) => match At(tl.key, t)
                                case None => None
                                case Some(key) => Some(if key in jobFunctions then key else "unknown");
    var acc: seq<Interval<string>> := [];
    var i := 0;
    while i < |tl.key|
      invariant 0 <= i <= |tl.key|
      invariant |acc| == i
      invariant forall j :: 0 <= j < i ==>
        acc[j] == tl.key[j].(value := if tl.key[j].value in jobFunctions then tl.key[j].value else "unknown")
    {
      if tl.key[i].value !in jobFunctions {
        acc := acc + [Interval(tl.key[i].start, tl.key[i].end, "unknown")];
      } else {
        acc := acc + [tl.key[i]];
      }
      i := i + 1;
    }
    r := tl.(key := CombineIntervals(acc));
    CombineCanonical(acc);
    forall t ensures At(r.key, t) == f(t) {
      SameShapeAt(tl.key, acc, t);
      assert At(r.key, t) == At(acc, t);
    }
  }

  // Lists of the same intervals have their values at the same places.
  lemma SameShapeAt<V, W>(a: seq<Interval<V>>, b: seq<Interval<W>>, t: Time)
    requires |a| == |b| && forall j :: 0 <= j < |a| ==> a[j].start == b[j].start && a[j].end == b[j].end
    ensures At(a, t).None? <==> At(b, t).None?
    ensures At(a, t).Some? ==> exists j :: 0 <= j < |a| && a[j].value == At(a, t).value && b[j].value == At(b, t).value
  {
    if a != [] && !Covers(a[0], t) {
      SameShapeAt(a[1..], b[1..], t);
      if At(a, t).Some? {
        var j :| 0 <= j < |a[1..]| && a[1..][j].value == At(a[1..], t).value && b[1..][j].value == At(b[1..], t).value;
        assert a[j + 1].value == At(a, t).value && b[j + 1].value == At(b, t).value;
      }
    }
  }

  // The unit the engagement may be placed in at t: its own if that exists in MO then.
  function PlacementAt(unit: Option<Uuid>, ouActive: Uuid -> seq<Interval<bool>>, unknown: Uuid, t: Time): Option<Uuid> {
    match unit
    case None => None
    case Some(u) => Some(if u == unknown || At(ouActive(u), t).Some? then u else unknown)
  }

  // One interval of the engagement unit, cut where MO's unit starts or ends.
  method NarrowToActive(unit: Interval<Uuid>, active: seq<Interval<bool>>, unknown: Uuid,
                        ghost f: Time -> Option<Uuid>)
    returns (pieces: seq<Interval<Uuid>>)
    requires unit.start < unit.end
    requires forall t :: Covers(unit, t) ==> f(t) == Some(if At(active, t).Some? then unit.value else unknown)
    ensures RealisedOn(pieces, f, unit.start, unit.end)
  {
    var e := ChunksWithin(active, unit.start, unit.end);
    pieces := [];
    var k := 0;
    while k < |e| - 1
      invariant 0 <= k < |e|
      invariant RealisedOn(pieces, f, unit.start, e[k])
    {
      assert SteadyChunk(active, e, k, unit.start, unit.end);
      var ou: Uuid := if At(active, e[k]).Some? then unit.value else unknown;
      forall t | e[k] <= t < e[k + 1] ensures f(t) == Some(ou) {
        assert At(active, t) == At(active, e[k]) && Covers(unit, t);
      }
      OnePiece(f, e[k], e[k + 1], ou);
      ExtendPieces(pieces, [Interval(e[k], e[k + 1], ou)], f, unit.start, e[k], e[k + 1]);
      pieces := pieces + [Interval(e[k], e[k + 1], ou)];
      k := k + 1;
    }
  }

  // Where MO's unit does not exist, the engagement is placed in the unknown unit.
  // ouActive is what MO knows about the activity of each unit.
  method FixTooNarrowOuValidities(tl: EngagementTimeline, ouActive: Uuid -> seq<Interval<bool>>, unknown: Uuid)
    returns (r: EngagementTimeline)
    requires CanonicalTimeline(tl)
    ensures CanonicalTimeline(r) && r == tl.(unit := r.unit)
    ensures forall t :: At(r.unit, t) == PlacementAt(At(tl.unit, t), ouActive, unknown, t)
    ensures forall t :: At(tl.unit, t).None? ==> At(r.unit, t).None?
    ensures forall t :: At(tl.unit, t).Some? ==>
      var u := At(tl.unit, t).value;
      At(r.unit, t) == Some(if u != unknown && At(ouActive(u), t).None? then unknown else u)
  {
    ghost var f := (t: Time) => PlacementAt(At(tl.unit, t), ouActive, unknown, t);
    var acc: seq<Interval<Uuid>> := [];
    var i := 0;
    while i < |tl.unit|
      invariant 0 <= i <= |tl.unit|
      invariant i == 0 ==> acc == []
      invariant i > 0 ==> RealisedBelow(acc, f, tl.unit[i - 1].end)
    {
      var unit := tl.unit[i];
      GapBefore(tl.unit, i);
      if i > 0 {
        ExtendNone(acc, f, tl.unit[i - 1].end, unit.start);
      }
      forall t | Covers(unit, t) ensures At(tl.unit, t) == Some(unit.value) {
        AtCovered(tl.unit, i, t);
      }
      if unit.value == unknown {
        ExtendSome(acc, f, unit.start, unit.end, unknown);
        acc := acc + [unit];
      } else {
        var pieces := NarrowToActive(unit, ouActive(unit.value), unknown, f);
        ExtendMany(acc, pieces, f, unit.start, unit.end);
        acc := acc + pieces;
      }
      i := i + 1;
    }
    if tl.unit != [] {
      NothingAfterLast(tl.unit);
      RealisedEverywhere(acc, f, tl.unit[|tl.unit| - 1].end);
    }
    CombineRealises(acc, f);
    r := tl.(unit := CombineIntervals(acc));
  }

  // Before the i-th interval and after its predecessor there is no value.
  lemma GapBefore<V>(s: seq<Interval<V>>, i: nat)
    requires Ordered(s) && i < |s|
    ensures forall t :: t < s[i].start && (i > 0 ==> s[i - 1].end <= t) ==> At(s, t) == None
  {
    forall t | t < s[i].start && (i > 0 ==> s[i - 1].end <= t) ensures At(s, t) == None {
      AtWitness(s, t);
    }
  }

  lemma NothingAfterLast<V>(s: seq<Interval<V>>)
    requires Ordered(s) && s != []
    ensures forall t :: s[|s| - 1].end <= t ==> At(s, t) == None
  {
    forall t | s[|s| - 1].end <= t ensures At(s, t) == None {
      AtWitness(s, t);
    }
  }

  // At t nothing differs but a job function MO does not know, which is "unknown", and a unit MO
  // does not have then, which is the unknown unit.
  ghost predicate IsPrepared(r: EngagementTimeline, tl: EngagementTimeline, jobFunctions: set<string>,
                             ouActive: Uuid -> seq<Interval<bool>>, unknown: Uuid, t: Time)
  {
    && At(r.active, t) == At(tl.active, t) && At(r.name, t) == At(tl.name, t) && At(r.sdUnit, t) == At(tl.sdUnit, t)
    && At(r.unitId, t) == At(tl.unitId, t) && At(r.engType, t) == At(tl.engType, t)
    && (At(r.key, t).Some? <==> At(tl.key, t).Some?)
    && (At(tl.key, t).Some? ==>
          At(r.key, t).value == if At(tl.key, t).value in jobFunctions then At(tl.key, t).value else "unknown")
    && (At(r.unit, t).Some? <==> At(tl.unit, t).Some?)
    && (At(tl.unit, t).Some? ==>
          var u := At(tl.unit, t).value;
          At(r.unit, t).value == if u != unknown && At(ouActive(u), t).None? then unknown else u)
  }

  // What the three stages together make of one instant.
  function Prepared(d: EngAt, jobFunctions: set<string>, ouActive: Uuid -> seq<Interval<bool>>, unknown: Uuid, t: Time)
    : EngAt
  {
    d.(key := match d.key
              case None => None
              case Some(key) => Some(if key in jobFunctions then key else "unknown"),
       unit := PlacementAt(d.unit, ouActive, unknown, t))
  }

  // The stages in the order in which sync_engagement applies them. What the first stage
  // removes, no later stage brings back; what the last stage places in the unknown unit is
  // not removed.
  method PrepareDesired(tl: EngagementTimeline, terminateInPast: bool, unknown: Uuid, now: Time,
                        jobFunctions: set<string>, ouActive: Uuid -> seq<Interval<bool>>)
    returns (r: EngagementTimeline)
    requires CanonicalTimeline(tl)
    ensures CanonicalTimeline(r)
    ensures forall t ::
      RecordAt(r, t) == if terminateInPast && PastUnknown(tl, unknown, now, t) then NOTHING
                        else Prepared(RecordAt(tl, t), jobFunctions, ouActive, unknown, t)
    ensures forall t :: terminateInPast && PastUnknown(tl, unknown, now, t) ==>
      && At(r.active, t).None? && At(r.key, t).None? && At(r.name, t).None? && At(r.unit, t).None?
      && At(r.sdUnit, t).None? && At(r.unitId, t).None? && At(r.engType, t).None?
    ensures terminateInPast ==> PastIsCleared(r, tl, unknown, now)
    ensures forall t :: !(terminateInPast && PastUnknown(tl, unknown, now, t)) ==>
      IsPrepared(r, tl, jobFunctions, ouActive, unknown, t)
  {
    r := tl;
    if terminateInPast {
      r := TerminateInPastWhereUnitUnknown(r, Some(unknown), now);
    }
    ghost var removed := r;
    r := FixMissingJobFunctions(r, jobFunctions);
    r := FixTooNarrowOuValidities(r, ouActive, unknown);
    forall t ensures RecordAt(r, t) == Prepared(RecordAt(removed, t), jobFunctions, ouActive, unknown, t) {
      assert At(r.unit, t) == PlacementAt(At(removed.unit, t), ouActive, unknown, t);
    }
    forall t ensures if terminateInPast && PastUnknown(tl, unknown, now, t) then RecordAt(r, t) == NOTHING
                     else IsPrepared(r, tl, jobFunctions, ouActive, unknown, t)
    {
      assert RecordAt(removed, t)
          == if terminateInPast && PastUnknown(tl, unknown, now, t) then NOTHING else RecordAt(tl, t);
    }
    if terminateInPast {
      ClearedIfSo(r, tl, unknown, now);
    }
  }
}
