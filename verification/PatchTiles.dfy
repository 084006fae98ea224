// The validities an update sends to MO: one for each row it finds in the chunk
// (sdtoolplus/mo/timelines/common.py:55-74, sdtoolplus/mo/timelines/engagement.py:315-363).
module PatchTiles {
  import opened Common
  import opened Timelines
  import opened MoDates
  import opened MoRows

  function Patch<R>(row: Interval<R>, start: Time, end: Time): RAValidity {
    var found := TimelineIntervalToMoValidity(row.start, row.end);
    GetPatchValidity(found.from, found.to, TimelineIntervalToMoValidity(start, end))
  }

  // The patches of an update of the chunk [start, end), in the order they are sent.
  function Patches<R>(rows: seq<Interval<R>>, start: Time, end: Time): (ps: seq<RAValidity>)
    ensures |ps| == |Overlapping(rows, start, end)|
  {
    var found := Overlapping(rows, start, end);
    seq(|found|, i requires 0 <= i < |found| => Patch(found[i], start, end))
  }

  lemma PatchIsPart<R>(rows: seq<Interval<R>>, start: Time, end: Time, i: nat)
    requires WellFormed(rows) && start < end <= POSITIVE_INFINITY && i < |Patches(rows, start, end)|
    ensures var p := Patches(rows, start, end)[i];
      var row := Overlapping(rows, start, end)[i];
      && p.from == Max(row.start, start) && RangeEnd(p) == Min(row.end, end)
      && start <= p.from < RangeEnd(p) <= end
  {
    var found := Overlapping(rows, start, end);
    OverlappingProperties(rows, start, end);
    assert found[i].start in Endpoints(found) && found[i].end in Endpoints(found);
    PatchIsIntersection(found[i].start, found[i].end, start, end);
  }

  // Each patch is a non-empty part of the chunk, and no two overlap.
  lemma PatchesAreApart<R>(rows: seq<Interval<R>>, start: Time, end: Time)
    requires WellFormed(rows) && start < end <= POSITIVE_INFINITY
    ensures Parts(Patches(rows, start, end), start, end)
  {
    var ps := Patches(rows, start, end);
    OverlappingProperties(rows, start, end);
    forall i: nat | i < |ps| ensures start <= ps[i].from < RangeEnd(ps[i]) <= end {
      PatchIsPart(rows, start, end, i);
    }
    forall i, j | 0 <= i < j < |ps| ensures RangeEnd(ps[i]) <= ps[j].from {
      PatchIsPart(rows, start, end, i);
      PatchIsPart(rows, start, end, j);
    }
  }

  ghost predicate InSome(ps: seq<RAValidity>, t: Time) {
    exists p :: p in ps && InRange(p, t)
  }

  // Together they are the instants of the chunk at which MO has a row, ...
  lemma PatchesCoverRows<R>(rows: seq<Interval<R>>, start: Time, end: Time, t: Time)
    requires WellFormed(rows) && start < end <= POSITIVE_INFINITY
    ensures InSome(Patches(rows, start, end), t) <==> start <= t < end && At(rows, t).Some?
  {
    var ps := Patches(rows, start, end);
    var found := Overlapping(rows, start, end);
    OverlappingProperties(rows, start, end);
    if p :| p in ps && InRange(p, t) {
      var i: nat :| i < |ps| && ps[i] == p;
      PatchIsPart(rows, start, end, i);
      AtCovered(found, i, t);
    }
    if start <= t < end && At(rows, t).Some? {
      var i := CoveredBy(found, t);
      PatchIsPart(rows, start, end, i);
      assert ps[i] in ps && InRange(ps[i], t);
    }
  }

  // ... so they tile the chunk, each beginning where the one before ends, if and only if MO has
  // a row at every instant of it.
  ghost predicate Tile(ps: seq<RAValidity>, start: Time, end: Time) {
    && ps != [] && ps[0].from == start && RangeEnd(ps[|ps| - 1]) == end
    && forall i :: 0 <= i < |ps| - 1 ==> RangeEnd(ps[i]) == ps[i + 1].from
  }

  ghost predicate HasRows<R>(rows: seq<Interval<R>>, start: Time, end: Time) {
    forall t :: start <= t < end ==> At(rows, t).Some?
  }

  lemma PatchesTileCoveredChunk<R>(rows: seq<Interval<R>>, start: Time, end: Time)
    requires WellFormed(rows) && start < end <= POSITIVE_INFINITY
    ensures Tile(Patches(rows, start, end), start, end) <==> HasRows(rows, start, end)
  {
    var ps := Patches(rows, start, end);
    PatchesAreApart(rows, start, end);
    if Tile(ps, start, end) {
      forall t | start <= t < end ensures At(rows, t).Some? {
        TileCovers(ps, start, end, t);
        PatchesCoverRows(rows, start, end, t);
      }
    }
    if HasRows(rows, start, end) {
      forall t | start <= t < end ensures InSome(ps, t) {
        PatchesCoverRows(rows, start, end, t);
      }
      CoverTiles(ps, start, end);
    }
  }

  lemma {:induction false} TileCovers(ps: seq<RAValidity>, start: Time, end: Time, t: Time)
    requires Tile(ps, start, end) && start <= t < end
    ensures InSome(ps, t)
  {
    if InRange(ps[0], t) {
      assert ps[0] in ps;
    } else {
      assert |ps| > 1;
      TileCovers(ps[1..], ps[1].from, end, t);
    }
  }

  // Disjoint non-empty parts of the chunk, in order.
  ghost predicate Parts(ps: seq<RAValidity>, start: Time, end: Time) {
    && (forall i :: 0 <= i < |ps| ==> start <= ps[i].from < RangeEnd(ps[i]) <= end)
    && forall i, j :: 0 <= i < j < |ps| ==> RangeEnd(ps[i]) <= ps[j].from
  }

  lemma Holder(ps: seq<RAValidity>, t: Time) returns (i: nat)
    requires InSome(ps, t)
    ensures i < |ps| && InRange(ps[i], t)
  {
    var p :| p in ps && InRange(p, t);
    i :| 0 <= i < |ps| && ps[i] == p;
  }

  lemma NextBegins(ps: seq<RAValidity>, start: Time, end: Time, i: nat)
    requires Parts(ps, start, end) && i + 1 < |ps|
    requires forall t :: start <= t < end ==> InSome(ps, t)
    ensures RangeEnd(ps[i]) == ps[i + 1].from
  {
    var t := RangeEnd(ps[i]);
    assert start <= ps[i].from < t;
    assert t <= ps[i + 1].from < RangeEnd(ps[i + 1]) <= end;
    assert forall l :: 0 <= l < i ==> RangeEnd(ps[l]) <= ps[i].from;
    assert forall l :: i + 1 < l < |ps| ==> RangeEnd(ps[i + 1]) <= ps[l].from;
    var j := Holder(ps, t);
  }

  lemma CoverTiles(ps: seq<RAValidity>, start: Time, end: Time)
    requires start < end && Parts(ps, start, end)
    requires forall t :: start <= t < end ==> InSome(ps, t)
    ensures Tile(ps, start, end)
  {
    var first := Holder(ps, start);
    var last := Holder(ps, end - 1);
    assert forall l :: 0 < l < |ps| ==> RangeEnd(ps[0]) <= ps[l].from;
    assert forall l :: 0 <= l < |ps| - 1 ==> RangeEnd(ps[l]) <= ps[|ps| - 1].from;
    assert start <= ps[0].from && RangeEnd(ps[|ps| - 1]) <= end;
    forall i | 0 <= i < |ps| - 1 ensures RangeEnd(ps[i]) == ps[i + 1].from {
      NextBegins(ps, start, end, i);
    }
  }
}
