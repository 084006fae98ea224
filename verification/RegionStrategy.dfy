// Where engagements are placed in region mode.
module RegionStrategy {
  import opened Common
  import opened Timelines
  import opened EngagementModel
  import opened Forest
  import opened RelatedUnits

  // MO's unit stays if it is known and MO's SD unit is still SD's; anything else is unknown.
  function KeptUnit(moUnit: Option<Uuid>, moSdUnit: Option<Option<Uuid>>, sdUnit: Option<Uuid>, unknown: Uuid): Uuid {
    if moUnit.Some? && moSdUnit.Some? && sdUnit.Some? && moSdUnit.value == sdUnit then moUnit.value else unknown
  }

  // The placement rule for one instant.
  ghost function Placement(moUnit: Option<Uuid>, moSdUnit: Option<Option<Uuid>>, sdUnit: Option<Uuid>,
                           w: World, unknown: Uuid, recursive: bool, t: Time): Uuid
  {
    var kept := KeptUnit(moUnit, moSdUnit, sdUnit, unknown);
    if kept != unknown then kept
    else if sdUnit.None? then unknown
    else
      var related := Wanted(w, sdUnit.value, unknown, recursive, t);
      if related.Some? then related.value else unknown
  }

  // What the code computes at t: the rule, except that MO's SD unit is the one at the start
  // of the chunk, because changes of MO's SD unit alone do not start a new chunk.
  ghost function Computed(sd: EngagementTimeline, mo: EngagementTimeline, e: seq<Time>, w: World, unknown: Uuid,
                          recursive: bool, t: Time): Option<Uuid>
    requires StrictlyIncreasing(e)
  {
    if !InHull(e, t) then None
    else Some(Placement(At(mo.unit, t), At(mo.sdUnit, e[ChunkIndex(e, t)]), At(sd.unit, t), w, unknown, recursive, t))
  }

  // The first loop: one interval per chunk, with the unit to keep.
  method UnitIntervals(sd: EngagementTimeline, mo: EngagementTimeline, e: seq<Time>, unknown: Uuid)
    returns (kept: seq<Interval<Uuid>>)
    ensures |kept| == if e == [] then 0 else |e| - 1
    ensures forall j :: 0 <= j < |kept| ==> IsKept(kept[j], sd, mo, e, j, unknown)
  {
    kept := [];
    var k := 0;
    while k < |e| - 1
      invariant 0 <= k && |kept| == k && k <= if e == [] then 0 else |e| - 1
      invariant forall j :: 0 <= j < k ==> IsKept(kept[j], sd, mo, e, j, unknown)
    {
      var unit: Uuid := KeptUnit(At(mo.unit, e[k]), At(mo.sdUnit, e[k]), At(sd.unit, e[k]), unknown);
      kept := kept + [Interval(e[k], e[k + 1], unit)];
      k := k + 1;
    }
  }

  ghost predicate IsKept(i: Interval<Uuid>, sd: EngagementTimeline, mo: EngagementTimeline, e: seq<Time>, k: nat,
                         unknown: Uuid)
    requires k + 1 < |e|
  {
    i == Interval(e[k], e[k + 1], KeptUnit(At(mo.unit, e[k]), At(mo.sdUnit, e[k]), At(sd.unit, e[k]), unknown))
  }

  ghost predicate AreEndpoints(e: seq<Time>, sd: EngagementTimeline, mo: EngagementTimeline) {
    StrictlyIncreasing(e) && forall p :: p in e <==> p in Endpoints(sd.unit) + Endpoints(mo.unit)
  }

  // The sorted endpoints of both unit timelines.
  method UnitCuts(sd: EngagementTimeline, mo: EngagementTimeline) returns (e: seq<Time>)
    ensures AreEndpoints(e, sd, mo) && Cuts(e, sd.unit) && Cuts(e, mo.unit)
  {
    e := SortedSeq(Endpoints(sd.unit) + Endpoints(mo.unit));
    HasEndpointsCuts(e, sd.unit);
    HasEndpointsCuts(e, mo.unit);
  }

  // At t, in a chunk that starts at start: MO's unit, if it is known and MO's SD unit at the start
  // of the chunk is SD's; else what the look-up for SD's unit answers; unknown without SD's unit.
  ghost predicate IsPlaced(r: EngagementTimeline, sd: EngagementTimeline, mo: EngagementTimeline, w: World,
                           unknown: Uuid, recursive: bool, start: Time, t: Time)
  {
    if At(mo.unit, t).Some? && At(mo.unit, t) != Some(unknown) && At(sd.unit, t).Some?
       && At(mo.sdUnit, start) == Some(At(sd.unit, t)) then At(r.unit, t) == At(mo.unit, t)
    else if At(sd.unit, t).None? then At(r.unit, t) == Some(unknown)
    else At(r.unit, t).Some? && IsAnswer(w, At(sd.unit, t).value, unknown, recursive, t, At(r.unit, t).value)
  }

  lemma ComputedIsPlaced(r: EngagementTimeline, sd: EngagementTimeline, mo: EngagementTimeline, e: seq<Time>, w: World,
                         unknown: Uuid, recursive: bool, k: nat, t: Time)
    requires StrictlyIncreasing(e) && k < |e| - 1 && e[k] <= t < e[k + 1] && ValidWorld(w)
    requires recursive ==> Acyclic(ParentsAt(w, t))
    requires At(r.unit, t) == Computed(sd, mo, e, w, unknown, recursive, t)
    ensures IsPlaced(r, sd, mo, w, unknown, recursive, e[k], t)
  {
    ChunkIndexUnique(e, t, k);
    if At(sd.unit, t).Some? {
      WantedIsAnswer(w, At(sd.unit, t).value, unknown, recursive, t);
    }
  }

  // The second loop keeps what is known and looks up the rest.
  method EngagementOuStrategyRegion(sd: EngagementTimeline, mo: EngagementTimeline, w: World, unknown: Uuid,
                                    recursive: bool)
    returns (r: EngagementTimeline, ghost e: seq<Time>)
    requires CanonicalTimeline(sd) && CanonicalTimeline(mo) && ValidWorld(w)
    requires recursive ==> forall t :: Acyclic(ParentsAt(w, t))
    ensures AreEndpoints(e, sd, mo)
    ensures CanonicalTimeline(r) && r == sd.(unit := r.unit)
    ensures forall t :: At(r.unit, t) == Computed(sd, mo, e, w, unknown, recursive, t)
    ensures forall k, t :: 0 <= k < |e| - 1 && e[k] <= t < e[k + 1] ==>
      IsPlaced(r, sd, mo, w, unknown, recursive, e[k], t)
    ensures forall t :: !InHull(e, t) ==> At(r.unit, t).None?
  {
    var points := UnitCuts(sd, mo);
    e := points;
    var kept := UnitIntervals(sd, mo, points, unknown);
    ghost var f := (t: Time) => Computed(sd, mo, e, w, unknown, recursive, t);
    var acc: seq<Interval<Uuid>> := [];
    var k := 0;
    while k < |kept|
      invariant 0 <= k <= |kept|
      invariant e == [] ==> acc == []
      invariant e != [] ==> k < |e| && RealisedBelow(acc, f, e[k])
    {
      var pieces := PlaceChunk(sd, mo, e, k, kept[k], w, unknown, recursive);
      assert RealisedOn(pieces, f, e[k], e[k + 1]);
      ExtendMany(acc, pieces, f, e[k], e[k + 1]);
      acc := acc + pieces;
      k := k + 1;
    }
    if e != [] {
      RealisedEverywhere(acc, f, e[k]);
    }
    CombineRealises(acc, f);
    r := sd.(unit := CombineIntervals(acc));
    forall k, t | 0 <= k < |e| - 1 && e[k] <= t < e[k + 1]
      ensures IsPlaced(r, sd, mo, w, unknown, recursive, e[k], t)
    {
      ComputedIsPlaced(r, sd, mo, e, w, unknown, recursive, k, t);
    }
  }

  // One unit interval of the first loop: keep its unit or look for a related one.
  method PlaceChunk(sd: EngagementTimeline, mo: EngagementTimeline, ghost e: seq<Time>, ghost k: nat,
                    kept: Interval<Uuid>, w: World, unknown: Uuid, recursive: bool)
    returns (pieces: seq<Interval<Uuid>>)
    requires CanonicalTimeline(sd) && CanonicalTimeline(mo) && ValidWorld(w)
    requires recursive ==> forall t :: Acyclic(ParentsAt(w, t))
    requires Cuts(e, sd.unit) && Cuts(e, mo.unit) && k < |e| - 1 && IsKept(kept, sd, mo, e, k, unknown)
    ensures Ordered(pieces)
    ensures forall i :: 0 <= i < |pieces| ==> e[k] <= pieces[i].start && pieces[i].end <= e[k + 1]
    ensures forall t :: e[k] <= t < e[k + 1] ==> At(pieces, t) == Computed(sd, mo, e, w, unknown, recursive, t)
  {
    assert SteadyAt(sd.unit, e, k) && SteadyAt(mo.unit, e, k);
    forall t | e[k] <= t < e[k + 1]
      ensures Computed(sd, mo, e, w, unknown, recursive, t)
           == Some(Placement(At(mo.unit, e[k]), At(mo.sdUnit, e[k]), At(sd.unit, e[k]), w, unknown, recursive, t))
    {
      ChunkIndexUnique(e, t, k);
    }
    var sdUnit := At(sd.unit, kept.start);
    if kept.value != unknown || sdUnit.None? {
      forall t ensures At([kept], t) == if Covers(kept, t) then Some(kept.value) else None {
        AtSingle(kept, t);
      }
      return [kept];
    }
    pieces := RelatedUnits.RelatedUnits(w, sdUnit.value, kept.start, kept.end, unknown, recursive);
  }

  // Whether MO's unit is kept at t, by MO's SD unit at s.
  ghost predicate KeptBy(sd: EngagementTimeline, mo: EngagementTimeline, unknown: Uuid, s: Time, t: Time) {
    KeptUnit(At(mo.unit, t), At(mo.sdUnit, s), At(sd.unit, t), unknown) != unknown
  }

  // The documented rule looks MO's SD unit up at t itself. The code meets it at t exactly if
  // the start of the chunk gives the same answer about keeping MO's unit, or that unit is
  // also the one that would be looked up.
  lemma RuleHeldIff(sd: EngagementTimeline, mo: EngagementTimeline, e: seq<Time>, w: World, unknown: Uuid,
                    recursive: bool, t: Time)
    requires StrictlyIncreasing(e) && InHull(e, t)
    ensures Computed(sd, mo, e, w, unknown, recursive, t)
         == Some(Placement(At(mo.unit, t), At(mo.sdUnit, t), At(sd.unit, t), w, unknown, recursive, t))
       <==> (KeptBy(sd, mo, unknown, e[ChunkIndex(e, t)], t) <==> KeptBy(sd, mo, unknown, t, t))
            || At(mo.unit, t) == Some(Placement(None, None, At(sd.unit, t), w, unknown, recursive, t))
  {
  }

  // That is so everywhere when MO's SD unit only changes at endpoints of one of the two unit timelines.
  lemma DocumentedRule(sd: EngagementTimeline, mo: EngagementTimeline, e: seq<Time>, w: World, unknown: Uuid,
                       recursive: bool, t: Time)
    requires AreEndpoints(e, sd, mo) && InHull(e, t)
    requires Endpoints(mo.sdUnit) <= Endpoints(sd.unit) + Endpoints(mo.unit)
    ensures Computed(sd, mo, e, w, unknown, recursive, t)
         == Some(Placement(At(mo.unit, t), At(mo.sdUnit, t), At(sd.unit, t), w, unknown, recursive, t))
  {
    ConstantOnChunk(mo.sdUnit, e, ChunkIndex(e, t));
  }

  // Without that, the rule can be missed: MO's unit 1 stays on for all of [0, 20) although
  // MO's SD unit differs from SD's from day 10 on, where the rule asks for unknown (0).
  lemma SdUnitChangeCanBeMissed(sd: EngagementTimeline, mo: EngagementTimeline)
    requires sd.unit == [Interval(0, 20, 7)] && mo.unit == [Interval(0, 20, 1)]
    requires mo.sdUnit == [Interval(0, 10, Some(7)), Interval(10, 20, Some(8))]
    ensures AreEndpoints([0, 20], sd, mo)
    ensures Placement(At(mo.unit, 15), At(mo.sdUnit, 15), At(sd.unit, 15), World(map[], map[]), 0, false, 15) == 0
    ensures Computed(sd, mo, [0, 20], World(map[], map[]), 0, false, 15) == Some(1)
  {
    EndpointsSingle(sd.unit[0]);
    EndpointsSingle(mo.unit[0]);
    AtSingle(sd.unit[0], 15);
    AtSingle(mo.unit[0], 15);
    AtCovered(mo.sdUnit, 1, 15);
    AtCovered(mo.sdUnit, 0, 0);
    ChunkIndexUnique([0, 20], 15, 0);
  }

  // The placement has no hole: from the first endpoint to the last there is a unit.
  lemma PlacementHasNoHole(sd: EngagementTimeline, mo: EngagementTimeline, unit: seq<Interval<Uuid>>, e: seq<Time>,
                           w: World, unknown: Uuid, recursive: bool)
    requires AreEndpoints(e, sd, mo) && Canonical(unit) && |e| > 1
    requires forall t :: At(unit, t) == Computed(sd, mo, e, w, unknown, recursive, t)
    ensures unit != [] && unit[0].start == e[0] && unit[|unit| - 1].end == e[|e| - 1] && !HasHoles(unit)
  {
    forall i | 0 <= i < |unit| ensures e[0] <= unit[i].start && unit[i].end <= e[|e| - 1] {
      AtCovered(unit, i, unit[i].start);
      AtCovered(unit, i, unit[i].end - 1);
    }
    assert forall t :: e[0] <= t < e[|e| - 1] ==> InHull(e, t);
    GapFree(unit, e[0], e[|e| - 1]);
  }
}
