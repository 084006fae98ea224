// Placing the engagement of a manager in the unit managed.
module ElevateManagers {
  import opened Common
  import opened Timelines
  import opened EngagementModel

  // The unit wanted at one instant: the one managed, else SD's; only while active.
  function WantedUnit(active: Option<bool>, managed: Option<Uuid>, sdUnit: Option<Uuid>): Option<Uuid> {
    if active.None? then None
    else if managed.Some? then managed
    else sdUnit
  }

  // Its identifier: the one of the unit managed, else SD's.
  function WantedUnitId(active: Option<bool>, managed: Option<Uuid>, managedId: Option<string>,
                        sdUnitId: Option<Option<string>>): Option<Option<string>>
  {
    if active.None? then None
    else if managed.None? then sdUnitId
    else if managedId.Some? then Some(managedId)
    else None
  }

  function ManagedId(managed: Option<Uuid>, unitIds: Uuid -> seq<Interval<string>>, t: Time): Option<string> {
    if managed.Some? then At(unitIds(managed.value), t) else None
  }

  // Everything the loop looks up at t is there; otherwise the source raises an exception.
  ghost predicate Complete(sd: EngagementTimeline, managers: seq<Interval<Uuid>>,
                           unitIds: Uuid -> seq<Interval<string>>, t: Time)
  {
    At(sd.active, t).Some? ==>
      && At(sd.unitId, t).Some?
      && (At(managers, t).None? ==> At(sd.unit, t).Some?)
      && (At(managers, t).Some? ==> At(unitIds(At(managers, t).value), t).Some?)
  }

  function UnitIdEndpoints(managers: seq<Interval<Uuid>>, unitIds: Uuid -> seq<Interval<string>>): set<Time> {
    set i, p | 0 <= i < |managers| && p in Endpoints(unitIds(managers[i].value)) :: p
  }

  ghost predicate AreEndpoints(e: seq<Time>, sd: EngagementTimeline, managers: seq<Interval<Uuid>>,
                               unitIds: Uuid -> seq<Interval<string>>)
  {
    StrictlyIncreasing(e)
    && forall p :: p in e <==>
         p in Endpoints(sd.unit) + Endpoints(sd.active) + Endpoints(managers) + UnitIdEndpoints(managers, unitIds)
  }

  ghost function UnitComputed(sd: EngagementTimeline, managers: seq<Interval<Uuid>>, t: Time): Option<Uuid> {
    WantedUnit(At(sd.active, t), At(managers, t), At(sd.unit, t))
  }

  // SD's unit identifier is the one at the start of the chunk, because its endpoints do not
  // start new chunks.
  ghost function UnitIdComputed(sd: EngagementTimeline, managers: seq<Interval<Uuid>>,
                                unitIds: Uuid -> seq<Interval<string>>, e: seq<Time>, t: Time): Option<Option<string>>
    requires StrictlyIncreasing(e)
  {
    if !InHull(e, t) then None
    else WantedUnitId(At(sd.active, t), At(managers, t), ManagedId(At(managers, t), unitIds, t),
                      At(sd.unitId, e[ChunkIndex(e, t)]))
  }

  // Facts about the chunk that starts at e[k].
  lemma ChunkSteady(sd: EngagementTimeline, managers: seq<Interval<Uuid>>, unitIds: Uuid -> seq<Interval<string>>,
                    e: seq<Time>, k: nat, t: Time)
    requires AreEndpoints(e, sd, managers, unitIds) && k < |e| - 1 && e[k] <= t < e[k + 1]
    ensures UnitComputed(sd, managers, t) == UnitComputed(sd, managers, e[k])
    ensures UnitIdComputed(sd, managers, unitIds, e, t)
         == WantedUnitId(At(sd.active, e[k]), At(managers, e[k]), ManagedId(At(managers, e[k]), unitIds, e[k]),
                         At(sd.unitId, e[k]))
  {
    ChunkIndexUnique(e, t, k);
    ConstantOnChunk(sd.unit, e, k);
    ConstantOnChunk(sd.active, e, k);
    ConstantOnChunk(managers, e, k);
    if At(managers, e[k]).Some? {
      ManagedIdConstant(managers, unitIds, e, k, t);
    }
  }

  lemma SilentOutside(sd: EngagementTimeline, managers: seq<Interval<Uuid>>, unitIds: Uuid -> seq<Interval<string>>,
                      e: seq<Time>, t: Time)
    requires AreEndpoints(e, sd, managers, unitIds) && !InHull(e, t)
    ensures UnitComputed(sd, managers, t) == None && UnitIdComputed(sd, managers, unitIds, e, t) == None
  {
    NothingOutsideHull(sd.active, e, t);
  }

  // Everything looked up at the start of a chunk is there.
  ghost predicate AllComplete(sd: EngagementTimeline, managers: seq<Interval<Uuid>>,
                              unitIds: Uuid -> seq<Interval<string>>, e: seq<Time>)
  {
    forall k :: 0 <= k < |e| - 1 ==> Complete(sd, managers, unitIds, e[k])
  }

  // Then there is a unit exactly where the engagement is active.
  lemma UnitWhereActive(sd: EngagementTimeline, managers: seq<Interval<Uuid>>,
                        unitIds: Uuid -> seq<Interval<string>>, e: seq<Time>, t: Time)
    requires AreEndpoints(e, sd, managers, unitIds) && AllComplete(sd, managers, unitIds, e)
    ensures UnitComputed(sd, managers, t).Some? <==> At(sd.active, t).Some?
  {
    if !InHull(e, t) {
      SilentOutside(sd, managers, unitIds, e, t);
      NothingOutsideHull(sd.active, e, t);
    } else {
      var k := ChunkIndex(e, t);
      ChunkSteady(sd, managers, unitIds, e, k, t);
      ConstantOnChunk(sd.active, e, k);
      assert Complete(sd, managers, unitIds, e[k]);
    }
  }

  method ElevationCuts(sd: EngagementTimeline, managers: seq<Interval<Uuid>>, unitIds: Uuid -> seq<Interval<string>>)
    returns (e: seq<Time>)
    ensures AreEndpoints(e, sd, managers, unitIds)
  {
    e := SortedSeq(Endpoints(sd.unit) + Endpoints(sd.active) + Endpoints(managers)
                   + UnitIdEndpoints(managers, unitIds));
  }

  // The units and identifiers of r are those computed, and there is a unit where sd is active.
  ghost predicate IsElevated(r: EngagementTimeline, sd: EngagementTimeline, managers: seq<Interval<Uuid>>,
                             unitIds: Uuid -> seq<Interval<string>>, e: seq<Time>)
    requires StrictlyIncreasing(e)
  {
    && (forall t :: At(r.unit, t) == UnitComputed(sd, managers, t))
    && (forall t :: At(r.unitId, t) == UnitIdComputed(sd, managers, unitIds, e, t))
    && (forall t :: At(r.unit, t).Some? <==> At(sd.active, t).Some?)
  }

  lemma CombinedIsElevated(units: seq<Interval<Uuid>>, ids: seq<Interval<Option<string>>>, sd: EngagementTimeline,
                           managers: seq<Interval<Uuid>>, unitIds: Uuid -> seq<Interval<string>>, e: seq<Time>)
    requires AreEndpoints(e, sd, managers, unitIds) && AllComplete(sd, managers, unitIds, e)
    requires Realises(units, (t: Time) => UnitComputed(sd, managers, t))
    requires Realises(ids, (t: Time) => UnitIdComputed(sd, managers, unitIds, e, t))
    ensures Canonical(CombineIntervals(units)) && Canonical(CombineIntervals(ids))
    ensures IsElevated(sd.(unit := CombineIntervals(units), unitId := CombineIntervals(ids)), sd, managers, unitIds, e)
  {
    CombineRealises(units, (t: Time) => UnitComputed(sd, managers, t));
    CombineRealises(ids, (t: Time) => UnitIdComputed(sd, managers, unitIds, e, t));
    forall t ensures UnitComputed(sd, managers, t).Some? <==> At(sd.active, t).Some? {
      UnitWhereActive(sd, managers, unitIds, e, t);
    }
  }

  // At t, which lies in a chunk that starts at start: while active the unit managed with its
  // identifier then, else SD's unit with SD's identifier at the start of the chunk.
  ghost predicate IsPlaced(r: EngagementTimeline, sd: EngagementTimeline, managers: seq<Interval<Uuid>>,
                           unitIds: Uuid -> seq<Interval<string>>, start: Time, t: Time)
  {
    if At(sd.active, t).None? then At(r.unit, t).None? && At(r.unitId, t).None?
    else if At(managers, t).Some? then
      && At(r.unit, t) == At(managers, t)
      && At(r.unitId, t) == Some(At(unitIds(At(managers, t).value), t)) && At(unitIds(At(managers, t).value), t).Some?
    else At(r.unit, t) == At(sd.unit, t) && At(r.unitId, t) == At(sd.unitId, start)
  }

  lemma ElevatedIsPlaced(r: EngagementTimeline, sd: EngagementTimeline, managers: seq<Interval<Uuid>>,
                         unitIds: Uuid -> seq<Interval<string>>, e: seq<Time>, k: nat, t: Time)
    requires AreEndpoints(e, sd, managers, unitIds) && AllComplete(sd, managers, unitIds, e)
    requires IsElevated(r, sd, managers, unitIds, e) && k < |e| - 1 && e[k] <= t < e[k + 1]
    ensures IsPlaced(r, sd, managers, unitIds, e[k], t)
  {
    ChunkIndexUnique(e, t, k);
    assert At(r.unit, t) == UnitComputed(sd, managers, t);
    assert At(r.unitId, t) == UnitIdComputed(sd, managers, unitIds, e, t);
    if At(sd.active, t).Some? && At(managers, t).Some? {
      ConstantOnChunk(sd.active, e, k);
      ConstantOnChunk(managers, e, k);
      ManagedIdConstant(managers, unitIds, e, k, t);
      assert Complete(sd, managers, unitIds, e[k]);
    }
  }

  // The identifier of the unit managed does not change within a chunk.
  lemma ManagedIdConstant(managers: seq<Interval<Uuid>>, unitIds: Uuid -> seq<Interval<string>>, e: seq<Time>,
                          k: nat, t: Time)
    requires StrictlyIncreasing(e) && k < |e| - 1 && e[k] <= t < e[k + 1] && At(managers, e[k]).Some?
    requires forall p :: p in UnitIdEndpoints(managers, unitIds) ==> p in e
    ensures At(unitIds(At(managers, e[k]).value), t) == At(unitIds(At(managers, e[k]).value), e[k])
  {
    AtWitness(managers, e[k]);
    var i :| 0 <= i < |managers| && managers[i].value == At(managers, e[k]).value;
    assert forall p :: p in Endpoints(unitIds(managers[i].value)) ==> p in UnitIdEndpoints(managers, unitIds);
    ConstantOnChunk(unitIds(managers[i].value), e, k);
  }

  // The new placement and its identifiers, on exactly the active domain. A person without
  // manager rows keeps SD's placement. None stands for the exception a missing value raises.
  method ElevateManagers(sd: EngagementTimeline, managers: seq<Interval<Uuid>>, unitIds: Uuid -> seq<Interval<string>>)
    returns (r: Option<EngagementTimeline>, ghost e: seq<Time>)
    requires CanonicalTimeline(sd) && Canonical(managers)
    ensures managers == [] ==> r == Some(sd)
    ensures managers != [] ==> AreEndpoints(e, sd, managers, unitIds)
    ensures managers != [] ==> (r.Some? <==> AllComplete(sd, managers, unitIds, e))
    ensures managers != [] && r.Some? ==>
      && CanonicalTimeline(r.value) && r.value == sd.(unit := r.value.unit, unitId := r.value.unitId)
      && IsElevated(r.value, sd, managers, unitIds, e)
    ensures managers != [] && r.Some? ==> forall k, t :: 0 <= k < |e| - 1 && e[k] <= t < e[k + 1] ==>
      IsPlaced(r.value, sd, managers, unitIds, e[k], t)
    ensures managers != [] && r.Some? ==> forall t :: !InHull(e, t) ==> At(r.value.unit, t).None?
  {
    if managers == [] {
      return Some(sd), [];
    }
    var points := ElevationCuts(sd, managers, unitIds);
    e := points;
    var units, ids, ok := ElevatedIntervals(sd, managers, unitIds, points);
    if !ok {
      return None, e;
    }
    CombinedIsElevated(units, ids, sd, managers, unitIds, e);
    r := Some(sd.(unit := CombineIntervals(units), unitId := CombineIntervals(ids)));
    forall k, t | 0 <= k < |e| - 1 && e[k] <= t < e[k + 1] ensures IsPlaced(r.value, sd, managers, unitIds, e[k], t) {
      ElevatedIsPlaced(r.value, sd, managers, unitIds, e, k, t);
    }
    forall t | !InHull(e, t) ensures At(r.value.unit, t).None? {
      SilentOutside(sd, managers, unitIds, e, t);
    }
  }

  // One chunk: the unit and its identifier, None for both while not active.
  method ChunkValues(sd: EngagementTimeline, managers: seq<Interval<Uuid>>, unitIds: Uuid -> seq<Interval<string>>,
                     start: Time)
    returns (unit: Option<Uuid>, id: Option<Option<string>>, ok: bool)
    ensures ok <==> Complete(sd, managers, unitIds, start)
    ensures ok ==> unit == UnitComputed(sd, managers, start) && (unit.Some? <==> id.Some?)
    ensures ok ==> id == WantedUnitId(At(sd.active, start), At(managers, start),
                                      ManagedId(At(managers, start), unitIds, start), At(sd.unitId, start))
  {
    if At(sd.active, start).None? {
      return None, None, true;
    }
    id := At(sd.unitId, start);
    if id.None? {
      return None, None, false;
    }
    unit := At(managers, start);
    if unit.None? {
      unit := At(sd.unit, start);
      return unit, id, unit.Some?;
    }
    var managedId := At(unitIds(unit.value), start);
    return unit, Some(managedId), managedId.Some?;
  }

  // The first n chunks are done.
  ghost predicate ElevatedUpTo(units: seq<Interval<Uuid>>, ids: seq<Interval<Option<string>>>, sd: EngagementTimeline,
                               managers: seq<Interval<Uuid>>, unitIds: Uuid -> seq<Interval<string>>,
                               e: seq<Time>, n: nat)
    requires StrictlyIncreasing(e) && n < |e|
  {
    && RealisedBelow(units, (t: Time) => UnitComputed(sd, managers, t), e[n])
    && RealisedBelow(ids, (t: Time) => UnitIdComputed(sd, managers, unitIds, e, t), e[n])
  }

  lemma NextChunk(units: seq<Interval<Uuid>>, ids: seq<Interval<Option<string>>>, sd: EngagementTimeline,
                  managers: seq<Interval<Uuid>>, unitIds: Uuid -> seq<Interval<string>>, e: seq<Time>, k: nat,
                  unit: Option<Uuid>, id: Option<Option<string>>)
    requires AreEndpoints(e, sd, managers, unitIds) && k + 1 < |e|
    requires ElevatedUpTo(units, ids, sd, managers, unitIds, e, k)
    requires unit == UnitComputed(sd, managers, e[k]) && (unit.Some? <==> id.Some?)
    requires id == WantedUnitId(At(sd.active, e[k]), At(managers, e[k]), ManagedId(At(managers, e[k]), unitIds, e[k]),
                                At(sd.unitId, e[k]))
    ensures ElevatedUpTo(if unit.None? then units else units + [Interval(e[k], e[k + 1], unit.value)],
                         if id.None? then ids else ids + [Interval(e[k], e[k + 1], id.value)],
                         sd, managers, unitIds, e, k + 1)
  {
    var f := (t: Time) => UnitComputed(sd, managers, t);
    var g := (t: Time) => UnitIdComputed(sd, managers, unitIds, e, t);
    forall t | e[k] <= t < e[k + 1] ensures f(t) == unit && g(t) == id {
      ChunkSteady(sd, managers, unitIds, e, k, t);
    }
    if unit.None? {
      ExtendNone(units, f, e[k], e[k + 1]);
      ExtendNone(ids, g, e[k], e[k + 1]);
    } else {
      ExtendSome(units, f, e[k], e[k + 1], unit.value);
      ExtendSome(ids, g, e[k], e[k + 1], id.value);
    }
  }

  lemma AllChunks(units: seq<Interval<Uuid>>, ids: seq<Interval<Option<string>>>, sd: EngagementTimeline,
                  managers: seq<Interval<Uuid>>, unitIds: Uuid -> seq<Interval<string>>, e: seq<Time>)
    requires AreEndpoints(e, sd, managers, unitIds)
    requires if e == [] then units == [] && ids == [] else ElevatedUpTo(units, ids, sd, managers, unitIds, e, |e| - 1)
    ensures Realises(units, (t: Time) => UnitComputed(sd, managers, t))
    ensures Realises(ids, (t: Time) => UnitIdComputed(sd, managers, unitIds, e, t))
  {
    forall t | !InHull(e, t)
      ensures UnitComputed(sd, managers, t) == None && UnitIdComputed(sd, managers, unitIds, e, t) == None
    {
      SilentOutside(sd, managers, unitIds, e, t);
    }
    if e != [] {
      RealisedEverywhere(units, (t: Time) => UnitComputed(sd, managers, t), e[|e| - 1]);
      RealisedEverywhere(ids, (t: Time) => UnitIdComputed(sd, managers, unitIds, e, t), e[|e| - 1]);
    }
  }

  lemma NothingBelowFirst(sd: EngagementTimeline, managers: seq<Interval<Uuid>>,
                          unitIds: Uuid -> seq<Interval<string>>, e: seq<Time>)
    requires AreEndpoints(e, sd, managers, unitIds) && e != []
    ensures ElevatedUpTo([], [], sd, managers, unitIds, e, 0)
  {
    forall t | t < e[0]
      ensures UnitComputed(sd, managers, t) == None && UnitIdComputed(sd, managers, unitIds, e, t) == None
    {
      SilentOutside(sd, managers, unitIds, e, t);
    }
  }

  // The loop over the chunks.
  method ElevatedIntervals(sd: EngagementTimeline, managers: seq<Interval<Uuid>>,
                           unitIds: Uuid -> seq<Interval<string>>, e: seq<Time>)
    returns (units: seq<Interval<Uuid>>, ids: seq<Interval<Option<string>>>, ok: bool)
    requires AreEndpoints(e, sd, managers, unitIds)
    ensures ok <==> AllComplete(sd, managers, unitIds, e)
    ensures ok ==> Realises(units, (t: Time) => UnitComputed(sd, managers, t))
    ensures ok ==> Realises(ids, (t: Time) => UnitIdComputed(sd, managers, unitIds, e, t))
  {
    units, ids := [], [];
    if e != [] {
      NothingBelowFirst(sd, managers, unitIds, e);
    }
    var k := 0;
    while k < |e| - 1
      invariant 0 <= k && (if e == [] then units == [] && ids == []
                           else k < |e| && ElevatedUpTo(units, ids, sd, managers, unitIds, e, k))
      invariant forall j :: 0 <= j < k && j < |e| ==> Complete(sd, managers, unitIds, e[j])
    {
      var start, end := e[k], e[k + 1];
      var unit, id, present := ChunkValues(sd, managers, unitIds, start);
      if !present {
        return units, ids, false;
      }
      NextChunk(units, ids, sd, managers, unitIds, e, k, unit, id);
      if unit.Some? {
        units := units + [Interval(start, end, unit.value)];
        ids := ids + [Interval(start, end, id.value)];
      }
      k := k + 1;
    }
    AllChunks(units, ids, sd, managers, unitIds, e);
    ok := true;
  }

  // At t the identifier is the one wanted at t exactly if nobody is active or a unit is managed
  // there, or SD's identifier has not changed since the start of the chunk.
  lemma IdentifierHeldIff(sd: EngagementTimeline, managers: seq<Interval<Uuid>>,
                          unitIds: Uuid -> seq<Interval<string>>, e: seq<Time>, t: Time)
    requires StrictlyIncreasing(e) && InHull(e, t)
    ensures UnitIdComputed(sd, managers, unitIds, e, t)
         == WantedUnitId(At(sd.active, t), At(managers, t), ManagedId(At(managers, t), unitIds, t), At(sd.unitId, t))
       <==> At(sd.active, t).None? || At(managers, t).Some? || At(sd.unitId, e[ChunkIndex(e, t)]) == At(sd.unitId, t)
  {
  }

  // With SD's unit identifiers changing only at endpoints the loop knows, every instant gets
  // the identifier of its own instant.
  lemma IdentifierOfItsInstant(sd: EngagementTimeline, managers: seq<Interval<Uuid>>,
                               unitIds: Uuid -> seq<Interval<string>>, e: seq<Time>, t: Time)
    requires AreEndpoints(e, sd, managers, unitIds) && InHull(e, t)
    requires Endpoints(sd.unitId) <= Endpoints(sd.unit) + Endpoints(sd.active)
    ensures UnitIdComputed(sd, managers, unitIds, e, t)
         == WantedUnitId(At(sd.active, t), At(managers, t), ManagedId(At(managers, t), unitIds, t), At(sd.unitId, t))
  {
    ConstantOnChunk(sd.unitId, e, ChunkIndex(e, t));
  }

  // Otherwise a change of SD's identifier alone goes unnoticed: on day 15 the identifier is
  // still "a", although it is "b" from day 10 on.
  lemma IdentifierChangeCanBeMissed(sd: EngagementTimeline, managers: seq<Interval<Uuid>>,
                                    unitIds: Uuid -> seq<Interval<string>>)
    requires sd.active == [Interval(0, 20, true)] && sd.unit == [Interval(0, 20, 7)]
    requires sd.unitId == [Interval(0, 10, Some("a")), Interval(10, 20, Some("b"))]
    requires managers == [Interval(20, 30, 1)] && unitIds(1) == []
    ensures AreEndpoints([0, 20, 30], sd, managers, unitIds) && AllComplete(sd, managers, unitIds, [0, 20, 30])
    ensures At(sd.unitId, 15) == Some(Some("b")) && At(managers, 15) == None
    ensures UnitIdComputed(sd, managers, unitIds, [0, 20, 30], 15) == Some(Some("a"))
  {
    ExampleEndpoints(sd, managers, unitIds);
    ExampleIsComplete(sd, managers, unitIds);
    AtCovered(sd.unitId, 1, 15);
    AtCovered(sd.unitId, 0, 0);
    AtSingle(managers[0], 15);
    AtSingle(sd.active[0], 15);
    ChunkIndexUnique([0, 20, 30], 15, 0);
  }

  lemma ExampleIsComplete(sd: EngagementTimeline, managers: seq<Interval<Uuid>>,
                          unitIds: Uuid -> seq<Interval<string>>)
    requires sd.active == [Interval(0, 20, true)] && sd.unit == [Interval(0, 20, 7)]
    requires sd.unitId == [Interval(0, 10, Some("a")), Interval(10, 20, Some("b"))]
    requires managers == [Interval(20, 30, 1)] && unitIds(1) == []
    ensures AllComplete(sd, managers, unitIds, [0, 20, 30])
  {
    AtCovered(sd.unitId, 0, 0);
    AtSingle(managers[0], 0);
    AtSingle(sd.unit[0], 0);
    AtSingle(sd.active[0], 0);
    AtSingle(sd.active[0], 20);
    assert Complete(sd, managers, unitIds, 0) && Complete(sd, managers, unitIds, 20);
  }

  lemma ExampleEndpoints(sd: EngagementTimeline, managers: seq<Interval<Uuid>>,
                         unitIds: Uuid -> seq<Interval<string>>)
    requires sd.active == [Interval(0, 20, true)] && sd.unit == [Interval(0, 20, 7)]
    requires managers == [Interval(20, 30, 1)] && unitIds(1) == []
    ensures AreEndpoints([0, 20, 30], sd, managers, unitIds)
  {
    EndpointsSingle(sd.active[0]);
    EndpointsSingle(sd.unit[0]);
    EndpointsSingle(managers[0]);
    assert UnitIdEndpoints(managers, unitIds) == {};
  }
}
