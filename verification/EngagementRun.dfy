// From SD's engagement timeline to MO: strategy, preparation and the two loops
// (sdtoolplus/sync/engagement.py:638-677 and 930-996).
module EngagementRun {
  import opened Common
  import opened Timelines
  import opened MoRows
  import opened EngagementModel
  import opened MoStore
  import opened Removal
  import opened EngagementPipeline
  import Forest
  import RelatedUnits
  import RegionStrategy
  import NyLevel
  import Managing = ElevateManagers

  datatype Mode = Municipality(elevateManagers: bool, applyNyLogic: bool) | Region(recursiveLookup: bool)

  datatype Settings = Settings(mode: Mode, unknownUnit: Uuid, terminateInUnknownInPast: bool)

  // What SD and MO answer during the run, and the time.
  datatype Surroundings = Surroundings(
    world: RelatedUnits.World, managers: seq<Interval<Uuid>>, unitIds: Uuid -> seq<Interval<string>>,
    parentHistory: NyLevel.ParentHistory, jobFunctions: set<string>, ouActive: Uuid -> seq<Interval<bool>>, now: Time)

  ghost predicate Proper(s: Surroundings) {
    && RelatedUnits.ValidWorld(s.world) && Canonical(s.managers) && NyLevel.Chronological(s.parentHistory)
    && forall t :: Forest.Acyclic(RelatedUnits.ParentsAt(s.world, t))
  }

  // ----- nothing happens after the end of time

  ghost predicate SilentAtInfinity(tl: EngagementTimeline) {
    forall t :: POSITIVE_INFINITY <= t ==> RecordAt(tl, t) == NOTHING
  }

  lemma NothingLate<V>(s: seq<Interval<V>>, t: Time)
    requires InTime(s) && POSITIVE_INFINITY <= t
    ensures At(s, t) == None
  {
    AtWitness(s, t);
    forall i | 0 <= i < |s| ensures !Covers(s[i], t) {
      assert s[i].end in Endpoints(s);
    }
  }

  lemma EndsInTimeIsSilent(tl: EngagementTimeline)
    requires EndsInTime(tl)
    ensures SilentAtInfinity(tl)
  {
    forall t | POSITIVE_INFINITY <= t ensures RecordAt(tl, t) == NOTHING {
      NothingLate(tl.active, t);
      NothingLate(tl.key, t);
      NothingLate(tl.name, t);
      NothingLate(tl.unit, t);
      NothingLate(tl.sdUnit, t);
      NothingLate(tl.unitId, t);
      NothingLate(tl.engType, t);
    }
  }

  lemma SilentEndsInTime(tl: EngagementTimeline)
    requires CanonicalTimeline(tl) && SilentAtInfinity(tl)
    ensures EndsInTime(tl)
  {
    forall t | POSITIVE_INFINITY <= t
      ensures At(tl.active, t) == None && At(tl.key, t) == None && At(tl.name, t) == None && At(tl.unit, t) == None
      ensures At(tl.sdUnit, t) == None && At(tl.unitId, t) == None && At(tl.engType, t) == None
    {
      assert RecordAt(tl, t) == NOTHING;
    }
    SilentAfterInfinityIsInTime(tl.active);
    SilentAfterInfinityIsInTime(tl.key);
    SilentAfterInfinityIsInTime(tl.name);
    SilentAfterInfinityIsInTime(tl.unit);
    SilentAfterInfinityIsInTime(tl.sdUnit);
    SilentAfterInfinityIsInTime(tl.unitId);
    SilentAfterInfinityIsInTime(tl.engType);
  }

  // ----- the strategy

  // The strategy finds everything it looks up; otherwise the source raises an exception.
  ghost predicate CanBePlaced(sd: EngagementTimeline, mode: Mode, s: Surroundings) {
    sd == EMPTY ||
    match mode
    case Municipality(elevateManagers, applyNyLogic) =>
      if elevateManagers then
        s.managers == [] || exists e :: Managing.AreEndpoints(e, sd, s.managers, s.unitIds)
                                        && Managing.AllComplete(sd, s.managers, s.unitIds, e)
      else if applyNyLogic then forall i :: 0 <= i < |sd.unit| ==> NyLevel.Usable(s.parentHistory, sd.unit[i])
      else true
    case Region(_) => true
  }

  // The placement the strategy computes: which fields change, and their values at every instant.
  ghost predicate Placed(r: EngagementTimeline, sd: EngagementTimeline, mo: EngagementTimeline, settings: Settings,
                         s: Surroundings)
  {
    if sd == EMPTY then r == sd
    else
      match settings.mode
      case Municipality(elevateManagers, applyNyLogic) =>
        if elevateManagers then
          if s.managers == [] then r == sd
          else ElevatedTo(r, sd, s)
        else if applyNyLogic then
          && r == sd.(unit := r.unit)
          && forall t :: At(r.unit, t) == NyLevel.ParentAt(s.parentHistory, At(sd.unit, t), t)
        else r == sd
      case Region(recursiveLookup) => RegionPlaced(r, sd, mo, s.world, settings.unknownUnit, recursiveLookup)
  }

  ghost predicate ElevatedTo(r: EngagementTimeline, sd: EngagementTimeline, s: Surroundings) {
    && r == sd.(unit := r.unit, unitId := r.unitId)
    && exists e :: Managing.AreEndpoints(e, sd, s.managers, s.unitIds)
                   && Managing.IsElevated(r, sd, s.managers, s.unitIds, e)
  }

  ghost predicate RegionPlaced(r: EngagementTimeline, sd: EngagementTimeline, mo: EngagementTimeline,
                               w: RelatedUnits.World, unknown: Uuid, recursive: bool)
  {
    && r == sd.(unit := r.unit)
    && exists e :: RegionStrategy.AreEndpoints(e, sd, mo) && HasUnits(r, sd, mo, e, w, unknown, recursive)
  }

  ghost predicate HasUnits(r: EngagementTimeline, sd: EngagementTimeline, mo: EngagementTimeline, e: seq<Time>,
                           w: RelatedUnits.World, unknown: Uuid, recursive: bool)
    requires StrictlyIncreasing(e)
  {
    forall t :: At(r.unit, t) == RegionStrategy.Computed(sd, mo, e, w, unknown, recursive, t)
  }

  lemma RegionIsSilent(r: EngagementTimeline, sd: EngagementTimeline, mo: EngagementTimeline,
                       w: RelatedUnits.World, unknown: Uuid, recursive: bool)
    requires RegionPlaced(r, sd, mo, w, unknown, recursive) && SilentAtInfinity(sd) && EndsInTime(sd) && EndsInTime(mo)
    ensures SilentAtInfinity(r)
  {
    var e :| RegionStrategy.AreEndpoints(e, sd, mo) && HasUnits(r, sd, mo, e, w, unknown, recursive);
    forall t | POSITIVE_INFINITY <= t ensures RecordAt(r, t) == NOTHING {
      assert RecordAt(sd, t) == NOTHING;
      assert e != [] ==> e[|e| - 1] in e;
      assert !InHull(e, t);
      assert At(r.unit, t) == RegionStrategy.Computed(sd, mo, e, w, unknown, recursive, t);
    }
  }

  lemma ElevatedIsSilent(r: EngagementTimeline, sd: EngagementTimeline, s: Surroundings)
    requires ElevatedTo(r, sd, s) && SilentAtInfinity(sd)
    ensures SilentAtInfinity(r)
  {
    var e :| Managing.AreEndpoints(e, sd, s.managers, s.unitIds)
             && Managing.IsElevated(r, sd, s.managers, s.unitIds, e);
    forall t | POSITIVE_INFINITY <= t ensures RecordAt(r, t) == NOTHING {
      assert RecordAt(sd, t) == NOTHING;
      assert At(r.unit, t).Some? <==> At(sd.active, t).Some?;
      assert At(r.unitId, t) == Managing.UnitIdComputed(sd, s.managers, s.unitIds, e, t);
    }
  }

  // Whatever the strategy, the placement ends in time.
  lemma PlacedEndsInTime(r: EngagementTimeline, sd: EngagementTimeline, mo: EngagementTimeline, settings: Settings,
                         s: Surroundings)
    requires CanonicalTimeline(sd) && EndsInTime(sd) && EndsInTime(mo)
    requires CanonicalTimeline(r) && Placed(r, sd, mo, settings, s)
    ensures EndsInTime(r)
  {
    EndsInTimeIsSilent(sd);
    if r != sd {
      match settings.mode
      case Municipality(elevateManagers, applyNyLogic) =>
        if elevateManagers {
          ElevatedIsSilent(r, sd, s);
        } else {
          forall t | POSITIVE_INFINITY <= t ensures RecordAt(r, t) == NOTHING {
            assert RecordAt(sd, t) == NOTHING;
            assert At(r.unit, t) == NyLevel.ParentAt(s.parentHistory, At(sd.unit, t), t);
          }
        }
      case Region(recursiveLookup) =>
        RegionIsSilent(r, sd, mo, s.world, settings.unknownUnit, recursiveLookup);
    }
    SilentEndsInTime(r);
  }

  // The same for each strategy in terms of the instant: the unit managed, the parent in SD's
  // history, or the unit of the region's rule.
  ghost predicate FollowsStrategy(r: EngagementTimeline, sd: EngagementTimeline, mo: EngagementTimeline,
                                  settings: Settings, s: Surroundings)
  {
    && (sd != EMPTY && settings.mode.Region? ==> FollowsRegion(r, sd, mo, settings, s))
    && (sd != EMPTY && settings.mode.Municipality? && settings.mode.elevateManagers && s.managers != [] ==>
         FollowsManagers(r, sd, s))
    && (sd != EMPTY && settings.mode.Municipality? && !settings.mode.elevateManagers && settings.mode.applyNyLogic ==>
         FollowsParents(r, sd, s))
  }

  ghost predicate FollowsRegion(r: EngagementTimeline, sd: EngagementTimeline, mo: EngagementTimeline,
                                settings: Settings, s: Surroundings)
    requires settings.mode.Region?
  {
    exists e :: RegionStrategy.AreEndpoints(e, sd, mo) &&
      forall k, t :: 0 <= k < |e| - 1 && e[k] <= t < e[k + 1] ==>
        RegionStrategy.IsPlaced(r, sd, mo, s.world, settings.unknownUnit, settings.mode.recursiveLookup, e[k], t)
  }

  ghost predicate FollowsManagers(r: EngagementTimeline, sd: EngagementTimeline, s: Surroundings) {
    exists e :: Managing.AreEndpoints(e, sd, s.managers, s.unitIds) &&
      forall k, t :: 0 <= k < |e| - 1 && e[k] <= t < e[k + 1] ==>
        Managing.IsPlaced(r, sd, s.managers, s.unitIds, e[k], t)
  }

  ghost predicate FollowsParents(r: EngagementTimeline, sd: EngagementTimeline, s: Surroundings) {
    forall t ::
      && (At(r.unit, t).Some? <==> At(sd.unit, t).Some?)
      && (At(r.unit, t).Some? ==> NyLevel.HasParent(s.parentHistory, At(sd.unit, t).value, At(r.unit, t).value, t))
  }

  // sdtoolplus/sync/engagement.py:638-677; None where the chosen strategy raises an exception.
  method EngagementOuStrategy(sd: EngagementTimeline, mo: EngagementTimeline, settings: Settings, s: Surroundings)
    returns (r: Option<EngagementTimeline>)
    requires CanonicalTimeline(sd) && CanonicalTimeline(mo) && Proper(s)
    ensures r.Some? <==> CanBePlaced(sd, settings.mode, s)
    ensures r.Some? ==> CanonicalTimeline(r.value) && Placed(r.value, sd, mo, settings, s)
    ensures r.Some? ==> FollowsStrategy(r.value, sd, mo, settings, s)
    ensures settings.mode.Region? || sd == EMPTY ==> r.Some?
    ensures settings.mode.Municipality? && settings.mode.elevateManagers && s.managers == [] ==> r.Some?
    ensures settings.mode.Municipality? && !settings.mode.elevateManagers && !settings.mode.applyNyLogic ==> r == Some(sd)
  {
    if sd == EMPTY {
      return Some(sd);
    }
    match settings.mode
    case Municipality(elevateManagers, applyNyLogic) =>
      if elevateManagers {
        ghost var e;
        r, e := Managing.ElevateManagers(sd, s.managers, s.unitIds);
        if s.managers != [] {
          SameElevationCuts(sd, s, e);
        }
        return;
      }
      if applyNyLogic {
        var elevated := NyLevel.ElevateToNyLevel(sd, s.parentHistory);
        r := if elevated.Elevated? then Some(elevated.timeline) else None;
        return;
      }
      return Some(sd);
    case Region(recursiveLookup) =>
      var placed;
      ghost var e;
      placed, e := RegionStrategy.EngagementOuStrategyRegion(sd, mo, s.world, settings.unknownUnit, recursiveLookup);
      assert HasUnits(placed, sd, mo, e, s.world, settings.unknownUnit, recursiveLookup);
      return Some(placed);
  }

  // There is only one ordered list of the endpoints.
  lemma SameElevationCuts(sd: EngagementTimeline, s: Surroundings, e: seq<Time>)
    requires Managing.AreEndpoints(e, sd, s.managers, s.unitIds)
    ensures forall d :: Managing.AreEndpoints(d, sd, s.managers, s.unitIds) ==> d == e
  {
    forall d | Managing.AreEndpoints(d, sd, s.managers, s.unitIds) ensures d == e {
      IncreasingUnique(d, e);
    }
  }

  // ----- the whole run

  // What is desired in the end, placed being what the strategy computed.
  ghost predicate DesiredIs(desired: EngagementTimeline, placed: EngagementTimeline, settings: Settings, s: Surroundings) {
    forall t ::
      RecordAt(desired, t) == if settings.terminateInUnknownInPast && PastUnknown(placed, settings.unknownUnit, s.now, t)
                              then NOTHING
                              else Prepared(RecordAt(placed, t), s.jobFunctions, s.ouActive, settings.unknownUnit, t)
  }

  lemma DesiredEndsInTime(desired: EngagementTimeline, placed: EngagementTimeline, settings: Settings, s: Surroundings)
    requires CanonicalTimeline(desired) && CanonicalTimeline(placed) && EndsInTime(placed)
    requires DesiredIs(desired, placed, settings, s)
    ensures EndsInTime(desired)
  {
    EndsInTimeIsSilent(placed);
    forall t | POSITIVE_INFINITY <= t ensures RecordAt(desired, t) == NOTHING {
      assert RecordAt(placed, t) == NOTHING;
    }
    SilentEndsInTime(desired);
  }

  // sdtoolplus/sync/engagement.py:930-996: read MO, place, prepare, write. ok is false for an
  // exception. Leave stays inside engagement in every state; unless MO cannot be read or the
  // strategy fails, in which cases nothing is written, the loops end as promised for the timeline
  // that strategy and preparation come to.
  method SyncEngagement(mo: Mo, sd: EngagementTimeline, sdLeave: seq<Interval<bool>>, row: LeaveRow,
                        settings: Settings, s: Surroundings)
    returns (ok: bool, ghost placed: EngagementTimeline, ghost desired: EngagementTimeline)
    requires mo.Valid() && CanonicalTimeline(sd) && EndsInTime(sd) && InTime(sdLeave) && Proper(s)
    modifies mo
    ensures mo.Valid() && KeepsLeaveInside(old(mo.history), mo.history)
    ensures !AllReadable(old(mo.engagement)) || !CanBePlaced(sd, settings.mode, s) ==>
      !ok && mo.history == old(mo.history)
    ensures AllReadable(old(mo.engagement)) && CanBePlaced(sd, settings.mode, s) ==>
      && Placed(placed, sd, GetEngagementTimeline(old(mo.engagement)).value, settings, s)
      && FollowsStrategy(placed, sd, GetEngagementTimeline(old(mo.engagement)).value, settings, s)
      && CanonicalTimeline(desired) && DesiredIs(desired, placed, settings, s)
      && (forall t :: !(settings.terminateInUnknownInPast && PastUnknown(placed, settings.unknownUnit, s.now, t)) ==>
            IsPrepared(desired, placed, s.jobFunctions, s.ouActive, settings.unknownUnit, t))
      && RunEnds(old(Snapshot(mo.engagement, mo.leave)), Snapshot(mo.engagement, mo.leave), desired, sdLeave, row, ok)
  {
    placed, desired := EMPTY, EMPTY;
    if !AllReadable(mo.engagement) {
      return false, placed, desired;
    }
    var moTimeline := GetEngagementTimeline(mo.engagement).value;
    ReadBackMirrors(mo.engagement);
    ReadBackEndsInTime(mo.engagement);
    var strategy := EngagementOuStrategy(sd, moTimeline, settings, s);
    if strategy.None? {
      return false, placed, desired;
    }
    placed := strategy.value;
    PlacedEndsInTime(placed, sd, moTimeline, settings, s);
    var prepared := PrepareDesired(strategy.value, settings.terminateInUnknownInPast, settings.unknownUnit, s.now,
                                   s.jobFunctions, s.ouActive);
    desired := prepared;
    DesiredEndsInTime(desired, placed, settings, s);
    ok := RunLoops(mo, prepared, moTimeline, sdLeave, row);
  }
}
