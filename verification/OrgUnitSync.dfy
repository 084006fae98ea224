// The loop that makes a unit in MO equal to its desired timeline.
module OrgUnitSync {
  import opened Common
  import opened Timelines
  import opened MoDates
  import opened MoRows
  import opened OrgUnitTimelines
  import opened OrgUnitStore
  import opened OrgUnitWrites

  // MissingData is the early exit, CannotProcess the exception raised after queueing the parent
  // or the children, UnitNotFound the one for a termination without a row.
  datatype SyncResult = Finished | MissingData | CannotProcess | UnitNotFound

  // What MO will answer during the run.
  datatype MoAnswers = MoAnswers(accepts: Accepts, children: ActiveChildren)

  // The parent wanted at start, or the children in force in the chunk, have been queued.
  ghost predicate PutOff(after: seq<Event>, before: seq<Event>, desired: UnitTimeline, answers: MoAnswers,
                         start: Time, end: Time, priority: int)
  {
    if At(desired.active, start) == Some(true) then ParentQueued(after, before, At(desired.parent, start), priority)
    else ChildrenQueued(after, before, answers.children(TimelineIntervalToMoValidity(start, end)), priority)
  }

  // Nothing in MO stands in the way of the chunk [start, end) in which d is wanted: it is right
  // already, too short to be terminated, without active children when it is to be terminated,
  // or MO accepts every write.
  ghost predicate Unhindered(d: UnitAt, rows: seq<Interval<UnitRow>>, start: Time, end: Time, answers: MoAnswers) {
    || d == ReadRow(At(rows, start))
    || (if d.active != Some(true) then end - start <= 1 || answers.children(TimelineIntervalToMoValidity(start, end)) == None
        else d.parent.Some? && CanBeWritten(rows, start, end, d.parent.value, answers.accepts))
  }

  ghost predicate MirrorsOn(tl: UnitTimeline, rows: seq<Interval<UnitRow>>, start: Time, end: Time) {
    forall t :: start <= t < end ==> RecordAt(tl, t) == ReadRow(At(rows, t))
  }

  ghost predicate ChunkDone(after: seq<Interval<UnitRow>>, before: seq<Interval<UnitRow>>, desired: UnitTimeline,
                            start: Time, end: Time)
  {
    forall t :: start <= t < end ==> At(after, t) == Outcome(RecordAt(desired, t), before, start, end, t)
  }

  lemma DoneKeepsOwned(after: seq<Interval<UnitRow>>, before: seq<Interval<UnitRow>>, desired: UnitTimeline,
                       start: Time, end: Time)
    requires end <= POSITIVE_INFINITY && ChunkDone(after, before, desired, start, end)
    ensures KeepsOwned(after, before, start, end)
  {
  }

  // One iteration: the pair [start, end) of neighbouring endpoints.
  method SyncOuChunk(mo: MoUnit, start: Time, end: Time, desired: UnitTimeline, moTimeline: UnitTimeline,
                     answers: MoAnswers, priority: int) returns (r: SyncResult)
    requires mo.Valid() && start < end <= POSITIVE_INFINITY
    requires ConstantOn(desired, start, end) && ConstantOn(moTimeline, start, end)
    requires MirrorsOn(moTimeline, mo.rows, start, end)
    modifies mo
    ensures mo.Valid() && SameOutside(mo.rows, old(mo.rows), start, end)
    ensures SameFrom(mo.rows, old(mo.rows), end)
    ensures r.Finished? ==> Unhindered(RecordAt(desired, start), old(mo.rows), start, end, answers)
    ensures r.CannotProcess? ==> !Unhindered(RecordAt(desired, start), old(mo.rows), start, end, answers)
    ensures r.Finished? ==> mo.queue == old(mo.queue) && ChunkDone(mo.rows, old(mo.rows), desired, start, end)
    ensures r.MissingData? ==> At(desired.active, start) == Some(true) && !Complete(RecordAt(desired, start))
    ensures r.UnitNotFound? ==> At(desired.active, start) != Some(true) && RecordAt(desired, start) != NOTHING
    ensures r.CannotProcess? ==> PutOff(mo.queue, old(mo.queue), desired, answers, start, end, priority)
    ensures !r.CannotProcess? ==> mo.queue == old(mo.queue)
  {
    if RecordAt(desired, start) == RecordAt(moTimeline, start) {
      return Finished;
    }
    if At(desired.active, start) != Some(true) {
      FoundAnyIffPresent(mo.rows, start, end);
      var t := TerminateOu(mo, start, end, answers.children, priority);
      return match t
        case Terminated => Finished
        case TooShort => Finished
        case ChildrenFirst => CannotProcess
        case UnitNotFound => SyncResult.UnitNotFound;
    }
    if !Complete(RecordAt(desired, start)) {
      return MissingData;
    }
    var ok;
    if mo.rows != [] {
      ok := UpdateOu(mo, start, end, desired, answers.accepts, priority);
    } else {
      ok := CreateOu(mo, start, end, desired, answers.accepts, priority);
    }
    r := if ok then Finished else CannotProcess;
  }

  ghost predicate AreEndpoints(e: seq<Time>, desired: UnitTimeline, moTimeline: UnitTimeline) {
    StrictlyIncreasing(e) && forall p :: p in e <==> p in TimelineEndpoints(desired) + TimelineEndpoints(moTimeline)
  }

  ghost predicate IsChunk(e: seq<Time>, k: nat, desired: UnitTimeline, moTimeline: UnitTimeline)
    requires k + 1 < |e|
  {
    && e[k] < e[k + 1] <= POSITIVE_INFINITY
    && ConstantOn(desired, e[k], e[k + 1]) && ConstantOn(moTimeline, e[k], e[k + 1])
  }

  method MergedEndpoints(desired: UnitTimeline, moTimeline: UnitTimeline) returns (e: seq<Time>)
    requires EndsInTime(desired) && EndsInTime(moTimeline)
    ensures AreEndpoints(e, desired, moTimeline)
    ensures forall k :: 0 <= k < |e| - 1 ==> IsChunk(e, k, desired, moTimeline)
  {
    e := SortedSeq(TimelineEndpoints(desired) + TimelineEndpoints(moTimeline));
    assert HasEndpointsOf(e, desired);
    assert HasEndpointsOf(e, moTimeline);
    assert forall p :: p in e ==> p <= POSITIVE_INFINITY by {
      EndpointsInTime(desired);
      EndpointsInTime(moTimeline);
    }
    ChunksAreConstant(e, desired, moTimeline);
  }

  lemma ChunksAreConstant(e: seq<Time>, desired: UnitTimeline, moTimeline: UnitTimeline)
    requires StrictlyIncreasing(e) && HasEndpointsOf(e, desired) && HasEndpointsOf(e, moTimeline)
    requires forall p :: p in e ==> p <= POSITIVE_INFINITY
    ensures forall k :: 0 <= k < |e| - 1 ==> IsChunk(e, k, desired, moTimeline)
  {
    forall k | 0 <= k < |e| - 1 ensures IsChunk(e, k, desired, moTimeline) {
      assert e[k + 1] in e;
      RecordConstant(desired, e, k);
      RecordConstant(moTimeline, e, k);
    }
  }

  // The first n chunks are done, everything else is as it was.
  ghost predicate DoneUpTo(after: seq<Interval<UnitRow>>, before: seq<Interval<UnitRow>>, desired: UnitTimeline,
                           e: seq<Time>, n: nat)
    requires n < |e|
  {
    && (forall k :: 0 <= k < n ==> ChunkDone(after, before, desired, e[k], e[k + 1]))
    && (forall t :: t < e[0] || e[n] <= t ==> At(after, t) == At(before, t))
    && SameFrom(after, before, e[n])
  }

  lemma OneMoreDone(s0: seq<Interval<UnitRow>>, s1: seq<Interval<UnitRow>>, s2: seq<Interval<UnitRow>>,
                    desired: UnitTimeline, e: seq<Time>, n: nat)
    requires StrictlyIncreasing(e) && n + 1 < |e| && DoneUpTo(s1, s0, desired, e, n)
    requires ChunkDone(s2, s1, desired, e[n], e[n + 1]) && SameOutside(s2, s1, e[n], e[n + 1])
    requires SameFrom(s2, s1, e[n + 1]) && WellFormed(s0) && WellFormed(s1)
    ensures DoneUpTo(s2, s0, desired, e, n + 1)
  {
    SameFromLater(s1, s0, e[n], e[n + 1]);
    SameStarts(s1, s0, e[n]);
    forall k | 0 <= k < n + 1 ensures ChunkDone(s2, s0, desired, e[k], e[k + 1]) {
      if k < n {
        assert e[k + 1] <= e[n];
        assert ChunkDone(s1, s0, desired, e[k], e[k + 1]);
      } else {
        forall t | e[n] <= t < e[n + 1]
          ensures Outcome(RecordAt(desired, t), s1, e[n], e[n + 1], t)
               == Outcome(RecordAt(desired, t), s0, e[n], e[n + 1], t)
        {
          assert e[n] < LastDayAskedFor(e[n + 1]) <= t ==> (t in Starts(s1) <==> t in Starts(s0));
        }
      }
    }
  }

  // Nothing in MO as it was stood in the way of the first n chunks.
  ghost predicate AllUnhindered(before: seq<Interval<UnitRow>>, desired: UnitTimeline, answers: MoAnswers,
                                e: seq<Time>, n: nat)
    requires n < |e|
  {
    forall k :: 0 <= k < n ==> Unhindered(RecordAt(desired, e[k]), before, e[k], e[k + 1], answers)
  }

  // Whether something stands in the way of the next chunk has not changed.
  lemma StillUnhindered(rows: seq<Interval<UnitRow>>, before: seq<Interval<UnitRow>>, desired: UnitTimeline,
                        answers: MoAnswers, e: seq<Time>, n: nat)
    requires n + 1 < |e| && DoneUpTo(rows, before, desired, e, n)
    ensures Unhindered(RecordAt(desired, e[n]), rows, e[n], e[n + 1], answers)
       <==> Unhindered(RecordAt(desired, e[n]), before, e[n], e[n + 1], answers)
  {
    var d := RecordAt(desired, e[n]);
    if d.parent.Some? {
      SameWrites(rows, before, e[n], e[n + 1], d.parent.value, answers.accepts);
    }
  }

  // The chunk starting at e[n] is the first in whose way something stands; whatever has to come
  // first is queued.
  ghost predicate StoppedAt(after: seq<Interval<UnitRow>>, before: seq<Interval<UnitRow>>,
                            queueAfter: seq<Event>, queueBefore: seq<Event>, desired: UnitTimeline, answers: MoAnswers,
                            e: seq<Time>, n: nat, priority: int)
    requires n + 1 < |e|
  {
    && DoneBefore(after, before, desired, e, n) && AllUnhindered(before, desired, answers, e, n)
    && !Unhindered(RecordAt(desired, e[n]), before, e[n], e[n + 1], answers)
    && PutOff(queueAfter, queueBefore, desired, answers, e[n], e[n + 1], priority)
  }

  ghost predicate Stopped(after: seq<Interval<UnitRow>>, before: seq<Interval<UnitRow>>,
                          queueAfter: seq<Event>, queueBefore: seq<Event>, desired: UnitTimeline, answers: MoAnswers,
                          e: seq<Time>, priority: int)
  {
    exists k :: 0 <= k < |e| - 1 && StoppedAt(after, before, queueAfter, queueBefore, desired, answers, e, k, priority)
  }

  // The desired timeline lacks a field where it is active, or has one where it is not.
  ghost predicate LacksData(desired: UnitTimeline) {
    exists t :: At(desired.active, t) == Some(true) && !Complete(RecordAt(desired, t))
  }

  ghost predicate HasStrayData(desired: UnitTimeline) {
    exists t :: At(desired.active, t) != Some(true) && RecordAt(desired, t) != NOTHING
  }

  // From the first pair of endpoints to the last.
  method SyncOuIntervals(mo: MoUnit, desired: UnitTimeline, moTimeline: UnitTimeline, answers: MoAnswers, priority: int)
    returns (r: SyncResult, ghost e: seq<Time>)
    requires mo.Valid() && EndsInTime(desired) && EndsInTime(moTimeline) && Mirrors(moTimeline, mo.rows)
    modifies mo
    ensures mo.Valid() && AreEndpoints(e, desired, moTimeline)
    ensures e == [] ==> r.Finished? && mo.rows == old(mo.rows)
    ensures e != [] && r.Finished? ==>
      DoneUpTo(mo.rows, old(mo.rows), desired, e, |e| - 1) && AllUnhindered(old(mo.rows), desired, answers, e, |e| - 1)
    ensures r.MissingData? ==> LacksData(desired)
    ensures r.UnitNotFound? ==> HasStrayData(desired)
    ensures r.CannotProcess? ==>
      Stopped(mo.rows, old(mo.rows), mo.queue, old(mo.queue), desired, answers, e, priority)
    ensures !r.CannotProcess? ==> mo.queue == old(mo.queue)
  {
    var points := MergedEndpoints(desired, moTimeline);
    e := points;
    if points == [] {
      return Finished, e;
    }
    var k := 0;
    while k < |points| - 1
      invariant 0 <= k < |e|
      invariant mo.Valid() && DoneUpTo(mo.rows, old(mo.rows), desired, e, k) && mo.queue == old(mo.queue)
      invariant AllUnhindered(old(mo.rows), desired, answers, e, k)
    {
      ghost var s1 := mo.rows;
      assert IsChunk(e, k, desired, moTimeline);
      StillMirrored(mo.rows, old(mo.rows), desired, moTimeline, e, k);
      StillUnhindered(mo.rows, old(mo.rows), desired, answers, e, k);
      r := SyncOuChunk(mo, points[k], points[k + 1], desired, moTimeline, answers, priority);
      if !r.Finished? {
        StillDone(mo.rows, s1, old(mo.rows), desired, e, k);
        assert r.CannotProcess? ==>
          StoppedAt(mo.rows, old(mo.rows), mo.queue, old(mo.queue), desired, answers, e, k, priority);
        return;
      }
      OneMoreDone(old(mo.rows), s1, mo.rows, desired, e, k);
      k := k + 1;
    }
    r := Finished;
  }

  // The chunk at e[n] still is as MO was read.
  lemma StillMirrored(rows: seq<Interval<UnitRow>>, before: seq<Interval<UnitRow>>, desired: UnitTimeline,
                      moTimeline: UnitTimeline, e: seq<Time>, n: nat)
    requires StrictlyIncreasing(e) && n + 1 < |e| && DoneUpTo(rows, before, desired, e, n) && Mirrors(moTimeline, before)
    ensures MirrorsOn(moTimeline, rows, e[n], e[n + 1])
  {
  }

  // The first n chunks are done; nothing after the next one has been touched.
  ghost predicate DoneBefore(after: seq<Interval<UnitRow>>, before: seq<Interval<UnitRow>>, desired: UnitTimeline,
                             e: seq<Time>, n: nat)
    requires n + 1 < |e|
  {
    && (forall k :: 0 <= k < n ==> ChunkDone(after, before, desired, e[k], e[k + 1]))
    && (forall t :: t < e[0] || e[n + 1] <= t ==> At(after, t) == At(before, t))
  }

  lemma StillDone(s2: seq<Interval<UnitRow>>, s1: seq<Interval<UnitRow>>, s0: seq<Interval<UnitRow>>,
                  desired: UnitTimeline, e: seq<Time>, n: nat)
    requires StrictlyIncreasing(e) && n + 1 < |e| && DoneUpTo(s1, s0, desired, e, n)
    requires SameOutside(s2, s1, e[n], e[n + 1])
    ensures DoneBefore(s2, s0, desired, e, n)
  {
    forall k | 0 <= k < n ensures ChunkDone(s2, s0, desired, e[k], e[k + 1]) {
      assert e[k + 1] <= e[n];
      assert ChunkDone(s1, s0, desired, e[k], e[k + 1]);
    }
  }

  // ----- the whole of sync_ou

  // What patching guarantees: everything where active, nothing elsewhere.
  ghost predicate CompleteOrNothing(tl: UnitTimeline) {
    forall t :: RecordAt(tl, t) == NOTHING || (At(tl.active, t) == Some(true) && Complete(RecordAt(tl, t)))
  }

  ghost predicate Agrees(rows: seq<Interval<UnitRow>>, desired: UnitTimeline, start: Time, end: Time) {
    forall t :: start <= t < end ==> ReadRow(At(rows, t)) == RecordAt(desired, t)
  }

  // After normal completion a chunk agrees with the desired timeline at every instant if and
  // only if that could be foreseen from what MO had before.
  lemma ChunkConverges(after: seq<Interval<UnitRow>>, before: seq<Interval<UnitRow>>, desired: UnitTimeline,
                       moTimeline: UnitTimeline, start: Time, end: Time)
    requires start < end <= POSITIVE_INFINITY && CompleteOrNothing(desired)
    requires ConstantOn(desired, start, end) && ConstantOn(moTimeline, start, end) && Mirrors(moTimeline, before)
    requires ChunkDone(after, before, desired, start, end)
    ensures WillConverge(RecordAt(desired, start), before, start, end) <==> Agrees(after, desired, start, end)
  {
    forall t | start <= t < end ensures ReadRow(At(before, t)) == ReadRow(At(before, start)) {
      assert RecordAt(moTimeline, t) == RecordAt(moTimeline, start);
    }
    var d := RecordAt(desired, start);
    ConvergesIffForeseen(d, before, start, end);
    forall t | start <= t < end
      ensures RecordAt(desired, t) == d && At(after, t) == Outcome(d, before, start, end, t)
    {
    }
    if WillConverge(d, before, start, end) {
      forall t | start <= t < end ensures ReadRow(At(after, t)) == RecordAt(desired, t) {
        assert ReadRow(Outcome(d, before, start, end, t)) == d;
      }
    } else {
      var t :| start <= t < end && ReadRow(Outcome(d, before, start, end, t)) != d;
      assert ReadRow(At(after, t)) != RecordAt(desired, t);
    }
  }

  // The chunk that starts at e[k] agrees exactly if it was foreseen to.
  ghost predicate AgreesAsForeseen(after: seq<Interval<UnitRow>>, before: seq<Interval<UnitRow>>, desired: UnitTimeline,
                                   e: seq<Time>, k: nat)
    requires k + 1 < |e|
  {
    WillConverge(RecordAt(desired, e[k]), before, e[k], e[k + 1]) <==> Agrees(after, desired, e[k], e[k + 1])
  }

  // Departments as SD has them, patched and written to MO: the early exit for missing data is
  // never taken and no unit looked for in vain; outside the hull of all endpoints unit and
  // timeline are both absent. It finishes exactly if nothing in MO, as it was, stands in the way
  // of any chunk. Otherwise the chunks before the first one hindered are done, nothing after it
  // has been touched, and the events that have to come first are queued.
  method SyncOu(mo: MoUnit, sd: SdUnit, unknown: Uuid, answers: MoAnswers, priority: int)
    returns (r: SyncResult, ghost desired: UnitTimeline, ghost e: seq<Time>)
    requires mo.Valid() && ProperAnswer(sd) && WellFormed(Departments(sd))
    modifies mo
    ensures mo.Valid() && (r.Finished? || r.CannotProcess?)
    ensures CompleteOrNothing(desired)
    ensures forall t :: At(desired.active, t).Some? <==> At(Departments(sd), t).Some?
    ensures forall t :: At(Departments(sd), t).Some? ==> DepartmentFields(desired, sd, unknown, t)
    ensures forall t, d :: IsDepartment(sd, d, t) ==> HasFields(desired, sd, d, unknown, t)
    ensures r.Finished? ==> forall k :: 0 <= k < |e| - 1 ==> KeepsOwned(mo.rows, old(mo.rows), e[k], e[k + 1])
    ensures r.Finished? ==> forall k :: 0 <= k < |e| - 1 ==> AgreesAsForeseen(mo.rows, old(mo.rows), desired, e, k)
    ensures StrictlyIncreasing(e) && (r.Finished? ==> forall t :: !InHull(e, t) ==>
      ReadRow(At(mo.rows, t)) == NOTHING && RecordAt(desired, t) == NOTHING)
    ensures r.Finished? ==> mo.queue == old(mo.queue)
    ensures r.Finished? <==> e == [] || AllUnhindered(old(mo.rows), desired, answers, e, |e| - 1)
    ensures r.Finished? ==> forall k :: 0 <= k < |e| - 1 ==> AgreesBeforeLastDay(mo.rows, desired, e[k], e[k + 1])
    ensures RefusesNothing(answers) ==> r.Finished?
    ensures r.Finished? ==> forall k :: 0 <= k < |e| - 1 ==> MayBeDone(old(mo.rows), desired, answers, e[k], e[k + 1])
    ensures r.CannotProcess? ==> AddsNumbered(mo.queue, old(mo.queue), priority - 1)
    ensures r.CannotProcess? ==>
      Stopped(mo.rows, old(mo.rows), mo.queue, old(mo.queue), desired, answers, e, priority)
  {
    var tl := DesiredUnitTimeline(sd, unknown);
    desired := tl;
    DesiredEndsInTime(Departments(sd), desired);
    var moTimeline := GetOuTimeline(mo.rows);
    ReadBackMirrors(mo.rows);
    MoTimelineEndsInTime(mo.rows);
    r, e := SyncOuIntervals(mo, tl, moTimeline, answers, priority);
    if RefusesNothing(answers) && e != [] {
      NothingHinders(old(mo.rows), desired, answers, e);
    }
    if r.CannotProcess? {
      QueuedOneLower(mo.rows, old(mo.rows), mo.queue, old(mo.queue), desired, answers, e, priority);
    }
    if r.Finished? {
      if e != [] {
        UnhinderedMayBeDone(old(mo.rows), desired, answers, e);
      }
      AllAsForeseen(mo.rows, old(mo.rows), desired, moTimeline, e);
      AllAgreeAndKeepOwned(mo.rows, old(mo.rows), desired, moTimeline, e);
    }
  }

  lemma SilentEndsInTime(tl: UnitTimeline)
    requires CanonicalTimeline(tl)
    requires forall t :: POSITIVE_INFINITY <= t ==> RecordAt(tl, t) == NOTHING
    ensures EndsInTime(tl)
  {
    forall t | POSITIVE_INFINITY <= t
      ensures At(tl.active, t) == None && At(tl.name, t) == None && At(tl.unitId, t) == None
      ensures At(tl.unitLevel, t) == None && At(tl.parent, t) == None
    {
      assert RecordAt(tl, t) == NOTHING;
    }
    SilentAfterInfinityIsInTime(tl.active);
    SilentAfterInfinityIsInTime(tl.name);
    SilentAfterInfinityIsInTime(tl.unitId);
    SilentAfterInfinityIsInTime(tl.unitLevel);
    SilentAfterInfinityIsInTime(tl.parent);
  }

  lemma DesiredEndsInTime(departments: seq<Interval<Department>>, tl: UnitTimeline)
    requires WellFormed(departments) && CanonicalTimeline(tl) && CompleteOrNothing(tl)
    requires forall t :: At(tl.active, t).Some? <==> At(departments, t).Some?
    ensures EndsInTime(tl)
  {
    forall t | POSITIVE_INFINITY <= t ensures RecordAt(tl, t) == NOTHING {
      NothingAfterInfinity(departments, t);
    }
    SilentEndsInTime(tl);
  }

  lemma MoTimelineEndsInTime(rows: seq<Interval<UnitRow>>)
    requires WellFormed(rows)
    ensures EndsInTime(GetOuTimeline(rows))
  {
    var tl := GetOuTimeline(rows);
    ReadBackMirrors(rows);
    forall t | POSITIVE_INFINITY <= t ensures RecordAt(tl, t) == NOTHING {
      NothingAfterInfinity(rows, t);
    }
    SilentEndsInTime(tl);
  }

  // In a chunk longer than a day the unit is as desired, field by field, except possibly on the
  // last day.
  ghost predicate AgreesBeforeLastDay(rows: seq<Interval<UnitRow>>, desired: UnitTimeline, start: Time, end: Time) {
    forall t :: start <= t < end - 1 ==>
      if At(desired.active, t) == Some(true) then At(rows, t).Some? && HasValues(At(rows, t).value, desired, t)
      else At(rows, t).None?
  }

  ghost predicate HasValues(row: UnitRow, desired: UnitTimeline, t: Time) {
    && At(desired.name, t) == Some(row.name) && At(desired.unitId, t) == Some(row.userKey)
    && At(desired.unitLevel, t) == Some(row.level) && At(desired.parent, t) == Some(row.parent)
  }

  lemma DoneAgreesBeforeLastDay(after: seq<Interval<UnitRow>>, before: seq<Interval<UnitRow>>, desired: UnitTimeline,
                                start: Time, end: Time)
    requires end <= POSITIVE_INFINITY && CompleteOrNothing(desired) && ChunkDone(after, before, desired, start, end)
    ensures AgreesBeforeLastDay(after, desired, start, end)
  {
    forall t | start <= t < end - 1
      ensures if At(desired.active, t) == Some(true) then At(after, t).Some? && HasValues(At(after, t).value, desired, t)
              else At(after, t).None?
    {
      var d := RecordAt(desired, t);
      assert At(after, t) == Outcome(d, before, start, end, t);
      assert d == NOTHING || (At(desired.active, t) == Some(true) && Complete(d));
    }
  }

  // MO accepts every write and no unit has active children.
  ghost predicate RefusesNothing(answers: MoAnswers) {
    (forall p, v :: answers.accepts(p, v)) && forall v :: answers.children(v) == None
  }

  // What MO's answers have to be for a chunk to be done: it accepts each write where the unit is
  // active and differs, and a unit to be terminated has no active children.
  ghost predicate MayBeDone(before: seq<Interval<UnitRow>>, desired: UnitTimeline, answers: MoAnswers,
                            start: Time, end: Time)
  {
    ReadRow(At(before, start)) != RecordAt(desired, start) ==>
      if At(desired.active, start) == Some(true) then
        At(desired.parent, start).Some? && CanBeWritten(before, start, end, At(desired.parent, start).value, answers.accepts)
      else 1 < end - start ==> answers.children(TimelineIntervalToMoValidity(start, end)) == None
  }

  lemma UnhinderedMayBeDone(before: seq<Interval<UnitRow>>, desired: UnitTimeline, answers: MoAnswers, e: seq<Time>)
    requires e != [] && AllUnhindered(before, desired, answers, e, |e| - 1)
    ensures forall k :: 0 <= k < |e| - 1 ==> MayBeDone(before, desired, answers, e[k], e[k + 1])
  {
    forall k | 0 <= k < |e| - 1 ensures MayBeDone(before, desired, answers, e[k], e[k + 1]) {
      assert Unhindered(RecordAt(desired, e[k]), before, e[k], e[k + 1], answers);
    }
  }

  lemma NothingHinders(before: seq<Interval<UnitRow>>, desired: UnitTimeline, answers: MoAnswers, e: seq<Time>)
    requires RefusesNothing(answers) && CompleteOrNothing(desired) && e != []
    ensures AllUnhindered(before, desired, answers, e, |e| - 1)
  {
    forall k | 0 <= k < |e| - 1 ensures Unhindered(RecordAt(desired, e[k]), before, e[k], e[k + 1], answers) {
      var d := RecordAt(desired, e[k]);
      assert d == NOTHING || Complete(d);
    }
  }

  // Events have only been added, and those with the given number.
  ghost predicate AddsNumbered(after: seq<Event>, before: seq<Event>, number: int) {
    && |before| <= |after| && after[..|before|] == before
    && forall i :: |before| <= i < |after| ==> after[i].priority == number
  }

  // What has been queued comes before the event that has been put off.
  lemma QueuedOneLower(after: seq<Interval<UnitRow>>, before: seq<Interval<UnitRow>>, queueAfter: seq<Event>,
                       queueBefore: seq<Event>, desired: UnitTimeline, answers: MoAnswers, e: seq<Time>, priority: int)
    requires Stopped(after, before, queueAfter, queueBefore, desired, answers, e, priority)
    ensures AddsNumbered(queueAfter, queueBefore, priority - 1)
  {
    var k :| 0 <= k < |e| - 1
             && StoppedAt(after, before, queueAfter, queueBefore, desired, answers, e, k, priority);
    assert PutOff(queueAfter, queueBefore, desired, answers, e[k], e[k + 1], priority);
  }

  lemma AllAgreeAndKeepOwned(after: seq<Interval<UnitRow>>, before: seq<Interval<UnitRow>>, desired: UnitTimeline,
                     moTimeline: UnitTimeline, e: seq<Time>)
    requires AreEndpoints(e, desired, moTimeline) && EndsInTime(desired) && EndsInTime(moTimeline)
    requires CompleteOrNothing(desired) && (e != [] ==> DoneUpTo(after, before, desired, e, |e| - 1))
    ensures forall k :: 0 <= k < |e| - 1 ==> KeepsOwned(after, before, e[k], e[k + 1])
    ensures forall k :: 0 <= k < |e| - 1 ==> AgreesBeforeLastDay(after, desired, e[k], e[k + 1])
  {
    EndpointsInTime(desired);
    EndpointsInTime(moTimeline);
    forall k | 0 <= k < |e| - 1
      ensures KeepsOwned(after, before, e[k], e[k + 1]) && AgreesBeforeLastDay(after, desired, e[k], e[k + 1])
    {
      assert e[k + 1] in e;
      assert ChunkDone(after, before, desired, e[k], e[k + 1]);
      DoneKeepsOwned(after, before, desired, e[k], e[k + 1]);
      DoneAgreesBeforeLastDay(after, before, desired, e[k], e[k + 1]);
    }
  }

  lemma AllAsForeseen(after: seq<Interval<UnitRow>>, before: seq<Interval<UnitRow>>, desired: UnitTimeline,
                      moTimeline: UnitTimeline, e: seq<Time>)
    requires CompleteOrNothing(desired) && Mirrors(moTimeline, before) && AreEndpoints(e, desired, moTimeline)
    requires EndsInTime(desired) && EndsInTime(moTimeline)
    requires if e == [] then after == before else DoneUpTo(after, before, desired, e, |e| - 1)
    ensures forall k :: 0 <= k < |e| - 1 ==> AgreesAsForeseen(after, before, desired, e, k)
    ensures forall t :: !InHull(e, t) ==> ReadRow(At(after, t)) == NOTHING && RecordAt(desired, t) == NOTHING
  {
    assert HasEndpointsOf(e, desired);
    assert HasEndpointsOf(e, moTimeline);
    EndpointsInTime(desired);
    EndpointsInTime(moTimeline);
    ChunksAreConstant(e, desired, moTimeline);
    forall k | 0 <= k < |e| - 1 ensures AgreesAsForeseen(after, before, desired, e, k) {
      assert IsChunk(e, k, desired, moTimeline);
      ChunkConverges(after, before, desired, moTimeline, e[k], e[k + 1]);
    }
    forall t | !InHull(e, t) ensures ReadRow(At(after, t)) == NOTHING && RecordAt(desired, t) == NOTHING {
      RecordOutsideHull(desired, e, t);
      RecordOutsideHull(moTimeline, e, t);
      assert RecordAt(moTimeline, t) == ReadRow(At(before, t));
    }
  }
}
