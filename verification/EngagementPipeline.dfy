// Reading MO, the engagement loop and the leave loop as one run.
module EngagementPipeline {
  import opened Common
  import opened Timelines
  import opened MoRows
  import opened EngagementModel
  import opened MoStore
  import opened LeaveWrites
  import opened EngagementTheorems
  import EngagementSync
  import LeaveSync

  // SD's leave lies where the desired engagement is active and has every field.
  ghost predicate LeaveWithinDesired(sdLeave: seq<Interval<bool>>, desired: EngagementTimeline) {
    && (forall t :: At(sdLeave, t) != Some(false))
    && forall t :: At(sdLeave, t) == Some(true) ==>
         At(desired.active, t) == Some(true) && Complete(RecordAt(desired, t))
  }

  lemma FieldTimelineEnds<R, V>(rows: seq<Interval<R>>, field: R -> V)
    requires WellFormed(rows)
    ensures InTime(FieldTimeline(rows, field))
  {
    var values := MapValues(rows, field);
    ReadUnchanged(rows);
    forall p | p in Endpoints(values) ensures p <= POSITIVE_INFINITY {
      assert forall i :: 0 <= i < |rows| ==> rows[i].start < rows[i].end <= POSITIVE_INFINITY;
    }
    CombineEndpoints(values);
  }

  lemma ReadBackEndsInTime(rows: seq<Interval<EngRow>>)
    requires WellFormed(rows) && AllReadable(rows)
    ensures EndsInTime(GetEngagementTimeline(rows).value)
  {
    FieldTimelineEnds(rows, RowActive);
    FieldTimelineEnds(rows, RowKey);
    FieldTimelineEnds(rows, RowName);
    FieldTimelineEnds(rows, RowUnit);
    FieldTimelineEnds(rows, RowSdUnit);
    FieldTimelineEnds(rows, RowUnitId);
    FieldTimelineEnds(rows, RowEngType);
  }

  // ----- what the two loops come to, told from the state before them

  function LeaveRead(leave: seq<Interval<LeaveRow>>, t: Time): Option<bool> {
    if At(leave, t).Some? then Some(true) else None
  }

  // The endpoints the leave loop goes through.
  ghost function LeaveCuts(sdLeave: seq<Interval<bool>>, leave: seq<Interval<LeaveRow>>): (e: seq<Time>)
    ensures LeaveSync.AreEndpoints(e, sdLeave, GetLeaveTimeline(leave))
  {
    SortedSeq(Endpoints(sdLeave) + Endpoints(GetLeaveTimeline(leave)))
  }

  // The engagement loop leaves an engagement at t, ...
  predicate StaysEmployed(s0: Snapshot, desired: EngagementTimeline, t: Time) {
    Outcome(RecordAt(desired, t), At(s0.engagement, t)).Some?
  }

  ghost predicate SomeoneEmployed(s0: Snapshot, desired: EngagementTimeline) {
    exists t :: StaysEmployed(s0, desired, t)
  }

  // ... throughout the chunk of e that t lies in.
  ghost predicate EmployedInChunk(e: seq<Time>, s0: Snapshot, desired: EngagementTimeline, t: Time) {
    exists k :: 0 <= k < |e| - 1 && LeaveSync.IsChunkOf(e, k, t)
                && forall u :: e[k] <= u < e[k + 1] ==> StaysEmployed(s0, desired, u)
  }

  // The leave the engagement loop leaves at t.
  function KeptLeave(s0: Snapshot, desired: EngagementTimeline, t: Time): Option<LeaveRow> {
    if Terminates(RecordAt(desired, t), At(s0.engagement, t)) then None else At(s0.leave, t)
  }

  // The leave both loops leave at t.
  ghost function LeaveAfter(s0: Snapshot, desired: EngagementTimeline, sdLeave: seq<Interval<bool>>, row: LeaveRow,
                            t: Time): Option<LeaveRow>
  {
    if !SomeoneEmployed(s0, desired) then KeptLeave(s0, desired, t)
    else LeaveSync.Outcome(At(sdLeave, t), LeaveRead(s0.leave, t), KeptLeave(s0, desired, t), row,
                           EmployedInChunk(LeaveCuts(sdLeave, s0.leave), s0, desired, t))
  }

  // At its k-th pair of endpoints the leave loop wants to terminate leave, but the engagement
  // loop has left none from there on and the leave loop itself none before.
  ghost predicate NoneLeftAt(k: nat, s0: Snapshot, desired: EngagementTimeline, sdLeave: seq<Interval<bool>>,
                             row: LeaveRow)
  {
    var e := LeaveCuts(sdLeave, s0.leave);
    && k < |e| - 1 && At(sdLeave, e[k]) != LeaveRead(s0.leave, e[k]) && At(sdLeave, e[k]) != Some(true)
    && (forall t :: e[k] <= t ==> KeptLeave(s0, desired, t) == None)
    && (forall t :: t < e[k] ==> LeaveAfter(s0, desired, sdLeave, row, t) == None)
  }

  // The leave loop raises an exception.
  ghost predicate LeaveLoopFails(s0: Snapshot, desired: EngagementTimeline, sdLeave: seq<Interval<bool>>, row: LeaveRow) {
    SomeoneEmployed(s0, desired) && exists k: nat :: NoneLeftAt(k, s0, desired, sdLeave, row)
  }

  // What the two loops make of the state s0. The engagement is as desired in any case, and a
  // desired timeline MO can hold is read back as it is. The run fails exactly as foreseen,
  // leaving no leave at all, and otherwise leaves the leave that was foreseen.
  ghost predicate RunEnds(s0: Snapshot, s2: Snapshot, desired: EngagementTimeline, sdLeave: seq<Interval<bool>>,
                          row: LeaveRow, ok: bool)
  {
    && Run(desired, s0.engagement, s2.engagement)
    && (CanonicalTimeline(desired) && AllStorable(desired) ==> GetEngagementTimeline(s2.engagement) == Some(desired))
    && (!ok <==> LeaveLoopFails(s0, desired, sdLeave, row))
    && forall t :: At(s2.leave, t) == if ok then LeaveAfter(s0, desired, sdLeave, row, t) else None
  }

  // ----- why they come to that

  // Facts about the states before (0), between (1) and after (2) the two loops.
  ghost predicate FirstLoopDone(s0: Snapshot, s1: Snapshot, desired: EngagementTimeline) {
    && (forall t :: At(s1.engagement, t) == Outcome(RecordAt(desired, t), At(s0.engagement, t)))
    && (forall t :: At(s1.leave, t) == KeptLeave(s0, desired, t))
  }

  // What the leave loop leaves behind when it runs to its end.
  ghost predicate SecondLoopDone(s1: Snapshot, s2: Snapshot, sdLeave: seq<Interval<bool>>,
                                 known: seq<Interval<bool>>, e: seq<Time>, row: LeaveRow)
  {
    forall t ::
      At(s2.leave, t) == LeaveSync.Outcome(At(sdLeave, t), At(known, t), At(s1.leave, t), row,
                                           LeaveSync.InCoveredChunk(e, s1.engagement, t))
  }

  // How the second loop ends, ok being false for an exception.
  ghost predicate SecondLoopEnds(s1: Snapshot, s2: Snapshot, sdLeave: seq<Interval<bool>>, known: seq<Interval<bool>>,
                                 e: seq<Time>, row: LeaveRow, ok: bool)
  {
    && s2.engagement == s1.engagement
    && (s1.engagement == [] ==> ok && s2.leave == s1.leave)
    && (s1.engagement != [] ==> LeaveSync.AreEndpoints(e, sdLeave, known))
    && (s1.engagement != [] && ok ==> SecondLoopDone(s1, s2, sdLeave, known, e, row))
    && (!ok ==> s2.leave == [])
    && (!ok <==> s1.engagement != [] && LeaveSync.Fails(s1.leave, s1.engagement, e, sdLeave, known, row))
  }

  ghost predicate KnownLeave(known: seq<Interval<bool>>, leave: seq<Interval<LeaveRow>>) {
    forall t :: At(known, t) == LeaveRead(leave, t)
  }

  lemma CoveredIffEmployed(s0: Snapshot, s1: Snapshot, desired: EngagementTimeline, e: seq<Time>, t: Time)
    requires FirstLoopDone(s0, s1, desired)
    ensures LeaveSync.InCoveredChunk(e, s1.engagement, t) <==> EmployedInChunk(e, s0, desired, t)
  {
    assert forall u :: At(s1.engagement, u).Some? <==> StaysEmployed(s0, desired, u);
    if EmployedInChunk(e, s0, desired, t) {
      var k :| 0 <= k < |e| - 1 && LeaveSync.IsChunkOf(e, k, t)
               && forall u :: e[k] <= u < e[k + 1] ==> StaysEmployed(s0, desired, u);
      assert Covered(s1.engagement, e[k], e[k + 1]);
    }
  }

  lemma EmptyIffNobodyEmployed(s0: Snapshot, s1: Snapshot, desired: EngagementTimeline)
    requires FirstLoopDone(s0, s1, desired) && WellFormed(s1.engagement)
    ensures s1.engagement == [] <==> !SomeoneEmployed(s0, desired)
  {
    LeaveSync.EmptyIffNoValue(s1.engagement);
    assert forall t :: At(s1.engagement, t).Some? <==> StaysEmployed(s0, desired, t);
  }

  // The leave loop's own view of an instant is the one told from before.
  lemma SecondLoopAt(s0: Snapshot, s1: Snapshot, desired: EngagementTimeline, sdLeave: seq<Interval<bool>>,
                     row: LeaveRow, t: Time)
    requires FirstLoopDone(s0, s1, desired) && WellFormed(s0.leave) && WellFormed(s1.engagement)
    requires s1.engagement != []
    ensures var known, e := GetLeaveTimeline(s0.leave), LeaveCuts(sdLeave, s0.leave);
      LeaveSync.Outcome(At(sdLeave, t), At(known, t), At(s1.leave, t), row, LeaveSync.InCoveredChunk(e, s1.engagement, t))
      == LeaveAfter(s0, desired, sdLeave, row, t)
  {
    ReadLeave(s0.leave);
    EmptyIffNobodyEmployed(s0, s1, desired);
    CoveredIffEmployed(s0, s1, desired, LeaveCuts(sdLeave, s0.leave), t);
  }

  lemma NothingLeftIff(s0: Snapshot, s1: Snapshot, desired: EngagementTimeline, sdLeave: seq<Interval<bool>>,
                       row: LeaveRow, k: nat)
    requires FirstLoopDone(s0, s1, desired) && WellFormed(s0.leave) && WellFormed(s1.engagement)
    requires s1.engagement != [] && k < |LeaveCuts(sdLeave, s0.leave)| - 1
    ensures LeaveSync.NothingLeftToTerminate(k, s1.leave, s1.engagement, LeaveCuts(sdLeave, s0.leave), sdLeave,
                                             GetLeaveTimeline(s0.leave), row)
       <==> NoneLeftAt(k, s0, desired, sdLeave, row)
  {
    var known, e := GetLeaveTimeline(s0.leave), LeaveCuts(sdLeave, s0.leave);
    ReadLeave(s0.leave);
    forall t
      ensures LeaveSync.Outcome(At(sdLeave, t), At(known, t), At(s1.leave, t), row,
                                LeaveSync.InCoveredChunk(e, s1.engagement, t))
           == LeaveAfter(s0, desired, sdLeave, row, t)
    {
      SecondLoopAt(s0, s1, desired, sdLeave, row, t);
    }
  }

  // Whether the leave loop fails can be told from the state before both loops.
  lemma FailsIffLost(s0: Snapshot, s1: Snapshot, desired: EngagementTimeline, sdLeave: seq<Interval<bool>>, row: LeaveRow)
    requires FirstLoopDone(s0, s1, desired) && WellFormed(s0.leave) && WellFormed(s1.engagement)
    ensures s1.engagement != []
            && LeaveSync.Fails(s1.leave, s1.engagement, LeaveCuts(sdLeave, s0.leave), sdLeave,
                               GetLeaveTimeline(s0.leave), row)
       <==> LeaveLoopFails(s0, desired, sdLeave, row)
  {
    var known, e := GetLeaveTimeline(s0.leave), LeaveCuts(sdLeave, s0.leave);
    EmptyIffNobodyEmployed(s0, s1, desired);
    if s1.engagement != [] {
      forall k: nat | k < |e| - 1
        ensures LeaveSync.NothingLeftToTerminate(k, s1.leave, s1.engagement, e, sdLeave, known, row)
           <==> NoneLeftAt(k, s0, desired, sdLeave, row)
      {
        NothingLeftIff(s0, s1, desired, sdLeave, row, k);
      }
      if LeaveSync.Fails(s1.leave, s1.engagement, e, sdLeave, known, row) {
        var k :| 0 <= k < |e| - 1 && LeaveSync.NothingLeftToTerminate(k, s1.leave, s1.engagement, e, sdLeave, known, row);
        assert NoneLeftAt(k, s0, desired, sdLeave, row);
      }
    }
  }

  lemma LeaveIsAfter(s0: Snapshot, s1: Snapshot, s2: Snapshot, desired: EngagementTimeline, sdLeave: seq<Interval<bool>>,
                     row: LeaveRow)
    requires FirstLoopDone(s0, s1, desired) && WellFormed(s0.leave) && WellFormed(s1.engagement)
    requires SecondLoopEnds(s1, s2, sdLeave, GetLeaveTimeline(s0.leave), LeaveCuts(sdLeave, s0.leave), row, true)
    ensures forall t :: At(s2.leave, t) == LeaveAfter(s0, desired, sdLeave, row, t)
  {
    EmptyIffNobodyEmployed(s0, s1, desired);
    if s1.engagement != [] {
      forall t ensures At(s2.leave, t) == LeaveAfter(s0, desired, sdLeave, row, t) {
        SecondLoopAt(s0, s1, desired, sdLeave, row, t);
      }
    }
  }

  lemma LoopsEnd(s0: Snapshot, s1: Snapshot, s2: Snapshot, desired: EngagementTimeline, sdLeave: seq<Interval<bool>>,
                 e: seq<Time>, row: LeaveRow, ok: bool)
    requires WellFormed(s0.leave) && WellFormed(s1.engagement) && FirstLoopDone(s0, s1, desired)
    requires SecondLoopEnds(s1, s2, sdLeave, GetLeaveTimeline(s0.leave), e, row, ok)
    ensures RunEnds(s0, s2, desired, sdLeave, row, ok)
  {
    var cuts := LeaveCuts(sdLeave, s0.leave);
    if s1.engagement != [] {
      IncreasingUnique(e, cuts);
    }
    if CanonicalTimeline(desired) && AllStorable(desired) {
      FullConvergence(desired, s0.engagement, s2.engagement);
    }
    FailsIffLost(s0, s1, desired, sdLeave, row);
    if ok {
      LeaveIsAfter(s0, s1, s2, desired, sdLeave, row);
    }
  }

  // ----- when SD's leave lies inside the desired engagement

  ghost predicate LeaveIsSd(leave: seq<Interval<LeaveRow>>, sdLeave: seq<Interval<bool>>) {
    forall t :: At(leave, t).Some? <==> At(sdLeave, t) == Some(true)
  }

  lemma SdValue(sdLeave: seq<Interval<bool>>, desired: EngagementTimeline, t: Time)
    requires LeaveWithinDesired(sdLeave, desired)
    ensures At(sdLeave, t) == None || At(sdLeave, t) == Some(true)
  {
    OptionalBool(At(sdLeave, t));
  }

  // Where SD has leave, the engagement loop leaves the engagement present and the leave alone, ...
  lemma WantedLeaveSurvives(s0: Snapshot, desired: EngagementTimeline, sdLeave: seq<Interval<bool>>, t: Time)
    requires LeaveWithinDesired(sdLeave, desired) && At(sdLeave, t) == Some(true)
    ensures StaysEmployed(s0, desired, t) && KeptLeave(s0, desired, t) == At(s0.leave, t)
  {
  }

  // SD has leave in the whole chunk of an instant at which it has leave.
  lemma LeaveChunk(sdLeave: seq<Interval<bool>>, leave: seq<Interval<LeaveRow>>, t: Time) returns (k: nat)
    requires At(sdLeave, t) == Some(true)
    ensures var e := LeaveCuts(sdLeave, leave);
      k < |e| - 1 && LeaveSync.IsChunkOf(e, k, t) && forall u :: e[k] <= u < e[k + 1] ==> At(sdLeave, u) == Some(true)
  {
    var e := LeaveCuts(sdLeave, leave);
    assert forall p :: p in Endpoints(sdLeave) ==> p in e;
    if e == [] || t < e[0] || e[|e| - 1] <= t {
      NothingOutsideHull(sdLeave, e, t);
    }
    k := ChunkOf(e, t);
    ConstantOnChunk(sdLeave, e, k);
  }

  // ... the engagement in the whole chunk.
  lemma AcceptedWhereWanted(s0: Snapshot, desired: EngagementTimeline, sdLeave: seq<Interval<bool>>, t: Time)
    requires LeaveWithinDesired(sdLeave, desired) && At(sdLeave, t) == Some(true)
    ensures EmployedInChunk(LeaveCuts(sdLeave, s0.leave), s0, desired, t)
  {
    var e := LeaveCuts(sdLeave, s0.leave);
    var k := LeaveChunk(sdLeave, s0.leave, t);
    forall u | e[k] <= u < e[k + 1] ensures StaysEmployed(s0, desired, u) {
      WantedLeaveSurvives(s0, desired, sdLeave, u);
    }
  }

  // Then there is leave after both loops exactly where SD has it, ...
  lemma AfterIsWanted(s0: Snapshot, desired: EngagementTimeline, sdLeave: seq<Interval<bool>>, row: LeaveRow, t: Time)
    requires LeaveWithinDesired(sdLeave, desired)
    ensures SomeoneEmployed(s0, desired) || LeaveInside(s0) ==>
      (LeaveAfter(s0, desired, sdLeave, row, t).Some? <==> At(sdLeave, t) == Some(true))
  {
    SdValue(sdLeave, desired, t);
    if At(sdLeave, t) == Some(true) {
      WantedLeaveSurvives(s0, desired, sdLeave, t);
      AcceptedWhereWanted(s0, desired, sdLeave, t);
    }
    if !SomeoneEmployed(s0, desired) && KeptLeave(s0, desired, t).Some? {
      assert LeaveInside(s0) ==> StaysEmployed(s0, desired, t);
    }
  }

  lemma LeaveConverges(s0: Snapshot, s2: Snapshot, desired: EngagementTimeline, sdLeave: seq<Interval<bool>>, row: LeaveRow)
    requires RunEnds(s0, s2, desired, sdLeave, row, true) && LeaveInside(s0) && LeaveWithinDesired(sdLeave, desired)
    ensures LeaveIsSd(s2.leave, sdLeave)
    ensures forall t :: At(sdLeave, t) == Some(true) ==>
      At(s2.leave, t) == if At(s0.leave, t).Some? then At(s0.leave, t) else Some(row)
  {
    forall t | At(sdLeave, t) == Some(true)
      ensures At(s2.leave, t) == if At(s0.leave, t).Some? then At(s0.leave, t) else Some(row)
    {
      WantedLeaveSurvives(s0, desired, sdLeave, t);
      AcceptedWhereWanted(s0, desired, sdLeave, t);
    }
    forall t ensures At(s2.leave, t).Some? <==> At(sdLeave, t) == Some(true) {
      AfterIsWanted(s0, desired, sdLeave, row, t);
    }
  }

  // ... and the leave loop fails exactly if at some endpoint leave got lost: the run wants to
  // remove leave there, the engagement loop has taken the last of it away, and SD has no leave
  // before.
  ghost predicate LostAt(a: Time, s0: Snapshot, desired: EngagementTimeline, sdLeave: seq<Interval<bool>>) {
    && At(s0.leave, a).Some? && At(sdLeave, a) == None
    && (forall t :: t < a ==> At(sdLeave, t) == None)
    && (forall t :: a <= t && At(s0.leave, t).Some? ==> Terminates(RecordAt(desired, t), At(s0.engagement, t)))
  }

  lemma NoneLeftIffLost(s0: Snapshot, desired: EngagementTimeline, sdLeave: seq<Interval<bool>>, row: LeaveRow, k: nat)
    requires LeaveWithinDesired(sdLeave, desired) && SomeoneEmployed(s0, desired)
    requires k < |LeaveCuts(sdLeave, s0.leave)| - 1
    ensures NoneLeftAt(k, s0, desired, sdLeave, row)
       <==> LostAt(LeaveCuts(sdLeave, s0.leave)[k], s0, desired, sdLeave)
  {
    var e := LeaveCuts(sdLeave, s0.leave);
    forall t ensures LeaveAfter(s0, desired, sdLeave, row, t) == None <==> At(sdLeave, t) == None {
      AfterIsWanted(s0, desired, sdLeave, row, t);
      SdValue(sdLeave, desired, t);
    }
    SdValue(sdLeave, desired, e[k]);
    assert forall t :: KeptLeave(s0, desired, t) == None
                       <==> (At(s0.leave, t).Some? ==> Terminates(RecordAt(desired, t), At(s0.engagement, t)));
  }

  lemma LostIsNotLast(s0: Snapshot, desired: EngagementTimeline, sdLeave: seq<Interval<bool>>, k: nat)
    requires WellFormed(s0.leave) && k < |LeaveCuts(sdLeave, s0.leave)|
    requires LostAt(LeaveCuts(sdLeave, s0.leave)[k], s0, desired, sdLeave)
    ensures k < |LeaveCuts(sdLeave, s0.leave)| - 1
  {
    var e := LeaveCuts(sdLeave, s0.leave);
    ReadLeave(s0.leave);
    if k == |e| - 1 {
      NothingOutsideHull(GetLeaveTimeline(s0.leave), e, e[k]);
    }
  }

  lemma FailsIffLeaveGotLost(s0: Snapshot, desired: EngagementTimeline, sdLeave: seq<Interval<bool>>, row: LeaveRow)
    requires LeaveWithinDesired(sdLeave, desired) && WellFormed(s0.leave)
    ensures LeaveLoopFails(s0, desired, sdLeave, row)
       <==> SomeoneEmployed(s0, desired)
            && exists a :: a in LeaveCuts(sdLeave, s0.leave) && LostAt(a, s0, desired, sdLeave)
  {
    var e := LeaveCuts(sdLeave, s0.leave);
    if SomeoneEmployed(s0, desired) {
      if k: nat :| NoneLeftAt(k, s0, desired, sdLeave, row) {
        NoneLeftIffLost(s0, desired, sdLeave, row, k);
        assert e[k] in e;
      }
      if a :| a in e && LostAt(a, s0, desired, sdLeave) {
        var k :| 0 <= k < |e| && e[k] == a;
        LostIsNotLast(s0, desired, sdLeave, k);
        NoneLeftIffLost(s0, desired, sdLeave, row, k);
      }
    }
  }

  // ----- running again

  // After a run that did not fail, another one with the same desired engagement and leave does
  // not fail either and leaves every instant as it is.
  lemma SecondRunIsQuiet(s0: Snapshot, s2: Snapshot, s4: Snapshot, desired: EngagementTimeline,
                         sdLeave: seq<Interval<bool>>, row: LeaveRow, ok: bool)
    requires WellFormed(s0.leave) && WellFormed(s2.leave) && LeaveInside(s0) && LeaveWithinDesired(sdLeave, desired)
    requires RunEnds(s0, s2, desired, sdLeave, row, true) && RunEnds(s2, s4, desired, sdLeave, row, ok)
    ensures ok && SameValues(s2.engagement, s4.engagement) && SameValues(s2.leave, s4.leave)
  {
    SecondRunChangesNothing(desired, s0.engagement, s2.engagement, s4.engagement);
    LeaveConverges(s0, s2, desired, sdLeave, row);
    FailsIffLeaveGotLost(s2, desired, sdLeave, row);
    forall t ensures LeaveAfter(s2, desired, sdLeave, row, t) == At(s2.leave, t) {
      SdValue(sdLeave, desired, t);
      if At(sdLeave, t) == Some(true) {
        WantedLeaveSurvives(s2, desired, sdLeave, t);
        AcceptedWhereWanted(s2, desired, sdLeave, t);
      }
    }
    assert forall a :: !LostAt(a, s2, desired, sdLeave);
    assert forall t :: At(s4.leave, t) == LeaveAfter(s2, desired, sdLeave, row, t);
  }

  // Where MO has no leave there is none to terminate.
  lemma NothingToLose(s: Snapshot, desired: EngagementTimeline, sdLeave: seq<Interval<bool>>, row: LeaveRow, k: nat)
    requires (forall t :: At(sdLeave, t) != Some(false)) && forall t :: At(s.leave, t) == None
    ensures !NoneLeftAt(k, s, desired, sdLeave, row)
  {
    var e := LeaveCuts(sdLeave, s.leave);
    if k < |e| - 1 {
      OptionalBool(At(sdLeave, e[k]));
    }
  }

  // After a run that failed the next one does not.
  lemma NextRunSucceeds(s0: Snapshot, s2: Snapshot, s4: Snapshot, desired: EngagementTimeline,
                        sdLeave: seq<Interval<bool>>, row: LeaveRow, ok: bool)
    requires forall t :: At(sdLeave, t) != Some(false)
    requires RunEnds(s0, s2, desired, sdLeave, row, false) && RunEnds(s2, s4, desired, sdLeave, row, ok)
    ensures ok
  {
    forall k: nat ensures !NoneLeftAt(k, s2, desired, sdLeave, row) {
      NothingToLose(s2, desired, sdLeave, row, k);
    }
  }

  // The leave timeline read from MO.
  lemma ReadLeave(leave: seq<Interval<LeaveRow>>)
    requires WellFormed(leave)
    ensures InTime(GetLeaveTimeline(leave)) && KnownLeave(GetLeaveTimeline(leave), leave)
  {
    FieldTimelineAt(leave, LeaveRowActive);
    FieldTimelineEnds(leave, LeaveRowActive);
  }

  // Both loops, with the leave timeline read before the first one.
  method RunLoops(mo: Mo, desired: EngagementTimeline, moTimeline: EngagementTimeline, sdLeave: seq<Interval<bool>>,
                  row: LeaveRow)
    returns (ok: bool)
    requires mo.Valid() && EndsInTime(desired) && EndsInTime(moTimeline) && InTime(sdLeave)
    requires Mirrors(moTimeline, mo.engagement)
    modifies mo
    ensures mo.Valid() && KeepsLeaveInside(old(mo.history), mo.history)
    ensures RunEnds(old(Snapshot(mo.engagement, mo.leave)), Snapshot(mo.engagement, mo.leave), desired, sdLeave, row, ok)
  {
    ghost var s0 := Snapshot(mo.engagement, mo.leave);
    var known := GetLeaveTimeline(mo.leave);
    ReadLeave(mo.leave);
    EngagementSync.SyncEngIntervals(mo, desired, moTimeline, known);
    ghost var s1, h := Snapshot(mo.engagement, mo.leave), mo.history;
    ghost var e;
    ok, e := LeaveSync.SyncLeaveIntervals(mo, sdLeave, known, row);
    KeepsTransitive(old(mo.history), h, mo.history);
    LoopsEnd(s0, s1, Snapshot(mo.engagement, mo.leave), desired, sdLeave, e, row, ok);
  }

  // The end of sync_engagement: read MO, run both loops. ok is false when the source raises
  // an exception: at once if MO's rows cannot be read, or in the leave loop.
  method SyncEngagementAndLeave(mo: Mo, desired: EngagementTimeline, sdLeave: seq<Interval<bool>>, row: LeaveRow)
    returns (ok: bool)
    requires mo.Valid() && EndsInTime(desired) && InTime(sdLeave)
    modifies mo
    ensures mo.Valid() && KeepsLeaveInside(old(mo.history), mo.history)
    ensures !AllReadable(old(mo.engagement)) ==> !ok && mo.history == old(mo.history)
    ensures AllReadable(old(mo.engagement)) ==>
      RunEnds(old(Snapshot(mo.engagement, mo.leave)), Snapshot(mo.engagement, mo.leave), desired, sdLeave, row, ok)
  {
    if !AllReadable(mo.engagement) {
      return false;
    }
    var moTimeline := GetEngagementTimeline(mo.engagement).value;
    ReadBackMirrors(mo.engagement);
    ReadBackEndsInTime(mo.engagement);
    ok := RunLoops(mo, desired, moTimeline, sdLeave, row);
  }

  // Employed and on leave in [0, 10), employed only in [10, 20); SD now wants the engagement
  // from day 10 on and no leave. The engagement loop removes [0, 10) and with it all leave;
  // the leave loop then still asks MO to terminate leave in [0, 10), and fails.
  lemma LeaveLoopCanFail(d: EngRow) returns (desired: EngagementTimeline, mo: Snapshot)
    requires Readable(d)
    ensures WellFormed(mo.engagement) && WellFormed(mo.leave) && LeaveInside(mo) && AllReadable(mo.engagement)
    ensures LeaveWithinDesired([], desired) && CanonicalTimeline(desired)
    ensures forall row :: LeaveLoopFails(mo, desired, [], row)
  {
    desired := EngagementTimeline(
      [Interval(10, 20, true)], [Interval(10, 20, d.key)], [Interval(10, 20, d.name)], [Interval(10, 20, d.unit)],
      [Interval(10, 20, ParsedSdUnit(d.sdUnit))], [Interval(10, 20, d.unitId)], [Interval(10, 20, d.engType)]);
    mo := Snapshot([Interval(0, 20, d)], [Interval(0, 10, LeaveRow(0, 0))]);
    assert At(mo.engagement, 10) == Some(d);
    assert StaysEmployed(mo, desired, 10);
    LeaveReadAsOne(mo.leave, 0, 10);
    AllLeaveIsLost(desired, mo.engagement, mo.leave, d);
    assert LostAt(0, mo, desired, []);
    forall row ensures LeaveLoopFails(mo, desired, [], row) {
      FailsIffLeaveGotLost(mo, desired, [], row);
    }
  }

  lemma LeaveReadAsOne(leave: seq<Interval<LeaveRow>>, start: Time, end: Time)
    requires |leave| == 1 && leave[0].start == start < end == leave[0].end && WellFormed(leave)
    ensures start in Endpoints(GetLeaveTimeline(leave))
  {
    var known := GetLeaveTimeline(leave);
    ReadUnchanged(leave);
    assert MapValues(leave, LeaveRowActive) == [Interval(start, end, true)];
    assert known == [Interval(start, end, true)];
    assert known[0].start in Endpoints(known);
  }

  lemma AllLeaveIsLost(desired: EngagementTimeline, engagement: seq<Interval<EngRow>>, leave: seq<Interval<LeaveRow>>,
                       d: EngRow)
    requires desired.active == [Interval(10, 20, true)] && engagement == [Interval(0, 20, d)]
    requires leave == [Interval(0, 10, LeaveRow(0, 0))]
    ensures At(leave, 0).Some?
    ensures forall t :: 0 <= t && At(leave, t).Some? ==> Terminates(RecordAt(desired, t), At(engagement, t))
  {
    forall t | 0 <= t && At(leave, t).Some? ensures Terminates(RecordAt(desired, t), At(engagement, t)) {
      AtSingle(leave[0], t);
      AtSingle(engagement[0], t);
      AtSingle(desired.active[0], t);
    }
  }
}
