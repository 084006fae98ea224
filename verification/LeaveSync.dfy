// The loop that makes MO's leave equal to SD's, run after the engagement loop.
module LeaveSync {
  import opened Common
  import opened Timelines
  import opened MoRows
  import opened EngagementModel
  import opened MoStore
  import opened LeaveWrites

  // t lies in a chunk of e that rows cover completely.
  ghost predicate InCoveredChunk<R>(e: seq<Time>, rows: seq<Interval<R>>, t: Time) {
    exists k :: 0 <= k < |e| - 1 && IsChunkOf(e, k, t) && Covered(rows, e[k], e[k + 1])
  }

  ghost predicate IsChunkOf(e: seq<Time>, k: nat, t: Time)
    requires k < |e| - 1
  {
    e[k] <= t < e[k + 1]
  }

  // What the loop makes of one instant: sd is SD's leave, known the leave MO had when it was
  // read, cur the leave MO has now, accepted whether MO lets leave be written here.
  function Outcome(sd: Option<bool>, known: Option<bool>, cur: Option<LeaveRow>, row: LeaveRow, accepted: bool)
    : Option<LeaveRow>
  {
    if sd == known then cur
    else if sd != Some(true) then None
    else if accepted then Some(row)
    else cur
  }

  // The leave rows after the instants in [from, to) have been processed.
  ghost predicate LeaveResult(after: seq<Interval<LeaveRow>>, before: seq<Interval<LeaveRow>>,
                              engagement: seq<Interval<EngRow>>, e: seq<Time>, sdLeave: seq<Interval<bool>>,
                              known: seq<Interval<bool>>, row: LeaveRow, from: Time, to: Time)
  {
    forall t ::
      At(after, t) == if from <= t < to
                      then Outcome(At(sdLeave, t), At(known, t), At(before, t), row, InCoveredChunk(e, engagement, t))
                      else At(before, t)
  }

  // The chunk starting at e[k] is to be emptied, but by then MO has no leave at all.
  ghost predicate NothingLeftToTerminate(k: nat, before: seq<Interval<LeaveRow>>, engagement: seq<Interval<EngRow>>,
                                         e: seq<Time>, sdLeave: seq<Interval<bool>>, known: seq<Interval<bool>>,
                                         row: LeaveRow)
    requires k < |e|
  {
    && At(sdLeave, e[k]) != At(known, e[k]) && At(sdLeave, e[k]) != Some(true)
    && (forall t :: e[k] <= t ==> At(before, t) == None)
    && (forall t :: t < e[k] ==>
          Outcome(At(sdLeave, t), At(known, t), At(before, t), row, InCoveredChunk(e, engagement, t)) == None)
  }

  lemma EmptyIffNoValue<V>(s: seq<Interval<V>>)
    requires Ordered(s)
    ensures s == [] <==> forall t :: At(s, t) == None
  {
    if s != [] {
      assert At(s, s[0].start).Some?;
    }
  }

  // MO has at most the leave that was read, and what was read is never an inactive interval.
  ghost predicate AtMostKnown(leave: seq<Interval<LeaveRow>>, known: seq<Interval<bool>>) {
    && (forall t :: At(leave, t).Some? ==> At(known, t).Some?)
    && (forall t :: At(known, t) != Some(false))
  }

  lemma NoRowsInChunk(rows: seq<Interval<LeaveRow>>, start: Time, end: Time)
    requires WellFormed(rows) && start < end
    requires forall t :: start <= t < end ==> At(rows, t) == None
    ensures Overlapping(rows, start, end) == []
  {
    OverlappingProperties(rows, start, end);
    var found := Overlapping(rows, start, end);
    if found != [] {
      var t := Max(found[0].start, start);
      assert At(found, t) == At(rows, t);
      AtCovered(found, 0, t);
    }
  }

  // One iteration: the pair [start, end) of neighbouring endpoints. It fails, writing
  // nothing, when there is something to terminate but MO has no leave.
  method SyncLeaveChunk(mo: Mo, start: Time, end: Time, sdLeave: seq<Interval<bool>>,
                        known: seq<Interval<bool>>, row: LeaveRow) returns (ok: bool)
    requires mo.Valid() && start < end <= POSITIVE_INFINITY
    requires Steady(sdLeave, start, end) && Steady(known, start, end)
    requires forall t :: start <= t < end && At(mo.leave, t).Some? ==> At(known, t).Some?
    requires At(known, start) != Some(false)
    modifies mo
    ensures mo.Valid() && mo.engagement == old(mo.engagement)
    ensures ok ==> forall t ::
      At(mo.leave, t) == if start <= t < end
                         then Outcome(At(sdLeave, t), At(known, t), At(old(mo.leave), t), row,
                                      Covered(mo.engagement, start, end))
                         else At(old(mo.leave), t)
    ensures ok <==> !(At(sdLeave, start) != At(known, start) && At(sdLeave, start) != Some(true)
                      && old(mo.leave) == [])
    ensures !ok ==> mo.leave == old(mo.leave)
    ensures KeepsLeaveInside(old(mo.history), mo.history)
  {
    if At(sdLeave, start) == At(known, start) {
      return true;
    }
    var active := At(sdLeave, start);
    if active != Some(true) {
      ok := TerminateLeave(mo, start, end);
      return;
    }
    OptionalBool(At(known, start));
    forall t | start <= t < end ensures At(mo.leave, t) == None {
      assert At(known, t) == At(known, start);
    }
    NoRowsInChunk(mo.leave, start, end);
    if mo.leave != [] {
      ghost var patched := UpdateLeave(mo, start, end, row);
    } else {
      CreateLeave(mo, start, end, row);
    }
    return true;
  }

  // e lists the endpoints of both timelines in order.
  ghost predicate AreEndpoints(e: seq<Time>, sdLeave: seq<Interval<bool>>, known: seq<Interval<bool>>) {
    StrictlyIncreasing(e) && forall p :: p in e <==> p in Endpoints(sdLeave) + Endpoints(known)
  }

  // Neither timeline changes between two neighbours and both are silent outside the hull.
  method MergedLeaveEndpoints(sdLeave: seq<Interval<bool>>, known: seq<Interval<bool>>) returns (e: seq<Time>)
    requires InTime(sdLeave) && InTime(known)
    ensures AreEndpoints(e, sdLeave, known)
    ensures forall k :: 0 <= k < |e| - 1 ==> IsChunk(e, k, sdLeave, known)
    ensures forall t :: e == [] || t < e[0] || e[|e| - 1] <= t ==> At(sdLeave, t) == None && At(known, t) == None
  {
    e := SortedSeq(Endpoints(sdLeave) + Endpoints(known));
    forall k | 0 <= k < |e| - 1 ensures IsChunk(e, k, sdLeave, known) {
      ConstantOnChunk(sdLeave, e, k);
      ConstantOnChunk(known, e, k);
      assert e[k + 1] in e;
    }
    forall t | e == [] || t < e[0] || e[|e| - 1] <= t ensures At(sdLeave, t) == None && At(known, t) == None {
      NothingOutsideHull(sdLeave, e, t);
      NothingOutsideHull(known, e, t);
    }
  }

  ghost predicate IsChunk(e: seq<Time>, k: nat, sdLeave: seq<Interval<bool>>, known: seq<Interval<bool>>)
    requires k < |e| - 1
  {
    e[k] < e[k + 1] <= POSITIVE_INFINITY && Steady(sdLeave, e[k], e[k + 1]) && Steady(known, e[k], e[k + 1])
  }

  lemma LeaveStep(next: seq<Interval<LeaveRow>>, cur: seq<Interval<LeaveRow>>, before: seq<Interval<LeaveRow>>,
                  engagement: seq<Interval<EngRow>>, e: seq<Time>, sdLeave: seq<Interval<bool>>,
                  known: seq<Interval<bool>>, row: LeaveRow, k: nat)
    requires StrictlyIncreasing(e) && k < |e| - 1
    requires LeaveResult(cur, before, engagement, e, sdLeave, known, row, e[0], e[k])
    requires forall t ::
      At(next, t) == if e[k] <= t < e[k + 1]
                     then Outcome(At(sdLeave, t), At(known, t), At(cur, t), row, Covered(engagement, e[k], e[k + 1]))
                     else At(cur, t)
    ensures LeaveResult(next, before, engagement, e, sdLeave, known, row, e[0], e[k + 1])
  {
    forall t | e[k] <= t < e[k + 1]
      ensures InCoveredChunk(e, engagement, t) <==> Covered(engagement, e[k], e[k + 1])
    {
      assert IsChunkOf(e, k, t);
      assert forall j :: 0 <= j < k ==> e[j + 1] <= e[k] && !IsChunkOf(e, j, t);
      assert forall j :: k < j < |e| - 1 ==> e[k + 1] <= e[j] && !IsChunkOf(e, j, t);
    }
    assert e[0] <= e[k];
  }

  lemma FailsIffNothingLeft(cur: seq<Interval<LeaveRow>>, before: seq<Interval<LeaveRow>>,
                            engagement: seq<Interval<EngRow>>, e: seq<Time>, sdLeave: seq<Interval<bool>>,
                            known: seq<Interval<bool>>, row: LeaveRow, k: nat)
    requires StrictlyIncreasing(e) && k < |e| - 1 && Ordered(cur)
    requires LeaveResult(cur, before, engagement, e, sdLeave, known, row, e[0], e[k])
    requires forall t :: t < e[0] ==> At(sdLeave, t) == At(known, t)
    ensures NothingLeftToTerminate(k, before, engagement, e, sdLeave, known, row)
       <==> At(sdLeave, e[k]) != At(known, e[k]) && At(sdLeave, e[k]) != Some(true) && cur == []
  {
    EmptyIffNoValue(cur);
    if cur == [] {
      forall t ensures e[k] <= t ==> At(before, t) == None {
        assert At(cur, t) == None;
      }
    }
    assert forall t :: At(cur, t)
                       == if t < e[k]
                          then Outcome(At(sdLeave, t), At(known, t), At(before, t), row, InCoveredChunk(e, engagement, t))
                          else At(before, t);
  }

  ghost predicate Fails(before: seq<Interval<LeaveRow>>, engagement: seq<Interval<EngRow>>, e: seq<Time>,
                        sdLeave: seq<Interval<bool>>, known: seq<Interval<bool>>, row: LeaveRow)
  {
    exists k :: 0 <= k < |e| - 1 && NothingLeftToTerminate(k, before, engagement, e, sdLeave, known, row)
  }

  // From the first pair of endpoints to the last; ok is false when the source raises an
  // exception because there is no leave to terminate.
  method SyncLeaveIntervals(mo: Mo, sdLeave: seq<Interval<bool>>, known: seq<Interval<bool>>, row: LeaveRow)
    returns (ok: bool, ghost e: seq<Time>)
    requires mo.Valid() && AtMostKnown(mo.leave, known)
    requires InTime(sdLeave) && InTime(known)
    modifies mo
    ensures mo.Valid() && mo.engagement == old(mo.engagement)
    ensures mo.engagement == [] ==> ok && mo.leave == old(mo.leave)
    ensures mo.engagement != [] ==> AreEndpoints(e, sdLeave, known)
    ensures ok && mo.engagement != [] ==> forall t ::
      At(mo.leave, t) == Outcome(At(sdLeave, t), At(known, t), At(old(mo.leave), t), row,
                                 InCoveredChunk(e, mo.engagement, t))
    ensures !ok <==> mo.engagement != [] && Fails(old(mo.leave), mo.engagement, e, sdLeave, known, row)
    ensures !ok ==> mo.leave == []
    ensures KeepsLeaveInside(old(mo.history), mo.history)
  {
    if mo.engagement == [] {
      return true, [];
    }
    var points := MergedLeaveEndpoints(sdLeave, known);
    e := points;
    if points == [] {
      return true, e;
    }
    var k := 0;
    while k < |points| - 1
      invariant 0 <= k < |points|
      invariant mo.Valid() && mo.engagement == old(mo.engagement)
      invariant LeaveResult(mo.leave, old(mo.leave), mo.engagement, points, sdLeave, known, row, points[0], points[k])
      invariant forall j :: 0 <= j < k ==>
        !NothingLeftToTerminate(j, old(mo.leave), mo.engagement, points, sdLeave, known, row)
      invariant KeepsLeaveInside(old(mo.history), mo.history)
    {
      ghost var h, cur := mo.history, mo.leave;
      assert IsChunk(points, k, sdLeave, known);
      FailsIffNothingLeft(cur, old(mo.leave), mo.engagement, points, sdLeave, known, row, k);
      ok := SyncLeaveChunk(mo, points[k], points[k + 1], sdLeave, known, row);
      KeepsTransitive(old(mo.history), h, mo.history);
      if !ok {
        return;
      }
      LeaveStep(mo.leave, cur, old(mo.leave), mo.engagement, points, sdLeave, known, row, k);
      k := k + 1;
    }
    return true, e;
  }
}
