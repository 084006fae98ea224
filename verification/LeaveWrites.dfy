// Creating, updating and terminating leave in one chunk of days.
module LeaveWrites {
  import opened Common
  import opened Timelines
  import opened MoDates
  import opened MoRows
  import opened EngagementModel
  import opened MoStore

  function LeaveRowActive(row: LeaveRow): bool { true }

  function GetLeaveTimeline(rows: seq<Interval<LeaveRow>>): seq<Interval<bool>> {
    FieldTimeline(rows, LeaveRowActive)
  }

  // MO's object is looked up first; without one the source fails with an exception.
  method TerminateLeave(mo: Mo, start: Time, end: Time) returns (ok: bool)
    requires mo.Valid() && start < end <= POSITIVE_INFINITY
    modifies mo
    ensures mo.Valid() && mo.engagement == old(mo.engagement)
    ensures ok <==> old(mo.leave) != []
    ensures ok ==> forall t ::
      At(mo.leave, t) == if start <= t < end then None else At(old(mo.leave), t)
    ensures ok ==> mo.history == old(mo.history) + [Snapshot(mo.engagement, mo.leave)]
    ensures KeepsLeaveInside(old(mo.history), mo.history)
    ensures !ok ==> mo.leave == old(mo.leave) && mo.history == old(mo.history)
  {
    var moValidity := TimelineIntervalToMoValidity(start, end);
    if mo.leave == [] {
      return false;
    }
    ok := true;
    if moValidity.to.Some? {
      mo.TerminateLeave(Some(moValidity.from), moValidity.to.value);
    } else {
      mo.TerminateLeave(None, moValidity.from - 1);
      forall t | end <= t ensures At(old(mo.leave), t) == None {
        NothingAfterInfinity(old(mo.leave), t);
      }
    }
  }

  // Before an engagement is terminated in [start, end), the leave known from leaveTimeline
  // is terminated there, piece by piece.
  method TerminateLeaveBeforeEngagementTermination(mo: Mo, start: Time, end: Time,
                                                   leaveTimeline: seq<Interval<bool>>)
    requires mo.Valid() && start < end <= POSITIVE_INFINITY
    requires forall t :: start <= t < end ==> (At(leaveTimeline, t).Some? <==> At(mo.leave, t).Some?)
    modifies mo
    ensures mo.Valid() && mo.engagement == old(mo.engagement)
    ensures forall t ::
      At(mo.leave, t) == if start <= t < end then None else At(old(mo.leave), t)
    ensures KeepsLeaveInside(old(mo.history), mo.history)
  {
    var e := ChunksWithin(leaveTimeline, start, end);
    var k := 0;
    while k + 1 < |e|
      invariant 0 <= k < |e|
      invariant mo.Valid() && mo.engagement == old(mo.engagement)
      invariant forall t ::
        At(mo.leave, t) == if start <= t < e[k] then None else At(old(mo.leave), t)
      invariant KeepsLeaveInside(old(mo.history), mo.history)
    {
      assert SteadyChunk(leaveTimeline, e, k, start, end);
      if At(leaveTimeline, e[k]).Some? {
        assert At(mo.leave, e[k]).Some?;
        ghost var h := mo.history;
        var ok := TerminateLeave(mo, e[k], e[k + 1]);
        KeepsTransitive(old(mo.history), h, mo.history);
      }
      k := k + 1;
    }
  }

  method CreateLeave(mo: Mo, start: Time, end: Time, row: LeaveRow)
    requires mo.Valid() && start < end <= POSITIVE_INFINITY
    modifies mo
    ensures mo.Valid() && mo.engagement == old(mo.engagement)
    ensures forall t ::
      At(mo.leave, t) == if start <= t < end && Covered(mo.engagement, start, end) then Some(row)
                         else At(old(mo.leave), t)
    ensures KeepsLeaveInside(old(mo.history), mo.history)
  {
    var accepted := mo.WriteLeave(TimelineIntervalToMoValidity(start, end), row);
  }

  // Where MO has leave inside the chunk each of its rows is patched, until MO refuses one; a
  // chunk without leave is written as a whole.
  method UpdateLeave(mo: Mo, start: Time, end: Time, row: LeaveRow) returns (ghost patched: nat)
    requires mo.Valid() && start < end <= POSITIVE_INFINITY
    modifies mo
    ensures mo.Valid() && mo.engagement == old(mo.engagement)
    ensures Overlapping(old(mo.leave), start, end) == [] ==> forall t ::
      At(mo.leave, t) == if start <= t < end && Covered(mo.engagement, start, end) then Some(row)
                         else At(old(mo.leave), t)
    ensures Overlapping(old(mo.leave), start, end) != [] ==>
      && patched <= |Overlapping(old(mo.leave), start, end)|
      && Patched(mo.leave, old(mo.leave), Overlapping(old(mo.leave), start, end)[..patched], start, end,
                 (_: LeaveRow) => row)
      && (LeaveInside(old(Snapshot(mo.engagement, mo.leave))) ==>
            patched == |Overlapping(old(mo.leave), start, end)|)
    ensures KeepsLeaveInside(old(mo.history), mo.history)
  {
    var moValidity := TimelineIntervalToMoValidity(start, end);
    var rows := Overlapping(mo.leave, start, end);
    OverlappingProperties(mo.leave, start, end);
    if rows == [] {
      var accepted := mo.WriteLeave(moValidity, row);
      return 0;
    }
    ghost var update := (_: LeaveRow) => row;
    var i := 0;
    while i < |rows|
      invariant 0 <= i <= |rows|
      invariant mo.Valid() && mo.engagement == old(mo.engagement)
      invariant Patched(mo.leave, old(mo.leave), rows[..i], start, end, update)
      invariant KeepsLeaveInside(old(mo.history), mo.history)
    {
      ghost var cur, h := mo.leave, mo.history;
      var found := TimelineIntervalToMoValidity(rows[i].start, rows[i].end);
      PatchIsIntersection(rows[i].start, rows[i].end, start, end);
      forall t | Max(rows[i].start, start) <= t < Min(rows[i].end, end) ensures At(old(mo.leave), t).Some? {
        AtCovered(rows, i, t);
      }
      var accepted := mo.WriteLeave(GetPatchValidity(found.from, found.to, moValidity), row);
      if !accepted {
        return i;
      }
      KeepsTransitive(old(mo.history), h, mo.history);
      PatchOneMore(cur, mo.leave, old(mo.leave), rows, i, start, end, update);
      i := i + 1;
    }
    return i;
  }
}
