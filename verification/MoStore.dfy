// MO's rows about one engagement and its leave, and the writes MO offers.
module MoStore {
  import opened Common
  import opened Timelines
  import opened MoDates
  import opened MoRows
  import opened EngagementModel

  datatype LeaveRow = LeaveRow(engagement: Uuid, leaveType: Uuid)

  datatype Snapshot = Snapshot(engagement: seq<Interval<EngRow>>, leave: seq<Interval<LeaveRow>>)

  // Whoever is on leave is employed.
  ghost predicate LeaveInside(s: Snapshot) {
    forall t :: At(s.leave, t).Some? ==> At(s.engagement, t).Some?
  }

  // A run of writes that starts with leave inside engagement keeps it so after every write.
  ghost predicate KeepsLeaveInside(before: seq<Snapshot>, after: seq<Snapshot>) {
    && before != [] && before <= after
    && (LeaveInside(before[|before| - 1]) ==>
          forall k :: |before| <= k < |after| ==> LeaveInside(after[k]))
  }

  lemma KeepsTransitive(a: seq<Snapshot>, b: seq<Snapshot>, c: seq<Snapshot>)
    requires KeepsLeaveInside(a, b) && KeepsLeaveInside(b, c)
    ensures KeepsLeaveInside(a, c)
  {
    assert forall k :: 0 <= k < |b| ==> c[k] == b[k];
  }

  // At no time between is anybody on leave without being employed.
  lemma NeverOnLeaveUnemployed(before: seq<Snapshot>, after: seq<Snapshot>, first: Snapshot, k: nat, t: Time)
    requires KeepsLeaveInside(before, after) && first == before[|before| - 1] && |before| <= k < |after|
    requires forall u :: At(first.leave, u).Some? ==> At(first.engagement, u).Some?
    ensures At(after[k].leave, t).Some? ==> At(after[k].engagement, t).Some?
  {
    assert LeaveInside(after[k]);
  }

  // Some row covers every day of [a, b).
  predicate Covered<R>(rows: seq<Interval<R>>, a: Time, b: Time) {
    forall t | a <= t < b :: At(rows, t).Some?
  }

  class Mo {
    var engagement: seq<Interval<EngRow>>
    var leave: seq<Interval<LeaveRow>>
    // The state after every write so far, the initial state first.
    ghost var history: seq<Snapshot>

    ghost predicate Valid()
      reads this
    {
      && WellFormed(engagement) && WellFormed(leave)
      && history != [] && history[|history| - 1] == Snapshot(engagement, leave)
    }

    constructor (engagement: seq<Interval<EngRow>>, leave: seq<Interval<LeaveRow>>)
      requires WellFormed(engagement) && WellFormed(leave)
      ensures Valid() && this.engagement == engagement && this.leave == leave
    {
      this.engagement := engagement;
      this.leave := leave;
      history := [Snapshot(engagement, leave)];
    }

    // Create and update alike put one row into a range of days.
    method WriteEngagement(validity: RAValidity, row: EngRow)
      requires Valid() && validity.from < RangeEnd(validity) <= POSITIVE_INFINITY
      modifies this
      ensures Valid() && leave == old(leave)
      ensures forall t :: At(engagement, t) == if InRange(validity, t) then Some(row) else At(old(engagement), t)
      ensures history == old(history) + [Snapshot(engagement, leave)]
    {
      OverwriteProperties(engagement, validity.from, RangeEnd(validity), row);
      engagement := Overwrite(engagement, validity.from, RangeEnd(validity), row);
      history := history + [Snapshot(engagement, leave)];
    }

    // A termination without a first day starts on the day after its last one and never ends.
    method TerminateEngagement(from: Option<Time>, to: Time)
      requires Valid() && (from.Some? ==> from.value <= to + 1)
      modifies this
      ensures Valid() && leave == old(leave)
      ensures forall t ::
        At(engagement, t) == if (if from.Some? then from.value <= t <= to else to < t) then None else At(old(engagement), t)
      ensures history == old(history) + [Snapshot(engagement, leave)]
    {
      if from.Some? {
        ClipProperties(engagement, from.value, to + 1);
        engagement := Clip(engagement, from.value, to + 1);
      } else {
        BeforeProperties(engagement, to + 1);
        engagement := Before(engagement, to + 1);
      }
      history := history + [Snapshot(engagement, leave)];
    }

    // MO refuses leave on days without an engagement.
    method WriteLeave(validity: RAValidity, row: LeaveRow) returns (accepted: bool)
      requires Valid() && validity.from < RangeEnd(validity) <= POSITIVE_INFINITY
      modifies this
      ensures Valid() && engagement == old(engagement)
      ensures accepted <==> Covered(engagement, validity.from, RangeEnd(validity))
      ensures accepted ==>
        forall t :: At(leave, t) == if InRange(validity, t) then Some(row) else At(old(leave), t)
      ensures !accepted ==> leave == old(leave)
      ensures history == old(history) + if accepted then [Snapshot(engagement, leave)] else []
      ensures KeepsLeaveInside(old(history), history)
    {
      accepted := Covered(engagement, validity.from, RangeEnd(validity));
      if accepted {
        OverwriteProperties(leave, validity.from, RangeEnd(validity), row);
        leave := Overwrite(leave, validity.from, RangeEnd(validity), row);
        history := history + [Snapshot(engagement, leave)];
      }
    }

    method TerminateLeave(from: Option<Time>, to: Time)
      requires Valid() && (from.Some? ==> from.value <= to + 1)
      modifies this
      ensures Valid() && engagement == old(engagement)
      ensures forall t ::
        At(leave, t) == if (if from.Some? then from.value <= t <= to else to < t) then None else At(old(leave), t)
      ensures history == old(history) + [Snapshot(engagement, leave)]
      ensures KeepsLeaveInside(old(history), history)
    {
      if from.Some? {
        ClipProperties(leave, from.value, to + 1);
        leave := Clip(leave, from.value, to + 1);
      } else {
        BeforeProperties(leave, to + 1);
        leave := Before(leave, to + 1);
      }
      history := history + [Snapshot(engagement, leave)];
    }
  }
}
