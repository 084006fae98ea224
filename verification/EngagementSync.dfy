// The loop that makes MO's engagement equal to the desired timeline.
module EngagementSync {
  import opened Common
  import opened Timelines
  import opened MoDates
  import opened MoRows
  import opened EngagementModel
  import opened MoStore
  import opened EngagementWrites
  import opened LeaveWrites

  // The engagement rows after the instants in [from, to) have been processed.
  ghost predicate EngagementResult(after: seq<Interval<EngRow>>, before: seq<Interval<EngRow>>,
                                   desired: EngagementTimeline, from: Time, to: Time)
  {
    forall t ::
      At(after, t) == if from <= t < to then Outcome(RecordAt(desired, t), At(before, t)) else At(before, t)
  }

  // The leave rows then: none where the engagement was terminated.
  ghost predicate LeaveResult(after: seq<Interval<LeaveRow>>, before: seq<Interval<LeaveRow>>,
                              engagementBefore: seq<Interval<EngRow>>, desired: EngagementTimeline,
                              from: Time, to: Time)
  {
    forall t ::
      At(after, t) == if from <= t < to && Terminates(RecordAt(desired, t), At(engagementBefore, t)) then None
                      else At(before, t)
  }

  // Processing [a, b) after [b, c) processes [a, c).
  lemma ResultsCompose(s0: Snapshot, s1: Snapshot, s2: Snapshot, desired: EngagementTimeline,
                       a: Time, b: Time, c: Time)
    requires a <= b <= c
    requires EngagementResult(s1.engagement, s0.engagement, desired, b, c)
    requires LeaveResult(s1.leave, s0.leave, s0.engagement, desired, b, c)
    requires EngagementResult(s2.engagement, s1.engagement, desired, a, b)
    requires LeaveResult(s2.leave, s1.leave, s1.engagement, desired, a, b)
    ensures EngagementResult(s2.engagement, s0.engagement, desired, a, c)
    ensures LeaveResult(s2.leave, s0.leave, s0.engagement, desired, a, c)
  {
  }

  // The timelines read before the run still describe MO below b.
  ghost predicate StillReadBelow(s: Snapshot, moTimeline: EngagementTimeline, leaveTimeline: seq<Interval<bool>>,
                                 b: Time)
  {
    && (forall t :: t < b ==> RecordAt(moTimeline, t) == ReadRow(At(s.engagement, t)))
    && (forall t :: t < b ==> (At(leaveTimeline, t).Some? <==> At(s.leave, t).Some?))
  }

  // MO's engagement either covers all of an elementary chunk or none of it.
  lemma ChunkAllOrNothing(rows: seq<Interval<EngRow>>, start: Time, end: Time)
    requires WellFormed(rows) && start < end
    requires forall t :: start <= t < end ==> ReadRow(At(rows, t)) == ReadRow(At(rows, start))
    ensures Overlapping(rows, start, end) == [] ==> forall t :: start <= t < end ==> At(rows, t) == None
    ensures Overlapping(rows, start, end) != [] ==> forall t :: start <= t < end ==> At(rows, t).Some?
  {
    OverlappingProperties(rows, start, end);
    var found := Overlapping(rows, start, end);
    if found != [] {
      var t := Max(found[0].start, start);
      AtCovered(found, 0, t);
      assert At(rows, t).Some?;
    }
  }

  // One iteration: the pair [start, end) of neighbouring endpoints.
  method SyncChunk(mo: Mo, start: Time, end: Time, desired: EngagementTimeline,
                   moTimeline: EngagementTimeline, leaveTimeline: seq<Interval<bool>>)
    requires mo.Valid() && start < end <= POSITIVE_INFINITY
    requires ConstantOn(desired, start, end) && ConstantOn(moTimeline, start, end)
    requires StillReadBelow(Snapshot(mo.engagement, mo.leave), moTimeline, leaveTimeline, end)
    modifies mo
    ensures mo.Valid()
    ensures EngagementResult(mo.engagement, old(mo.engagement), desired, start, end)
    ensures LeaveResult(mo.leave, old(mo.leave), old(mo.engagement), desired, start, end)
    ensures StillReadBelow(Snapshot(mo.engagement, mo.leave), moTimeline, leaveTimeline, start)
    ensures KeepsLeaveInside(old(mo.history), mo.history)
  {
    if EqualAt(desired, moTimeline, start) {
      return;
    }
    var active := At(desired.active, start);
    if active != Some(true) {
      TerminateLeaveBeforeEngagementTermination(mo, start, end, leaveTimeline);
      ghost var h := mo.history;
      TerminateEngagement(mo, start, end);
      KeepsTransitive(old(mo.history), h, mo.history);
      return;
    }
    if !HasRequiredMoValues(desired, start) {
      return;
    }
    ChunkAllOrNothing(mo.engagement, start, end);
    if mo.engagement != [] {
      UpdateEngagement(mo, start, end, desired);
    } else {
      CreateEngagement(mo, start, end, desired);
    }
  }

  ghost predicate IsChunk(e: seq<Time>, k: nat, desired: EngagementTimeline, moTimeline: EngagementTimeline)
    requires 1 <= k < |e|
  {
    && e[k - 1] < e[k] <= POSITIVE_INFINITY
    && ConstantOn(desired, e[k - 1], e[k]) && ConstantOn(moTimeline, e[k - 1], e[k])
  }

  // The sorted endpoints of both timelines: neither changes between two neighbours, and
  // outside the hull both are silent.
  method MergedEndpoints(desired: EngagementTimeline, moTimeline: EngagementTimeline) returns (e: seq<Time>)
    requires EndsInTime(desired) && EndsInTime(moTimeline)
    ensures StrictlyIncreasing(e)
    ensures forall k :: 1 <= k < |e| ==> IsChunk(e, k, desired, moTimeline)
    ensures forall t :: e == [] || t < e[0] || e[|e| - 1] <= t ==>
      RecordAt(desired, t) == RecordAt(moTimeline, t)
  {
    e := SortedSeq(TimelineEndpoints(desired) + TimelineEndpoints(moTimeline));
    assert HasEndpointsOf(e, desired);
    assert HasEndpointsOf(e, moTimeline);
    assert forall p :: p in e ==> p <= POSITIVE_INFINITY by {
      EndpointsInTime(desired);
      EndpointsInTime(moTimeline);
    }
    ChunksAreConstant(e, desired, moTimeline);
    SilentOutside(e, desired, moTimeline);
  }

  lemma ChunksAreConstant(e: seq<Time>, desired: EngagementTimeline, moTimeline: EngagementTimeline)
    requires StrictlyIncreasing(e) && HasEndpointsOf(e, desired) && HasEndpointsOf(e, moTimeline)
    requires forall p :: p in e ==> p <= POSITIVE_INFINITY
    ensures forall k :: 1 <= k < |e| ==> IsChunk(e, k, desired, moTimeline)
  {
    forall k | 1 <= k < |e| ensures IsChunk(e, k, desired, moTimeline) {
      assert e[k] in e;
      RecordConstant(desired, e, k - 1);
      RecordConstant(moTimeline, e, k - 1);
    }
  }

  lemma SilentOutside(e: seq<Time>, desired: EngagementTimeline, moTimeline: EngagementTimeline)
    requires StrictlyIncreasing(e) && HasEndpointsOf(e, desired) && HasEndpointsOf(e, moTimeline)
    ensures forall t :: e == [] || t < e[0] || e[|e| - 1] <= t ==> RecordAt(desired, t) == RecordAt(moTimeline, t)
  {
    forall t | e == [] || t < e[0] || e[|e| - 1] <= t
      ensures RecordAt(desired, t) == RecordAt(moTimeline, t)
    {
      RecordOutsideHull(desired, e, t);
      RecordOutsideHull(moTimeline, e, t);
    }
  }

  // From the last pair of endpoints to the first.
  method SyncEngIntervals(mo: Mo, desired: EngagementTimeline, moTimeline: EngagementTimeline,
                          leaveTimeline: seq<Interval<bool>>)
    requires mo.Valid() && EndsInTime(desired) && EndsInTime(moTimeline)
    requires Mirrors(moTimeline, mo.engagement)
    requires forall t :: At(leaveTimeline, t).Some? <==> At(mo.leave, t).Some?
    modifies mo
    ensures mo.Valid()
    ensures forall t :: At(mo.engagement, t) == Outcome(RecordAt(desired, t), At(old(mo.engagement), t))
    ensures forall t ::
      At(mo.leave, t) == if Terminates(RecordAt(desired, t), At(old(mo.engagement), t)) then None
                         else At(old(mo.leave), t)
    ensures KeepsLeaveInside(old(mo.history), mo.history)
  {
    var e := MergedEndpoints(desired, moTimeline);
    if e == [] {
      return;
    }
    var k := |e| - 1;
    while k > 0
      invariant 0 <= k < |e|
      invariant mo.Valid() && StillReadBelow(Snapshot(mo.engagement, mo.leave), moTimeline, leaveTimeline, e[k])
      invariant EngagementResult(mo.engagement, old(mo.engagement), desired, e[k], e[|e| - 1])
      invariant LeaveResult(mo.leave, old(mo.leave), old(mo.engagement), desired, e[k], e[|e| - 1])
      invariant KeepsLeaveInside(old(mo.history), mo.history)
    {
      ghost var s, h := Snapshot(mo.engagement, mo.leave), mo.history;
      assert IsChunk(e, k, desired, moTimeline);
      SyncChunk(mo, e[k - 1], e[k], desired, moTimeline, leaveTimeline);
      KeepsTransitive(old(mo.history), h, mo.history);
      ResultsCompose(old(Snapshot(mo.engagement, mo.leave)), s, Snapshot(mo.engagement, mo.leave),
                     desired, e[k - 1], e[k], e[|e| - 1]);
      k := k - 1;
    }
  }
}
