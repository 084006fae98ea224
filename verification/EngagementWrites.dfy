// Creating, updating and terminating an engagement in one chunk of days.
module EngagementWrites {
  import opened Common
  import opened Timelines
  import opened MoDates
  import opened MoRows
  import opened EngagementModel
  import opened MoStore

  method CreateEngagement(mo: Mo, start: Time, end: Time, desired: EngagementTimeline)
    requires mo.Valid() && start < end <= POSITIVE_INFINITY
    requires HasRequiredMoValues(desired, start)
    modifies mo
    ensures mo.Valid() && mo.leave == old(mo.leave)
    ensures forall t ::
      At(mo.engagement, t) == if start <= t < end then Some(Written(RecordAt(desired, start), NOTHING_OWNED))
         else At(old(mo.engagement), t)
    ensures mo.history == old(mo.history) + [Snapshot(mo.engagement, mo.leave)]
    ensures KeepsLeaveInside(old(mo.history), mo.history)
  {
    mo.WriteEngagement(TimelineIntervalToMoValidity(start, end),
                       Written(RecordAt(desired, start), NOTHING_OWNED));
  }

  // Where MO already has rows inside the chunk each of them is patched; a chunk without any
  // row is written as a whole.
  method UpdateEngagement(mo: Mo, start: Time, end: Time, desired: EngagementTimeline)
    requires mo.Valid() && start < end <= POSITIVE_INFINITY
    requires HasRequiredMoValues(desired, start)
    modifies mo
    ensures mo.Valid() && mo.leave == old(mo.leave)
    ensures Overlapping(old(mo.engagement), start, end) != [] ==>
      Patched(mo.engagement, old(mo.engagement), old(mo.engagement), start, end,
              (row: EngRow) => Written(RecordAt(desired, start), row.owned))
    ensures Overlapping(old(mo.engagement), start, end) == [] ==>
      forall t ::
        At(mo.engagement, t) == if start <= t < end then Some(Written(RecordAt(desired, start), NOTHING_OWNED))
           else At(old(mo.engagement), t)
    ensures KeepsLeaveInside(old(mo.history), mo.history)
  {
    var moValidity := TimelineIntervalToMoValidity(start, end);
    var d := RecordAt(desired, start);
    var rows := Overlapping(mo.engagement, start, end);
    OverlappingProperties(mo.engagement, start, end);
    if rows != [] {
      ghost var update := (row: EngRow) => Written(d, row.owned);
      var i := 0;
      while i < |rows|
        invariant 0 <= i <= |rows|
        invariant mo.Valid() && mo.leave == old(mo.leave)
        invariant Patched(mo.engagement, old(mo.engagement), rows[..i], start, end, update)
        invariant KeepsLeaveInside(old(mo.history), mo.history)
      {
        ghost var cur, h := mo.engagement, mo.history;
        var found := TimelineIntervalToMoValidity(rows[i].start, rows[i].end);
        PatchIsIntersection(rows[i].start, rows[i].end, start, end);
        mo.WriteEngagement(GetPatchValidity(found.from, found.to, moValidity),
                           Written(d, rows[i].value.owned));
        PatchOneMore(cur, mo.engagement, old(mo.engagement), rows, i, start, end, update);
        KeepsTransitive(old(mo.history), h, mo.history);
        i := i + 1;
      }
      assert rows[..i] == rows;
      PatchedAll(mo.engagement, old(mo.engagement), start, end, update);
    } else {
      mo.WriteEngagement(moValidity, Written(d, NOTHING_OWNED));
    }
  }

  method TerminateEngagement(mo: Mo, start: Time, end: Time)
    requires mo.Valid() && start < end <= POSITIVE_INFINITY
    modifies mo
    ensures mo.Valid() && mo.leave == old(mo.leave)
    ensures forall t :: At(mo.engagement, t) == if start <= t < end then None else At(old(mo.engagement), t)
    ensures mo.history == old(mo.history)
         || mo.history == old(mo.history) + [Snapshot(mo.engagement, mo.leave)]
  {
    var moValidity := TimelineIntervalToMoValidity(start, end);
    if mo.engagement == [] {
      return;
    }
    if moValidity.to.Some? {
      mo.TerminateEngagement(Some(moValidity.from), moValidity.to.value);
    } else {
      mo.TerminateEngagement(None, moValidity.from - 1);
      forall t | end <= t ensures At(old(mo.engagement), t) == None {
        NothingAfterInfinity(old(mo.engagement), t);
      }
    }
  }
}
