// Creating, updating and terminating a unit in one chunk of days.
module OrgUnitWrites {
  import opened Common
  import opened Timelines
  import opened MoDates
  import opened MoRows
  import opened OrgUnitTimelines
  import opened OrgUnitStore
  import opened PatchTiles

  // The rows a query for the chunk returns are those in force before its last day, plus none
  // that starts on it.
  lemma FoundRows(rows: seq<Interval<UnitRow>>, start: Time, end: Time, t: Time)
    requires WellFormed(rows) && start <= t < end <= POSITIVE_INFINITY && start < LastDayAskedFor(end)
    ensures At(RowsAskedFor(rows, start, end), t)
         == if Overlooked(rows, end, t) then None else At(rows, t)
  {
    var to := LastDayAskedFor(end);
    var found := Overlapping(rows, start, to);
    OverlappingProperties(rows, start, to);
    if to <= t {
      LastDayRow(rows, start, to, t);
    }
  }

  // On the day after the asked range, the rows found are those that started before it.
  lemma {:induction false} LastDayRow(rows: seq<Interval<UnitRow>>, a: Time, b: Time, t: Time)
    requires WellFormed(rows) && a < b == t
    ensures At(Overlapping(rows, a, b), t) == if t in Starts(rows) then None else At(rows, t)
  {
    if rows == [] {
    } else {
      LastDayRow(rows[1..], a, b, t);
      StartsCons(rows);
      var rest := Overlapping(rows[1..], a, b);
      if rows[0].start < b && a < rows[0].end {
        assert ([rows[0]] + rest)[1..] == rest;
      }
      if Covers(rows[0], t) {
        AtWitness(rows[1..], t);
        forall i | 0 <= i < |rows[1..]| ensures t < rows[1..][i].start && !Covers(rows[1..][i], t) {
          assert rows[1..][i] == rows[i + 1];
        }
      }
    }
  }

  lemma FoundAnyIffPresent(rows: seq<Interval<UnitRow>>, start: Time, end: Time)
    requires WellFormed(rows) && start < end <= POSITIVE_INFINITY && SteadyRows(rows, start, end)
    ensures RowsAskedFor(rows, start, end) == [] <==> LastDayAskedFor(end) <= start || At(rows, start).None?
  {
    var to := LastDayAskedFor(end);
    if start < to {
      var found := Overlapping(rows, start, to);
      OverlappingProperties(rows, start, to);
      if found != [] {
        var t := Max(found[0].start, start);
        AtCovered(found, 0, t);
        assert At(rows, t) == At(found, t);
        assert ReadRow(At(rows, t)) == ReadRow(At(rows, start));
      } else {
        assert At(found, start) == At(rows, start);
      }
    }
  }

  // What MO answers to a write with a given parent: false stands for one of the two errors
  // after which the parent is queued. Without a parent there is nothing to refuse.
  type Accepts = f: (Option<Uuid>, RAValidity) -> bool | forall v :: f(None, v)
    witness (_: Option<Uuid>, _: RAValidity) => true

  // MO accepts all of the writes for the chunk: one for each row found, or one for the whole
  // chunk if none is.
  ghost predicate CanBeWritten(rows: seq<Interval<UnitRow>>, start: Time, end: Time, parent: Option<Uuid>,
                               accepts: Accepts)
  {
    var found := RowsAskedFor(rows, start, end);
    if found == [] then accepts(parent, TimelineIntervalToMoValidity(start, end))
    else AllAccepted(found, |found|, start, end, parent, accepts)
  }

  ghost predicate AllAccepted(found: seq<Interval<UnitRow>>, n: nat, start: Time, end: Time, parent: Option<Uuid>,
                              accepts: Accepts)
    requires n <= |found|
  {
    forall i :: 0 <= i < n ==> accepts(parent, Patch(found[i], start, end))
  }

  // What lies before the chunk has no part in it.
  lemma {:induction false} PatchesFrom(rows: seq<Interval<UnitRow>>, start: Time, to: Time, end: Time)
    requires start < to
    ensures var f, g := Overlapping(rows, start, to), Overlapping(After(rows, start), start, to);
      |f| == |g| && forall i :: 0 <= i < |f| ==> Patch(f[i], start, end) == Patch(g[i], start, end)
  {
    if rows == [] {
    } else {
      PatchesFrom(rows[1..], start, to, end);
      if start < rows[0].end {
        assert After(rows, start)[1..] == After(rows[1..], start);
      }
    }
  }

  lemma SameWrites(r: seq<Interval<UnitRow>>, s: seq<Interval<UnitRow>>, start: Time, end: Time, parent: Option<Uuid>,
                   accepts: Accepts)
    requires SameFrom(r, s, start)
    ensures CanBeWritten(r, start, end, parent, accepts) <==> CanBeWritten(s, start, end, parent, accepts)
  {
    var to := LastDayAskedFor(end);
    if start < to {
      PatchesFrom(r, start, to, end);
      PatchesFrom(s, start, to, end);
      var f, g := Overlapping(r, start, to), Overlapping(s, start, to);
      assert |f| == |g|;
      assert forall i :: 0 <= i < |f| ==> Patch(f[i], start, end) == Patch(g[i], start, end);
    }
  }

  // What updating makes of the chunk.
  ghost predicate Updated(after: seq<Interval<UnitRow>>, before: seq<Interval<UnitRow>>, d: UnitAt, start: Time, end: Time)
    requires Complete(d)
  {
    forall t ::
      At(after, t) == if !(start <= t < end) then At(before, t)
                      else if At(before, t).None? || LastDayAskedFor(end) <= start then Some(Written(d, NOTHING_OWNED))
                      else if Overlooked(before, end, t) then At(before, t)
                      else Some(Written(d, At(before, t).value.owned))
  }

  // Where MO has a row before and after, it keeps what only MO knows; a chunk of one day is an
  // exception, because its rows are not found.
  ghost predicate KeepsOwned(after: seq<Interval<UnitRow>>, before: seq<Interval<UnitRow>>, start: Time, end: Time) {
    1 < end - start ==> forall t :: start <= t < end && At(before, t).Some? && At(after, t).Some? ==>
      && At(after, t).value.owned.hierarchy == At(before, t).value.owned.hierarchy
      && At(after, t).value.owned.timePlanning == At(before, t).value.owned.timePlanning
  }

  lemma UpdatedKeepsOwned(after: seq<Interval<UnitRow>>, before: seq<Interval<UnitRow>>, d: UnitAt, start: Time, end: Time)
    requires Complete(d) && end <= POSITIVE_INFINITY && Updated(after, before, d, start, end)
    ensures KeepsOwned(after, before, start, end)
  {
  }

  ghost predicate SameOutside(after: seq<Interval<UnitRow>>, before: seq<Interval<UnitRow>>, start: Time, end: Time) {
    forall t :: !(start <= t < end) ==> At(after, t) == At(before, t)
  }

  // Exactly one event was sent: process the parent first.
  ghost predicate ParentQueued(after: seq<Event>, before: seq<Event>, parent: Option<Option<Uuid>>, priority: int) {
    parent.Some? && parent.value.Some? && after == before + [Event(parent.value.value, priority - 1)]
  }

  method CreateOu(mo: MoUnit, start: Time, end: Time, desired: UnitTimeline, accepts: Accepts, priority: int)
    returns (ok: bool)
    requires mo.Valid() && start < end <= POSITIVE_INFINITY && Complete(RecordAt(desired, start)) && mo.rows == []
    modifies mo
    ensures mo.Valid()
    ensures ok <==> CanBeWritten(old(mo.rows), start, end, At(desired.parent, start).value, accepts)
    ensures ok ==> mo.queue == old(mo.queue) && Updated(mo.rows, old(mo.rows), RecordAt(desired, start), start, end)
    ensures !ok ==> mo.rows == old(mo.rows) && ParentQueued(mo.queue, old(mo.queue), At(desired.parent, start), priority)
    ensures SameFrom(mo.rows, old(mo.rows), end)
  {
    var d := RecordAt(desired, start);
    var validity := TimelineIntervalToMoValidity(start, end);
    if !accepts(d.parent.value, validity) {
      mo.Send(Event(d.parent.value.value, priority - 1));
      return false;
    }
    mo.Write(validity, Written(d, NOTHING_OWNED));
    return true;
  }

  method UpdateOu(mo: MoUnit, start: Time, end: Time, desired: UnitTimeline, accepts: Accepts, priority: int)
    returns (ok: bool)
    requires mo.Valid() && start < end <= POSITIVE_INFINITY && Complete(RecordAt(desired, start))
    requires SteadyRows(mo.rows, start, end)
    modifies mo
    ensures mo.Valid()
    ensures ok <==> CanBeWritten(old(mo.rows), start, end, At(desired.parent, start).value, accepts)
    ensures ok ==> mo.queue == old(mo.queue) && Updated(mo.rows, old(mo.rows), RecordAt(desired, start), start, end)
    ensures ok ==> KeepsOwned(mo.rows, old(mo.rows), start, end)
    ensures !ok ==> SameOutside(mo.rows, old(mo.rows), start, end)
    ensures !ok ==> ParentQueued(mo.queue, old(mo.queue), At(desired.parent, start), priority)
    ensures SameFrom(mo.rows, old(mo.rows), end)
  {
    var d := RecordAt(desired, start);
    var moValidity := TimelineIntervalToMoValidity(start, end);
    var found := RowsAskedFor(mo.rows, start, end);
    FoundAnyIffPresent(mo.rows, start, end);
    if found == [] {
      if !accepts(d.parent.value, moValidity) {
        mo.Send(Event(d.parent.value.value, priority - 1));
        return false;
      }
      mo.Write(moValidity, Written(d, NOTHING_OWNED));
      if At(old(mo.rows), start).None? {
        AllEmpty(old(mo.rows), start, end);
      }
      UpdatedKeepsOwned(mo.rows, old(mo.rows), d, start, end);
      return true;
    }
    OverlappingProperties(mo.rows, start, LastDayAskedFor(end));
    ok := PatchFound(mo, start, end, found, d, accepts, priority);
    if ok {
      PatchedIsUpdated(mo.rows, old(mo.rows), d, start, end);
      UpdatedKeepsOwned(mo.rows, old(mo.rows), d, start, end);
    }
  }

  lemma AllEmpty(rows: seq<Interval<UnitRow>>, start: Time, end: Time)
    requires SteadyRows(rows, start, end) && At(rows, start).None?
    ensures forall t :: start <= t < end ==> At(rows, t).None?
  {
    forall t | start <= t < end ensures At(rows, t).None? {
      assert ReadRow(At(rows, t)) == ReadRow(At(rows, start));
    }
  }

  lemma PatchedIsUpdated(after: seq<Interval<UnitRow>>, before: seq<Interval<UnitRow>>, d: UnitAt, start: Time, end: Time)
    requires WellFormed(before) && start < end <= POSITIVE_INFINITY && Complete(d) && SteadyRows(before, start, end)
    requires RowsAskedFor(before, start, end) != []
    requires Patched(after, before, RowsAskedFor(before, start, end), start, end,
                     (row: UnitRow) => Written(d, row.owned))
    ensures Updated(after, before, d, start, end)
  {
    FoundAnyIffPresent(before, start, end);
    forall t | start <= t < end
      ensures At(before, t).Some?
      ensures At(after, t) == if Overlooked(before, end, t) then At(before, t)
                              else Some(Written(d, At(before, t).value.owned))
    {
      assert ReadRow(At(before, t)) == ReadRow(At(before, start));
      FoundRows(before, start, end, t);
    }
  }

  // The loop over the rows found; it stops at the first write MO refuses.
  method PatchFound(mo: MoUnit, start: Time, end: Time, found: seq<Interval<UnitRow>>, d: UnitAt, accepts: Accepts,
                    priority: int) returns (ok: bool)
    requires mo.Valid() && start < end <= POSITIVE_INFINITY && Complete(d) && WellFormed(found)
    requires forall i :: 0 <= i < |found| ==> found[i].start < end && start < found[i].end
    modifies mo
    ensures mo.Valid()
    ensures ok <==> AllAccepted(found, |found|, start, end, d.parent.value, accepts)
    ensures ok ==> mo.queue == old(mo.queue)
    ensures ok ==> Patched(mo.rows, old(mo.rows), found, start, end, (row: UnitRow) => Written(d, row.owned))
    ensures !ok ==> SameOutside(mo.rows, old(mo.rows), start, end)
    ensures !ok ==> ParentQueued(mo.queue, old(mo.queue), d.parent, priority)
    ensures SameFrom(mo.rows, old(mo.rows), end)
  {
    var moValidity := TimelineIntervalToMoValidity(start, end);
    ghost var update := (row: UnitRow) => Written(d, row.owned);
    var i := 0;
    while i < |found|
      invariant 0 <= i <= |found|
      invariant mo.Valid() && mo.queue == old(mo.queue)
      invariant AllAccepted(found, i, start, end, d.parent.value, accepts)
      invariant Patched(mo.rows, old(mo.rows), found[..i], start, end, update)
      invariant SameFrom(mo.rows, old(mo.rows), end)
    {
      ghost var cur := mo.rows;
      var row := TimelineIntervalToMoValidity(found[i].start, found[i].end);
      PatchIsIntersection(found[i].start, found[i].end, start, end);
      var patch := GetPatchValidity(row.from, row.to, moValidity);
      assert patch == Patch(found[i], start, end);
      if !accepts(d.parent.value, patch) {
        mo.Send(Event(d.parent.value.value, priority - 1));
        return false;
      }
      mo.Write(patch, Written(d, found[i].value.owned));
      PatchOneMore(cur, mo.rows, old(mo.rows), found, i, start, end, update);
      SameFromLater(mo.rows, cur, RangeEnd(patch), end);
      i := i + 1;
    }
    assert found[..i] == found;
    return true;
  }

  // What MO answers to a termination: None if it accepts it, else the children active then.
  type ActiveChildren = RAValidity -> Option<seq<Uuid>>

  // Terminated, or left alone as too short; put off until the children queued have been
  // processed; or no row found to terminate, an exception in the source.
  datatype Termination = Terminated | TooShort | ChildrenFirst | UnitNotFound

  function EventsFor(units: seq<Uuid>, priority: int): seq<Event> {
    seq(|units|, i requires 0 <= i < |units| => Event(units[i], priority))
  }

  // One event for each child was sent: process the children first.
  ghost predicate ChildrenQueued(after: seq<Event>, before: seq<Event>, children: Option<seq<Uuid>>, priority: int) {
    children.Some? && after == before + EventsFor(children.value, priority - 1)
  }

  method QueueOuChildren(mo: MoUnit, children: seq<Uuid>, priority: int)
    requires mo.Valid()
    modifies mo
    ensures mo.Valid() && mo.rows == old(mo.rows) && mo.queue == old(mo.queue) + EventsFor(children, priority)
    ensures |mo.queue| == |old(mo.queue)| + |children|
    ensures forall i :: 0 <= i < |children| ==> mo.queue[|old(mo.queue)| + i] == Event(children[i], priority)
  {
    for i := 0 to |children|
      invariant mo.Valid() && mo.rows == old(mo.rows) && mo.queue == old(mo.queue) + EventsFor(children[..i], priority)
    {
      mo.Send(Event(children[i], priority));
      assert EventsFor(children[..i + 1], priority) == EventsFor(children[..i], priority) + [Event(children[i], priority)];
    }
    assert children[..|children|] == children;
  }

  method TerminateOu(mo: MoUnit, start: Time, end: Time, children: ActiveChildren, priority: int)
    returns (r: Termination)
    requires mo.Valid() && start < end <= POSITIVE_INFINITY
    modifies mo
    ensures mo.Valid()
    ensures r.TooShort? <==> end - start <= 1
    ensures r.UnitNotFound? <==> 1 < end - start && RowsAskedFor(old(mo.rows), start, end) == []
    ensures r.ChildrenFirst? ==>
      ChildrenQueued(mo.queue, old(mo.queue), children(TimelineIntervalToMoValidity(start, end)), priority)
    ensures r.Terminated? ==> children(TimelineIntervalToMoValidity(start, end)) == None
    ensures !r.ChildrenFirst? ==> mo.queue == old(mo.queue)
    ensures forall t ::
      At(mo.rows, t) == if r.Terminated? && start <= t < end then None else At(old(mo.rows), t)
    ensures !r.Terminated? ==> mo.rows == old(mo.rows)
    ensures SameFrom(mo.rows, old(mo.rows), end)
  {
    if end - start <= 1 {
      return TooShort;
    }
    var moValidity := TimelineIntervalToMoValidity(start, end);
    if RowsAskedFor(mo.rows, start, end) == [] {
      return UnitNotFound;
    }
    var blocking := children(moValidity);
    if blocking.Some? {
      QueueOuChildren(mo, blocking.value, priority - 1);
      return ChildrenFirst;
    }
    if moValidity.to.Some? {
      mo.Terminate(Some(moValidity.from), moValidity.to.value);
    } else {
      mo.Terminate(None, moValidity.from - 1);
      forall t | end <= t ensures At(old(mo.rows), t) == None && At(mo.rows, t) == None {
        NothingAfterInfinity(old(mo.rows), t);
      }
      AfterInfinity(mo.rows);
      AfterInfinity(old(mo.rows));
    }
    return Terminated;
  }
}
