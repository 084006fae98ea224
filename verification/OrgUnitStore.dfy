// MO's rows about one unit, and what synchronising makes of them.
module OrgUnitStore {
  import opened Common
  import opened Timelines
  import opened MoDates
  import opened MoRows
  import opened OrgUnitTimelines

  // What only MO knows about a unit; updates copy it from the row they replace.
  datatype MoOwned = MoOwned(hierarchy: Option<Uuid>, timePlanning: Option<Uuid>)

  const NOTHING_OWNED := MoOwned(None, None)

  datatype UnitRow = UnitRow(
    name: Option<string>, userKey: string, level: Option<string>, parent: Option<Uuid>, owned: MoOwned)

  datatype Event = Event(unit: Uuid, priority: int)

  function ReadRow(row: Option<UnitRow>): UnitAt {
    if row.None? then NOTHING
    else UnitAt(Some(true), Some(row.value.name), Some(row.value.userKey), Some(row.value.level), Some(row.value.parent))
  }

  function Written(d: UnitAt, owned: MoOwned): UnitRow
    requires Complete(d)
  {
    UnitRow(d.name.value, d.unitId.value, d.unitLevel.value, d.parent.value, owned)
  }

  function RowActive(row: UnitRow): bool { true }
  function RowName(row: UnitRow): Option<string> { row.name }
  function RowUserKey(row: UnitRow): string { row.userKey }
  function RowLevel(row: UnitRow): Option<string> { row.level }
  function RowParent(row: UnitRow): Option<Uuid> { row.parent }

  function GetOuTimeline(rows: seq<Interval<UnitRow>>): UnitTimeline {
    UnitTimeline(FieldTimeline(rows, RowActive), FieldTimeline(rows, RowName), FieldTimeline(rows, RowUserKey),
                 FieldTimeline(rows, RowLevel), FieldTimeline(rows, RowParent))
  }

  ghost predicate Mirrors(tl: UnitTimeline, rows: seq<Interval<UnitRow>>) {
    forall t :: RecordAt(tl, t) == ReadRow(At(rows, t))
  }

  lemma ReadBackMirrors(rows: seq<Interval<UnitRow>>)
    requires WellFormed(rows)
    ensures CanonicalTimeline(GetOuTimeline(rows)) && Mirrors(GetOuTimeline(rows), rows)
  {
    FieldTimelineAt(rows, RowActive);
    FieldTimelineAt(rows, RowName);
    FieldTimelineAt(rows, RowUserKey);
    FieldTimelineAt(rows, RowLevel);
    FieldTimelineAt(rows, RowParent);
  }

  // The range update_ou and terminate_ou ask MO about ends on the chunk's last day, so a row
  // starting on that day is not found.
  function LastDayAskedFor(end: Time): Time {
    MoEndToDatetime(TimelineIntervalToMoValidity(0, end).to)
  }

  function RowsAskedFor(rows: seq<Interval<UnitRow>>, start: Time, end: Time): seq<Interval<UnitRow>> {
    var to := LastDayAskedFor(end);
    if start < to then Overlapping(rows, start, to) else []
  }

  function Starts(rows: seq<Interval<UnitRow>>): set<Time> {
    set i | 0 <= i < |rows| :: rows[i].start
  }

  // t lies on the last day of the chunk and MO's row there starts on that day.
  predicate Overlooked(rows: seq<Interval<UnitRow>>, end: Time, t: Time) {
    LastDayAskedFor(end) <= t && t in Starts(rows)
  }

  // One processed instant of the chunk [start, end), rows being what MO had.
  function Outcome(d: UnitAt, rows: seq<Interval<UnitRow>>, start: Time, end: Time, t: Time): Option<UnitRow> {
    var row := At(rows, t);
    if d == ReadRow(row) then row
    else if d.active != Some(true) then (if end - start <= 1 then row else None)
    else if !Complete(d) then row
    else if row.None? || LastDayAskedFor(end) <= start then Some(Written(d, NOTHING_OWNED))
    else if Overlooked(rows, end, t) then row
    else Some(Written(d, row.value.owned))
  }

  // A chunk will agree with the desired timeline unless it should be terminated but is at
  // most a day long, or a row starting on its last day escapes the update.
  ghost predicate WillConverge(d: UnitAt, rows: seq<Interval<UnitRow>>, start: Time, end: Time) {
    || d == ReadRow(At(rows, start))
    || (d.active != Some(true) && 1 < end - start)
    || (d.active == Some(true) && (LastDayAskedFor(end) <= start || At(rows, start).None?
          || forall t :: start < t < end ==> !Overlooked(rows, end, t)))
  }

  // rows carry the same timeline fields throughout the chunk.
  ghost predicate SteadyRows(rows: seq<Interval<UnitRow>>, start: Time, end: Time) {
    forall t :: start <= t < end ==> ReadRow(At(rows, t)) == ReadRow(At(rows, start))
  }

  // What one chunk ends up as, exactly: it agrees with the desired values at every instant
  // if and only if it could be foreseen to.
  lemma ConvergesIffForeseen(d: UnitAt, rows: seq<Interval<UnitRow>>, start: Time, end: Time)
    requires start < end <= POSITIVE_INFINITY && SteadyRows(rows, start, end)
    requires d == NOTHING || (d.active == Some(true) && Complete(d))
    ensures WillConverge(d, rows, start, end)
       <==> forall t :: start <= t < end ==> ReadRow(Outcome(d, rows, start, end, t)) == d
  {
    if WillConverge(d, rows, start, end) {
      forall t | start <= t < end ensures ReadRow(Outcome(d, rows, start, end, t)) == d {
        assert ReadRow(At(rows, t)) == ReadRow(At(rows, start));
        assert At(rows, t).Some? <==> At(rows, start).Some?;
      }
    } else if d == NOTHING {
      assert ReadRow(Outcome(d, rows, start, end, start)) != d;
    } else {
      var t :| start < t < end && Overlooked(rows, end, t);
      assert ReadRow(At(rows, t)) == ReadRow(At(rows, start));
      assert ReadRow(Outcome(d, rows, start, end, t)) != d;
    }
  }

  // A unit in [0, 20) whose hierarchy changed on day 19 only, which no timeline field shows:
  // renaming it leaves that day with the old name.
  lemma LastDayRowIsOverlooked() returns (rows: seq<Interval<UnitRow>>, d: UnitAt)
    ensures WellFormed(rows) && SteadyRows(rows, 0, 20) && d.active == Some(true) && Complete(d)
    ensures !WillConverge(d, rows, 0, 20)
    ensures At(rows, 19).Some? && Outcome(d, rows, 0, 20, 19) == At(rows, 19) && ReadRow(At(rows, 19)) != d
  {
    var before := UnitRow(Some("old"), "A1", None, Some(1), MoOwned(Some(1), None));
    var later := UnitRow(Some("old"), "A1", None, Some(1), MoOwned(Some(2), None));
    rows := [Interval(0, 19, before), Interval(19, 20, later)];
    d := UnitAt(Some(true), Some(Some("new")), Some("A1"), Some(None), Some(Some(1)));
    AtCovered(rows, 0, 0);
    AtCovered(rows, 1, 19);
    forall t | 0 <= t < 20 ensures ReadRow(At(rows, t)) == ReadRow(At(rows, 0)) {
      AtCovered(rows, if t < 19 then 0 else 1, t);
    }
    assert rows[1].start == 19;
    assert Overlooked(rows, 20, 19);
  }

  // A unit that existed on day 0 only and should not: it stays.
  lemma OneDayUnitStays() returns (rows: seq<Interval<UnitRow>>)
    ensures WellFormed(rows) && SteadyRows(rows, 0, 1) && !WillConverge(NOTHING, rows, 0, 1)
    ensures At(rows, 0).Some? && Outcome(NOTHING, rows, 0, 1, 0) == At(rows, 0)
  {
    rows := [Interval(0, 1, UnitRow(Some("one"), "A1", None, Some(1), NOTHING_OWNED))];
    AtCovered(rows, 0, 0);
  }

  // ----- writing

  lemma {:induction false} StartsOfAfter(s: seq<Interval<UnitRow>>, b: Time)
    requires Proper(s)
    ensures forall p :: b < p ==> (p in Starts(After(s, b)) <==> p in Starts(s))
  {
    if s == [] {
    } else {
      StartsOfAfter(s[1..], b);
      StartsCons(s);
      if b < s[0].end {
        StartsCons(After(s, b));
        assert After(s, b)[1..] == After(s[1..], b);
      }
    }
  }

  lemma StartsCons(s: seq<Interval<UnitRow>>)
    requires s != []
    ensures Starts(s) == {s[0].start} + Starts(s[1..])
  {
    forall p | p in Starts(s) ensures p in {s[0].start} + Starts(s[1..]) {
      var i :| 0 <= i < |s| && s[i].start == p;
      if i > 0 { assert s[1..][i - 1] == s[i]; }
    }
    forall p | p in Starts(s[1..]) ensures p in Starts(s) {
      var i :| 0 <= i < |s[1..]| && s[1..][i].start == p;
      assert s[i + 1] == s[1..][i];
    }
  }

  // Rows that are the same from c on start on the same days after c.
  lemma SameStarts(r: seq<Interval<UnitRow>>, s: seq<Interval<UnitRow>>, c: Time)
    requires Proper(r) && Proper(s) && SameFrom(r, s, c)
    ensures forall p :: c < p ==> (p in Starts(r) <==> p in Starts(s))
  {
    StartsOfAfter(r, c);
    StartsOfAfter(s, c);
  }

  class MoUnit {
    var rows: seq<Interval<UnitRow>>
    // Events sent so far, each asking for a unit to be processed.
    var queue: seq<Event>

    ghost predicate Valid()
      reads this
    {
      WellFormed(rows)
    }

    constructor (rows: seq<Interval<UnitRow>>)
      requires WellFormed(rows)
      ensures Valid() && this.rows == rows && queue == []
    {
      this.rows := rows;
      this.queue := [];
    }

    method Write(validity: RAValidity, row: UnitRow)
      requires Valid() && validity.from < RangeEnd(validity) <= POSITIVE_INFINITY
      modifies this
      ensures Valid() && queue == old(queue)
      ensures forall t :: At(rows, t) == if InRange(validity, t) then Some(row) else At(old(rows), t)
      ensures SameFrom(rows, old(rows), RangeEnd(validity))
    {
      OverwriteProperties(rows, validity.from, RangeEnd(validity), row);
      OverwriteSameFrom(rows, validity.from, RangeEnd(validity), row);
      rows := Overwrite(rows, validity.from, RangeEnd(validity), row);
    }

    method Terminate(from: Option<Time>, to: Time)
      requires Valid() && (from.Some? ==> from.value <= to + 1)
      modifies this
      ensures Valid() && queue == old(queue)
      ensures forall t ::
        At(rows, t) == if (if from.Some? then from.value <= t <= to else to < t) then None else At(old(rows), t)
      ensures from.Some? ==> SameFrom(rows, old(rows), to + 1)
    {
      if from.Some? {
        ClipProperties(rows, from.value, to + 1);
        ClipSameFrom(rows, from.value, to + 1);
        rows := Clip(rows, from.value, to + 1);
      } else {
        BeforeProperties(rows, to + 1);
        rows := Before(rows, to + 1);
      }
    }

    method Send(event: Event)
      modifies this
      ensures rows == old(rows) && queue == old(queue) + [event]
    {
      queue := queue + [event];
    }
  }
}
