// Conversions between half-open intervals and the inclusive validities MO reads and writes.
module MoDates {
  import opened Common

  // MO's own way of giving a range of days: both ends belong to it, no end means for ever.
  datatype RAValidity = RAValidity(from: Time, to: Option<Time>)

  function MoEndToDatetime(moEnd: Option<Time>): Time {
    if moEnd.Some? then moEnd.value else POSITIVE_INFINITY
  }

  function DatetimeToMoEnd(end: Time): Option<Time> {
    if end == POSITIVE_INFINITY then None else Some(end)
  }

  function MoEndToTimelineEnd(moEnd: Option<Time>): Time {
    var end := MoEndToDatetime(moEnd);
    if end == POSITIVE_INFINITY then POSITIVE_INFINITY else end + 1
  }

  function TimelineIntervalToMoValidity(start: Time, end: Time): RAValidity {
    var moEnd := DatetimeToMoEnd(end);
    RAValidity(start, if moEnd.Some? then Some(moEnd.value - 1) else None)
  }

  function GetPatchValidity(from: Time, to: Option<Time>, moValidity: RAValidity): RAValidity {
    var patchTo := Min(MoEndToDatetime(to), MoEndToDatetime(moValidity.to));
    RAValidity(Max(from, moValidity.from), DatetimeToMoEnd(patchTo))
  }

  // The half-open range a validity stands for.
  function RangeEnd(v: RAValidity): Time { MoEndToTimelineEnd(v.to) }

  predicate InRange(v: RAValidity, t: Time) { v.from <= t < RangeEnd(v) }

  // Converting to MO's form and back loses nothing, also for intervals that never end.
  lemma DayShiftRoundTrip(start: Time, end: Time)
    requires end <= POSITIVE_INFINITY
    ensures TimelineIntervalToMoValidity(start, end).from == start
    ensures RangeEnd(TimelineIntervalToMoValidity(start, end)) == end
  {
  }

  // A patch is the intersection of the validity found in MO and the chunk being written.
  lemma PatchIsIntersection(rowStart: Time, rowEnd: Time, start: Time, end: Time)
    requires rowEnd <= POSITIVE_INFINITY && end <= POSITIVE_INFINITY
    ensures var row := TimelineIntervalToMoValidity(rowStart, rowEnd);
      var patch := GetPatchValidity(row.from, row.to, TimelineIntervalToMoValidity(start, end));
      patch.from == Max(rowStart, start) && RangeEnd(patch) == Min(rowEnd, end)
  {
  }
}
