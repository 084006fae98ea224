// What a run of the engagement loop means for a reader of MO.
module EngagementTheorems {
  import opened Common
  import opened Timelines
  import opened MoRows
  import opened EngagementModel

  // after is what one run of the engagement loop makes of before.
  ghost predicate Run(desired: EngagementTimeline, before: seq<Interval<EngRow>>, after: seq<Interval<EngRow>>) {
    forall t :: At(after, t) == Outcome(RecordAt(desired, t), At(before, t))
  }

  // After a run MO, read again, says at t exactly what was desired, if and only if MO can
  // hold the desired values (or held them already).
  lemma ConvergesIffStorable(desired: EngagementTimeline, before: seq<Interval<EngRow>>,
                             after: seq<Interval<EngRow>>, t: Time)
    requires Run(desired, before, after)
    requires At(desired.active, t) == Some(true) && HasRequiredMoValues(desired, t)
    requires At(before, t).Some? ==> Readable(At(before, t).value)
    ensures At(after, t).Some?
    ensures Readable(At(after, t).value) && ReadRow(At(after, t)) == RecordAt(desired, t)
       <==> Storable(RecordAt(desired, t)) || ReadRow(At(before, t)) == RecordAt(desired, t)
    ensures At(before, t).Some? ==> At(after, t).value.owned == At(before, t).value.owned
  {
  }

  // What is equal already, and what is active but incomplete, is left alone; what is inactive and
  // differs is removed; anything else holds the desired values, where MO turns the empty text
  // into none and a missing SD unit into the text "None".
  lemma RunCaseByCase(desired: EngagementTimeline, before: seq<Interval<EngRow>>, after: seq<Interval<EngRow>>, t: Time)
    requires Run(desired, before, after)
    ensures RecordAt(desired, t) == ReadRow(At(before, t)) ==> At(after, t) == At(before, t)
    ensures At(desired.active, t) == Some(true) && !HasRequiredMoValues(desired, t) ==> At(after, t) == At(before, t)
    ensures At(desired.active, t) != Some(true) && RecordAt(desired, t) != ReadRow(At(before, t)) ==> At(after, t) == None
    ensures At(desired.active, t) == Some(true) && HasRequiredMoValues(desired, t)
            && RecordAt(desired, t) != ReadRow(At(before, t)) ==>
      At(after, t).Some? && HoldsDesired(At(after, t).value, desired, t)
  {
  }

  ghost predicate HoldsDesired(row: EngRow, desired: EngagementTimeline, t: Time)
    requires HasRequiredMoValues(desired, t)
  {
    && row.key == At(desired.key, t).value && row.unit == At(desired.unit, t).value
    && row.engType == At(desired.engType, t).value
    && row.name == (if At(desired.name, t).value == Some("") then None else At(desired.name, t).value)
    && row.unitId == (if At(desired.unitId, t).value == Some("") then None else At(desired.unitId, t).value)
    && row.sdUnit == (if At(desired.sdUnit, t).value.Some? then UnitText(At(desired.sdUnit, t).value.value) else NoneText)
  }

  // Leave is terminated with the engagement it belongs to, and only then.
  lemma TerminatesWithEngagement(desired: EngagementTimeline, before: seq<Interval<EngRow>>,
                                 after: seq<Interval<EngRow>>, t: Time)
    requires Run(desired, before, after) && At(before, t).Some?
    ensures Terminates(RecordAt(desired, t), At(before, t)) <==> At(after, t).None?
  {
  }

  // Everywhere either nothing at all is desired, or an active engagement with every field that
  // MO can hold.
  ghost predicate AllStorable(desired: EngagementTimeline) {
    forall t :: RecordAt(desired, t) == RecordAt(EMPTY, t)
             || (At(desired.active, t) == Some(true) && HasRequiredMoValues(desired, t)
                 && Storable(RecordAt(desired, t)))
  }

  // Such a timeline leaves only rows that can be read.
  lemma RunIsReadable(desired: EngagementTimeline, before: seq<Interval<EngRow>>, after: seq<Interval<EngRow>>)
    requires WellFormed(after) && Run(desired, before, after) && AllStorable(desired)
    ensures AllReadable(after)
  {
    forall i | 0 <= i < |after| ensures Readable(after[i].value) {
      var t := after[i].start;
      AtCovered(after, i, t);
      assert At(after, t) == Outcome(RecordAt(desired, t), At(before, t));
    }
  }

  // Whole timelines: it is read back as the very same timeline.
  lemma FullConvergence(desired: EngagementTimeline, before: seq<Interval<EngRow>>, after: seq<Interval<EngRow>>)
    requires WellFormed(after) && Run(desired, before, after)
    requires CanonicalTimeline(desired) && AllStorable(desired)
    ensures GetEngagementTimeline(after) == Some(desired)
  {
    RunIsReadable(desired, before, after);
    var again := GetEngagementTimeline(after).value;
    ReadBackMirrors(after);
    forall t ensures RecordAt(again, t) == RecordAt(desired, t) {
      assert RecordAt(again, t) == ReadRow(At(after, t));
    }
    assert forall t :: RecordAt(again, t) == RecordAt(desired, t);
    SameFields(again, desired);
    CanonicalUnique(again.active, desired.active);
    CanonicalUnique(again.key, desired.key);
    CanonicalUnique(again.name, desired.name);
    CanonicalUnique(again.unit, desired.unit);
    CanonicalUnique(again.sdUnit, desired.sdUnit);
    CanonicalUnique(again.unitId, desired.unitId);
    CanonicalUnique(again.engType, desired.engType);
  }

  lemma SameFields(a: EngagementTimeline, b: EngagementTimeline)
    requires forall t :: RecordAt(a, t) == RecordAt(b, t)
    ensures SameValues(a.active, b.active) && SameValues(a.key, b.key) && SameValues(a.name, b.name)
    ensures SameValues(a.unit, b.unit) && SameValues(a.sdUnit, b.sdUnit)
    ensures SameValues(a.unitId, b.unitId) && SameValues(a.engType, b.engType)
  {
    forall t
      ensures At(a.active, t) == At(b.active, t) && At(a.key, t) == At(b.key, t) && At(a.name, t) == At(b.name, t)
      ensures At(a.unit, t) == At(b.unit, t) && At(a.sdUnit, t) == At(b.sdUnit, t)
      ensures At(a.unitId, t) == At(b.unitId, t) && At(a.engType, t) == At(b.engType, t)
    {
      assert RecordAt(a, t) == RecordAt(b, t);
    }
  }

  // A second run with the same desired timeline leaves every instant as it is.
  lemma SecondRunChangesNothing(desired: EngagementTimeline, before: seq<Interval<EngRow>>,
                                once: seq<Interval<EngRow>>, twice: seq<Interval<EngRow>>)
    requires Run(desired, before, once) && Run(desired, once, twice)
    ensures SameValues(once, twice)
  {
    forall t ensures At(once, t) == At(twice, t) {
      var d, row := RecordAt(desired, t), At(before, t);
      assert At(once, t) == Outcome(d, row);
      assert At(twice, t) == Outcome(d, Outcome(d, row));
    }
  }

  // Where neither timeline has an endpoint on both sides, nothing is written.
  lemma NothingWrittenOutsideHull(desired: EngagementTimeline, before: seq<Interval<EngRow>>,
                                  after: seq<Interval<EngRow>>, lo: Time, hi: Time, t: Time)
    requires WellFormed(before) && Run(desired, before, after)
    requires forall p :: p in TimelineEndpoints(desired) ==> lo <= p <= hi
    requires forall p :: p in Endpoints(before) ==> lo <= p <= hi
    requires t < lo || hi <= t
    ensures At(before, t) == None && At(after, t) == None
  {
    var e := SortedSeq(TimelineEndpoints(desired));
    assert HasEndpointsOf(e, desired);
    assert forall i :: 0 <= i < |e| ==> e[i] in e;
    RecordOutsideHull(desired, e, t);
    AtWitness(before, t);
    forall i | 0 <= i < |before| ensures !Covers(before[i], t) {
      assert before[i].start in Endpoints(before) && before[i].end in Endpoints(before);
    }
  }

  // An engagement in [0, 10) with one value for each field.
  function Employed(name: Option<string>, sdUnit: Option<Uuid>): EngagementTimeline {
    EngagementTimeline(
      [Interval(0, 10, true)], [Interval(0, 10, "1234")], [Interval(0, 10, name)], [Interval(0, 10, 7)],
      [Interval(0, 10, sdUnit)], [Interval(0, 10, Some("A1"))], [Interval(0, 10, MonthlyFullTime)])
  }

  lemma EmployedAt(name: Option<string>, sdUnit: Option<Uuid>, t: Time)
    ensures RecordAt(Employed(name, sdUnit), t)
         == if 0 <= t < 10
            then EngAt(Some(true), Some("1234"), Some(name), Some(7), Some(sdUnit), Some(Some("A1")), Some(MonthlyFullTime))
            else RecordAt(EMPTY, t)
  {
    var d := Employed(name, sdUnit);
    AtSingle(d.active[0], t);
    AtSingle(d.key[0], t);
    AtSingle(d.name[0], t);
    AtSingle(d.unit[0], t);
    AtSingle(d.sdUnit[0], t);
    AtSingle(d.unitId[0], t);
    AtSingle(d.engType[0], t);
  }

  // What a run makes of an empty MO.
  lemma EmployedRun(name: Option<string>, sdUnit: Option<Uuid>) returns (after: seq<Interval<EngRow>>)
    ensures WellFormed(after) && CanonicalTimeline(Employed(name, sdUnit))
    ensures Run(Employed(name, sdUnit), [], after)
    ensures At(after, 5) == Some(Written(RecordAt(Employed(name, sdUnit), 5), NOTHING_OWNED))
  {
    var desired := Employed(name, sdUnit);
    EmployedAt(name, sdUnit, 5);
    after := [Interval(0, 10, Written(RecordAt(desired, 5), NOTHING_OWNED))];
    forall t ensures At(after, t) == Outcome(RecordAt(desired, t), At([], t)) {
      AtSingle(after[0], t);
      EmployedAt(name, sdUnit, t);
    }
  }

  // An engagement with an empty name: MO never says what is desired.
  lemma EmptyNameIsLost() returns (desired: EngagementTimeline, after: seq<Interval<EngRow>>)
    ensures CanonicalTimeline(desired) && HasRequiredMoValues(desired, 5) && WellFormed(after)
    ensures Run(desired, [], after) && AllReadable(after) && ReadRow(At(after, 5)) != RecordAt(desired, 5)
  {
    desired := Employed(Some(""), Some(8));
    after := EmployedRun(Some(""), Some(8));
    EmployedAt(Some(""), Some(8), 5);
    forall i | 0 <= i < |after| ensures Readable(after[i].value) {
      var t := after[i].start;
      AtCovered(after, i, t);
      EmployedAt(Some(""), Some(8), t);
      assert At(after, t) == Outcome(RecordAt(desired, t), At([], t));
    }
  }

  // An engagement without an SD unit: MO afterwards holds a row no later run can read.
  lemma MissingSdUnitIsUnreadable() returns (desired: EngagementTimeline, after: seq<Interval<EngRow>>)
    ensures CanonicalTimeline(desired) && HasRequiredMoValues(desired, 5) && WellFormed(after)
    ensures Run(desired, [], after) && !AllReadable(after) && GetEngagementTimeline(after) == None
  {
    desired := Employed(None, None);
    after := EmployedRun(None, None);
    EmployedAt(None, None, 5);
    var i := CoveredBy(after, 5);
    AtCovered(after, i, 5);
    assert !Readable(after[i].value);
  }
}
