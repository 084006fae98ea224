// Elevating an engagement from its department to the department's parent.
module NyLevel {
  import opened Common
  import opened Timelines
  import opened EngagementModel
  import opened Removal

  // SD's parent history of each department; None when SD does not find any.
  type ParentHistory = Uuid -> Option<seq<Interval<Uuid>>>

  datatype NyResult =
    | Elevated(timeline: EngagementTimeline)
    | ParentsNotFound(unit: Uuid)
    | ParentsInvalid(unit: Uuid)
    | HolesInParents(unit: Uuid)
    | NoParents(unit: Uuid)
    | ValidityExceedsParents

  // SD lists a history by start date.
  ghost predicate Chronological(history: ParentHistory) {
    forall u :: history(u).Some? ==> Proper(history(u).value) && StartsSorted(history(u).value)
  }

  predicate Spans(parents: seq<Interval<Uuid>>, i: Interval<Uuid>) {
    parents != [] && parents[0].start <= i.start && i.end <= parents[|parents| - 1].end
  }

  // The parent timeline of a department is usable for an engagement interval.
  ghost predicate Usable(history: ParentHistory, i: Interval<Uuid>) {
    && UsableParents(history, i.value)
    && Spans(CombineIntervals(history(i.value).value), i)
  }

  ghost predicate UsableParents(history: ParentHistory, u: Uuid) {
    && history(u).Some?
    && PassesValidators(CombineIntervals(history(u).value))
    && !HasHoles(CombineIntervals(history(u).value))
  }

  // The departments the engagement is placed in.
  function Placements(units: seq<Interval<Uuid>>): set<Uuid> {
    set i | 0 <= i < |units| :: units[i].value
  }

  lemma UnusableSomewhere(units: seq<Interval<Uuid>>, history: ParentHistory)
    requires exists u :: u in Placements(units) && !UsableParents(history, u)
    ensures exists i :: 0 <= i < |units| && !Usable(history, units[i])
  {
    var u :| u in Placements(units) && !UsableParents(history, u);
    var i :| 0 <= i < |units| && units[i].value == u;
    assert !Usable(history, units[i]);
  }

  // Each failure says what is wrong with which department.
  ghost predicate Explains(r: NyResult, history: ParentHistory, units: seq<Interval<Uuid>>) {
    match r
    case Elevated(_) => true
    case ParentsNotFound(u) => history(u).None?
    case ParentsInvalid(u) => history(u).Some? && !PassesValidators(CombineIntervals(history(u).value))
    case HolesInParents(u) => history(u).Some? && HasHoles(CombineIntervals(history(u).value))
    case NoParents(u) => history(u).Some? && CombineIntervals(history(u).value) == []
    case ValidityExceedsParents =>
      exists i :: 0 <= i < |units| && UsableParents(history, units[i].value) && !Usable(history, units[i])
                  && CombineIntervals(history(units[i].value).value) != []
  }

  // Combining keeps chronological, non-empty intervals non-empty.
  lemma {:induction false} CombineProper<V>(s: seq<Interval<V>>)
    requires Proper(s) && StartsSorted(s)
    ensures Proper(CombineIntervals(s))
  {
    if |s| <= 1 {
    } else {
      assert s[1..][0] == s[1] && s[0].start <= s[1].start;
      CombineProper(s[1..]);
      var rest := CombineIntervals(s[1..]);
      assert rest[0].start == s[1].start;
    }
  }

  lemma UsableIsCanonical(history: ParentHistory, u: Uuid)
    requires Chronological(history) && UsableParents(history, u)
    ensures Canonical(CombineIntervals(history(u).value))
  {
    CombineProper(history(u).value);
    CanonicalIffValid(CombineIntervals(history(u).value));
  }

  // A hole-free timeline has a value at every instant between its ends.
  lemma NoHolesNoGap<V>(s: seq<Interval<V>>, t: Time)
    requires Ordered(s) && !HasHoles(s) && s != [] && s[0].start <= t < s[|s| - 1].end
    ensures At(s, t).Some?
  {
    var k := 0;
    while !(t < s[k].end)
      invariant 0 <= k < |s| && s[k].start <= t
      decreases |s| - k
    {
      k := k + 1;
    }
    AtWitness(s, t);
  }

  // parents holds the usable parent timeline of each of the departments.
  ghost predicate HasRead(parents: map<Uuid, seq<Interval<Uuid>>>, history: ParentHistory, units: set<Uuid>) {
    && parents.Keys == units
    && forall u :: u in units ==>
         UsableParents(history, u) && parents[u] == CombineIntervals(history(u).value) && Canonical(parents[u])
  }

  // First part: the parent timeline of every department the engagement is placed in.
  method ReadParents(units: set<Uuid>, history: ParentHistory)
    returns (parents: map<Uuid, seq<Interval<Uuid>>>, failure: Option<NyResult>)
    requires Chronological(history)
    ensures failure.None? <==> forall u :: u in units ==> UsableParents(history, u)
    ensures failure.Some? ==>
      !failure.value.Elevated? && !failure.value.ValidityExceedsParents? && !failure.value.NoParents?
    ensures failure.Some? ==> Explains(failure.value, history, [])
    ensures failure.None? ==> HasRead(parents, history, units)
  {
    parents := map[];
    var todo := units;
    while todo != {}
      invariant todo <= units && HasRead(parents, history, units - todo)
      decreases |todo|
    {
      var u :| u in todo;
      if history(u).None? {
        return parents, Some(ParentsNotFound(u));
      }
      var timeline := CombineIntervals(history(u).value);
      if !PassesValidators(timeline) {
        return parents, Some(ParentsInvalid(u));
      }
      if HasHoles(timeline) {
        return parents, Some(HolesInParents(u));
      }
      UsableIsCanonical(history, u);
      parents := parents[u := timeline];
      todo := todo - {u};
    }
    return parents, None;
  }

  // The parent at t of the unit the engagement is placed in.
  function ParentAt(history: ParentHistory, unit: Option<Uuid>, t: Time): Option<Uuid> {
    if unit.Some? && history(unit.value).Some? then At(CombineIntervals(history(unit.value).value), t) else None
  }

  // Second part, one engagement interval: cut at the endpoints of the parent timeline.
  method ElevateInterval(i: Interval<Uuid>, parent: seq<Interval<Uuid>>, ghost f: Time -> Option<Uuid>)
    returns (pieces: seq<Interval<Uuid>>)
    requires i.start < i.end && Canonical(parent) && !HasHoles(parent) && Spans(parent, i)
    requires forall t :: Covers(i, t) ==> f(t) == At(parent, t)
    ensures RealisedOn(pieces, f, i.start, i.end)
  {
    var e := ChunksWithin(parent, i.start, i.end);
    pieces := [];
    var k := 0;
    while k < |e| - 1
      invariant 0 <= k < |e|
      invariant RealisedOn(pieces, f, i.start, e[k])
    {
      assert SteadyChunk(parent, e, k, i.start, i.end);
      NoHolesNoGap(parent, e[k]);
      var value: Uuid := At(parent, e[k]).value;
      OnePiece(f, e[k], e[k + 1], value);
      ExtendPieces(pieces, [Interval(e[k], e[k + 1], value)], f, i.start, e[k], e[k + 1]);
      pieces := pieces + [Interval(e[k], e[k + 1], value)];
      k := k + 1;
    }
  }

  // The first i engagement intervals have been elevated.
  ghost predicate ElevatedUpTo(acc: seq<Interval<Uuid>>, units: seq<Interval<Uuid>>, f: Time -> Option<Uuid>, i: nat)
    requires i <= |units|
  {
    if i == 0 then acc == [] else RealisedBelow(acc, f, units[i - 1].end)
  }

  lemma OneMoreElevated(acc: seq<Interval<Uuid>>, units: seq<Interval<Uuid>>, f: Time -> Option<Uuid>, i: nat,
                        pieces: seq<Interval<Uuid>>)
    requires Ordered(units) && i < |units| && ElevatedUpTo(acc, units, f, i)
    requires forall t :: At(units, t) == None ==> f(t) == None
    requires RealisedOn(pieces, f, units[i].start, units[i].end)
    ensures ElevatedUpTo(acc + pieces, units, f, i + 1)
  {
    GapBefore(units, i);
    if i > 0 {
      ExtendNone(acc, f, units[i - 1].end, units[i].start);
    }
    ExtendMany(acc, pieces, f, units[i].start, units[i].end);
  }

  // All engagement intervals; ok is false when one reaches beyond its parent timeline, the first
  // being the one at index last.
  method ElevateUnits(units: seq<Interval<Uuid>>, parents: map<Uuid, seq<Interval<Uuid>>>, ghost f: Time -> Option<Uuid>)
    returns (acc: seq<Interval<Uuid>>, ok: bool, last: nat)
    requires Ordered(units)
    requires forall i :: 0 <= i < |units| ==>
      units[i].value in parents && Canonical(parents[units[i].value]) && !HasHoles(parents[units[i].value])
    requires forall i, t :: 0 <= i < |units| && Covers(units[i], t) ==> f(t) == At(parents[units[i].value], t)
    requires forall t :: At(units, t) == None ==> f(t) == None
    ensures ok <==> forall i :: 0 <= i < |units| ==> Spans(parents[units[i].value], units[i])
    ensures ok ==> Realises(acc, f)
    ensures !ok ==> last < |units| && !Spans(parents[units[last].value], units[last])
  {
    acc := [];
    var i := 0;
    while i < |units|
      invariant 0 <= i <= |units|
      invariant forall j :: 0 <= j < i ==> Spans(parents[units[j].value], units[j])
      invariant ElevatedUpTo(acc, units, f, i)
    {
      var unit := units[i];
      if !Spans(parents[unit.value], unit) {
        return acc, false, i;
      }
      var pieces := ElevateInterval(unit, parents[unit.value], f);
      OneMoreElevated(acc, units, f, i, pieces);
      acc := acc + pieces;
      i := i + 1;
    }
    if units != [] {
      NothingAfterLast(units);
      RealisedEverywhere(acc, f, units[|units| - 1].end);
    }
    return acc, true, |units|;
  }

  // At every instant the parent, at that instant, of the department the engagement is placed
  // in; the domain does not change, and it works exactly when every department's parent
  // timeline is valid, free of holes, and covers the engagement there.
  method ElevateToNyLevel(sd: EngagementTimeline, history: ParentHistory) returns (r: NyResult)
    requires CanonicalTimeline(sd) && Chronological(history)
    ensures r.Elevated? <==> forall i :: 0 <= i < |sd.unit| ==> Usable(history, sd.unit[i])
    ensures r.Elevated? <==> forall i :: 0 <= i < |sd.unit| ==> HasFullHistory(history, sd.unit[i])
    ensures Explains(r, history, sd.unit)
    ensures r.Elevated? ==> CanonicalTimeline(r.timeline) && r.timeline == sd.(unit := r.timeline.unit)
    ensures r.Elevated? ==> forall t :: At(r.timeline.unit, t) == ParentAt(history, At(sd.unit, t), t)
    ensures r.Elevated? ==> forall t :: At(r.timeline.unit, t).Some? <==> At(sd.unit, t).Some?
    ensures r.Elevated? ==> forall t :: At(sd.unit, t).Some? && At(r.timeline.unit, t).Some? ==>
      HasParent(history, At(sd.unit, t).value, At(r.timeline.unit, t).value, t)
  {
    UsableAreFull(sd.unit, history);
    var parents, failure := ReadParents(Placements(sd.unit), history);
    if failure.Some? {
      UnusableSomewhere(sd.unit, history);
      return failure.value;
    }
    ghost var f := (t: Time) => ParentAt(history, At(sd.unit, t), t);
    ParentsInside(sd.unit, parents, history);
    SpansIffUsable(sd.unit, parents, history);
    var acc, ok, last := ElevateUnits(sd.unit, parents, f);
    if !ok {
      var unit: Uuid := sd.unit[last].value;
      assert unit in Placements(sd.unit);
      return if parents[unit] == [] then NoParents(unit) else ValidityExceedsParents;
    }
    CombineRealises(acc, f);
    r := Elevated(sd.(unit := CombineIntervals(acc)));
    SameDomain(sd, history);
    ElevatedInHistory(r.timeline.unit, sd.unit, history);
  }

  // What a combined list says at t, one of the intervals combined says.
  lemma {:induction false} CombinedComesFrom(s: seq<Interval<Uuid>>, i: nat, t: Time)
    requires Proper(s) && StartsSorted(s) && i < |CombineIntervals(s)| && Covers(CombineIntervals(s)[i], t)
    ensures exists j :: 0 <= j < |s| && Covers(s[j], t) && s[j].value == CombineIntervals(s)[i].value
  {
    if |s| <= 1 {
      assert s != [] ==> CombineIntervals(s) == s;
    } else {
      var rest := CombineIntervals(s[1..]);
      assert s[1..][0] == s[1];
      if SplitBetween(s[0], s[1]) {
        if i > 0 {
          CombinedComesFrom(s[1..], i - 1, t);
          var j :| 0 <= j < |s[1..]| && Covers(s[1..][j], t) && s[1..][j].value == rest[i - 1].value;
          assert s[j + 1] == s[1..][j];
        }
      } else if i > 0 || s[1].start <= t {
        CombinedComesFrom(s[1..], i, t);
        var j :| 0 <= j < |s[1..]| && Covers(s[1..][j], t) && s[1..][j].value == rest[i].value;
        assert s[j + 1] == s[1..][j];
      }
    }
  }

  // SD's history of the department u has the parent p at t.
  ghost predicate HasParent(history: ParentHistory, u: Uuid, p: Uuid, t: Time) {
    && history(u).Some?
    && exists j :: 0 <= j < |history(u).value| && history(u).value[j].start <= t < history(u).value[j].end
                   && history(u).value[j].value == p
  }

  lemma ParentAtIsInHistory(history: ParentHistory, u: Uuid, t: Time)
    requires Chronological(history) && ParentAt(history, Some(u), t).Some?
    ensures HasParent(history, u, ParentAt(history, Some(u), t).value, t)
  {
    var combined := CombineIntervals(history(u).value);
    AtWitness(combined, t);
    var i :| 0 <= i < |combined| && Covers(combined[i], t) && At(combined, t) == Some(combined[i].value);
    CombinedComesFrom(history(u).value, i, t);
  }

  // A usable parent timeline spans the engagement exactly if it has a parent at every instant of it.
  lemma SpansIffCovers(parents: seq<Interval<Uuid>>, i: Interval<Uuid>)
    requires Canonical(parents) && !HasHoles(parents) && i.start < i.end
    ensures Spans(parents, i) <==> forall t :: Covers(i, t) ==> At(parents, t).Some?
  {
    if Spans(parents, i) {
      forall t | Covers(i, t) ensures At(parents, t).Some? {
        NoHolesNoGap(parents, t);
      }
    } else {
      assert Covers(i, i.start) && Covers(i, i.end - 1);
      AtWitness(parents, i.start);
      AtWitness(parents, i.end - 1);
    }
  }

  // SD's history of the interval's department is found, valid and free of holes, and has a parent at
  // every instant of the interval.
  ghost predicate HasFullHistory(history: ParentHistory, i: Interval<Uuid>) {
    && history(i.value).Some?
    && PassesValidators(CombineIntervals(history(i.value).value)) && !HasHoles(CombineIntervals(history(i.value).value))
    && forall t :: i.start <= t < i.end ==> At(CombineIntervals(history(i.value).value), t).Some?
  }

  lemma UsableIffFull(history: ParentHistory, i: Interval<Uuid>)
    requires Chronological(history) && i.start < i.end
    ensures Usable(history, i) <==> HasFullHistory(history, i)
  {
    if UsableParents(history, i.value) {
      UsableIsCanonical(history, i.value);
      var parents := CombineIntervals(history(i.value).value);
      SpansIffCovers(parents, i);
      if HasFullHistory(history, i) {
        assert forall t :: Covers(i, t) ==> At(parents, t).Some?;
      }
      if Spans(parents, i) {
        forall t | i.start <= t < i.end ensures At(parents, t).Some? {
          assert Covers(i, t);
        }
      }
    }
  }

  lemma UsableAreFull(units: seq<Interval<Uuid>>, history: ParentHistory)
    requires Chronological(history) && Ordered(units)
    ensures (forall i :: 0 <= i < |units| ==> Usable(history, units[i]))
       <==> forall i :: 0 <= i < |units| ==> HasFullHistory(history, units[i])
  {
    forall i | 0 <= i < |units| ensures Usable(history, units[i]) <==> HasFullHistory(history, units[i]) {
      UsableIffFull(history, units[i]);
    }
  }

  lemma ElevatedInHistory(elevated: seq<Interval<Uuid>>, units: seq<Interval<Uuid>>, history: ParentHistory)
    requires Chronological(history) && forall t :: At(elevated, t) == ParentAt(history, At(units, t), t)
    ensures forall t :: At(units, t).Some? && At(elevated, t).Some? ==>
      HasParent(history, At(units, t).value, At(elevated, t).value, t)
  {
    forall t | At(units, t).Some? && At(elevated, t).Some?
      ensures HasParent(history, At(units, t).value, At(elevated, t).value, t)
    {
      ParentAtIsInHistory(history, At(units, t).value, t);
    }
  }

  lemma ParentsInside(units: seq<Interval<Uuid>>, parents: map<Uuid, seq<Interval<Uuid>>>, history: ParentHistory)
    requires Ordered(units) && HasRead(parents, history, Placements(units))
    ensures forall i, t :: 0 <= i < |units| && Covers(units[i], t) ==>
      units[i].value in parents && ParentAt(history, At(units, t), t) == At(parents[units[i].value], t)
  {
    forall i, t | 0 <= i < |units| && Covers(units[i], t)
      ensures units[i].value in parents && ParentAt(history, At(units, t), t) == At(parents[units[i].value], t)
    {
      ValueInside(units, i);
      assert units[i].value in Placements(units);
    }
  }

  lemma SpansIffUsable(units: seq<Interval<Uuid>>, parents: map<Uuid, seq<Interval<Uuid>>>, history: ParentHistory)
    requires HasRead(parents, history, Placements(units))
    ensures forall i :: 0 <= i < |units| ==> units[i].value in parents && Canonical(parents[units[i].value])
    ensures forall i :: 0 <= i < |units| ==>
      !HasHoles(parents[units[i].value]) && UsableParents(history, units[i].value)
    ensures forall i :: 0 <= i < |units| ==> (Spans(parents[units[i].value], units[i]) <==> Usable(history, units[i]))
  {
    assert forall i :: 0 <= i < |units| ==> units[i].value in Placements(units);
  }

  lemma ValueInside<V>(s: seq<Interval<V>>, i: nat)
    requires Ordered(s) && i < |s|
    ensures forall t :: Covers(s[i], t) ==> At(s, t) == Some(s[i].value)
  {
    forall t | Covers(s[i], t) ensures At(s, t) == Some(s[i].value) {
      AtCovered(s, i, t);
    }
  }

  lemma SameDomain(sd: EngagementTimeline, history: ParentHistory)
    requires CanonicalTimeline(sd) && Chronological(history)
    requires forall i :: 0 <= i < |sd.unit| ==> Usable(history, sd.unit[i])
    ensures forall t :: ParentAt(history, At(sd.unit, t), t).Some? <==> At(sd.unit, t).Some?
  {
    forall t | At(sd.unit, t).Some? ensures ParentAt(history, At(sd.unit, t), t).Some? {
      var j := CoveredBy(sd.unit, t);
      AtCovered(sd.unit, j, t);
      assert Usable(history, sd.unit[j]);
      UsableIsCanonical(history, sd.unit[j].value);
      NoHolesNoGap(CombineIntervals(history(sd.unit[j].value).value), t);
    }
  }
}
