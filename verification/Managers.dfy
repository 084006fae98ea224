// Merging manager timelines, and placing a manager's engagement in the unit managed.
module Managers {
  import opened Common
  import opened Timelines
  import opened EngagementModel

  datatype ManagerRow = ManagerRow(unit: Uuid, employee: Option<Uuid>)

  // Manager objects by identifier, each with its dated rows.
  type ManagerObjects = map<Uuid, seq<Interval<ManagerRow>>>

  ghost predicate ValidObjects(objects: ManagerObjects) {
    forall m :: m in objects ==> Ordered(objects[m])
  }

  // The units managed by person; rows of anyone else, or of nobody, are left out.
  function UnitsManaged(rows: seq<Interval<ManagerRow>>, person: Uuid): seq<Interval<Uuid>> {
    if rows == [] then []
    else if rows[0].value.employee == Some(person) then
      [Interval(rows[0].start, rows[0].end, rows[0].value.unit)] + UnitsManaged(rows[1..], person)
    else UnitsManaged(rows[1..], person)
  }

  function UnitIn(row: Option<ManagerRow>, person: Uuid): Option<Uuid> {
    if row.Some? && row.value.employee == Some(person) then Some(row.value.unit) else None
  }

  lemma {:induction false} UnitsManagedOrdered(rows: seq<Interval<ManagerRow>>, person: Uuid)
    requires Ordered(rows)
    ensures Ordered(UnitsManaged(rows, person))
    ensures forall i :: 0 <= i < |UnitsManaged(rows, person)| ==>
      rows != [] && rows[0].start <= UnitsManaged(rows, person)[i].start
  {
    if rows == [] {
    } else {
      UnitsManagedOrdered(rows[1..], person);
      var rest := UnitsManaged(rows[1..], person);
      assert forall i :: 0 <= i < |rest| ==> rows[0].end <= rest[i].start;
    }
  }

  lemma {:induction false} UnitsManagedAt(rows: seq<Interval<ManagerRow>>, person: Uuid, t: Time)
    requires Ordered(rows)
    ensures At(UnitsManaged(rows, person), t) == UnitIn(At(rows, t), person)
  {
    if rows == [] {
    } else {
      var rest := UnitsManaged(rows[1..], person);
      UnitsManagedAt(rows[1..], person, t);
      if rows[0].value.employee == Some(person) {
        assert UnitsManaged(rows, person)[1..] == rest;
      } else {
        assert UnitsManaged(rows, person) == rest;
        if Covers(rows[0], t) {
          UnitsManagedOrdered(rows[1..], person);
          AtWitness(rest, t);
        }
      }
    }
  }

  // The managers that have person in charge of some unit at t.
  function InCharge(objects: ManagerObjects, person: Uuid, t: Time): set<Uuid> {
    set m | m in objects && UnitIn(At(objects[m], t), person).Some?
  }

  // The unit of the manager object with the lowest identifier.
  function ManagedAt(objects: ManagerObjects, person: Uuid, t: Time): Option<Uuid> {
    var c := InCharge(objects, person, t);
    if c == {} then None
    else
      var m: Uuid := Least(c);
      UnitIn(At(objects[m], t), person)
  }

  ghost predicate AreTimelines(timelines: map<Uuid, seq<Interval<Uuid>>>, objects: ManagerObjects, person: Uuid) {
    && timelines.Keys == objects.Keys
    && forall m, t :: m in objects ==> At(timelines[m], t) == UnitIn(At(objects[m], t), person)
  }

  // One canonical timeline per manager object.
  method UnitTimelines(objects: ManagerObjects, person: Uuid) returns (timelines: map<Uuid, seq<Interval<Uuid>>>)
    requires ValidObjects(objects)
    ensures AreTimelines(timelines, objects, person)
  {
    timelines := map[];
    var todo := objects.Keys;
    while todo != {}
      invariant todo <= objects.Keys && timelines.Keys == objects.Keys - todo
      invariant forall m, t :: m in timelines ==> At(timelines[m], t) == UnitIn(At(objects[m], t), person)
      decreases |todo|
    {
      var m :| m in todo;
      var units := UnitsManaged(objects[m], person);
      UnitsManagedOrdered(objects[m], person);
      CombineCanonical(units);
      forall t ensures At(CombineIntervals(units), t) == UnitIn(At(objects[m], t), person) {
        UnitsManagedAt(objects[m], person, t);
        assert At(CombineIntervals(units), t) == At(units, t);
      }
      timelines := timelines[m := CombineIntervals(units)];
      todo := todo - {m};
    }
  }

  function AllEndpoints(timelines: map<Uuid, seq<Interval<Uuid>>>): set<Time> {
    set m, p | m in timelines && p in Endpoints(timelines[m]) :: p
  }

  // Going through the managers by identifier, the first one with a unit at t decides.
  method FirstInCharge(timelines: map<Uuid, seq<Interval<Uuid>>>, managers: seq<Uuid>, t: Time,
                       ghost objects: ManagerObjects, ghost person: Uuid)
    returns (unit: Option<Uuid>)
    requires AreTimelines(timelines, objects, person)
    requires StrictlyIncreasing(managers) && forall m: Uuid :: m in managers <==> m in objects
    ensures unit == ManagedAt(objects, person, t)
  {
    var i := 0;
    while i < |managers|
      invariant 0 <= i <= |managers|
      invariant forall j :: 0 <= j < i ==> managers[j] !in InCharge(objects, person, t)
    {
      assert managers[i] in managers;
      unit := At(timelines[managers[i]], t);
      if unit.Some? {
        assert managers[i] in InCharge(objects, person, t);
        assert forall m :: m in InCharge(objects, person, t) ==> m in managers;
        assert Least(InCharge(objects, person, t)) == managers[i];
        return;
      }
      i := i + 1;
    }
    assert InCharge(objects, person, t) == {} by {
      forall m: Uuid ensures m !in InCharge(objects, person, t) {
        if m in objects {
          assert m in managers;
        }
      }
    }
    return None;
  }

  // Who is in charge does not change in [a, b).
  ghost predicate ManagedSteady(objects: ManagerObjects, person: Uuid, a: Time, b: Time) {
    a < b && forall t :: a <= t < b ==> ManagedAt(objects, person, t) == ManagedAt(objects, person, a)
  }

  lemma ManagedConstant(timelines: map<Uuid, seq<Interval<Uuid>>>, objects: ManagerObjects, person: Uuid,
                        e: seq<Time>, k: nat)
    requires AreTimelines(timelines, objects, person)
    requires StrictlyIncreasing(e) && k < |e| - 1 && forall m :: m in timelines ==> Cuts(e, timelines[m])
    ensures ManagedSteady(objects, person, e[k], e[k + 1])
  {
    forall t | e[k] <= t < e[k + 1] ensures ManagedAt(objects, person, t) == ManagedAt(objects, person, e[k]) {
      forall m | m in objects
        ensures UnitIn(At(objects[m], t), person) == UnitIn(At(objects[m], e[k]), person)
      {
        assert SteadyAt(timelines[m], e, k);
        assert At(timelines[m], t) == At(timelines[m], e[k]);
      }
      assert InCharge(objects, person, t) == InCharge(objects, person, e[k]);
    }
    assert e[k] < e[k + 1];
  }

  lemma NobodyOutside(timelines: map<Uuid, seq<Interval<Uuid>>>, objects: ManagerObjects, person: Uuid,
                      e: seq<Time>, t: Time)
    requires AreTimelines(timelines, objects, person) && !InHull(e, t)
    requires forall m :: m in timelines ==> Cuts(e, timelines[m])
    ensures ManagedAt(objects, person, t) == None
  {
    forall m | m in objects ensures UnitIn(At(objects[m], t), person) == None {
      assert At(timelines[m], t) == None;
    }
    assert InCharge(objects, person, t) == {};
  }

  // The sorted endpoints of all manager timelines.
  method ManagerCuts(timelines: map<Uuid, seq<Interval<Uuid>>>, ghost objects: ManagerObjects, ghost person: Uuid)
    returns (e: seq<Time>)
    requires AreTimelines(timelines, objects, person)
    ensures StrictlyIncreasing(e)
    ensures forall k :: 1 <= k < |e| ==> ManagedSteady(objects, person, e[k - 1], e[k])
    ensures forall t :: !InHull(e, t) ==> ManagedAt(objects, person, t) == None
  {
    e := SortedSeq(AllEndpoints(timelines));
    forall m | m in timelines ensures Cuts(e, timelines[m]) {
      assert forall p :: p in Endpoints(timelines[m]) ==> p in AllEndpoints(timelines);
      HasEndpointsCuts(e, timelines[m]);
    }
    CutsAreSteady(timelines, objects, person, e);
  }

  lemma CutsAreSteady(timelines: map<Uuid, seq<Interval<Uuid>>>, objects: ManagerObjects, person: Uuid, e: seq<Time>)
    requires AreTimelines(timelines, objects, person)
    requires StrictlyIncreasing(e) && forall m :: m in timelines ==> Cuts(e, timelines[m])
    ensures forall k :: 1 <= k < |e| ==> ManagedSteady(objects, person, e[k - 1], e[k])
    ensures forall t :: !InHull(e, t) ==> ManagedAt(objects, person, t) == None
  {
    forall k | 1 <= k < |e| ensures ManagedSteady(objects, person, e[k - 1], e[k]) {
      ManagedConstant(timelines, objects, person, e, k - 1);
    }
    forall t | !InHull(e, t) ensures ManagedAt(objects, person, t) == None {
      NobodyOutside(timelines, objects, person, e, t);
    }
  }

  // At t a row of the manager object m has person in charge of u.
  ghost predicate Manages(objects: ManagerObjects, person: Uuid, m: Uuid, u: Uuid, t: Time) {
    && m in objects
    && exists i :: 0 <= i < |objects[m]| && objects[m][i].start <= t < objects[m][i].end
                   && objects[m][i].value == ManagerRow(u, Some(person))
  }

  // u is the unit of the lowest manager object with person in charge; none if no object has.
  ghost predicate IsManaged(objects: ManagerObjects, person: Uuid, t: Time, u: Option<Uuid>) {
    if u.Some? then
      exists m :: Manages(objects, person, m, u.value, t)
                  && forall other, v :: Manages(objects, person, other, v, t) ==> m <= other
    else forall m, v :: !Manages(objects, person, m, v, t)
  }

  lemma ManagesIffUnitIn(objects: ManagerObjects, person: Uuid, m: Uuid, u: Uuid, t: Time)
    requires ValidObjects(objects)
    ensures Manages(objects, person, m, u, t) <==> m in objects && UnitIn(At(objects[m], t), person) == Some(u)
  {
    if m in objects {
      AtWitness(objects[m], t);
      forall i | 0 <= i < |objects[m]| && Covers(objects[m][i], t) ensures At(objects[m], t) == Some(objects[m][i].value) {
        AtCovered(objects[m], i, t);
      }
    }
  }

  lemma ManagedAtIsManaged(objects: ManagerObjects, person: Uuid, t: Time)
    requires ValidObjects(objects)
    ensures IsManaged(objects, person, t, ManagedAt(objects, person, t))
  {
    var c := InCharge(objects, person, t);
    forall m: Uuid, u: Uuid | Manages(objects, person, m, u, t) ensures m in c {
      ManagesIffUnitIn(objects, person, m, u, t);
    }
    if c != {} {
      var m: Uuid := Least(c);
      ManagesIffUnitIn(objects, person, m, ManagedAt(objects, person, t).value, t);
      assert Manages(objects, person, m, ManagedAt(objects, person, t).value, t);
    }
  }

  // The manager timeline of a person: at every instant the unit of the manager object with
  // the lowest identifier that has that person in charge, nothing where none does.
  method GetManagerTimeline(objects: ManagerObjects, person: Uuid) returns (units: seq<Interval<Uuid>>)
    requires ValidObjects(objects)
    ensures Canonical(units)
    ensures forall t :: At(units, t) == ManagedAt(objects, person, t)
    ensures forall t :: IsManaged(objects, person, t, At(units, t))
  {
    var timelines := UnitTimelines(objects, person);
    var e := ManagerCuts(timelines, objects, person);
    var managers: seq<Uuid> := SortedUuids(objects.Keys);
    ghost var f := (t: Time) => ManagedAt(objects, person, t);
    var acc: seq<Interval<Uuid>> := [];
    var k := 0;
    while k < |e| - 1
      invariant e == [] ==> acc == []
      invariant e != [] ==> 0 <= k < |e| && RealisedBelow(acc, f, e[k])
    {
      var start, end := e[k], e[k + 1];
      assert ManagedSteady(objects, person, start, end);
      var unit := FirstInCharge(timelines, managers, start, objects, person);
      ExtendSteady(acc, objects, person, start, end);
      if unit.Some? {
        acc := acc + [Interval(start, end, unit.value)];
      }
      k := k + 1;
    }
    if e != [] {
      RealisedEverywhere(acc, f, e[k]);
    }
    CombineRealises(acc, f);
    units := CombineIntervals(acc);
    forall t ensures IsManaged(objects, person, t, At(units, t)) {
      ManagedAtIsManaged(objects, person, t);
    }
  }

  // One chunk in which nobody else gets in charge.
  lemma ExtendSteady(acc: seq<Interval<Uuid>>, objects: ManagerObjects, person: Uuid, start: Time, end: Time)
    requires RealisedBelow(acc, (t: Time) => ManagedAt(objects, person, t), start)
    requires ManagedSteady(objects, person, start, end)
    ensures var unit := ManagedAt(objects, person, start);
      RealisedBelow(if unit.Some? then acc + [Interval(start, end, unit.value)] else acc,
                    (t: Time) => ManagedAt(objects, person, t), end)
  {
    var f := (t: Time) => ManagedAt(objects, person, t);
    var unit := ManagedAt(objects, person, start);
    if unit.Some? {
      ExtendSome(acc, f, start, end, unit.value);
    } else {
      ExtendNone(acc, f, start, end);
    }
  }

  // sorted(...) of identifiers.
  function SortedUuids(s: set<Uuid>): (r: seq<Uuid>)
    ensures StrictlyIncreasing(r) && forall x: Uuid :: x in r <==> x in s
  {
    var r := SortedSeq(s);
    assert forall i :: 0 <= i < |r| ==> r[i] in r;
    r
  }
}
