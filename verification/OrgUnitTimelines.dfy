// SD's department timelines and the patches applied before they are written to MO.
module OrgUnitTimelines {
  import opened Common
  import opened Timelines

  datatype UnitTimeline = UnitTimeline(
    active: seq<Interval<bool>>,
    name: seq<Interval<Option<string>>>,
    unitId: seq<Interval<string>>,
    unitLevel: seq<Interval<Option<string>>>,
    parent: seq<Interval<Option<Uuid>>>)

  datatype UnitAt = UnitAt(
    active: Option<bool>, name: Option<Option<string>>, unitId: Option<string>,
    unitLevel: Option<Option<string>>, parent: Option<Option<Uuid>>)

  const NOTHING := UnitAt(None, None, None, None, None)

  function RecordAt(tl: UnitTimeline, t: Time): UnitAt {
    UnitAt(At(tl.active, t), At(tl.name, t), At(tl.unitId, t), At(tl.unitLevel, t), At(tl.parent, t))
  }

  predicate Complete(d: UnitAt) {
    d.active.Some? && d.name.Some? && d.unitId.Some? && d.unitLevel.Some? && d.parent.Some?
  }

  ghost predicate CanonicalTimeline(tl: UnitTimeline) {
    Canonical(tl.active) && Canonical(tl.name) && Canonical(tl.unitId) && Canonical(tl.unitLevel) && Canonical(tl.parent)
  }

  ghost predicate EndsInTime(tl: UnitTimeline) {
    InTime(tl.active) && InTime(tl.name) && InTime(tl.unitId) && InTime(tl.unitLevel) && InTime(tl.parent)
  }

  lemma EndpointsInTime(tl: UnitTimeline)
    requires EndsInTime(tl)
    ensures forall p :: p in TimelineEndpoints(tl) ==> p <= POSITIVE_INFINITY
  {
  }

  function TimelineEndpoints(tl: UnitTimeline): set<Time> {
    Endpoints(tl.active) + Endpoints(tl.name) + Endpoints(tl.unitId) + Endpoints(tl.unitLevel) + Endpoints(tl.parent)
  }

  ghost predicate HasEndpointsOf(e: seq<Time>, tl: UnitTimeline) {
    && (forall p :: p in Endpoints(tl.active) ==> p in e)
    && (forall p :: p in Endpoints(tl.name) ==> p in e)
    && (forall p :: p in Endpoints(tl.unitId) ==> p in e)
    && (forall p :: p in Endpoints(tl.unitLevel) ==> p in e)
    && (forall p :: p in Endpoints(tl.parent) ==> p in e)
  }

  ghost predicate ConstantOn(tl: UnitTimeline, a: Time, b: Time) {
    forall t :: a <= t < b ==> RecordAt(tl, t) == RecordAt(tl, a)
  }

  lemma RecordConstant(tl: UnitTimeline, e: seq<Time>, k: nat)
    requires StrictlyIncreasing(e) && k + 1 < |e| && HasEndpointsOf(e, tl)
    ensures ConstantOn(tl, e[k], e[k + 1])
  {
    ConstantOnChunk(tl.active, e, k);
    ConstantOnChunk(tl.name, e, k);
    ConstantOnChunk(tl.unitId, e, k);
    ConstantOnChunk(tl.unitLevel, e, k);
    ConstantOnChunk(tl.parent, e, k);
  }

  lemma RecordOutsideHull(tl: UnitTimeline, e: seq<Time>, t: Time)
    requires StrictlyIncreasing(e) && HasEndpointsOf(e, tl) && !InHull(e, t)
    ensures RecordAt(tl, t) == NOTHING
  {
    NothingOutsideHull(tl.active, e, t);
    NothingOutsideHull(tl.name, e, t);
    NothingOutsideHull(tl.unitId, e, t);
    NothingOutsideHull(tl.unitLevel, e, t);
    NothingOutsideHull(tl.parent, e, t);
  }

  // ----- several parents at once

  function Covering<V(!new)>(s: seq<Interval<V>>, t: Time): seq<Interval<V>> {
    Filter(s, (i: Interval<V>) => Covers(i, t))
  }

  // No parent, the only parent, or unknown instead of several.
  function CondensedAt(parents: seq<Interval<Uuid>>, unknown: Uuid, t: Time): Option<Uuid> {
    var c := Covering(parents, t);
    if |c| == 0 then None
    else if |c| == 1 then Some(c[0].value)
    else Some(unknown)
  }

  lemma {:induction false} FilterCongruent<T(!new)>(xs: seq<T>, p: T -> bool, q: T -> bool)
    requires forall x :: x in xs ==> p(x) == q(x)
    ensures Filter(xs, p) == Filter(xs, q)
  {
    if xs == [] {
    } else {
      FilterCongruent(xs[1..], p, q);
    }
  }

  // An interval that overlaps an elementary chunk covers all of it.
  lemma OverlapIsCover<V(!new)>(s: seq<Interval<V>>, e: seq<Time>, k: nat, t: Time)
    requires Proper(s) && StrictlyIncreasing(e) && k < |e| - 1 && e[k] <= t < e[k + 1]
    requires forall p :: p in Endpoints(s) ==> p in e
    ensures var start, end := e[k], e[k + 1];
      Filter(s, (i: Interval<V>) => i.start < end && i.end > start) == Covering(s, t)
  {
    ChunkIsElementary(s, e, k);
    var start, end := e[k], e[k + 1];
    var overlap := (i: Interval<V>) => i.start < end && i.end > start;
    var cover := (i: Interval<V>) => Covers(i, t);
    forall i | i in s ensures overlap(i) == cover(i) {
      var j :| 0 <= j < |s| && s[j] == i;
    }
    FilterCongruent(s, overlap, cover);
  }

  lemma {:induction false} FilterNone<T(!new)>(xs: seq<T>, p: T -> bool)
    requires forall x :: x in xs ==> !p(x)
    ensures Filter(xs, p) == []
  {
    if xs == [] {
    } else {
      FilterNone(xs[1..], p);
    }
  }

  lemma NothingCovering<V(!new)>(s: seq<Interval<V>>, e: seq<Time>, t: Time)
    requires StrictlyIncreasing(e) && forall p :: p in Endpoints(s) ==> p in e
    requires !InHull(e, t)
    ensures Covering(s, t) == []
  {
    NothingOutsideHull(s, e, t);
    AtWitness(s, t);
    FilterNone(s, (i: Interval<V>) => Covers(i, t));
  }

  // Spelled out: where nothing covers t there is no parent, ...
  lemma CondensedNone(parents: seq<Interval<Uuid>>, unknown: Uuid, t: Time)
    requires forall j :: 0 <= j < |parents| ==> !Covers(parents[j], t)
    ensures CondensedAt(parents, unknown, t) == None
  {
    FilterNone(parents, (x: Interval<Uuid>) => Covers(x, t));
  }

  // ... a single interval covering t decides, ...
  lemma CondensedSingle(parents: seq<Interval<Uuid>>, unknown: Uuid, t: Time, i: nat)
    requires i < |parents| && Covers(parents[i], t)
    requires forall j :: 0 <= j < |parents| && Covers(parents[j], t) ==> j == i
    ensures CondensedAt(parents, unknown, t) == Some(parents[i].value)
  {
    var cover := (x: Interval<Uuid>) => Covers(x, t);
    FilterAround(parents, i, cover);
    FilterNone(parents[..i], cover);
    FilterNone(parents[i + 1..], cover);
  }

  // ... and two different intervals covering t make the parent unknown.
  lemma CondensedSeveral(parents: seq<Interval<Uuid>>, unknown: Uuid, t: Time, i: nat, j: nat)
    requires i < j < |parents| && Covers(parents[i], t) && Covers(parents[j], t)
    ensures CondensedAt(parents, unknown, t) == Some(unknown)
  {
    var cover := (x: Interval<Uuid>) => Covers(x, t);
    FilterAround(parents, i, cover);
    assert parents[i + 1..][j - i - 1] == parents[j];
    FilterMembers(parents[i + 1..], cover);
    assert parents[j] in Filter(parents[i + 1..], cover);
  }

  lemma {:induction false} FilterAround<T(!new)>(xs: seq<T>, i: nat, p: T -> bool)
    requires i < |xs| && p(xs[i])
    ensures Filter(xs, p) == Filter(xs[..i], p) + [xs[i]] + Filter(xs[i + 1..], p)
  {
    if i == 0 {
    } else {
      FilterAround(xs[1..], i - 1, p);
      assert xs[1..][..i - 1] == xs[..i][1..];
      assert xs[1..][i..] == xs[i + 1..];
    }
  }

  // Works on any finite list of non-empty intervals, sorted or not, overlapping or not.
  method CondenseMultipleParents(parents: seq<Interval<Uuid>>, unknown: Uuid) returns (r: seq<Interval<Uuid>>)
    requires Proper(parents)
    ensures Canonical(r) && PassesValidators(r)
    ensures forall t :: At(r, t) == CondensedAt(parents, unknown, t)
  {
    ghost var f := (t: Time) => CondensedAt(parents, unknown, t);
    var e := ParentCuts(parents);
    var acc: seq<Interval<Uuid>> := [];
    var k := 0;
    while k < |e| - 1
      invariant e == [] ==> acc == []
      invariant e != [] ==> 0 <= k < |e| && RealisedBelow(acc, f, e[k])
    {
      var start, end := e[k], e[k + 1];
      var overlapping := Filter(parents, (i: Interval<Uuid>) => i.start < end && i.end > start);
      assert SameCover(parents, start, end);
      if |overlapping| == 0 {
        ExtendNone(acc, f, start, end);
      } else {
        var value: Uuid := if |overlapping| == 1 then overlapping[0].value else unknown;
        ExtendSome(acc, f, start, end, value);
        acc := acc + [Interval(start, end, value)];
      }
      k := k + 1;
    }
    if e != [] {
      RealisedEverywhere(acc, f, e[k]);
    }
    CombineRealises(acc, f);
    r := CombineIntervals(acc);
    CanonicalIffValid(r);
  }

  // What overlaps [start, end) is what covers each instant of it.
  ghost predicate SameCover(parents: seq<Interval<Uuid>>, start: Time, end: Time) {
    && start < end
    && forall t :: start <= t < end ==>
         Covering(parents, t) == Filter(parents, (i: Interval<Uuid>) => i.start < end && i.end > start)
  }

  // The sorted endpoints of the parent intervals.
  method ParentCuts(parents: seq<Interval<Uuid>>) returns (e: seq<Time>)
    requires Proper(parents)
    ensures StrictlyIncreasing(e)
    ensures forall k :: 1 <= k < |e| ==> SameCover(parents, e[k - 1], e[k])
    ensures forall t :: !InHull(e, t) ==> Covering(parents, t) == []
  {
    e := SortedSeq(Endpoints(parents));
    forall k | 1 <= k < |e| ensures SameCover(parents, e[k - 1], e[k]) {
      forall t | e[k - 1] <= t < e[k]
        ensures Covering(parents, t) == Filter(parents, (i: Interval<Uuid>) => i.start < e[k] && i.end > e[k - 1])
      {
        OverlapIsCover(parents, e, k - 1, t);
      }
    }
    forall t | !InHull(e, t) ensures Covering(parents, t) == [] {
      NothingCovering(parents, e, t);
    }
  }

  // ----- SD's departments

  datatype Department = Department(identifier: string, level: Option<string>, name: Option<string>)

  function IsActive(d: Department): bool { true }
  function IdentifierOf(d: Department): string { d.identifier }
  function LevelOf(d: Department): Option<string> { d.level }
  function NameOf(d: Department): Option<string> { d.name }
  function Known(u: Uuid): Option<Uuid> { Some(u) }

  // What SD answers about a unit: its department data and its parent history, each of which it
  // may not have.
  datatype SdUnit = SdUnit(department: Option<seq<Interval<Department>>>, parents: Option<seq<Interval<Uuid>>>)

  ghost predicate ProperAnswer(sd: SdUnit) {
    (sd.department.Some? ==> Ordered(sd.department.value)) && (sd.parents.Some? ==> Proper(sd.parents.value))
  }

  // The departments that count: none unless SD has both.
  function Departments(sd: SdUnit): seq<Interval<Department>> {
    if sd.department.Some? && sd.parents.Some? then sd.department.value else []
  }

  function ParentHistory(sd: SdUnit): seq<Interval<Uuid>> {
    if sd.department.Some? && sd.parents.Some? then sd.parents.value else []
  }

  // The fields taken from the departments have one common domain; the parents come from
  // elsewhere and may cover less or more. Without a department or without parents the timeline
  // is empty.
  method GetDepartmentTimeline(sd: SdUnit, unknown: Uuid) returns (tl: UnitTimeline)
    requires ProperAnswer(sd)
    ensures CanonicalTimeline(tl)
    ensures sd.department.None? || sd.parents.None? ==> tl == UnitTimeline([], [], [], [], [])
    ensures forall t ::
      RecordAt(tl, t) == DepartmentAt(At(Departments(sd), t), CondensedAt(ParentHistory(sd), unknown, t))
  {
    if sd.department.None? || sd.parents.None? {
      return UnitTimeline([], [], [], [], []);
    }
    var departments, parents := sd.department.value, sd.parents.value;
    var condensed := CondenseMultipleParents(parents, unknown);
    FieldAt(departments, IsActive);
    FieldAt(departments, IdentifierOf);
    FieldAt(departments, LevelOf);
    FieldAt(departments, NameOf);
    FieldAt(condensed, Known);
    tl := UnitTimeline(Field(departments, IsActive), Field(departments, NameOf), Field(departments, IdentifierOf),
                       Field(departments, LevelOf), Field(condensed, Known));
  }

  function DepartmentAt(d: Option<Department>, parent: Option<Uuid>): UnitAt {
    var p := if parent.Some? then Some(parent) else None;
    match d
    case None => UnitAt(None, None, None, None, p)
    case Some(d) => UnitAt(Some(true), Some(d.name), Some(d.identifier), Some(d.level), p)
  }

  // ----- the patches

  const NO_NAME := "(intet navn)"

  // The sorted endpoints of all fields.
  method UnitCuts(tl: UnitTimeline) returns (e: seq<Time>)
    ensures Cuts(e, tl.active) && Cuts(e, tl.parent)
  {
    e := SortedSeq(TimelineEndpoints(tl));
    assert HasEndpointsOf(e, tl);
    HasEndpointsCuts(e, tl.active);
    HasEndpointsCuts(e, tl.parent);
  }

  // A parent exactly where the unit is active: its own if it has one there, else unknown.
  method PatchMissingParents(tl: UnitTimeline, unknown: Option<Uuid>) returns (r: UnitTimeline)
    requires CanonicalTimeline(tl)
    ensures CanonicalTimeline(r) && r == tl.(parent := r.parent)
    ensures forall t :: At(r.parent, t) == PatchedParent(At(tl.active, t), At(tl.parent, t), unknown)
  {
    ghost var f := (t: Time) => PatchedParent(At(tl.active, t), At(tl.parent, t), unknown);
    var e := UnitCuts(tl);
    var acc: seq<Interval<Option<Uuid>>> := [];
    var k := 0;
    while k < |e| - 1
      invariant e == [] ==> acc == []
      invariant e != [] ==> 0 <= k < |e| && RealisedBelow(acc, f, e[k])
    {
      assert SteadyAt(tl.active, e, k) && SteadyAt(tl.parent, e, k);
      if At(tl.active, e[k]).None? {
        ExtendNone(acc, f, e[k], e[k + 1]);
      } else {
        var parent := if At(tl.parent, e[k]).Some? then At(tl.parent, e[k]).value else unknown;
        ExtendSome(acc, f, e[k], e[k + 1], parent);
        acc := acc + [Interval(e[k], e[k + 1], parent)];
      }
      k := k + 1;
    }
    if e != [] {
      RealisedEverywhere(acc, f, e[k]);
    }
    CombineRealises(acc, f);
    r := tl.(parent := CombineIntervals(acc));
  }

  function PatchedParent(active: Option<bool>, parent: Option<Option<Uuid>>, unknown: Option<Uuid>): Option<Option<Uuid>> {
    if active.None? then None
    else if parent.Some? then parent
    else Some(unknown)
  }

  function NamedOrNoName(name: Option<string>): Option<string> {
    if name.Some? then name else Some(NO_NAME)
  }

  function PatchMissingNames(tl: UnitTimeline): UnitTimeline {
    tl.(name := Field(tl.name, NamedOrNoName))
  }

  lemma PatchedNames(tl: UnitTimeline)
    requires CanonicalTimeline(tl)
    ensures CanonicalTimeline(PatchMissingNames(tl))
    ensures forall t :: At(PatchMissingNames(tl).name, t).Some? <==> At(tl.name, t).Some?
    ensures forall t :: At(PatchMissingNames(tl).name, t) != Some(None)
    ensures forall t :: At(tl.name, t).Some? && At(tl.name, t).value.Some? ==>
      At(PatchMissingNames(tl).name, t) == At(tl.name, t)
  {
    FieldAt(tl.name, NamedOrNoName);
  }

  // The pipeline of sync_ou up to the write loop: afterwards the unit has everything MO
  // requires exactly where it is active, and it has nothing at all anywhere else. It is active
  // where SD has a department, nowhere if SD has no parent history for it.
  method DesiredUnitTimeline(sd: SdUnit, unknown: Uuid) returns (tl: UnitTimeline)
    requires ProperAnswer(sd)
    ensures CanonicalTimeline(tl)
    ensures forall t :: At(tl.active, t) == if At(Departments(sd), t).Some? then Some(true) else None
    ensures forall t :: if At(tl.active, t).Some? then Complete(RecordAt(tl, t)) && At(tl.name, t) != Some(None)
                        else RecordAt(tl, t) == NOTHING
    ensures forall t :: At(Departments(sd), t).Some? ==> DepartmentFields(tl, sd, unknown, t)
    ensures forall t, d :: IsDepartment(sd, d, t) ==> HasFields(tl, sd, d, unknown, t)
  {
    var timeline := GetDepartmentTimeline(sd, unknown);
    var patched := PatchMissingParents(timeline, Some(unknown));
    tl := PatchMissingNames(patched);
    PatchedNames(patched);
    FieldAt(patched.name, NamedOrNoName);
    forall t
      ensures RecordAt(timeline, t) == DepartmentAt(At(Departments(sd), t), CondensedAt(ParentHistory(sd), unknown, t))
      ensures At(tl.parent, t) == PatchedParent(At(timeline.active, t), At(timeline.parent, t), Some(unknown))
    {
      assert RecordAt(timeline, t) == DepartmentAt(At(Departments(sd), t), CondensedAt(ParentHistory(sd), unknown, t));
    }
    AllFieldsAreThose(tl, sd, unknown);
  }

  lemma AllFieldsAreThose(tl: UnitTimeline, sd: SdUnit, unknown: Uuid)
    requires ProperAnswer(sd)
    requires forall t :: At(tl.active, t) == if At(Departments(sd), t).Some? then Some(true) else None
    requires forall t :: At(Departments(sd), t).Some? ==> DepartmentFields(tl, sd, unknown, t)
    ensures forall t, d :: IsDepartment(sd, d, t) ==> HasFields(tl, sd, d, unknown, t)
  {
    forall t, d | IsDepartment(sd, d, t) ensures HasFields(tl, sd, d, unknown, t) {
      var rows := sd.department.value;
      var i :| 0 <= i < |rows| && rows[i].start <= t < rows[i].end && rows[i].value == d;
      AtCovered(rows, i, t);
      FieldsAreThose(tl, sd, d, unknown, t);
    }
  }

  // SD has a parent history and, at t, the department d.
  ghost predicate IsDepartment(sd: SdUnit, d: Department, t: Time) {
    && sd.department.Some? && sd.parents.Some?
    && exists i :: 0 <= i < |sd.department.value| && sd.department.value[i].start <= t < sd.department.value[i].end
                   && sd.department.value[i].value == d
  }

  // Exactly the i-th entry of the history covers t.
  ghost predicate OnlyCoveredBy(parents: seq<Interval<Uuid>>, i: nat, t: Time) {
    i < |parents| && Covers(parents[i], t) && forall j :: 0 <= j < |parents| && Covers(parents[j], t) ==> j == i
  }

  // The department's own data at t, a placeholder for a missing name; the parent its history gives
  // if that gives exactly one, else unknown.
  ghost predicate HasFields(tl: UnitTimeline, sd: SdUnit, d: Department, unknown: Uuid, t: Time)
    requires sd.parents.Some?
  {
    && At(tl.active, t) == Some(true) && At(tl.unitId, t) == Some(d.identifier) && At(tl.unitLevel, t) == Some(d.level)
    && At(tl.name, t) == Some(Some(if d.name.Some? then d.name.value else "(intet navn)"))
    && At(tl.parent, t).Some? && At(tl.parent, t).value.Some?
    && (forall i: nat :: OnlyCoveredBy(sd.parents.value, i, t) ==>
          At(tl.parent, t).value.value == sd.parents.value[i].value)
    && ((forall i: nat :: !OnlyCoveredBy(sd.parents.value, i, t)) ==> At(tl.parent, t).value.value == unknown)
  }

  lemma FieldsAreThose(tl: UnitTimeline, sd: SdUnit, d: Department, unknown: Uuid, t: Time)
    requires ProperAnswer(sd) && IsDepartment(sd, d, t)
    requires At(tl.active, t) == Some(true)
    requires At(Departments(sd), t).Some? ==> DepartmentFields(tl, sd, unknown, t)
    ensures HasFields(tl, sd, d, unknown, t)
  {
    var rows, parents := sd.department.value, sd.parents.value;
    var i :| 0 <= i < |rows| && rows[i].start <= t < rows[i].end && rows[i].value == d;
    AtCovered(rows, i, t);
    forall k: nat | OnlyCoveredBy(parents, k, t) ensures CondensedAt(parents, unknown, t) == Some(parents[k].value) {
      CondensedSingle(parents, unknown, t, k);
    }
    if forall k: nat :: !OnlyCoveredBy(parents, k, t) {
      if k: nat :| k < |parents| && Covers(parents[k], t) {
        assert !OnlyCoveredBy(parents, k, t);
        var j :| 0 <= j < |parents| && Covers(parents[j], t) && j != k;
        CondensedSeveral(parents, unknown, t, if j < k then j else k, if j < k then k else j);
      } else {
        CondensedNone(parents, unknown, t);
      }
    }
  }

  // The fields wanted where SD has a department.
  ghost predicate DepartmentFields(tl: UnitTimeline, sd: SdUnit, unknown: Uuid, t: Time)
    requires At(Departments(sd), t).Some?
  {
    var d := At(Departments(sd), t).value;
    var parent := CondensedAt(ParentHistory(sd), unknown, t);
    && At(tl.unitId, t) == Some(d.identifier) && At(tl.unitLevel, t) == Some(d.level)
    && At(tl.name, t) == Some(NamedOrNoName(d.name))
    && At(tl.parent, t) == Some(if parent.Some? then parent else Some(unknown))
  }
}
