// Finding a related unit for every instant of an interval, walking up a parent relation
// that changes over time.
module RelatedUnits {
  import opened Common
  import opened Timelines
  import opened MoRows
  import opened Forest

  // What MO knows: for each unit the validities of its relations, each with the units that
  // take part, in no particular order and possibly overlapping; and its dated parents.
  datatype World = World(
    relations: map<Uuid, seq<Interval<seq<Uuid>>>>,
    parents: map<Uuid, seq<Interval<Option<Uuid>>>>)

  ghost predicate ValidWorld(w: World) {
    forall u :: u in w.parents ==> WellFormed(w.parents[u])
  }

  function Relations(w: World, u: Uuid): seq<Interval<seq<Uuid>>> {
    if u in w.relations then w.relations[u] else []
  }

  function ParentRows(w: World, u: Uuid): seq<Interval<Option<Uuid>>> {
    if u in w.parents then w.parents[u] else []
  }

  // ----- direct relations

  function Candidates(vs: seq<Interval<seq<Uuid>>>, u: Uuid, t: Time): set<Uuid> {
    set i, x | 0 <= i < |vs| && x in vs[i].value && x != u && Covers(vs[i], t) :: x
  }

  // The first of the sorted related units.
  function RelatedUnitAt(vs: seq<Interval<seq<Uuid>>>, u: Uuid, t: Time): (r: Option<Uuid>)
    ensures r.None? <==> Candidates(vs, u, t) == {}
    ensures r.Some? ==> r.value in Candidates(vs, u, t)
                        && forall x :: x in Candidates(vs, u, t) ==> r.value <= x
  {
    var c := Candidates(vs, u, t);
    if c == {} then None else Some(Least(c))
  }

  // ----- parents at one instant

  function ParentAt(w: World, u: Uuid, t: Time): Option<Uuid> {
    match At(ParentRows(w, u), t)
    case None => None
    case Some(p) => p
  }

  function ParentsAt(w: World, t: Time): Parents {
    map u | u in w.parents && ParentAt(w, u, t).Some? :: ParentAt(w, u, t).value
  }

  ghost predicate AcyclicDuring(w: World, start: Time, end: Time) {
    forall t :: start <= t < end ==> Acyclic(ParentsAt(w, t))
  }

  // The largest number of parents u has above it at any instant of [start, end).
  ghost function MaxDepth(w: World, u: Uuid, start: Time, end: Time): nat
    decreases end - start
  {
    if end <= start then 0
    else Max(Depth(ParentsAt(w, start), u), MaxDepth(w, u, start + 1, end))
  }

  lemma {:induction false} MaxDepthIsUpper(w: World, u: Uuid, start: Time, end: Time, t: Time)
    requires start <= t < end
    ensures Depth(ParentsAt(w, t), u) <= MaxDepth(w, u, start, end)
    decreases end - start
  {
    if t <= start {
    } else {
      MaxDepthIsUpper(w, u, start + 1, end, t);
    }
  }

  lemma {:induction false} MaxDepthIsLeast(w: World, u: Uuid, start: Time, end: Time, n: nat)
    requires forall t :: start <= t < end ==> Depth(ParentsAt(w, t), u) <= n
    ensures MaxDepth(w, u, start, end) <= n
    decreases end - start
  {
    if end <= start {
    } else {
      MaxDepthIsLeast(w, u, start + 1, end, n);
    }
  }

  lemma MaxDepthOfPart(w: World, u: Uuid, a: Time, b: Time, start: Time, end: Time)
    requires start <= a && b <= end
    ensures MaxDepth(w, u, a, b) <= MaxDepth(w, u, start, end)
  {
    forall t | a <= t < b ensures Depth(ParentsAt(w, t), u) <= MaxDepth(w, u, start, end) {
      MaxDepthIsUpper(w, u, start, end, t);
    }
    MaxDepthIsLeast(w, u, a, b, MaxDepth(w, u, start, end));
  }

  // Going to a parent that u has throughout a part of the interval decreases the measure.
  lemma MaxDepthOfParent(w: World, u: Uuid, p: Uuid, a: Time, b: Time, start: Time, end: Time)
    requires start <= a < b <= end && AcyclicDuring(w, start, end)
    requires forall t :: a <= t < b ==> ParentAt(w, u, t) == Some(p)
    ensures MaxDepth(w, p, a, b) < MaxDepth(w, u, start, end)
  {
    var n := MaxDepth(w, u, start, end);
    forall t | a <= t < b ensures Depth(ParentsAt(w, t), p) < n {
      DepthOfParent(ParentsAt(w, t), u);
      MaxDepthIsUpper(w, u, start, end, t);
    }
    assert Depth(ParentsAt(w, a), p) < n;
    MaxDepthIsLeast(w, p, a, b, n - 1);
  }

  // ----- the pointwise rule

  // The least related unit of u at t, else of u's parent then, and so on; unknown when the
  // chain ends.
  ghost function Nearest(w: World, u: Uuid, unknown: Uuid, t: Time): Uuid
    requires Acyclic(ParentsAt(w, t))
    decreases Depth(ParentsAt(w, t), u)
  {
    var direct := RelatedUnitAt(Relations(w, u), u, t);
    if direct.Some? then direct.value
    else if ParentAt(w, u, t).None? then unknown
    else
      DepthOfParent(ParentsAt(w, t), u);
      Nearest(w, ParentAt(w, u, t).value, unknown, t)
  }

  // What the lookup should answer at t.
  ghost function Wanted(w: World, u: Uuid, unknown: Uuid, recursive: bool, t: Time): Option<Uuid> {
    if !recursive then
      var direct := RelatedUnitAt(Relations(w, u), u, t);
      Some(if direct.Some? then direct.value else unknown)
    else if Acyclic(ParentsAt(w, t)) then Some(Nearest(w, u, unknown, t))
    else None
  }

  // Nearest is what its name says: the ancestor-or-self with the fewest steps that has a
  // related unit decides; if none has one the answer is unknown.
  lemma {:induction false} NearestIsNearest(w: World, u: Uuid, unknown: Uuid, t: Time, k: nat, v: Uuid)
    requires Acyclic(ParentsAt(w, t))
    requires Up(ParentsAt(w, t), u, k) == Some(v)
    requires RelatedUnitAt(Relations(w, v), v, t).Some? || v !in ParentsAt(w, t)
    requires forall j: nat :: j < k ==>
      Up(ParentsAt(w, t), u, j).Some?
      && RelatedUnitAt(Relations(w, Up(ParentsAt(w, t), u, j).value), Up(ParentsAt(w, t), u, j).value, t).None?
    ensures Nearest(w, u, unknown, t)
         == match RelatedUnitAt(Relations(w, v), v, t)
            case Some(r) => r
            case None => unknown
    decreases k
  {
    var m := ParentsAt(w, t);
    if k == 0 {
    } else {
      assert Up(m, u, 0) == Some(u);
      forall j: nat | j < k - 1 ensures Up(m, m[u], j) == Up(m, u, j + 1) {
      }
      NearestIsNearest(w, m[u], unknown, t, k - 1, v);
    }
  }

  // ----- the rule in terms of MO's rows

  // A relation of u in force at t names x.
  ghost predicate IsRelated(w: World, u: Uuid, x: Uuid, t: Time) {
    && u in w.relations && x != u
    && exists i :: 0 <= i < |w.relations[u]| && w.relations[u][i].start <= t < w.relations[u][i].end
                   && x in w.relations[u][i].value
  }

  ghost predicate IsLeastRelated(w: World, u: Uuid, x: Uuid, t: Time) {
    IsRelated(w, u, x, t) && forall y :: IsRelated(w, u, y, t) ==> x <= y
  }

  ghost predicate HasNoneRelated(w: World, u: Uuid, t: Time) {
    forall x :: !IsRelated(w, u, x, t)
  }

  // MO's row about u at t has the parent p.
  ghost predicate IsParent(w: World, u: Uuid, p: Uuid, t: Time) {
    && u in w.parents
    && exists i :: 0 <= i < |w.parents[u]| && w.parents[u][i].start <= t < w.parents[u][i].end
                   && w.parents[u][i].value == Some(p)
  }

  // v is found k steps up from u, past units without a related unit.
  ghost predicate IsPassedTo(w: World, u: Uuid, v: Uuid, k: nat, t: Time)
    decreases k
  {
    if k == 0 then v == u
    else HasNoneRelated(w, u, t) && exists p :: IsParent(w, u, p, t) && IsPassedTo(w, p, v, k - 1, t)
  }

  // The search ends at v with the answer r: v's least related unit, or unknown where v, too, has
  // none and nothing is left to search.
  ghost predicate EndsAt(w: World, v: Uuid, unknown: Uuid, recursive: bool, t: Time, r: Uuid) {
    || IsLeastRelated(w, v, r, t)
    || (HasNoneRelated(w, v, t) && r == unknown && (recursive ==> forall p :: !IsParent(w, v, p, t)))
  }

  ghost predicate IsAnswer(w: World, u: Uuid, unknown: Uuid, recursive: bool, t: Time, r: Uuid) {
    if recursive then exists v, k: nat :: IsPassedTo(w, u, v, k, t) && EndsAt(w, v, unknown, true, t, r)
    else EndsAt(w, u, unknown, false, t, r)
  }

  lemma RelatedIsCandidate(w: World, u: Uuid, x: Uuid, t: Time)
    ensures x in Candidates(Relations(w, u), u, t) <==> IsRelated(w, u, x, t)
  {
  }

  lemma RelatedUnitAtIsLeast(w: World, u: Uuid, t: Time)
    ensures var r := RelatedUnitAt(Relations(w, u), u, t);
      if r.Some? then IsLeastRelated(w, u, r.value, t) else HasNoneRelated(w, u, t)
  {
    forall x ensures x in Candidates(Relations(w, u), u, t) <==> IsRelated(w, u, x, t) {
      RelatedIsCandidate(w, u, x, t);
    }
  }

  // What a row that covers t says is the parent then; where none does there is none.
  lemma ParentAtIsParent(w: World, u: Uuid, t: Time)
    requires ValidWorld(w)
    ensures var p := ParentAt(w, u, t);
      if p.Some? then IsParent(w, u, p.value, t) else forall q :: !IsParent(w, u, q, t)
  {
    var rows := ParentRows(w, u);
    AtWitness(rows, t);
    forall i | 0 <= i < |rows| && rows[i].start <= t < rows[i].end ensures At(rows, t) == Some(rows[i].value) {
      AtCovered(rows, i, t);
    }
  }

  lemma {:induction false} NearestIsAnswer(w: World, u: Uuid, unknown: Uuid, t: Time)
    requires ValidWorld(w) && Acyclic(ParentsAt(w, t))
    ensures IsAnswer(w, u, unknown, true, t, Nearest(w, u, unknown, t))
    decreases Depth(ParentsAt(w, t), u)
  {
    var r := Nearest(w, u, unknown, t);
    RelatedUnitAtIsLeast(w, u, t);
    ParentAtIsParent(w, u, t);
    if RelatedUnitAt(Relations(w, u), u, t).Some? || ParentAt(w, u, t).None? {
      assert IsPassedTo(w, u, u, 0, t) && EndsAt(w, u, unknown, true, t, r);
    } else {
      var p := ParentAt(w, u, t).value;
      DepthOfParent(ParentsAt(w, t), u);
      NearestIsAnswer(w, p, unknown, t);
      var v, k: nat :| IsPassedTo(w, p, v, k, t) && EndsAt(w, v, unknown, true, t, r);
      assert IsPassedTo(w, u, v, k + 1, t);
    }
  }

  lemma WantedIsAnswer(w: World, u: Uuid, unknown: Uuid, recursive: bool, t: Time)
    requires ValidWorld(w) && (recursive ==> Acyclic(ParentsAt(w, t)))
    ensures var r := Wanted(w, u, unknown, recursive, t);
      r.Some? && IsAnswer(w, u, unknown, recursive, t, r.value)
  {
    if recursive {
      NearestIsAnswer(w, u, unknown, t);
    } else {
      RelatedUnitAtIsLeast(w, u, t);
    }
  }

  // ----- the lookup

  // result has the wanted value at every instant of [start, end) and nothing outside.
  ghost predicate Resolves(result: seq<Interval<Uuid>>, w: World, u: Uuid, unknown: Uuid, recursive: bool,
                           start: Time, end: Time)
  {
    RealisedOn(result, (t: Time) => Wanted(w, u, unknown, recursive, t), start, end)
  }

  // Resolved at every instant of [start, end), in terms of MO's rows.
  ghost predicate Answers(result: seq<Interval<Uuid>>, w: World, u: Uuid, unknown: Uuid, recursive: bool,
                          start: Time, end: Time)
  {
    forall t :: start <= t < end ==>
      At(result, t).Some? && IsAnswer(w, u, unknown, recursive, t, At(result, t).value)
  }

  lemma ResolvedAnswers(result: seq<Interval<Uuid>>, w: World, u: Uuid, unknown: Uuid, recursive: bool,
                        start: Time, end: Time)
    requires ValidWorld(w) && (recursive ==> AcyclicDuring(w, start, end))
    requires Resolves(result, w, u, unknown, recursive, start, end)
    ensures Answers(result, w, u, unknown, recursive, start, end)
  {
    forall t | start <= t < end
      ensures At(result, t).Some? && IsAnswer(w, u, unknown, recursive, t, At(result, t).value)
    {
      WantedIsAnswer(w, u, unknown, recursive, t);
    }
  }

  // The answer covers the interval without gap or overlap, from its start to its end.
  lemma ResolvedIsPartition(result: seq<Interval<Uuid>>, w: World, u: Uuid, unknown: Uuid, recursive: bool,
                            start: Time, end: Time)
    requires start < end && (recursive ==> AcyclicDuring(w, start, end))
    requires Resolves(result, w, u, unknown, recursive, start, end)
    ensures result != [] && result[0].start == start && result[|result| - 1].end == end
    ensures !HasHoles(result)
  {
    forall t | start <= t < end ensures At(result, t).Some? {
      assert At(result, t) == Wanted(w, u, unknown, recursive, t);
    }
    GapFree(result, start, end);
  }

  function Identity(p: Option<Uuid>): Option<Uuid> { p }

  // Within a chunk that is elementary for the relations found, the direct answer is constant.
  lemma CandidatesConstant(vs: seq<Interval<seq<Uuid>>>, found: seq<Interval<seq<Uuid>>>, u: Uuid,
                           start: Time, end: Time, a: Time, b: Time, t: Time)
    requires start <= a <= t < b <= end
    requires found == Overlapping(vs, start, end) && Elementary(found, a, b)
    ensures RelatedUnitAt(found, u, a) == RelatedUnitAt(vs, u, t)
  {
    CandidatesFound(vs, u, start, end, t);
    assert Candidates(found, u, a) == Candidates(found, u, t) by {
      assert forall i :: 0 <= i < |found| ==> (Covers(found[i], a) <==> Covers(found[i], t));
    }
  }

  lemma StartDecides(vs: seq<Interval<seq<Uuid>>>, u: Uuid, start: Time, end: Time, a: Time, b: Time)
    requires start <= a && b <= end && Elementary(Overlapping(vs, start, end), a, b)
    ensures forall t :: a <= t < b ==>
      RelatedUnitAt(Overlapping(vs, start, end), u, a) == RelatedUnitAt(vs, u, t)
  {
    forall t | a <= t < b
      ensures RelatedUnitAt(Overlapping(vs, start, end), u, a) == RelatedUnitAt(vs, u, t)
    {
      CandidatesConstant(vs, Overlapping(vs, start, end), u, start, end, a, b, t);
    }
  }

  // What a chunk between endpoints of the relations found is like.
  lemma ChunkOfRelations(w: World, u: Uuid, start: Time, end: Time, e: seq<Time>, k: nat)
    requires start < end && k + 1 < |e|
    requires e == EndpointsWithin(Endpoints(Overlapping(Relations(w, u), start, end)), start, end)
    ensures start <= e[k] < e[k + 1] <= end && MaxDepth(w, u, e[k], e[k + 1]) <= MaxDepth(w, u, start, end)
    ensures forall t :: e[k] <= t < e[k + 1] ==>
      RelatedUnitAt(Overlapping(Relations(w, u), start, end), u, e[k]) == RelatedUnitAt(Relations(w, u), u, t)
  {
    assert e[k] in e && e[k + 1] in e;
    ChunkIsElementary(Overlapping(Relations(w, u), start, end), e, k);
    StartDecides(Relations(w, u), u, start, end, e[k], e[k + 1]);
    MaxDepthOfPart(w, u, e[k], e[k + 1], start, end);
  }

  // A query for [start, end) misses no relation in force at an instant of it.
  lemma {:induction false} CandidatesFound(vs: seq<Interval<seq<Uuid>>>, u: Uuid, start: Time, end: Time, t: Time)
    requires start <= t < end
    ensures Candidates(Overlapping(vs, start, end), u, t) == Candidates(vs, u, t)
  {
    if vs == [] {
    } else {
      CandidatesFound(vs[1..], u, start, end, t);
      CandidatesCons(vs, u, t);
      var found := Overlapping(vs, start, end);
      if vs[0].start < end && start < vs[0].end {
        CandidatesCons(found, u, t);
        assert found[1..] == Overlapping(vs[1..], start, end);
      }
    }
  }

  lemma CandidatesCons(vs: seq<Interval<seq<Uuid>>>, u: Uuid, t: Time)
    requires vs != []
    ensures Candidates(vs, u, t)
         == Candidates(vs[1..], u, t) + if Covers(vs[0], t) then set x | x in vs[0].value && x != u else {}
  {
    var rest := Candidates(vs[1..], u, t) + if Covers(vs[0], t) then set x | x in vs[0].value && x != u else {};
    forall x | x in Candidates(vs, u, t) ensures x in rest {
      var i :| 0 <= i < |vs| && x in vs[i].value && x != u && Covers(vs[i], t);
      if i > 0 { assert vs[1..][i - 1] == vs[i]; }
    }
    forall x | x in rest ensures x in Candidates(vs, u, t) {
      if x in Candidates(vs[1..], u, t) {
        var i :| 0 <= i < |vs[1..]| && x in vs[1..][i].value && x != u && Covers(vs[1..][i], t);
        assert vs[i + 1] == vs[1..][i];
      }
    }
  }

  // One chunk in which the direct relations do not change: the direct answer, or unknown, or
  // whatever the parents have.
  method ResolveInterval(w: World, u: Uuid, start: Time, end: Time, objects: seq<Interval<seq<Uuid>>>,
                         unknown: Uuid, recursive: bool) returns (result: seq<Interval<Uuid>>)
    requires ValidWorld(w) && start < end && (recursive ==> AcyclicDuring(w, start, end))
    requires forall t :: start <= t < end ==> RelatedUnitAt(objects, u, start) == RelatedUnitAt(Relations(w, u), u, t)
    ensures Resolves(result, w, u, unknown, recursive, start, end)
    decreases MaxDepth(w, u, start, end), 2
  {
    var direct := RelatedUnitAt(objects, u, start);
    if direct.Some? {
      OnePiece((t: Time) => Wanted(w, u, unknown, recursive, t), start, end, direct.value);
      return [Interval(start, end, direct.value)];
    }
    if !recursive {
      OnePiece((t: Time) => Wanted(w, u, unknown, recursive, t), start, end, unknown);
      return [Interval(start, end, unknown)];
    }
    result := ResolveViaParents(w, u, start, end, unknown);
  }

  // One chunk in which u itself has no related unit.
  method ResolveViaParents(w: World, u: Uuid, start: Time, end: Time, unknown: Uuid)
    returns (result: seq<Interval<Uuid>>)
    requires ValidWorld(w) && start < end && AcyclicDuring(w, start, end)
    requires forall t :: start <= t < end ==> RelatedUnitAt(Relations(w, u), u, t).None?
    ensures Resolves(result, w, u, unknown, true, start, end)
    ensures Answers(result, w, u, unknown, true, start, end)
    decreases MaxDepth(w, u, start, end), 1
  {
    var rows := Overlapping(ParentRows(w, u), start, end);
    var parent := FieldTimeline(rows, Identity);
    ParentTimeline(w, u, start, end);
    if parent == [] {
      OnePiece((t: Time) => Wanted(w, u, unknown, true, t), start, end, unknown);
      result := [Interval(start, end, unknown)];
      ResolvedAnswers(result, w, u, unknown, true, start, end);
      return;
    }
    var e := ChunksWithin(parent, start, end);
    result := [];
    var k := 0;
    while k < |e| - 1
      invariant 0 <= k < |e|
      invariant Resolves(result, w, u, unknown, true, start, e[k])
    {
      assert SteadyChunk(parent, e, k, start, end);
      MaxDepthOfPart(w, u, e[k], e[k + 1], start, end);
      var p := At(parent, e[k]);
      var piece := ResolveViaParent(w, u, if p.None? then None else p.value, e[k], e[k + 1], unknown);
      ExtendPieces(result, piece, (t: Time) => Wanted(w, u, unknown, true, t), start, e[k], e[k + 1]);
      result := result + piece;
      k := k + 1;
    }
    ResolvedAnswers(result, w, u, unknown, true, start, end);
  }

  // One chunk in which u's parent is the same throughout.
  method ResolveViaParent(w: World, u: Uuid, parent: Option<Uuid>, start: Time, end: Time, unknown: Uuid)
    returns (result: seq<Interval<Uuid>>)
    requires ValidWorld(w) && start < end && AcyclicDuring(w, start, end)
    requires forall t :: start <= t < end ==>
      RelatedUnitAt(Relations(w, u), u, t).None? && ParentAt(w, u, t) == parent
    ensures Resolves(result, w, u, unknown, true, start, end)
    decreases MaxDepth(w, u, start, end), 0
  {
    if parent.None? {
      OnePiece((t: Time) => Wanted(w, u, unknown, true, t), start, end, unknown);
      return [Interval(start, end, unknown)];
    }
    MaxDepthOfParent(w, u, parent.value, start, end, start, end);
    result := RelatedUnits(w, parent.value, start, end, unknown, true);
    ParentAnswers(w, u, parent.value, unknown, start, end);
  }

  // The parent timeline read for [start, end) agrees there with MO.
  lemma ParentTimeline(w: World, u: Uuid, start: Time, end: Time)
    requires ValidWorld(w) && start < end
    ensures var parent := FieldTimeline(Overlapping(ParentRows(w, u), start, end), Identity);
      forall t :: start <= t < end ==> At(parent, t) == At(ParentRows(w, u), t)
  {
    OverlappingProperties(ParentRows(w, u), start, end);
    FieldTimelineAt(Overlapping(ParentRows(w, u), start, end), Identity);
  }

  // Where u has no related unit of its own, its parent's answer is its answer.
  lemma ParentAnswers(w: World, u: Uuid, p: Uuid, unknown: Uuid, a: Time, b: Time)
    requires AcyclicDuring(w, a, b)
    requires forall t :: a <= t < b ==>
      ParentAt(w, u, t) == Some(p) && RelatedUnitAt(Relations(w, u), u, t).None?
    ensures forall t :: a <= t < b ==> Wanted(w, u, unknown, true, t) == Wanted(w, p, unknown, true, t)
  {
  }

  method RelatedUnits(w: World, u: Uuid, start: Time, end: Time, unknown: Uuid, recursive: bool)
    returns (result: seq<Interval<Uuid>>)
    requires ValidWorld(w) && start < end && (recursive ==> AcyclicDuring(w, start, end))
    ensures Resolves(result, w, u, unknown, recursive, start, end)
    ensures Answers(result, w, u, unknown, recursive, start, end)
    decreases MaxDepth(w, u, start, end), 3
  {
    var objects := Overlapping(Relations(w, u), start, end);
    var e := EndpointsWithin(Endpoints(objects), start, end);
    result := [];
    var k := 0;
    while k < |e| - 1
      invariant 0 <= k < |e|
      invariant Resolves(result, w, u, unknown, recursive, start, e[k])
    {
      ChunkOfRelations(w, u, start, end, e, k);
      var piece := ResolveInterval(w, u, e[k], e[k + 1], objects, unknown, recursive);
      ExtendPieces(result, piece, (t: Time) => Wanted(w, u, unknown, recursive, t), start, e[k], e[k + 1]);
      result := result + piece;
      k := k + 1;
    }
    ResolvedAnswers(result, w, u, unknown, recursive, start, end);
  }
}
