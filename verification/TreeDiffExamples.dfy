// Trees on which comparing and executing falls short. In all of them unit 1 is the root of an
// obsolete subtree, and SD has units 2 and 3 (and 4) below it, each below the one before.
module TreeDiffExamples {
  import opened Common
  import opened Forest
  import opened OrgTrees
  import opened SubtreeEngagements
  import opened TreeDiff
  import opened Reparenting
  import opened TreeDiffExecutor
  import opened TreeDiffTheorems

  // ----- small trees

  lemma OneChild(parent: Node, c: Node)
    ensures Entries(parent, [c]) == [Nodes(c, parent)] + Units(c)
  {
    assert [c][1..] == [];
  }

  lemma FirstChild(parent: Node, c: Node, cs: seq<Node>)
    ensures Entries(parent, [c] + cs) == [Nodes(c, parent)] + Units(c) + Entries(parent, cs)
  {
    assert ([c] + cs)[1..] == cs;
  }

  // Each listed unit with its own entry in the dictionary of the tree.
  lemma Listing(tree: Node, units: seq<Nodes>, i: nat)
    requires WellFormed(tree) && Units(tree) == units && i < |units|
    ensures units[i].unit.uuid in Dict(units) && Dict(units)[units[i].unit.uuid] == units[i]
    ensures units[i].unit.uuid in ParentsOf(tree) && ParentsOf(tree)[units[i].unit.uuid] == units[i].parent.uuid
  {
    UnitsAndDict(tree);
    assert units[i] in units;
  }

  // n has to change and is bound for an obsolete subtree.
  ghost predicate IsBound(mo: Node, sd: Node, roots: seq<Uuid>, n: Nodes) {
    && n.unit.uuid in Dict(Units(mo)) && ShouldBeUpdated(n, Dict(Units(mo))[n.unit.uuid])
    && InObsoleteUnitsSubtree(ParentsOf(sd), n.unit.uuid, roots)
  }

  lemma BoundMembers(mo: Node, sd: Node, roots: seq<Uuid>, n: Nodes)
    ensures n in Bound(mo, sd, roots) <==> n in Units(sd) && IsBound(mo, sd, roots, n)
  {
    FilterMembers(Units(sd),
      (n: Nodes) => n.unit.uuid in Dict(Units(mo)) && ShouldBeUpdated(n, Dict(Units(mo))[n.unit.uuid]));
    FilterMembers(Changes(Units(sd), Dict(Units(mo))),
      (n: Nodes) => InObsoleteUnitsSubtree(ParentsOf(sd), n.unit.uuid, roots));
  }

  // The units from index a to index b of SD's list are bound, no others.
  ghost predicate BoundBetween(mo: Node, sd: Node, roots: seq<Uuid>, ss: seq<Nodes>, a: nat, b: nat) {
    a <= b <= |ss| && forall i :: 0 <= i < |ss| ==> (IsBound(mo, sd, roots, ss[i]) <==> a <= i < b)
  }

  lemma BoundMember(mo: Node, sd: Node, roots: seq<Uuid>, ss: seq<Nodes>, a: nat, b: nat, n: Nodes)
    requires Units(sd) == ss && BoundBetween(mo, sd, roots, ss, a, b)
    ensures n in Bound(mo, sd, roots) <==> n in ss[a..b]
  {
    BoundMembers(mo, sd, roots, n);
    if n in Bound(mo, sd, roots) {
      var i :| 0 <= i < |ss| && ss[i] == n;
      assert ss[a..b][i - a] == n;
    }
    if n in ss[a..b] {
      var k :| 0 <= k < b - a && ss[a..b][k] == n;
      assert ss[a + k] == n && n in ss;
    }
  }

  lemma BoundIsAscending(mo: Node, sd: Node, roots: seq<Uuid>)
    requires WellFormed(sd)
    ensures Ascending(Bound(mo, sd, roots), Uuids(Units(sd)))
  {
    PartsAreAscending(mo, sd, roots);
  }

  lemma SliceIsAscending(sd: Node, a: nat, b: nat)
    requires WellFormed(sd) && a <= b <= |Units(sd)|
    ensures Ascending(Units(sd)[a..b], Uuids(Units(sd)))
  {
    UnitsAndDict(sd);
  }

  lemma BoundIs(mo: Node, sd: Node, roots: seq<Uuid>, ss: seq<Nodes>, a: nat, b: nat)
    requires WellFormed(sd) && Units(sd) == ss && BoundBetween(mo, sd, roots, ss, a, b)
    ensures Bound(mo, sd, roots) == ss[a..b]
  {
    var keys := Uuids(ss);
    BoundIsAscending(mo, sd, roots);
    SliceIsAscending(sd, a, b);
    forall n ensures n in Bound(mo, sd, roots) <==> n in ss[a..b] {
      BoundMember(mo, sd, roots, ss, a, b, n);
    }
    AscendingUnique(Bound(mo, sd, roots), ss[a..b], keys);
  }

  // Whether SD's i-th unit is bound, if it is MO's j-th one.
  lemma BoundIff(mo: Node, sd: Node, ms: seq<Nodes>, ss: seq<Nodes>, i: nat, j: nat)
    requires WellFormed(mo) && Units(mo) == ms && i < |ss| && j < |ms| && ms[j].unit.uuid == ss[i].unit.uuid
    ensures IsBound(mo, sd, [1], ss[i])
       <==> (ms[j].parent.uuid != ss[i].parent.uuid || ms[j].unit.name != ss[i].unit.name)
            && InObsoleteUnitsSubtree(ParentsOf(sd), ss[i].unit.uuid, [1])
  {
    Listing(mo, ms, j);
  }

  // SD's first three units are 1, 2 and 3, each below the one before.
  ghost predicate StartsWithChain(sd: Node, ss: seq<Nodes>) {
    && WellFormed(sd) && Units(sd) == ss && |ss| >= 3 && sd.uuid == 0
    && ss[0].unit.uuid == 1 && ss[0].parent.uuid == 0
    && ss[1].unit.uuid == 2 && ss[1].parent.uuid == 1
    && ss[2].unit.uuid == 3 && ss[2].parent.uuid == 2
  }

  lemma ChainIsObsolete(sd: Node, ss: seq<Nodes>)
    requires StartsWithChain(sd, ss)
    ensures !InObsoleteUnitsSubtree(ParentsOf(sd), 1, [1])
    ensures InObsoleteUnitsSubtree(ParentsOf(sd), 2, [1]) && InObsoleteUnitsSubtree(ParentsOf(sd), 3, [1])
  {
    var parents := ParentsOf(sd);
    Listing(sd, ss, 0);
    Listing(sd, ss, 1);
    Listing(sd, ss, 2);
    TreeIsRanked(sd);
    assert parents[1] == 0 && parents[2] == 1 && parents[3] == 2 && 0 !in parents;
    assert InObsoleteUnitsSubtree(parents - {3}, 2, [1]);
    assert !InObsoleteUnitsSubtree(parents - {1}, 0, [1]);
  }

  // SD: 0 - 1 - 2 - rest.
  lemma SdChain(sd: Node, sd1: Node, sd2: Node, sd3: Node)
    requires sd.children == [sd1] && sd1.children == [sd2] && sd2.children == [sd3]
    ensures Units(sd) == [Nodes(sd1, sd), Nodes(sd2, sd1), Nodes(sd3, sd2)] + Units(sd3)
  {
    OneChild(sd, sd1);
    OneChild(sd1, sd2);
    OneChild(sd2, sd3);
  }

  // ----- a unit held back that stops the execution

  // In MO unit 2 lies below unit 3. Unit 2 is engaged itself and held back, unit 3 is to be moved
  // below it: the two would then be each other's parents, and MO refuses.
  lemma WithheldUnitStopsExecution()
    returns (mo: Node, sd: Node, roots: seq<Uuid>, flags: seq<bool>, engs: Engagements)
    ensures Comparable(mo, sd) && |flags| == |Bound(mo, sd, roots)|
    ensures AllSearchable(Bound(mo, sd, roots), engs) && Truthful(Bound(mo, sd, roots), flags, engs)
    ensures !Acyclic(Final(mo, sd, roots, flags).0) && !SafePlan(mo, sd, PlanOf(mo, sd, roots, flags))
  {
    roots, flags, engs := [1], [true, false], map[1 := false, 2 := true, 3 := false];
    var one, mo2 := Node(1, "one", []), Node(2, "two", []);
    var mo3 := Node(3, "three", [mo2]);
    mo := Node(0, "root", [one, mo3]);
    var sd3 := Node(3, "three", []);
    var sd2 := Node(2, "two", [sd3]);
    var sd1 := Node(1, "one", [sd2]);
    sd := Node(0, "root", [sd1]);
    var ms := [Nodes(one, mo), Nodes(mo3, mo), Nodes(mo2, mo3)];
    var ss := [Nodes(sd1, sd), Nodes(sd2, sd1), Nodes(sd3, sd2)];
    CycleUnits(mo, one, mo3, mo2, sd, sd1, sd2, sd3, ms, ss);
    CycleBound(mo, sd, ms, ss);
    CycleFlags(ss[1], ss[2], engs);
    Listing(mo, ms, 2);
    CycleFinal(mo, sd, ss);
    if SafePlan(mo, sd, PlanOf(mo, sd, roots, flags)) {
      SafePlanHasNoCycle(mo, sd, roots, flags);
    }
  }

  lemma CycleUnits(mo: Node, one: Node, mo3: Node, mo2: Node, sd: Node, sd1: Node, sd2: Node, sd3: Node,
                   ms: seq<Nodes>, ss: seq<Nodes>)
    requires mo.children == [one, mo3] && one.children == [] && mo3.children == [mo2] && mo2.children == []
    requires sd.children == [sd1] && sd1.children == [sd2] && sd2.children == [sd3] && sd3.children == []
    requires mo.uuid == 0 && one.uuid == 1 && mo3.uuid == 3 && mo2.uuid == 2
    requires sd.uuid == 0 && sd1.uuid == 1 && sd2.uuid == 2 && sd3.uuid == 3
    requires ms == [Nodes(one, mo), Nodes(mo3, mo), Nodes(mo2, mo3)]
    requires ss == [Nodes(sd1, sd), Nodes(sd2, sd1), Nodes(sd3, sd2)]
    ensures Comparable(mo, sd) && Units(mo) == ms && Units(sd) == ss
  {
    assert mo.children == [one] + [mo3];
    FirstChild(mo, one, [mo3]);
    OneChild(mo, mo3);
    OneChild(mo3, mo2);
    assert Units(mo) == ms;
    SdChain(sd, sd1, sd2, sd3);
    assert Units(sd) == ss;
    assert [0] + Uuids(ms) == [0, 1, 3, 2] && [0] + Uuids(ss) == [0, 1, 2, 3];
  }

  lemma CycleBound(mo: Node, sd: Node, ms: seq<Nodes>, ss: seq<Nodes>)
    requires WellFormed(mo) && Units(mo) == ms && |ms| == 3 && StartsWithChain(sd, ss) && |ss| == 3
    requires ms[0].unit.uuid == 1 && ms[0].parent.uuid == 0 && ms[0].unit.name == ss[0].unit.name
    requires ms[1].unit.uuid == 3 && ms[1].parent.uuid == 0
    requires ms[2].unit.uuid == 2 && ms[2].parent.uuid == 3
    ensures Bound(mo, sd, [1]) == [ss[1], ss[2]]
  {
    ChainIsObsolete(sd, ss);
    BoundIff(mo, sd, ms, ss, 0, 0);
    BoundIff(mo, sd, ms, ss, 1, 2);
    BoundIff(mo, sd, ms, ss, 2, 1);
    BoundIs(mo, sd, [1], ss, 1, 3);
    assert ss[1..3] == [ss[1], ss[2]];
  }

  // Unit two is engaged itself, unit three has nothing below it.
  lemma CycleFlags(two: Nodes, three: Nodes, engs: Engagements)
    requires two.unit.uuid == 2 && three.unit.uuid == 3 && three.unit.children == []
    requires engs == map[1 := false, 2 := true, 3 := false]
    ensures AllSearchable([two, three], engs) && Truthful([two, three], [true, false], engs)
  {
    var bound := [two, three];
    assert Subtree(two.unit)[0] == two.unit;
    assert two.unit in Subtree(two.unit);
    assert Subtree(three.unit) == [three.unit];
    assert Scan([three.unit], engs) == No;
    assert HeldBack(bound, 0, engs);
    assert !HeldBack(bound, 1, engs);
  }

  lemma CycleFinal(mo: Node, sd: Node, ss: seq<Nodes>)
    requires Comparable(mo, sd) && Units(sd) == ss && |ss| == 3 && Bound(mo, sd, [1]) == [ss[1], ss[2]]
    requires ss[1].unit.uuid == 2 && ss[2].unit.uuid == 3 && ss[2].parent.uuid == 2
    requires 2 in ParentsOf(mo) && ParentsOf(mo)[2] == 3
    ensures !Acyclic(Final(mo, sd, [1], [true, false]).0)
  {
    var flags := [true, false];
    var final := Final(mo, sd, [1], flags).0;
    Listing(sd, ss, 1);
    Listing(sd, ss, 2);
    SelectedAt([ss[1], ss[2]], flags, true, ss[1]);
    assert ChosenAt([ss[1], ss[2]], flags, true, ss[1], 0);
    SelectedAt([ss[1], ss[2]], flags, true, ss[2]);
    PlanMembers(mo, sd, [1], flags, ss[1]);
    PlanMembers(mo, sd, [1], flags, ss[2]);
    UnitInPlan(mo, sd, [1], flags, ss[1]);
    UnitInPlan(mo, sd, [1], flags, ss[2]);
    FinalAgrees(mo, sd, [1], flags, 3);
    PlanIsWork(mo, sd, [1], flags);
    assert final[3] == 2 && final[2] == 3;
    assert Up(final, 2, 2) == Up(final, 3, 1) == Up(final, 2, 0);
  }

  // ----- an engagement the memo hides

  // In MO units 2 and 3 lie below the root, in SD below each other; unit 4, below unit 3 in
  // both, is engaged. The search from unit 2 passes unit 3 on its way to unit 4, so unit 3 is
  // taken to have no engagements and is moved.
  method MemoCanMissEngagements() returns (ok: bool, diff: OrgTreeDiff, n: Nodes)
    ensures Comparable(diff.moOrgTree, diff.sdOrgTree) && ok && diff.Compared()
    ensures n in Bound(diff.moOrgTree, diff.sdOrgTree, diff.obsoleteUnitRoots)
    ensures SomeEngaged(Subtree(n.unit), diff.engagements)
    ensures n in diff.unitsToUpdate && n !in diff.subtreesWithEngs
  {
    var engs := map[1 := false, 2 := false, 3 := false, 4 := true];
    var four := Node(4, "four", []);
    var three := Node(3, "three", [four]);
    var one, two := Node(1, "one", []), Node(2, "two", []);
    var mo := Node(0, "root", [one, two, three]);
    var sd2 := Node(2, "two", [three]);
    var sd1 := Node(1, "one", [sd2]);
    var sd := Node(0, "root", [sd1]);
    ghost var ms := [Nodes(one, mo), Nodes(two, mo), Nodes(three, mo), Nodes(four, three)];
    ghost var ss := [Nodes(sd1, sd), Nodes(sd2, sd1), Nodes(three, sd2), Nodes(four, three)];
    n := Nodes(three, sd2);
    MemoUnits(mo, sd, one, two, three, four, sd1, sd2, ms, ss);
    MemoBound(mo, sd, ms, ss);
    MemoSearch(ss[1], ss[2], four, engs);
    diff := new OrgTreeDiff(mo, sd, [1], engs);
    ok := diff.CompareTrees();
    MemoDecision(ss[1], ss[2], four, engs, diff.flags);
    SelectedAt([ss[1], ss[2]], diff.flags, false, n);
    assert ChosenAt([ss[1], ss[2]], diff.flags, false, n, 1);
    PlanMembers(mo, sd, [1], diff.flags, n);
    UnitInPlan(mo, sd, [1], diff.flags, n);
    assert n in [ss[1], ss[2]];
  }

  lemma MemoUnits(mo: Node, sd: Node, one: Node, two: Node, three: Node, four: Node, sd1: Node, sd2: Node,
                  ms: seq<Nodes>, ss: seq<Nodes>)
    requires mo.children == [one, two, three] && one.children == [] && two.children == []
    requires three.children == [four] && four.children == []
    requires sd.children == [sd1] && sd1.children == [sd2] && sd2.children == [three]
    requires mo.uuid == 0 && one.uuid == 1 && two.uuid == 2 && three.uuid == 3 && four.uuid == 4
    requires sd.uuid == 0 && sd1.uuid == 1 && sd2.uuid == 2
    requires ms == [Nodes(one, mo), Nodes(two, mo), Nodes(three, mo), Nodes(four, three)]
    requires ss == [Nodes(sd1, sd), Nodes(sd2, sd1), Nodes(three, sd2), Nodes(four, three)]
    ensures Comparable(mo, sd) && Units(mo) == ms && Units(sd) == ss
  {
    assert mo.children == [one] + ([two] + [three]);
    FirstChild(mo, one, [two] + [three]);
    FirstChild(mo, two, [three]);
    OneChild(mo, three);
    OneChild(three, four);
    assert Units(three) == [Nodes(four, three)];
    assert Units(mo) == ms;
    SdChain(sd, sd1, sd2, three);
    assert Units(sd) == ss;
    assert [0] + Uuids(ms) == [0, 1, 2, 3, 4] && [0] + Uuids(ss) == [0, 1, 2, 3, 4];
  }

  lemma MemoBound(mo: Node, sd: Node, ms: seq<Nodes>, ss: seq<Nodes>)
    requires WellFormed(mo) && Units(mo) == ms && |ms| == 4 && StartsWithChain(sd, ss) && |ss| == 4
    requires ms[0].unit.uuid == 1 && ms[0].parent.uuid == 0 && ms[0].unit.name == ss[0].unit.name
    requires ms[1].unit.uuid == 2 && ms[1].parent.uuid == 0
    requires ms[2].unit.uuid == 3 && ms[2].parent.uuid == 0
    requires ms[3] == ss[3]
    ensures Bound(mo, sd, [1]) == [ss[1], ss[2]]
  {
    ChainIsObsolete(sd, ss);
    BoundIff(mo, sd, ms, ss, 0, 0);
    BoundIff(mo, sd, ms, ss, 1, 1);
    BoundIff(mo, sd, ms, ss, 2, 2);
    BoundIff(mo, sd, ms, ss, 3, 3);
    BoundIs(mo, sd, [1], ss, 1, 3);
    assert ss[1..3] == [ss[1], ss[2]];
  }

  // The search from unit 2 looks at units 2, 3 and 4.
  lemma MemoSearch(two: Nodes, three: Nodes, four: Node, engs: Engagements)
    requires two.unit.children == [three.unit] && three.unit.children == [four] && four.children == []
    requires two.unit.uuid == 2 && three.unit.uuid == 3 && four.uuid == 4
    requires engs == map[1 := false, 2 := false, 3 := false, 4 := true]
    ensures Subtree(three.unit) == [three.unit, four] && AllSearchable([two, three], engs)
    ensures Visited(Subtree(two.unit), engs) == [two.unit, three.unit, four]
  {
    ListedSingle(four);
    ListedSingle(three.unit);
    assert Subtree(four) == [four] && Subtree(three.unit) == [three.unit, four];
    var all := [two.unit, three.unit, four];
    assert Subtree(two.unit) == all && all[1..] == [three.unit, four] && all[1..][1..] == [four];
    assert [three.unit, four][1..] == [four];
    assert Visited([four], engs) == [four] && Scan([four], engs) == Yes;
    assert Visited(all[1..], engs) == all[1..] && Scan(all[1..], engs) == Yes;
    assert Visited(all, engs) == all && Scan(all, engs) == Yes;
  }

  lemma MemoDecision(two: Nodes, three: Nodes, four: Node, engs: Engagements, flags: seq<bool>)
    requires two.unit.children == [three.unit] && three.unit.children == [four] && four.children == []
    requires two.unit.uuid == 2 && three.unit.uuid == 3 && four.uuid == 4
    requires engs == map[1 := false, 2 := false, 3 := false, 4 := true]
    requires |flags| == 2 && Truthful([two, three], flags, engs)
    ensures !flags[1] && SomeEngaged(Subtree(three.unit), engs)
  {
    var bound := [two, three];
    MemoSearch(two, three, four, engs);
    assert Subtree(three.unit)[1] == four;
    assert four in Subtree(three.unit) && Lookup(engs, four.uuid) == Yes;
    assert Visited(Subtree(bound[0].unit), engs)[1] == three.unit;
    assert bound[1].unit in Visited(Subtree(bound[0].unit), engs);
    assert VisitedBefore(bound, 1, engs);
    assert flags[1] <==> HeldBack(bound, 1, engs);
  }

  // ----- a new unit that stops the comparison

  // Unit 2 is bound for the obsolete subtree; SD has a new unit 3 below it. MO knows its own
  // units but not this one, and the comparison ends with an exception.
  method NewUnitStopsComparison() returns (ok: bool, diff: OrgTreeDiff)
    ensures Comparable(diff.moOrgTree, diff.sdOrgTree)
    ensures forall u :: u in ParentsOf(diff.moOrgTree) ==> u in diff.engagements
    ensures !ok
  {
    var engs := map[1 := false, 2 := false];
    var one, two, three := Node(1, "one", []), Node(2, "two", []), Node(3, "three", []);
    var mo := Node(0, "root", [one, two]);
    var sd2 := Node(2, "two", [three]);
    var sd1 := Node(1, "one", [sd2]);
    var sd := Node(0, "root", [sd1]);
    ghost var ms := [Nodes(one, mo), Nodes(two, mo)];
    ghost var ss := [Nodes(sd1, sd), Nodes(sd2, sd1), Nodes(three, sd2)];
    NewUnits(mo, sd, one, two, three, sd1, sd2, ms, ss);
    NewBound(mo, sd, ms, ss);
    diff := new OrgTreeDiff(mo, sd, [1], engs);
    ok := diff.CompareTrees();
    NewSearch(ss[1], three, engs);
    UnitsAndDict(mo);
  }

  lemma NewUnits(mo: Node, sd: Node, one: Node, two: Node, three: Node, sd1: Node, sd2: Node,
                 ms: seq<Nodes>, ss: seq<Nodes>)
    requires mo.children == [one, two] && one.children == [] && two.children == [] && three.children == []
    requires sd.children == [sd1] && sd1.children == [sd2] && sd2.children == [three]
    requires mo.uuid == 0 && one.uuid == 1 && two.uuid == 2 && three.uuid == 3
    requires sd.uuid == 0 && sd1.uuid == 1 && sd2.uuid == 2
    requires ms == [Nodes(one, mo), Nodes(two, mo)]
    requires ss == [Nodes(sd1, sd), Nodes(sd2, sd1), Nodes(three, sd2)]
    ensures Comparable(mo, sd) && Units(mo) == ms && Units(sd) == ss
  {
    assert mo.children == [one] + [two];
    FirstChild(mo, one, [two]);
    OneChild(mo, two);
    assert Units(mo) == ms;
    SdChain(sd, sd1, sd2, three);
    assert Units(sd) == ss;
    assert [0] + Uuids(ms) == [0, 1, 2] && [0] + Uuids(ss) == [0, 1, 2, 3];
  }

  lemma NewBound(mo: Node, sd: Node, ms: seq<Nodes>, ss: seq<Nodes>)
    requires WellFormed(mo) && Units(mo) == ms && |ms| == 2 && StartsWithChain(sd, ss) && |ss| == 3
    requires ms[0].unit.uuid == 1 && ms[0].parent.uuid == 0 && ms[0].unit.name == ss[0].unit.name
    requires ms[1].unit.uuid == 2 && ms[1].parent.uuid == 0
    ensures Bound(mo, sd, [1]) == [ss[1]]
  {
    ChainIsObsolete(sd, ss);
    BoundIff(mo, sd, ms, ss, 0, 0);
    BoundIff(mo, sd, ms, ss, 1, 1);
    assert 3 !in Dict(ms) by {
      UnitsAndDict(mo);
    }
    BoundIs(mo, sd, [1], ss, 1, 2);
    assert ss[1..2] == [ss[1]];
  }

  lemma NewSearch(two: Nodes, three: Node, engs: Engagements)
    requires two.unit.children == [three] && three.children == [] && two.unit.uuid == 2 && three.uuid == 3
    requires engs == map[1 := false, 2 := false]
    ensures !AllSearchable([two], engs)
  {
    ListedSingle(three);
    var all := [two.unit, three];
    assert Subtree(two.unit) == all && all[1..] == [three];
    assert Scan([three], engs) == UnitUnknown;
    assert !Searchable([two][0], engs);
  }
}
