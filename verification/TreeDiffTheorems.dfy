// What a comparison and its execution come to for whole trees.
module TreeDiffTheorems {
  import opened Common
  import opened Forest
  import opened OrgTrees
  import opened TreeDiff
  import opened Reparenting
  import opened TreeDiffExecutor
  import opened SubtreeEngagements

  function RelationsOf(mo: Node, sd: Node): Relations {
    Relations(mo.uuid, ParentsOf(mo), NamesOf(mo), Uuids(Units(mo)), ParentsOf(sd), NamesOf(sd), Uuids(Units(sd)))
  }

  // Two trees over the same root, each without repeated identifiers.
  ghost predicate Comparable(mo: Node, sd: Node) {
    WellFormed(mo) && WellFormed(sd) && mo.uuid == sd.uuid
  }

  lemma RelationsAreProper(mo: Node, sd: Node)
    requires Comparable(mo, sd)
    ensures Proper(RelationsOf(mo, sd))
  {
    TreeIsRanked(mo);
    TreeIsRanked(sd);
  }

  lemma RankedHasNoCycle(root: Uuid, keys: seq<Uuid>, parents: Parents)
    requires Ranked(root, keys, parents)
    ensures Acyclic(parents)
  {
    RankedIsAcyclic(parents, u => Position(keys, u));
  }

  // Going up decreases the position.
  lemma {:induction false} UpPosition(root: Uuid, keys: seq<Uuid>, parents: Parents, u: Uuid, k: nat)
    requires Ranked(root, keys, parents) && Up(parents, u, k).Some?
    ensures Position(keys, Up(parents, u, k).value) + k <= Position(keys, u)
    decreases k
  {
    RankDecreases(parents, v => Position(keys, v), u, k);
  }

  ghost predicate ChosenAt(xs: seq<Nodes>, flags: seq<bool>, b: bool, x: Nodes, i: int)
    requires |xs| == |flags|
  {
    0 <= i < |xs| && xs[i] == x && flags[i] == b
  }

  lemma {:induction false} SelectedAt(xs: seq<Nodes>, flags: seq<bool>, b: bool, x: Nodes)
    requires |xs| == |flags|
    ensures x in Selected(xs, flags, b) <==> exists i :: ChosenAt(xs, flags, b, x, i)
  {
    if xs == [] {
    } else {
      var last := |xs| - 1;
      SelectedAt(xs[..last], flags[..last], b, x);
      if i :| ChosenAt(xs[..last], flags[..last], b, x, i) {
        assert ChosenAt(xs, flags, b, x, i);
      }
      if i :| ChosenAt(xs, flags, b, x, i) && i < last {
        assert ChosenAt(xs[..last], flags[..last], b, x, i);
      }
      if xs[last] == x && flags[last] == b {
        assert ChosenAt(xs, flags, b, x, last);
      }
    }
  }

  lemma {:induction false} SelectedKeepsOrder(xs: seq<Nodes>, flags: seq<bool>, b: bool, keys: seq<Uuid>)
    requires |xs| == |flags| && Ascending(xs, keys)
    ensures Ascending(Selected(xs, flags, b), keys)
  {
    if xs == [] {
    } else {
      var last := |xs| - 1;
      var rest := Selected(xs[..last], flags[..last], b);
      SelectedKeepsOrder(xs[..last], flags[..last], b, keys);
      forall i | 0 <= i < |rest| ensures Position(keys, rest[i].unit.uuid) < Position(keys, xs[last].unit.uuid) {
        SelectedAt(xs[..last], flags[..last], b, rest[i]);
        var j :| ChosenAt(xs[..last], flags[..last], b, rest[i], j);
        assert xs[j] == rest[i];
      }
    }
  }

  // The two selections split a list of distinct units.
  lemma SelectedSplit(xs: seq<Nodes>, flags: seq<bool>, keys: seq<Uuid>, x: Nodes)
    requires |xs| == |flags| && Ascending(xs, keys)
    ensures x in xs <==> x in Selected(xs, flags, true) || x in Selected(xs, flags, false)
    ensures x in Selected(xs, flags, true) ==> x.unit.uuid !in Keys(Selected(xs, flags, false))
    ensures x in Selected(xs, flags, false) ==> x.unit.uuid !in Keys(Selected(xs, flags, true))
  {
    SelectedAt(xs, flags, true, x);
    SelectedAt(xs, flags, false, x);
    if x in xs {
      var i :| 0 <= i < |xs| && xs[i] == x;
      assert ChosenAt(xs, flags, flags[i], x, i);
      forall y | y in Selected(xs, flags, !flags[i]) ensures y.unit.uuid != x.unit.uuid {
        SelectedAt(xs, flags, !flags[i], y);
        var j :| ChosenAt(xs, flags, !flags[i], y, j);
        assert Position(keys, xs[i].unit.uuid) != Position(keys, xs[j].unit.uuid);
      }
    }
  }

  // The lists a plan is made of, element by element.
  lemma PlanMembers(mo: Node, sd: Node, roots: seq<Uuid>, flags: seq<bool>, n: Nodes)
    requires Comparable(mo, sd) && |flags| == |Bound(mo, sd, roots)|
    ensures var plan := PlanOf(mo, sd, roots, flags);
      var moved := n in Units(sd) && n.unit.uuid in Dict(Units(mo)) && ShouldBeUpdated(n, Dict(Units(mo))[n.unit.uuid]);
      && (n in plan.adds <==> n in Units(sd) && n.unit.uuid !in Dict(Units(mo)))
      && (n in plan.updates || n in plan.withheld <==> moved)
      && (n in plan.withheld ==> InObsoleteUnitsSubtree(ParentsOf(sd), n.unit.uuid, roots))
      && (n in plan.withheld ==> n.unit.uuid !in Keys(plan.updates))
  {
    var d := Dict(Units(mo));
    var changes := Changes(Units(sd), d);
    var straight := Straight(changes, ParentsOf(sd), roots);
    var bound := Bound(mo, sd, roots);
    FilterMembers(Units(sd), (n: Nodes) => n.unit.uuid !in d);
    FilterMembers(Units(sd), (n: Nodes) => n.unit.uuid in d && ShouldBeUpdated(n, d[n.unit.uuid]));
    FilterMembers(changes, (n: Nodes) => !InObsoleteUnitsSubtree(ParentsOf(sd), n.unit.uuid, roots));
    FilterMembers(changes, (n: Nodes) => InObsoleteUnitsSubtree(ParentsOf(sd), n.unit.uuid, roots));
    PartsAreAscending(mo, sd, roots);
    SelectedSplit(bound, flags, Uuids(Units(sd)), n);
  }

  // A plan is work the executor can take on.
  lemma PlanIsWork(mo: Node, sd: Node, roots: seq<Uuid>, flags: seq<bool>)
    requires Comparable(mo, sd) && |flags| == |Bound(mo, sd, roots)|
    ensures Work(RelationsOf(mo, sd), PlanOf(mo, sd, roots, flags).adds, PlanOf(mo, sd, roots, flags).updates)
  {
    var plan := PlanOf(mo, sd, roots, flags);
    UnitsAndDict(sd);
    PartsAreAscending(mo, sd, roots);
    forall n | n in plan.adds ensures n in Units(sd) && n.unit.uuid !in Dict(Units(mo)) {
      PlanMembers(mo, sd, roots, flags, n);
    }
    forall n | n in plan.updates ensures n in Units(sd) && n.unit.uuid in Dict(Units(mo)) {
      PlanMembers(mo, sd, roots, flags, n);
    }
  }

  // No unit to be moved lies below one that is held back.
  ghost predicate NoneBelowWithheld(sd: Parents, plan: Plan) {
    forall n, k: nat :: n in plan.updates && Up(sd, n.unit.uuid, k).Some? ==>
      Up(sd, n.unit.uuid, k).value !in Keys(plan.withheld)
  }

  lemma {:induction false} UpFurther(parents: Parents, u: Uuid, k: nat, j: nat)
    requires Up(parents, u, k).Some?
    ensures Up(parents, u, k + j) == Up(parents, Up(parents, u, k).value, j)
    decreases k
  {
    if k == 0 {
    } else {
      UpFurther(parents, parents[u], k - 1, j);
    }
  }

  // What lies below a unit of an obsolete subtree is in that subtree, too.
  lemma ObsoleteGoesDown(parents: Parents, u: Uuid, k: nat, roots: seq<Uuid>)
    requires Acyclic(parents) && Up(parents, u, k).Some?
    requires InObsoleteUnitsSubtree(parents, Up(parents, u, k).value, roots)
    ensures InObsoleteUnitsSubtree(parents, u, roots)
  {
    var v := Up(parents, u, k).value;
    ObsoleteIsBelowRoot(parents, v, roots);
    ObsoleteIsBelowRoot(parents, u, roots);
    var j: nat :| j > 0 && Reaches(parents, v, j, roots);
    UpFurther(parents, u, k, j);
    assert Reaches(parents, u, k + j, roots);
  }

  // In two ascending lists put together, an element below another one comes first unless it
  // is in the second list and the other in the first.
  lemma EarlierInParts(a: seq<Nodes>, b: seq<Nodes>, keys: seq<Uuid>, i: nat, v: Nodes)
    requires Ascending(a, keys) && Ascending(b, keys) && i < |a + b| && v in a + b
    requires v == (a + b)[i] || Position(keys, v.unit.uuid) < Position(keys, (a + b)[i].unit.uuid)
    requires i < |a| ==> v in a
    ensures v in (a + b)[..i + 1]
  {
    if v == (a + b)[i] {
      assert (a + b)[..i + 1][i] == v;
    } else if v in a {
      var j :| 0 <= j < |a| && a[j] == v;
      assert (a + b)[..i + 1][j] == v;
    } else {
      var j :| 0 <= j < |b| && b[j] == v;
      assert b[i - |a|] == (a + b)[i];
      assert (a + b)[..i + 1][|a| + j] == v;
    }
  }

  // What lies above a unit that is not bound for an obsolete subtree is not bound for one either.
  lemma StraightGoesUp(mo: Node, sd: Node, roots: seq<Uuid>, flags: seq<bool>, u: Nodes, k: nat, v: Nodes)
    requires Comparable(mo, sd) && |flags| == |Bound(mo, sd, roots)|
    requires u in Straight(Changes(Units(sd), Dict(Units(mo))), ParentsOf(sd), roots)
    requires Up(ParentsOf(sd), u.unit.uuid, k) == Some(v.unit.uuid)
    ensures v !in Selected(Bound(mo, sd, roots), flags, false)
  {
    var parents := ParentsOf(sd);
    var changes := Changes(Units(sd), Dict(Units(mo)));
    FilterMembers(changes, (n: Nodes) => !InObsoleteUnitsSubtree(parents, n.unit.uuid, roots));
    FilterMembers(changes, (n: Nodes) => InObsoleteUnitsSubtree(parents, n.unit.uuid, roots));
    if v in Selected(Bound(mo, sd, roots), flags, false) {
      TreeIsRanked(sd);
      PartsAreAscending(mo, sd, roots);
      SelectedSplit(Bound(mo, sd, roots), flags, Uuids(Units(sd)), v);
      RankedHasNoCycle(sd.uuid, Uuids(Units(sd)), parents);
      ObsoleteGoesDown(parents, u.unit.uuid, k, roots);
    }
  }

  // Of two units to be updated the one higher up comes first, those bound for obsolete subtrees last.
  lemma HigherFirst(mo: Node, sd: Node, roots: seq<Uuid>, flags: seq<bool>, i: nat, k: nat, v: Nodes)
    requires Comparable(mo, sd) && |flags| == |Bound(mo, sd, roots)|
    requires i < |PlanOf(mo, sd, roots, flags).updates| && v in PlanOf(mo, sd, roots, flags).updates
    requires Up(ParentsOf(sd), PlanOf(mo, sd, roots, flags).updates[i].unit.uuid, k) == Some(v.unit.uuid)
    ensures v in PlanOf(mo, sd, roots, flags).updates[..i + 1]
  {
    var keys := Uuids(Units(sd));
    var straight := Straight(Changes(Units(sd), Dict(Units(mo))), ParentsOf(sd), roots);
    var moved := Selected(Bound(mo, sd, roots), flags, false);
    var u: Nodes := (straight + moved)[i];
    PartsAreAscending(mo, sd, roots);
    SelectedKeepsOrder(Bound(mo, sd, roots), flags, false, keys);
    TreeIsRanked(sd);
    UpPosition(sd.uuid, keys, ParentsOf(sd), u.unit.uuid, k);
    if k == 0 {
      PlanMembers(mo, sd, roots, flags, u);
      PlanMembers(mo, sd, roots, flags, v);
      UnitsAndDict(sd);
      assert u == v;
    }
    if i < |straight| {
      StraightGoesUp(mo, sd, roots, flags, straight[i], k, v);
    }
    EarlierInParts(straight, moved, keys, i, v);
  }

  // A plan moves every unit after the units above it, as long as none of those is held back.
  lemma PlanIsOrderly(mo: Node, sd: Node, roots: seq<Uuid>, flags: seq<bool>)
    requires Comparable(mo, sd) && |flags| == |Bound(mo, sd, roots)|
    requires NoneBelowWithheld(ParentsOf(sd), PlanOf(mo, sd, roots, flags))
    ensures Orderly(RelationsOf(mo, sd), PlanOf(mo, sd, roots, flags).adds, PlanOf(mo, sd, roots, flags).updates)
  {
    var r := RelationsOf(mo, sd);
    var plan := PlanOf(mo, sd, roots, flags);
    PlanIsWork(mo, sd, roots, flags);
    UnitsAndDict(sd);
    forall i: nat | i < |plan.updates| ensures MovedInTurn(r, plan.adds, plan.updates, i) {
      var u := plan.updates[i].unit.uuid;
      var done := Keys(plan.adds) + Keys(plan.updates[..i + 1]);
      assert plan.updates[i] in plan.updates;
      forall k: nat ensures Settles(r.mo, r.sd, done, u, k) {
        if Up(r.sd, u, k).Some? && Up(r.sd, u, k).value in r.sd {
          AboveIsInPlace(mo, sd, roots, flags, i, k);
        }
      }
    }
  }

  lemma AboveIsInPlace(mo: Node, sd: Node, roots: seq<Uuid>, flags: seq<bool>, i: nat, k: nat)
    requires Comparable(mo, sd) && |flags| == |Bound(mo, sd, roots)|
    requires NoneBelowWithheld(ParentsOf(sd), PlanOf(mo, sd, roots, flags))
    requires i < |PlanOf(mo, sd, roots, flags).updates|
    requires Up(ParentsOf(sd), PlanOf(mo, sd, roots, flags).updates[i].unit.uuid, k).Some?
    requires Up(ParentsOf(sd), PlanOf(mo, sd, roots, flags).updates[i].unit.uuid, k).value in ParentsOf(sd)
    ensures var plan := PlanOf(mo, sd, roots, flags);
      InPlace(ParentsOf(mo), ParentsOf(sd), Keys(plan.adds) + Keys(plan.updates[..i + 1]),
              Up(ParentsOf(sd), plan.updates[i].unit.uuid, k).value)
  {
    var plan := PlanOf(mo, sd, roots, flags);
    var u := Up(ParentsOf(sd), plan.updates[i].unit.uuid, k).value;
    var v := Dict(Units(sd))[u];
    UnitsAndDict(sd);
    PlanMembers(mo, sd, roots, flags, v);
    assert plan.updates[i] in plan.updates;
    if v in plan.updates {
      HigherFirst(mo, sd, roots, flags, i, k, v);
    }
  }

  lemma {:induction false} FilterAll(ns: seq<Nodes>, p: Nodes -> bool)
    requires forall n :: n in ns ==> p(n)
    ensures Filter(ns, p) == ns
  {
    if ns == [] {
    } else {
      FilterAll(ns[1..], p);
    }
  }

  const KEEP_ALL := Filters(None, (name: string) => false, false)

  lemma KeepAllKeeps(adds: seq<Nodes>, updates: seq<Nodes>)
    ensures KeptAdds(KEEP_ALL, adds) == adds && KeptUpdates(KEEP_ALL, updates) == updates
  {
    FilterAll(adds, (n: Nodes) => !KEEP_ALL.matches(n.unit.name));
  }

  // Without filters every addition and update finds its parent in MO.
  lemma PlanFindsParents(mo: Node, sd: Node, roots: seq<Uuid>, flags: seq<bool>)
    requires Comparable(mo, sd) && |flags| == |Bound(mo, sd, roots)|
    ensures AllForeseen(RelationsOf(mo, sd), Keys(PlanOf(mo, sd, roots, flags).adds), PlanOf(mo, sd, roots, flags).adds)
    ensures AllForeseen(RelationsOf(mo, sd), Keys(PlanOf(mo, sd, roots, flags).adds), PlanOf(mo, sd, roots, flags).updates)
  {
    var plan := PlanOf(mo, sd, roots, flags);
    var r := RelationsOf(mo, sd);
    UnitsAndDict(sd);
    TreeIsRanked(sd);
    forall n | n in Units(sd) ensures Foreseen(r, Keys(plan.adds), n) {
      if n.parent.uuid in r.sd {
        PlanMembers(mo, sd, roots, flags, Dict(Units(sd))[n.parent.uuid]);
      }
    }
    forall i | 0 <= i < |plan.adds| ensures Foreseen(r, Keys(plan.adds), plan.adds[i]) {
      PlanMembers(mo, sd, roots, flags, plan.adds[i]);
    }
    forall i | 0 <= i < |plan.updates| ensures Foreseen(r, Keys(plan.adds), plan.updates[i]) {
      PlanMembers(mo, sd, roots, flags, plan.updates[i]);
    }
  }

  function Final(mo: Node, sd: Node, roots: seq<Uuid>, flags: seq<bool>): (f: (Parents, map<Uuid, string>))
    requires Comparable(mo, sd) && |flags| == |Bound(mo, sd, roots)|
  {
    var plan := PlanOf(mo, sd, roots, flags);
    var done := Keys(plan.adds) + Keys(plan.updates);
    PlanIsWork(mo, sd, roots, flags);
    (Overlay(ParentsOf(mo), ParentsOf(sd), done), Overlay(NamesOf(mo), NamesOf(sd), done))
  }

  // Within the SD tree an identifier is in one of the plan's lists if and only if its unit is.
  lemma ByKey(sd: Node, ns: seq<Nodes>, n: Nodes)
    requires WellFormed(sd) && n in Units(sd)
    requires forall w :: w in ns ==> w in Units(sd)
    ensures n.unit.uuid in Keys(ns) <==> n in ns
  {
    UnitsAndDict(sd);
  }

  lemma UnitInPlan(mo: Node, sd: Node, roots: seq<Uuid>, flags: seq<bool>, n: Nodes)
    requires Comparable(mo, sd) && |flags| == |Bound(mo, sd, roots)| && n in Units(sd)
    ensures var plan := PlanOf(mo, sd, roots, flags);
      && (n.unit.uuid in Keys(plan.adds) <==> n in plan.adds)
      && (n.unit.uuid in Keys(plan.updates) <==> n in plan.updates)
      && (n.unit.uuid in Keys(plan.withheld) <==> n in plan.withheld)
  {
    var plan := PlanOf(mo, sd, roots, flags);
    forall w | w in plan.adds || w in plan.updates || w in plan.withheld ensures w in Units(sd) {
      PlanMembers(mo, sd, roots, flags, w);
    }
    ByKey(sd, plan.adds, n);
    ByKey(sd, plan.updates, n);
    ByKey(sd, plan.withheld, n);
  }

  // In the end exactly the SD units not held back have their SD parent and name.
  lemma FinalAgrees(mo: Node, sd: Node, roots: seq<Uuid>, flags: seq<bool>, u: Uuid)
    requires Comparable(mo, sd) && |flags| == |Bound(mo, sd, roots)| && u in ParentsOf(sd)
    ensures u in Final(mo, sd, roots, flags).0 && u in Final(mo, sd, roots, flags).1
    ensures (Final(mo, sd, roots, flags).0[u] == ParentsOf(sd)[u] && Final(mo, sd, roots, flags).1[u] == NamesOf(sd)[u])
        <==> u !in Keys(PlanOf(mo, sd, roots, flags).withheld)
  {
    var plan := PlanOf(mo, sd, roots, flags);
    var n := Dict(Units(sd))[u];
    PlanIsWork(mo, sd, roots, flags);
    UnitsAndDict(sd);
    PlanMembers(mo, sd, roots, flags, n);
    UnitInPlan(mo, sd, roots, flags, n);
  }

  // Units SD does not have keep their parent and name.
  lemma OthersAreUntouched(mo: Node, sd: Node, roots: seq<Uuid>, flags: seq<bool>, u: Uuid)
    requires Comparable(mo, sd) && |flags| == |Bound(mo, sd, roots)| && u !in ParentsOf(sd)
    ensures u in Final(mo, sd, roots, flags).0 <==> u in ParentsOf(mo)
    ensures u in ParentsOf(mo) ==> Final(mo, sd, roots, flags).0[u] == ParentsOf(mo)[u]
    ensures u in NamesOf(mo) ==> u in Final(mo, sd, roots, flags).1 && Final(mo, sd, roots, flags).1[u] == NamesOf(mo)[u]
  {
    PlanIsWork(mo, sd, roots, flags);
  }

  lemma SomeMember(ns: seq<Nodes>)
    ensures ns == [] || exists n :: n in ns
  {
    if ns != [] {
      assert ns[0] in ns;
    }
  }

  // Ascending lists with the same elements are equal.
  lemma {:induction false} AscendingUnique(a: seq<Nodes>, b: seq<Nodes>, keys: seq<Uuid>)
    requires Ascending(a, keys) && Ascending(b, keys)
    requires forall n :: n in a <==> n in b
    ensures a == b
  {
    if a == [] {
      SomeMember(b);
    } else {
      assert a[0] in b && (b != [] ==> b[0] in a);
      var i :| 0 <= i < |b| && b[i] == a[0];
      var j :| 0 <= j < |a| && a[j] == b[0];
      assert i == 0;
      forall n ensures n in a[1..] <==> n in b[1..] {
        InTail(a, keys, n);
        InTail(b, keys, n);
      }
      AscendingUnique(a[1..], b[1..], keys);
    }
  }

  lemma InTail(a: seq<Nodes>, keys: seq<Uuid>, n: Nodes)
    requires Ascending(a, keys) && a != []
    ensures n in a[1..] <==> n in a && n != a[0]
  {
    if n in a[1..] {
      var i :| 0 <= i < |a| - 1 && a[1..][i] == n;
      assert a[i + 1] == n;
    }
  }

  // Comparing SD again with a tree that shows the final state finds nothing to add and, as
  // candidates for an update, exactly the units that were held back: none, if none was.
  lemma SecondComparison(mo: Node, sd: Node, roots: seq<Uuid>, flags: seq<bool>, now: Node)
    requires Comparable(mo, sd) && |flags| == |Bound(mo, sd, roots)| && Comparable(now, sd)
    requires ParentsOf(now) == Final(mo, sd, roots, flags).0 && NamesOf(now) == Final(mo, sd, roots, flags).1
    ensures Additions(Units(sd), Dict(Units(now))) == []
    ensures Changes(Units(sd), Dict(Units(now))) == PlanOf(mo, sd, roots, flags).withheld
  {
    var plan := PlanOf(mo, sd, roots, flags);
    var d := Dict(Units(now));
    var adds := Additions(Units(sd), d);
    var changes := Changes(Units(sd), d);
    var keys := Uuids(Units(sd));
    UnitsAndDict(sd);
    FilterMembers(Units(sd), (n: Nodes) => n.unit.uuid !in d);
    FilterMembers(Units(sd), (n: Nodes) => n.unit.uuid in d && ShouldBeUpdated(n, d[n.unit.uuid]));
    forall n | n in Units(sd)
      ensures n.unit.uuid in d
      ensures ShouldBeUpdated(n, d[n.unit.uuid]) <==> n in plan.withheld
    {
      assert n.unit.uuid in ParentsOf(sd);
      FinalAgrees(mo, sd, roots, flags, n.unit.uuid);
      UnitInPlan(mo, sd, roots, flags, n);
    }
    SomeMember(adds);
    forall n ensures n in changes <==> n in plan.withheld {
      PlanMembers(mo, sd, roots, flags, n);
    }
    PartsAreAscending(now, sd, roots);
    PartsAreAscending(mo, sd, roots);
    SelectedKeepsOrder(Bound(mo, sd, roots), flags, true, keys);
    AscendingUnique(changes, plan.withheld, keys);
  }

  // No update of the plan moves its unit below itself, as MO is by then. All of it can be told
  // from the two trees and the plan.
  ghost predicate SafePlan(mo: Node, sd: Node, plan: Plan) {
    SafeMoves(RelationsOf(mo, sd), plan.adds, plan.updates, |plan.updates|)
  }

  // What a safe plan comes to has no cycle.
  lemma SafePlanHasNoCycle(mo: Node, sd: Node, roots: seq<Uuid>, flags: seq<bool>)
    requires Comparable(mo, sd) && |flags| == |Bound(mo, sd, roots)|
    requires SafePlan(mo, sd, PlanOf(mo, sd, roots, flags))
    ensures Acyclic(Final(mo, sd, roots, flags).0)
  {
    var plan := PlanOf(mo, sd, roots, flags);
    RelationsAreProper(mo, sd);
    PlanIsWork(mo, sd, roots, flags);
    PlanFindsParents(mo, sd, roots, flags);
    SafeMovesKeepAcyclic(RelationsOf(mo, sd), plan.adds, plan.updates, |plan.updates|);
    assert plan.updates[..|plan.updates|] == plan.updates;
  }

  // That is so if no unit is moved below one that is held back, ...
  lemma NoneBelowWithheldIsSafe(mo: Node, sd: Node, roots: seq<Uuid>, flags: seq<bool>)
    requires Comparable(mo, sd) && |flags| == |Bound(mo, sd, roots)|
    requires NoneBelowWithheld(ParentsOf(sd), PlanOf(mo, sd, roots, flags))
    ensures SafePlan(mo, sd, PlanOf(mo, sd, roots, flags))
  {
    var plan := PlanOf(mo, sd, roots, flags);
    RelationsAreProper(mo, sd);
    PlanIsWork(mo, sd, roots, flags);
    PlanFindsParents(mo, sd, roots, flags);
    PlanIsOrderly(mo, sd, roots, flags);
    OrderlyMovesAreSafe(RelationsOf(mo, sd), plan.adds, plan.updates);
  }

  // ... in particular if none is held back at all.
  lemma NothingWithheldIsSafe(mo: Node, sd: Node, roots: seq<Uuid>, flags: seq<bool>)
    requires Comparable(mo, sd) && |flags| == |Bound(mo, sd, roots)| && PlanOf(mo, sd, roots, flags).withheld == []
    ensures SafePlan(mo, sd, PlanOf(mo, sd, roots, flags))
  {
    assert NoneBelowWithheld(ParentsOf(sd), PlanOf(mo, sd, roots, flags));
    NoneBelowWithheldIsSafe(mo, sd, roots, flags);
  }

  // MO's units are those the tree shows.
  ghost predicate Shows(tree: Node, m: MoUnits)
    reads m
  {
    m.root == tree.uuid && m.parents == ParentsOf(tree) && m.names == NamesOf(tree)
  }

  lemma ShownIsStart(mo: Node, sd: Node, m: MoUnits)
    requires Comparable(mo, sd) && Shows(mo, m)
    ensures Reached(m.State(), RelationsOf(mo, sd), |m.history|, {})
  {
  }

  // How an unfiltered execution of a plan ends.
  lemma PlanEnds(mo: Node, sd: Node, roots: seq<Uuid>, flags: seq<bool>, s: MoState, past: nat, steps: nat, ok: bool)
    requires Comparable(mo, sd) && |flags| == |Bound(mo, sd, roots)|
    requires var plan := PlanOf(mo, sd, roots, flags);
      && steps <= |plan.updates| && (ok ==> steps == |plan.updates|)
      && Reached(s, RelationsOf(mo, sd), past, Keys(plan.adds) + Keys(plan.updates[..steps]))
    ensures ok ==> (s.parents, s.names) == Final(mo, sd, roots, flags)
  {
    var plan := PlanOf(mo, sd, roots, flags);
    assert plan.updates[..|plan.updates|] == plan.updates;
  }

  lemma SafeIsExecutable(mo: Node, sd: Node, roots: seq<Uuid>, flags: seq<bool>)
    requires Comparable(mo, sd) && |flags| == |Bound(mo, sd, roots)|
    ensures var plan := PlanOf(mo, sd, roots, flags);
      Executable(RelationsOf(mo, sd), plan.adds, plan.updates) <==> SafePlan(mo, sd, plan)
  {
    PlanFindsParents(mo, sd, roots, flags);
  }

  // An unfiltered execution of a comparison's result against the MO units the tree shows: it
  // succeeds if and only if the plan is safe. Whether it does or not, everything written is
  // without cycle and missing parent, and what it has got to is the plan up to there.
  method ExecutePlan(diff: OrgTreeDiff, m: MoUnits) returns (ok: bool, ghost steps: nat)
    requires Comparable(diff.moOrgTree, diff.sdOrgTree) && diff.Compared() && Shows(diff.moOrgTree, m)
    modifies m
    ensures ok <==> SafePlan(diff.moOrgTree, diff.sdOrgTree,
                             Plan(diff.unitsToAdd, diff.unitsToUpdate, diff.subtreesWithEngs))
    ensures ok ==> (m.parents, m.names) == Final(diff.moOrgTree, diff.sdOrgTree, diff.obsoleteUnitRoots, diff.flags)
    ensures steps <= |diff.unitsToUpdate|
    ensures Reached(m.State(), RelationsOf(diff.moOrgTree, diff.sdOrgTree), |old(m.history)|,
                    Keys(diff.unitsToAdd) + Keys(diff.unitsToUpdate[..steps]))
    ensures AllSafe(m.history, |old(m.history)|, diff.moOrgTree.uuid)
  {
    ghost var mo, sd, roots, flags := diff.moOrgTree, diff.sdOrgTree, diff.obsoleteUnitRoots, diff.flags;
    RelationsAreProper(mo, sd);
    PlanIsWork(mo, sd, roots, flags);
    PlanFindsParents(mo, sd, roots, flags);
    SafeIsExecutable(mo, sd, roots, flags);
    KeepAllKeeps(diff.unitsToAdd, diff.unitsToUpdate);
    ShownIsStart(mo, sd, m);
    ok, steps := Execute(diff.unitsToAdd, diff.unitsToUpdate, KEEP_ALL, false, m, RelationsOf(mo, sd));
    PlanEnds(mo, sd, roots, flags, m.State(), |old(m.history)|, steps, ok);
  }

  // A comparison followed by its execution (sdtoolplus/diff_org_trees.py:96-144,
  // sdtoolplus/tree_diff_executor.py:317-369): the comparison ends without exception exactly if
  // every search can be made, the execution exactly if the plan is safe, which it is when no unit
  // is held back. Everything written is sound. Afterwards all SD units have their SD parent and
  // name if and only if none was held back.
  method CompareAndExecute(mo: Node, sd: Node, roots: seq<Uuid>, engs: Engagements, m: MoUnits)
    returns (compared: bool, executed: bool, diff: OrgTreeDiff)
    requires Comparable(mo, sd) && Shows(mo, m)
    modifies m
    ensures compared <==> AllSearchable(Bound(mo, sd, roots), engs)
    ensures !compared ==> !executed && m.State() == old(m.State())
    ensures compared ==> |diff.flags| == |Bound(mo, sd, roots)| && Truthful(Bound(mo, sd, roots), diff.flags, engs)
    ensures compared ==> diff.subtreesWithEngs == PlanOf(mo, sd, roots, diff.flags).withheld
    ensures compared ==> (executed <==> SafePlan(mo, sd, PlanOf(mo, sd, roots, diff.flags)))
    ensures compared && diff.subtreesWithEngs == [] ==> executed
    ensures executed ==> (m.parents, m.names) == Final(mo, sd, roots, diff.flags)
    ensures compared ==> ((forall u :: u in ParentsOf(sd) ==> HasSdValues(m, sd, u)) <==> diff.subtreesWithEngs == [])
    ensures AllSafe(m.history, |old(m.history)|, mo.uuid)
  {
    diff := new OrgTreeDiff(mo, sd, roots, engs);
    compared := diff.CompareTrees();
    executed := false;
    if compared {
      ghost var steps;
      executed, steps := ExecutePlan(diff, m);
      if diff.subtreesWithEngs == [] {
        NothingWithheldIsSafe(mo, sd, roots, diff.flags);
        AgreesUnlessWithheld(mo, sd, roots, diff.flags, m);
      } else {
        WithheldStaysBehind(mo, sd, roots, diff.flags, m, steps);
      }
    }
  }

  // However far an execution gets, a unit held back keeps its values in MO.
  lemma WithheldStaysBehind(mo: Node, sd: Node, roots: seq<Uuid>, flags: seq<bool>, m: MoUnits, steps: nat)
    requires Comparable(mo, sd) && |flags| == |Bound(mo, sd, roots)|
    requires var plan := PlanOf(mo, sd, roots, flags);
      && plan.withheld != [] && steps <= |plan.updates|
      && exists past :: Reached(m.State(), RelationsOf(mo, sd), past, Keys(plan.adds) + Keys(plan.updates[..steps]))
    ensures exists u :: u in ParentsOf(sd) && !HasSdValues(m, sd, u)
  {
    var plan := PlanOf(mo, sd, roots, flags);
    var n := plan.withheld[0];
    assert n in plan.withheld;
    PlanMembers(mo, sd, roots, flags, n);
    UnitInPlan(mo, sd, roots, flags, n);
    UnitsAndDict(sd);
    assert n.unit.uuid !in Keys(plan.updates[..steps]) by {
      assert forall w :: w in plan.updates[..steps] ==> w in plan.updates;
    }
    assert n.unit.uuid in ParentsOf(sd) && !HasSdValues(m, sd, n.unit.uuid);
  }

  ghost predicate HasSdValues(m: MoUnits, sd: Node, u: Uuid)
    requires u in ParentsOf(sd)
    reads m
  {
    && u in m.parents && m.parents[u] == ParentsOf(sd)[u]
    && u in m.names && m.names[u] == NamesOf(sd)[u]
  }

  lemma AgreesUnlessWithheld(mo: Node, sd: Node, roots: seq<Uuid>, flags: seq<bool>, m: MoUnits)
    requires Comparable(mo, sd) && |flags| == |Bound(mo, sd, roots)|
    requires (m.parents, m.names) == Final(mo, sd, roots, flags)
    ensures (forall u :: u in ParentsOf(sd) ==> HasSdValues(m, sd, u)) <==> PlanOf(mo, sd, roots, flags).withheld == []
  {
    var withheld := PlanOf(mo, sd, roots, flags).withheld;
    forall u | u in ParentsOf(sd) ensures HasSdValues(m, sd, u) <==> u !in Keys(withheld) {
      FinalAgrees(mo, sd, roots, flags, u);
    }
    if withheld != [] {
      assert withheld[0] in withheld;
      PlanMembers(mo, sd, roots, flags, withheld[0]);
      UnitsAndDict(sd);
      assert withheld[0].unit.uuid in ParentsOf(sd);
    }
  }
}
