// Completing the SD tree with the departments no reference names, taken in arbitrary order
// (sdtoolplus/sd/tree.py:261-319 and 364-414).
module ExtraUnits {
  import opened Common
  import opened Forest
  import opened Reparenting
  import opened SdTree

  // What the look-ups of parents are about: SD's answer for each unit (none for a unit SD gives
  // no parent or fails to answer for), the institution, the units of the tree at first, the units
  // the references name, not all of which need be in the tree, and the departments.
  datatype Lookups = Lookups(parent: map<Uuid, Uuid>, institution: Uuid, root: Uuid, tree: Parents,
                             named: set<Uuid>, departments: set<Uuid>)

  // The answers that lead on to another unit; a unit can be its own parent in SD.
  function Onward(l: Lookups): Parents { map u | u in l.parent && l.parent[u] != u :: l.parent[u] }

  // Where looking further up ends well.
  predicate Known(l: Lookups, u: Uuid) { u == l.institution || u == l.root || u in l.tree }

  // The units above u lead to the institution or into the tree.
  ghost predicate Reaches(l: Lookups, u: Uuid)
    requires Acyclic(Onward(l))
    decreases Depth(Onward(l), u)
  {
    u in Onward(l) &&
    (DepthOfParent(Onward(l), u);
     Known(l, Onward(l)[u]) || Reaches(l, Onward(l)[u]))
  }

  // They do so by way of a unit that is no department, for which there is no data.
  ghost predicate Blocked(l: Lookups, u: Uuid)
    requires Acyclic(Onward(l))
    decreases Depth(Onward(l), u)
  {
    u in Onward(l) && !Known(l, Onward(l)[u]) && Reaches(l, Onward(l)[u]) &&
    (DepthOfParent(Onward(l), u);
     Onward(l)[u] !in l.departments || Blocked(l, Onward(l)[u]))
  }

  // ----- the same in terms of SD's answers, step by step

  // Asking SD for the parent k times in a row, from u on, leads to v. A unit that is its own
  // parent leads nowhere.
  ghost predicate LeadsUp(l: Lookups, u: Uuid, v: Uuid, k: nat)
    decreases k
  {
    if k == 0 then v == u
    else u in l.parent && l.parent[u] != u && LeadsUp(l, l.parent[u], v, k - 1)
  }

  // v is the institution, the root or a unit of the tree.
  ghost predicate IsDestination(l: Lookups, v: Uuid) {
    v == l.institution || v == l.root || v in l.tree
  }

  ghost predicate Arrives(l: Lookups, u: Uuid) {
    exists v, k: nat :: k > 0 && LeadsUp(l, u, v, k) && IsDestination(l, v)
  }

  // On the way, and before the first destination, there is a unit without data.
  ghost predicate MeetsNoData(l: Lookups, u: Uuid) {
    exists v, k: nat :: k > 0 && LeadsUp(l, u, v, k) && v !in l.departments && Arrives(l, v) && NoneBefore(l, u, k)
  }

  // None of the first k units above u is a destination.
  ghost predicate NoneBefore(l: Lookups, u: Uuid, k: nat) {
    forall v, j: nat :: 0 < j <= k && LeadsUp(l, u, v, j) ==> !IsDestination(l, v)
  }

  lemma {:induction false} ReachesIfArrives(l: Lookups, u: Uuid, v: Uuid, k: nat)
    requires Acyclic(Onward(l)) && k > 0 && LeadsUp(l, u, v, k) && IsDestination(l, v)
    ensures Reaches(l, u)
    decreases k
  {
    DepthOfParent(Onward(l), u);
    if k == 1 {
      assert LeadsUp(l, l.parent[u], v, 0);
    } else {
      ReachesIfArrives(l, l.parent[u], v, k - 1);
    }
  }

  // Reaching the tree is what it says.
  lemma {:induction false} ReachesIffArrives(l: Lookups, u: Uuid)
    requires Acyclic(Onward(l))
    ensures Reaches(l, u) <==> Arrives(l, u)
    decreases Depth(Onward(l), u)
  {
    if v, k: nat :| k > 0 && LeadsUp(l, u, v, k) && IsDestination(l, v) {
      ReachesIfArrives(l, u, v, k);
    }
    if Reaches(l, u) {
      var p := Onward(l)[u];
      DepthOfParent(Onward(l), u);
      assert LeadsUp(l, p, p, 0) && LeadsUp(l, u, p, 1);
      if !IsDestination(l, p) {
        ReachesIffArrives(l, p);
        var v, k: nat :| k > 0 && LeadsUp(l, p, v, k) && IsDestination(l, v);
        assert LeadsUp(l, u, v, k + 1);
      }
    }
  }

  lemma NoneBeforeNext(l: Lookups, u: Uuid, k: nat)
    requires u in Onward(l)
    ensures NoneBefore(l, u, k + 1) <==> !IsDestination(l, l.parent[u]) && NoneBefore(l, l.parent[u], k)
  {
    var p := l.parent[u];
    assert LeadsUp(l, p, p, 0) && LeadsUp(l, u, p, 1);
    if NoneBefore(l, u, k + 1) {
      forall v, j: nat | 0 < j <= k && LeadsUp(l, p, v, j) ensures !IsDestination(l, v) {
        assert LeadsUp(l, u, v, j + 1);
      }
    }
    if !IsDestination(l, p) && NoneBefore(l, p, k) {
      forall v, j: nat | 0 < j <= k + 1 && LeadsUp(l, u, v, j) ensures !IsDestination(l, v) {
        assert LeadsUp(l, p, v, j - 1);
        assert j == 1 ==> v == p;
      }
    }
  }

  lemma {:induction false} BlockedIfMeets(l: Lookups, u: Uuid, v: Uuid, k: nat)
    requires Acyclic(Onward(l)) && k > 0 && LeadsUp(l, u, v, k)
    requires v !in l.departments && Arrives(l, v) && NoneBefore(l, u, k)
    ensures Blocked(l, u) && Reaches(l, u)
    decreases k
  {
    var p := l.parent[u];
    DepthOfParent(Onward(l), u);
    NoneBeforeNext(l, u, k - 1);
    if k == 1 {
      assert v == p;
      ReachesIffArrives(l, p);
    } else {
      BlockedIfMeets(l, p, v, k - 1);
    }
  }

  lemma {:induction false} BlockedIffMeets(l: Lookups, u: Uuid)
    requires Acyclic(Onward(l))
    ensures Blocked(l, u) <==> MeetsNoData(l, u)
    decreases Depth(Onward(l), u)
  {
    if v, k: nat :| k > 0 && LeadsUp(l, u, v, k) && v !in l.departments && Arrives(l, v) && NoneBefore(l, u, k) {
      BlockedIfMeets(l, u, v, k);
    }
    if Blocked(l, u) {
      var p := Onward(l)[u];
      DepthOfParent(Onward(l), u);
      assert LeadsUp(l, p, p, 0) && LeadsUp(l, u, p, 1);
      ReachesIffArrives(l, p);
      if p !in l.departments {
        NoneBeforeNext(l, u, 0);
        assert MeetsNoData(l, u);
      } else {
        BlockedIffMeets(l, p);
        var v, k: nat :| k > 0 && LeadsUp(l, p, v, k) && v !in l.departments && Arrives(l, v) && NoneBefore(l, p, k);
        assert LeadsUp(l, u, v, k + 1);
        NoneBeforeNext(l, u, k);
      }
    }
  }

  // ----- the departments to be added

  // The departments to be added, sdtoolplus/sd/tree.py:206-237.
  predicate IsExtra(l: Lookups, u: Uuid) { u in l.departments && u !in l.named }

  // Looking for the place of a department to be added goes up by way of u.
  ghost predicate LedTo(l: Lookups, u: Uuid, n: nat)
    decreases n
  {
    if n == 0 then IsExtra(l, u)
    else !Known(l, u) && exists c :: c in Onward(l) && Onward(l)[c] == u && LedTo(l, c, n - 1)
  }

  ghost predicate Led(l: Lookups, u: Uuid) {
    exists n: nat :: LedTo(l, u, n)
  }

  lemma LedFurther(l: Lookups, u: Uuid)
    requires Led(l, u) && u in Onward(l) && !Known(l, Onward(l)[u])
    ensures Led(l, Onward(l)[u])
  {
    var n: nat :| LedTo(l, u, n);
    assert LedTo(l, Onward(l)[u], n + 1);
  }

  // The departments that may get into the tree.
  ghost predicate Addable(l: Lookups, u: Uuid) { u in l.departments && u !in l.tree && Led(l, u) }

  lemma ExtraIsAddable(l: Lookups, u: Uuid)
    requires IsExtra(l, u) && l.tree.Keys <= l.named
    ensures Addable(l, u)
  {
    assert LedTo(l, u, 0);
  }

  // The unit to hang u below.
  function NewParent(l: Lookups, u: Uuid): Uuid
    requires u in Onward(l)
  {
    if Onward(l)[u] == l.institution then l.root else Onward(l)[u]
  }

  // The tree has grown by departments that reach it, each below the parent SD gives it.
  ghost predicate Grown(parents: Parents, inserted: seq<Uuid>, l: Lookups)
    requires Acyclic(Onward(l))
  {
    && l.tree.Keys <= parents.Keys
    && (forall u :: u in parents ==> u in l.tree || u in inserted)
    && (forall u :: u in l.tree ==> parents[u] == l.tree[u])
    && (forall u :: u in inserted ==> u in parents && Addable(l, u) && Reaches(l, u) && !Blocked(l, u))
    && (forall u :: u in inserted ==> parents[u] == NewParent(l, u) && Present(parents, l, NewParent(l, u)))
    && Distinct(inserted)
  }

  ghost predicate Present(parents: Parents, l: Lookups, u: Uuid) { u == l.root || u in parents }

  lemma NodeAdded(parents: Parents, inserted: seq<Uuid>, l: Lookups, u: Uuid)
    requires Acyclic(Onward(l)) && Grown(parents, inserted, l) && u !in parents && Addable(l, u)
    requires Reaches(l, u) && !Blocked(l, u) && Present(parents, l, NewParent(l, u))
    ensures Grown(parents[u := NewParent(l, u)], inserted + [u], l)
  {
    var parents' := parents[u := NewParent(l, u)];
    var inserted' := inserted + [u];
    assert u !in inserted;
    forall v | v in parents' ensures v in l.tree || v in inserted' {
      assert inserted'[|inserted|] == u;
      assert v in inserted ==> v in inserted';
    }
    forall v | v in inserted'
      ensures parents'[v] == NewParent(l, v) && Present(parents', l, NewParent(l, v))
    {
      assert v == u || v in inserted;
    }
  }

  datatype Found = Node(uuid: Uuid) | Nothing | NoData

  // sdtoolplus/sd/tree.py:261-319; NoData where the source raises an exception.
  method GetParentNode(u: Uuid, tree: Tree, extra: set<Uuid>, l: Lookups) returns (r: Found, left: set<Uuid>)
    requires Acyclic(Onward(l)) && tree.root == l.root && l.root !in l.departments
    requires Grown(tree.parents, tree.inserted, l)
    requires u !in tree.parents && extra !! tree.parents.Keys && Led(l, u)
    modifies tree
    ensures Grown(tree.parents, tree.inserted, l) && old(tree.parents).Keys <= tree.parents.Keys
    ensures u !in tree.parents
    ensures r == NoData <==> Blocked(l, u)
    ensures r == Nothing <==> !Reaches(l, u)
    ensures (r == NoData <==> MeetsNoData(l, u)) && (r == Nothing <==> !Arrives(l, u))
    ensures r.Node? ==>
      u in l.parent && r.uuid == if l.parent[u] == l.institution then l.root else l.parent[u]
    ensures r.Node? ==> r.uuid == NewParent(l, u) && Present(tree.parents, l, r.uuid)
    ensures left <= extra && left !! tree.parents.Keys
    ensures r != NoData ==> forall e :: e in extra && e !in left ==> e in tree.parents || !Reaches(l, e)
    decreases Depth(Onward(l), u)
  {
    left := extra;
    ReachesIffArrives(l, u);
    BlockedIffMeets(l, u);
    if u !in l.parent || l.parent[u] == u {
      return Nothing, left;
    }
    var p := l.parent[u];
    DepthOfParent(Onward(l), u);
    if p == l.institution {
      return Node(l.root), left;
    }
    if p == l.root || p in tree.parents {
      return Node(p), left;
    }
    LedFurther(l, u);
    r, left := GetParentNode(p, tree, left, l);
    left := left - {p};
    if !r.Node? {
      return;
    }
    if p !in l.departments {
      return NoData, left;
    }
    NodeAdded(tree.parents, tree.inserted, l, p);
    tree.Attach(p, r.uuid);
    return Node(p), left;
  }

  // What remains to be done: every department to be added is in the tree, waiting, or out of reach.
  ghost predicate Pending(extra: set<Uuid>, parents: Parents, l: Lookups)
    requires Acyclic(Onward(l))
  {
    && extra !! parents.Keys && (forall e :: e in extra ==> IsExtra(l, e))
    && forall e :: IsExtra(l, e) ==> e in extra || e in parents || !Reaches(l, e)
  }

  // The tree has got exactly the departments that reach it, each once and below its SD parent.
  ghost predicate Completed(parents: Parents, inserted: seq<Uuid>, l: Lookups)
    requires Acyclic(Onward(l))
  {
    && Distinct(inserted)
    && (forall u :: u in inserted <==> Addable(l, u) && Reaches(l, u))
    && (forall u :: u in parents <==> u in l.tree || u in inserted)
    && (forall u :: u in l.tree ==> parents[u] == l.tree[u])
    && (forall u :: u in inserted ==> parents[u] == NewParent(l, u))
  }

  // Some department reaches the tree by way of one SD gives no data for.
  ghost predicate SomeBlocked(l: Lookups)
    requires Acyclic(Onward(l))
  {
    exists e :: IsExtra(l, e) && Blocked(l, e)
  }

  // What a department to be added is led to past a unit without data is blocked.
  lemma {:induction false} BlockedAbove(l: Lookups, u: Uuid, n: nat)
    requires Acyclic(Onward(l)) && LedTo(l, u, n) && Reaches(l, u) && (u !in l.departments || Blocked(l, u))
    ensures SomeBlocked(l)
    decreases n
  {
    if n == 0 {
      assert IsExtra(l, u) && Blocked(l, u);
    } else {
      var c :| c in Onward(l) && Onward(l)[c] == u && LedTo(l, c, n - 1);
      DepthOfParent(Onward(l), c);
      BlockedAbove(l, c, n - 1);
    }
  }

  // With nothing left to do, all that reaches the tree is in it.
  lemma {:induction false} ReachingIsIn(parents: Parents, inserted: seq<Uuid>, l: Lookups, u: Uuid, n: nat)
    requires Acyclic(Onward(l)) && Grown(parents, inserted, l) && Pending({}, parents, l) && l.tree.Keys <= l.named
    requires LedTo(l, u, n) && Reaches(l, u)
    ensures u in parents && u !in l.tree
    decreases n
  {
    if n == 0 {
    } else {
      var c :| c in Onward(l) && Onward(l)[c] == u && LedTo(l, c, n - 1);
      DepthOfParent(Onward(l), c);
      ReachingIsIn(parents, inserted, l, c, n - 1);
      assert c in inserted && parents[c] == NewParent(l, c) == u;
    }
  }

  lemma NothingPending(parents: Parents, inserted: seq<Uuid>, l: Lookups)
    requires Acyclic(Onward(l)) && Grown(parents, inserted, l) && Pending({}, parents, l) && l.tree.Keys <= l.named
    ensures Completed(parents, inserted, l) && !SomeBlocked(l)
  {
    forall u | Addable(l, u) && Reaches(l, u) ensures u in inserted {
      var n: nat :| LedTo(l, u, n);
      ReachingIsIn(parents, inserted, l, u, n);
    }
    forall u | IsExtra(l, u) ensures !Blocked(l, u) {
      if Reaches(l, u) {
        ExtraIsAddable(l, u);
        assert u in inserted;
      }
    }
  }

  // Taking one unit from those waiting.
  method AddExtraUnit(u: Uuid, tree: Tree, extra: set<Uuid>, l: Lookups) returns (ok: bool, left: set<Uuid>)
    requires Acyclic(Onward(l)) && tree.root == l.root && l.root !in l.departments
    requires Grown(tree.parents, tree.inserted, l) && Pending(extra, tree.parents, l) && u in extra
    requires l.tree.Keys <= l.named
    modifies tree
    ensures ok <==> !Blocked(l, u)
    ensures ok ==> Grown(tree.parents, tree.inserted, l) && Pending(left, tree.parents, l)
    ensures ok ==> left <= extra - {u}
  {
    var r;
    ExtraIsAddable(l, u);
    r, left := GetParentNode(u, tree, extra - {u}, l);
    if r == NoData {
      return false, left;
    }
    if r.Node? {
      NodeAdded(tree.parents, tree.inserted, l, u);
      tree.Attach(u, r.uuid);
    }
    return true, left;
  }

  // A unit of the tree at first hangs where it hung; any other below the parent SD gives it, or
  // below the root if that is the institution.
  ghost predicate HangsRight(parents: Parents, l: Lookups, u: Uuid)
    requires u in parents
  {
    if u in l.tree then parents[u] == l.tree[u]
    else u in l.parent && parents[u] == if l.parent[u] == l.institution then l.root else l.parent[u]
  }

  lemma BlockedAreThose(refs: seq<DepRef>, l: Lookups)
    requires Acyclic(Onward(l)) && l.named == NamedIn(refs)
    ensures SomeBlocked(l) <==> exists u :: u in l.departments && u !in NamedIn(refs) && MeetsNoData(l, u)
  {
    forall u ensures Blocked(l, u) <==> MeetsNoData(l, u) {
      BlockedIffMeets(l, u);
    }
    if u :| u in l.departments && u !in NamedIn(refs) && MeetsNoData(l, u) {
      assert IsExtra(l, u) && Blocked(l, u);
    }
  }

  lemma CompletedAreThose(refs: seq<DepRef>, parents: Parents, inserted: seq<Uuid>, l: Lookups)
    requires Acyclic(Onward(l)) && l.tree.Keys <= l.named == NamedIn(refs) && Completed(parents, inserted, l)
    ensures forall u :: u in l.departments && u !in NamedIn(refs) ==> (u in parents <==> Arrives(l, u))
    ensures forall u :: u in parents ==> HangsRight(parents, l, u)
  {
    forall u | u in l.departments && u !in NamedIn(refs) ensures u in parents <==> Arrives(l, u) {
      ReachesIffArrives(l, u);
      ExtraIsAddable(l, u);
    }
    forall u | u in parents ensures HangsRight(parents, l, u) {
      assert u !in l.tree ==> u in inserted;
    }
  }

  // sdtoolplus/sd/tree.py:364-414. Whichever unit is taken next, it ends; it raises an exception
  // if and only if some department is blocked, and otherwise completes the tree.
  method BuildExtraTree(tree: Tree, refs: seq<DepRef>, l: Lookups) returns (ok: bool)
    requires Acyclic(Onward(l)) && tree.root == l.root && l.root !in l.departments
    requires tree.parents == l.tree && l.tree.Keys <= l.named == NamedIn(refs) && tree.inserted == []
    modifies tree
    ensures ok <==> !SomeBlocked(l)
    ensures ok ==> Completed(tree.parents, tree.inserted, l)
    ensures ok <==> forall u :: u in l.departments && u !in NamedIn(refs) ==> !MeetsNoData(l, u)
    ensures ok ==> forall u :: u in l.departments && u !in NamedIn(refs) ==> (u in tree.parents <==> Arrives(l, u))
    ensures ok ==> forall u :: u in tree.parents ==> HangsRight(tree.parents, l, u)
  {
    BlockedAreThose(refs, l);
    var extra := GetExtraNodes(refs, l.departments);
    ok := true;
    while extra != {}
      invariant ok && Grown(tree.parents, tree.inserted, l) && Pending(extra, tree.parents, l)
      decreases extra
    {
      var u :| u in extra;
      ok, extra := AddExtraUnit(u, tree, extra, l);
      if !ok {
        return;
      }
    }
    NothingPending(tree.parents, tree.inserted, l);
    CompletedAreThose(refs, tree.parents, tree.inserted, l);
  }

  // What completing the tree built from the references is about.
  function FullLookups(refs: seq<DepRef>, departments: set<Uuid>, root: Uuid, parent: map<Uuid, Uuid>, institution: Uuid)
    : (l: Lookups)
    ensures Onward(l) == Onward(Lookups(parent, institution, root, map[], {}, departments))
  {
    Lookups(parent, institution, root, AttachedAll(refs, root), NamedIn(refs), departments)
  }

  // sdtoolplus/sd/importer.py:101-114: both parts, for any references and answers; an exception
  // exactly if one of the parts raises one.
  method BuildFullTree(refs: seq<DepRef>, departments: set<Uuid>, root: Uuid, parent: map<Uuid, Uuid>, institution: Uuid)
    returns (ok: bool, tree: Tree)
    requires root !in departments && Acyclic(Onward(Lookups(parent, institution, root, map[], {}, departments)))
    ensures ok <==> AllFit(refs, departments, root)
                    && !SomeBlocked(FullLookups(refs, departments, root, parent, institution))
    ensures ok ==> Completed(tree.parents, tree.inserted, FullLookups(refs, departments, root, parent, institution))
  {
    ok, tree := BuildTree(refs, departments, root, map[]);
    if ok {
      AttachedAreNamed(refs, root);
      tree.inserted := [];
      ok := BuildExtraTree(tree, refs, FullLookups(refs, departments, root, parent, institution));
    }
  }

  // The completed tree does not depend on the order in which the units were taken.
  lemma OrderDoesNotMatter(l: Lookups, parents: Parents, inserted: seq<Uuid>, parents': Parents, inserted': seq<Uuid>)
    requires Acyclic(Onward(l))
    requires Completed(parents, inserted, l) && Completed(parents', inserted', l)
    ensures parents == parents'
  {
    assert forall u :: u in inserted <==> u in inserted';
  }

  // It has no cycle, and every parent is in it.
  lemma CompletedIsForest(l: Lookups, parents: Parents, inserted: seq<Uuid>)
    requires Acyclic(Onward(l)) && Completed(parents, inserted, l)
    requires Acyclic(l.tree) && NoneMissing(l.tree, l.root) && l.root !in l.tree && l.root !in l.departments
    requires !SomeBlocked(l)
    ensures Acyclic(parents) && NoneMissing(parents, l.root)
  {
    forall u | u in parents
      ensures CompletedRank(l, inserted, parents[u]) < CompletedRank(l, inserted, u)
      ensures parents[u] == l.root || parents[u] in parents
    {
      CompletedRankDecreases(l, parents, inserted, u);
    }
    RankedIsAcyclic(parents, u => CompletedRank(l, inserted, u));
  }

  function CompletedRank(l: Lookups, inserted: seq<Uuid>, u: Uuid): nat {
    if u in l.tree then 1 + Depth(l.tree, u)
    else if u in inserted then 2 + |l.tree| + Depth(Onward(l), u)
    else 0
  }

  lemma CompletedRankDecreases(l: Lookups, parents: Parents, inserted: seq<Uuid>, u: Uuid)
    requires Acyclic(Onward(l)) && Completed(parents, inserted, l) && !SomeBlocked(l) && u in parents
    requires Acyclic(l.tree) && NoneMissing(l.tree, l.root) && l.root !in l.tree && l.root !in l.departments
    ensures CompletedRank(l, inserted, parents[u]) < CompletedRank(l, inserted, u)
    ensures parents[u] == l.root || parents[u] in parents
  {
    if u in l.tree {
      DepthOfParent(l.tree, u);
    } else {
      DepthOfParent(Onward(l), u);
      NotBlocked(l, u);
      ParentAdded(l, u);
      DepthAtMostSize(l.tree, parents[u]);
    }
  }

  // Where no department is blocked, nothing they are led to is.
  lemma NotBlocked(l: Lookups, u: Uuid)
    requires Acyclic(Onward(l)) && Led(l, u) && Reaches(l, u) && !SomeBlocked(l)
    ensures !Blocked(l, u)
  {
    var n: nat :| LedTo(l, u, n);
    if Blocked(l, u) {
      BlockedAbove(l, u, n);
    }
  }

  // A unit added hangs below the root, the tree at first or another unit added.
  lemma ParentAdded(l: Lookups, u: Uuid)
    requires Acyclic(Onward(l)) && Addable(l, u) && Reaches(l, u) && !Blocked(l, u)
    ensures var p := NewParent(l, u);
      p == l.root || p in l.tree || (p == Onward(l)[u] && Addable(l, p) && Reaches(l, p))
  {
    DepthOfParent(Onward(l), u);
    if !Known(l, Onward(l)[u]) {
      LedFurther(l, u);
    }
  }

  // The full tree has no cycle and no missing parent, also when references disagree.
  lemma FullTreeIsForest(refs: seq<DepRef>, l: Lookups, parents: Parents, inserted: seq<Uuid>)
    requires l.tree == AttachedAll(refs, l.root) && l.root !in l.departments && l.root !in NamedIn(refs)
    requires forall i :: 0 <= i < |refs| ==> NoneAboveItself(refs[i])
    requires Acyclic(Onward(l)) && Completed(parents, inserted, l) && !SomeBlocked(l)
    ensures Acyclic(parents) && NoneMissing(parents, l.root)
  {
    BuiltIsForest(refs, l.root);
    CompletedIsForest(l, parents, inserted);
  }
}
