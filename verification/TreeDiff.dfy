// Comparing the SD tree with the MO tree (sdtoolplus/diff_org_trees.py:55-245).
module TreeDiff {
  import opened Common
  import opened Forest
  import opened OrgTrees
  import opened SubtreeEngagements

  // sdtoolplus/diff_org_trees.py:146-178
  predicate ShouldBeUpdated(sd: Nodes, mo: Nodes) {
    mo.parent.uuid != sd.parent.uuid || mo.unit.name != sd.unit.name
  }

  // The SD units MO does not have, in the order of the SD tree.
  function Additions(sd: seq<Nodes>, mo: map<Uuid, Nodes>): seq<Nodes> {
    Filter(sd, (n: Nodes) => n.unit.uuid !in mo)
  }

  // The units of both trees whose parent or name differ.
  function Changes(sd: seq<Nodes>, mo: map<Uuid, Nodes>): seq<Nodes> {
    Filter(sd, (n: Nodes) => n.unit.uuid in mo && ShouldBeUpdated(n, mo[n.unit.uuid]))
  }

  // One of roots stands above u.
  ghost predicate InSubtreeOf(parents: Parents, u: Uuid, roots: seq<Uuid>) {
    exists k: nat :: k > 0 && Reaches(parents, u, k, roots)
  }

  ghost predicate Reaches(parents: Parents, u: Uuid, k: nat, roots: seq<Uuid>) {
    Up(parents, u, k).Some? && Up(parents, u, k).value in roots
  }

  // sdtoolplus/diff_org_trees.py:55-71, walking up from u.
  function InObsoleteUnitsSubtree(parents: Parents, u: Uuid, roots: seq<Uuid>): bool
    decreases |parents|
  {
    u in parents && (parents[u] in roots || InObsoleteUnitsSubtree(parents - {u}, parents[u], roots))
  }

  lemma {:induction false} ObsoleteIsBelowRoot(parents: Parents, u: Uuid, roots: seq<Uuid>)
    requires Acyclic(parents)
    ensures InObsoleteUnitsSubtree(parents, u, roots) <==> InSubtreeOf(parents, u, roots)
    decreases |parents|
  {
    if u !in parents {
    } else {
      var p := parents[u];
      var rest := parents - {u};
      forall v: Uuid, k: nat | k > 0 ensures Up(rest, v, k) != Some(v) {
        if Up(rest, v, k).Some? {
          UpInPart(parents, {u}, v, k);
        }
      }
      ObsoleteIsBelowRoot(rest, p, roots);
      assert Up(parents, parents[u], 0) == Some(p);
      forall k: nat ensures Up(rest, p, k) == Up(parents, p, k) {
        AboveParent(parents, u, p, k);
      }
      if InSubtreeOf(parents, u, roots) && p !in roots {
        var k: nat :| k > 0 && Reaches(parents, u, k, roots);
        assert Up(parents, u, k) == Up(parents, p, k - 1);
        assert k > 1 by {
          if k == 1 { assert Up(parents, p, 0) == Some(p); }
        }
        assert Reaches(rest, p, k - 1, roots);
      }
      if p in roots {
        assert Up(parents, p, 0) == Some(p) && Up(parents, u, 1) == Up(parents, p, 0);
        assert Reaches(parents, u, 1, roots);
      } else if InSubtreeOf(rest, p, roots) {
        var k: nat :| k > 0 && Reaches(rest, p, k, roots);
        assert Up(parents, u, k + 1) == Up(parents, p, k);
        assert Reaches(parents, u, k + 1, roots);
      }
    }
  }

  // In an acyclic relation nothing above a unit's parent leads back through the unit.
  lemma {:induction false} AboveParent(parents: Parents, u: Uuid, v: Uuid, k: nat)
    requires Acyclic(parents) && u in parents
    requires exists j: nat :: Up(parents, parents[u], j) == Some(v)
    ensures Up(parents - {u}, v, k) == Up(parents, v, k)
    decreases k
  {
    var j: nat :| Up(parents, parents[u], j) == Some(v);
    assert Up(parents, u, j + 1) == Some(v);
    if k == 0 || v !in parents {
    } else {
      UpOnce(parents, parents[u], j);
      AboveParent(parents, u, parents[v], k - 1);
    }
  }

  function Straight(changes: seq<Nodes>, parents: Parents, roots: seq<Uuid>): seq<Nodes> {
    Filter(changes, (n: Nodes) => !InObsoleteUnitsSubtree(parents, n.unit.uuid, roots))
  }

  function ToObsolete(changes: seq<Nodes>, parents: Parents, roots: seq<Uuid>): seq<Nodes> {
    Filter(changes, (n: Nodes) => InObsoleteUnitsSubtree(parents, n.unit.uuid, roots))
  }

  // The elements of xs whose flag is b, in order.
  function Selected(xs: seq<Nodes>, flags: seq<bool>, b: bool): seq<Nodes>
    requires |xs| == |flags|
  {
    if xs == [] then []
    else
      var rest := Selected(xs[..|xs| - 1], flags[..|flags| - 1], b);
      if flags[|flags| - 1] == b then rest + [xs[|xs| - 1]] else rest
  }

  // What a comparison comes to, given which units bound for obsolete subtrees are held back.
  datatype Plan = Plan(adds: seq<Nodes>, updates: seq<Nodes>, withheld: seq<Nodes>)

  function Bound(mo: Node, sd: Node, roots: seq<Uuid>): seq<Nodes> {
    ToObsolete(Changes(Units(sd), Dict(Units(mo))), ParentsOf(sd), roots)
  }

  function PlanOf(mo: Node, sd: Node, roots: seq<Uuid>, flags: seq<bool>): Plan
    requires |flags| == |Bound(mo, sd, roots)|
  {
    var bound := Bound(mo, sd, roots);
    Plan(Additions(Units(sd), Dict(Units(mo))),
         Straight(Changes(Units(sd), Dict(Units(mo))), ParentsOf(sd), roots) + Selected(bound, flags, false),
         Selected(bound, flags, true))
  }

  lemma PartsAreAscending(mo: Node, sd: Node, roots: seq<Uuid>)
    requires WellFormed(sd)
    ensures Ascending(Additions(Units(sd), Dict(Units(mo))), Uuids(Units(sd)))
    ensures Ascending(Changes(Units(sd), Dict(Units(mo))), Uuids(Units(sd)))
    ensures Ascending(Straight(Changes(Units(sd), Dict(Units(mo))), ParentsOf(sd), roots), Uuids(Units(sd)))
    ensures Ascending(Bound(mo, sd, roots), Uuids(Units(sd)))
  {
    var d := Dict(Units(mo));
    var keys := Uuids(Units(sd));
    var changes := Changes(Units(sd), d);
    UnitsAndDict(sd);
    FilterKeepsOrder(Units(sd), (n: Nodes) => n.unit.uuid !in d, keys);
    FilterKeepsOrder(Units(sd), (n: Nodes) => n.unit.uuid in d && ShouldBeUpdated(n, d[n.unit.uuid]), keys);
    FilterKeepsOrder(changes, (n: Nodes) => !InObsoleteUnitsSubtree(ParentsOf(sd), n.unit.uuid, roots), keys);
    FilterKeepsOrder(changes, (n: Nodes) => InObsoleteUnitsSubtree(ParentsOf(sd), n.unit.uuid, roots), keys);
  }

  // ----- which units are held back

  // The search over the unit's subtree meets nothing MO does not know before it ends.
  ghost predicate Searchable(n: Nodes, engs: Engagements) {
    Scan(Subtree(n.unit), engs) != UnitUnknown
  }

  ghost predicate AllSearchable(bound: seq<Nodes>, engs: Engagements) {
    forall i :: 0 <= i < |bound| ==> Searchable(bound[i], engs)
  }

  // The search over some earlier unit's subtree looks at the i-th unit.
  ghost predicate VisitedBefore(bound: seq<Nodes>, i: nat, engs: Engagements)
    requires i < |bound|
  {
    exists j :: 0 <= j < i && bound[i].unit in Visited(Subtree(bound[j].unit), engs)
  }

  // The i-th unit is held back: there are engagements at or below it, and it is engaged itself
  // or no earlier search has looked at it.
  ghost predicate HeldBack(bound: seq<Nodes>, i: nat, engs: Engagements)
    requires i < |bound|
  {
    && SomeEngaged(Subtree(bound[i].unit), engs)
    && (Lookup(engs, bound[i].unit.uuid) == Yes || !VisitedBefore(bound, i, engs))
  }

  // The flags say exactly which units are held back.
  ghost predicate Truthful(bound: seq<Nodes>, flags: seq<bool>, engs: Engagements) {
    |flags| <= |bound| && forall i: nat :: i < |flags| ==> (flags[i] <==> HeldBack(bound, i, engs))
  }

  // A unit is answered rightly exactly if nothing is engaged at or below it, it is engaged
  // itself, or no earlier search has looked at it.
  lemma AnsweredRightlyIff(bound: seq<Nodes>, flags: seq<bool>, engs: Engagements, i: nat)
    requires Truthful(bound, flags, engs) && i < |flags|
    ensures (flags[i] <==> SomeEngaged(Subtree(bound[i].unit), engs))
       <==> !SomeEngaged(Subtree(bound[i].unit), engs) || Lookup(engs, bound[i].unit.uuid) == Yes
            || !VisitedBefore(bound, i, engs)
  {
    assert flags[i] <==> HeldBack(bound, i, engs);
  }

  // The i-th unit is in no earlier unit's subtree.
  ghost predicate BelowNone(bound: seq<Nodes>, i: nat)
    requires i < |bound|
  {
    forall j :: 0 <= j < i ==> bound[i].unit.uuid !in UuidsOf(Subtree(bound[j].unit))
  }

  // In particular: when no unit bound for an obsolete subtree lies below another, exactly those
  // with engagements in their subtree are held back.
  lemma ExactWhenApart(bound: seq<Nodes>, flags: seq<bool>, engs: Engagements)
    requires |flags| == |bound| && Truthful(bound, flags, engs)
    requires forall i: nat :: i < |bound| ==> BelowNone(bound, i)
    ensures forall i: nat :: i < |bound| ==> (flags[i] <==> SomeEngaged(Subtree(bound[i].unit), engs))
  {
    forall i: nat | i < |bound| ensures flags[i] <==> SomeEngaged(Subtree(bound[i].unit), engs) {
      AnsweredRightlyIff(bound, flags, engs, i);
      assert BelowNone(bound, i);
      forall j | 0 <= j < i ensures bound[i].unit !in Visited(Subtree(bound[j].unit), engs) {
        VisitedEndsAtHit(Subtree(bound[j].unit), engs);
      }
    }
  }

  // ----- what the memo remembers of the first n units

  // The units asked about are distinct units of one tree.
  ghost predicate Candidates(bound: seq<Nodes>, tree: Node) {
    && WellFormed(tree) && Distinct(Uuids(bound))
    && forall i :: 0 <= i < |bound| ==> bound[i].unit in Listed(tree.children)
  }

  ghost predicate SeenBy(bound: seq<Nodes>, n: nat, u: Uuid, engs: Engagements)
    requires n <= |bound|
  {
    exists j :: 0 <= j < n && u in UuidsOf(Visited(Subtree(bound[j].unit), engs))
  }

  ghost predicate IsEarlier(bound: seq<Nodes>, n: nat, u: Uuid)
    requires n <= |bound|
  {
    exists j :: 0 <= j < n && u == bound[j].unit.uuid
  }

  ghost predicate Remembers(m: Memo, bound: seq<Nodes>, n: nat, tree: Node, engs: Engagements)
    requires n <= |bound|
  {
    && Sound(m.processed, m.hits, Listed(tree.children), engs)
    && (forall u :: u in m.processed <==> SeenBy(bound, n, u, engs))
    && (forall u :: u in m.hits ==> Lookup(engs, u) == Yes || IsEarlier(bound, n, u))
    && forall j :: 0 <= j < n ==> Searchable(bound[j], engs)
  }

  // A unit the memo has processed was looked at by an earlier search, and so was all that a
  // search of its own would look at.
  lemma ProcessedBefore(m: Memo, bound: seq<Nodes>, n: nat, tree: Node, engs: Engagements)
    requires Candidates(bound, tree) && n < |bound| && Remembers(m, bound, n, tree, engs)
    requires bound[n].unit.uuid in m.processed
    ensures VisitedBefore(bound, n, engs) && Searchable(bound[n], engs)
    ensures UuidsOf(Visited(Subtree(bound[n].unit), engs)) <= m.processed
  {
    var x := bound[n].unit;
    assert SeenBy(bound, n, x.uuid, engs);
    var j :| 0 <= j < n && x.uuid in UuidsOf(Visited(Subtree(bound[j].unit), engs));
    var r := bound[j].unit;
    var y :| y in Visited(Subtree(r), engs) && y.uuid == x.uuid;
    VisitedEndsAtHit(Subtree(r), engs);
    SubtreeIsListed(tree.children, r);
    WellFormedIsIdentified(tree);
    assert y == x;
    assert Searchable(bound[j], engs);
    VisitedInSubtree(r, x, engs);
    forall u | u in UuidsOf(Visited(Subtree(x), engs)) ensures u in m.processed {
      assert SeenBy(bound, n, u, engs);
    }
  }

  lemma NotVisitedBefore(m: Memo, bound: seq<Nodes>, n: nat, tree: Node, engs: Engagements)
    requires n < |bound| && Remembers(m, bound, n, tree, engs)
    requires bound[n].unit.uuid !in m.processed
    ensures !VisitedBefore(bound, n, engs)
  {
    assert !SeenBy(bound, n, bound[n].unit.uuid, engs);
  }

  // After any series of queries: a memo's yes is right about the whole subtree, its no about the
  // node itself.
  lemma MemoAnswer(m: Memo, tree: Node, node: Node, engs: Engagements)
    requires Sound(m.processed, m.hits, Listed(tree.children), engs)
    requires WellFormed(tree) && node in Listed(tree.children) && node.uuid in m.processed
    ensures node.uuid in m.hits ==> SomeEngaged(Subtree(node), engs)
    ensures node.uuid !in m.hits ==> Lookup(engs, node.uuid) == No
  {
    WellFormedIsIdentified(tree);
    if node.uuid in m.hits {
      assert IsHit(node.uuid, Listed(tree.children), engs);
    }
  }

  lemma NoneEarlier(bound: seq<Nodes>, n: nat)
    requires Distinct(Uuids(bound)) && n < |bound|
    ensures !IsEarlier(bound, n, bound[n].unit.uuid)
  {
    forall j | 0 <= j < n ensures bound[j].unit.uuid != bound[n].unit.uuid {
      assert Uuids(bound)[j] != Uuids(bound)[n];
    }
  }

  lemma EarlierNext(bound: seq<Nodes>, n: nat, u: Uuid)
    requires n < |bound| && IsEarlier(bound, n, u)
    ensures IsEarlier(bound, n + 1, u)
  {
    var j :| 0 <= j < n && u == bound[j].unit.uuid;
  }

  // The memo's answer for a processed unit: yes exactly if the unit is engaged itself.
  lemma CandidateAnswer(m: Memo, bound: seq<Nodes>, n: nat, tree: Node, engs: Engagements)
    requires Candidates(bound, tree) && n < |bound| && Remembers(m, bound, n, tree, engs)
    requires bound[n].unit.uuid in m.processed
    ensures bound[n].unit.uuid in m.hits <==> HeldBack(bound, n, engs)
    ensures bound[n].unit.uuid in m.hits <==> Lookup(engs, bound[n].unit.uuid) == Yes
  {
    var x := bound[n].unit;
    ProcessedBefore(m, bound, n, tree, engs);
    NoneEarlier(bound, n);
    if Lookup(engs, x.uuid) == Yes {
      assert Subtree(x)[0] == x;
      assert x in Subtree(x);
    }
  }

  lemma SeenByNext(bound: seq<Nodes>, n: nat, u: Uuid, engs: Engagements)
    requires n < |bound|
    ensures SeenBy(bound, n + 1, u, engs)
       <==> SeenBy(bound, n, u, engs) || u in UuidsOf(Visited(Subtree(bound[n].unit), engs))
  {
    if SeenBy(bound, n, u, engs) {
      var j :| 0 <= j < n && u in UuidsOf(Visited(Subtree(bound[j].unit), engs));
      assert SeenBy(bound, n + 1, u, engs);
    }
  }

  // The memo remembers one unit more once it has processed what a search of that unit looks at.
  lemma RememberNext(m: Memo, bound: seq<Nodes>, n: nat, tree: Node, engs: Engagements, m': Memo)
    requires n < |bound| && Remembers(m, bound, n, tree, engs) && Searchable(bound[n], engs)
    requires Sound(m'.processed, m'.hits, Listed(tree.children), engs)
    requires m'.processed == m.processed + UuidsOf(Visited(Subtree(bound[n].unit), engs))
    requires forall u :: u in m'.hits ==> u in m.hits || Lookup(engs, u) == Yes || u == bound[n].unit.uuid
    ensures Remembers(m', bound, n + 1, tree, engs)
  {
    forall u ensures u in m'.processed <==> SeenBy(bound, n + 1, u, engs) {
      SeenByNext(bound, n, u, engs);
    }
    forall u | u in m'.hits ensures Lookup(engs, u) == Yes || IsEarlier(bound, n + 1, u) {
      if IsEarlier(bound, n, u) {
        EarlierNext(bound, n, u);
      } else if u == bound[n].unit.uuid {
        assert IsEarlier(bound, n + 1, u);
      }
    }
  }

  // So it does after an answer of its own ...
  lemma RememberProcessed(m: Memo, bound: seq<Nodes>, n: nat, tree: Node, engs: Engagements)
    requires Candidates(bound, tree) && n < |bound| && Remembers(m, bound, n, tree, engs)
    requires bound[n].unit.uuid in m.processed
    ensures Remembers(m, bound, n + 1, tree, engs)
  {
    ProcessedBefore(m, bound, n, tree, engs);
    RememberNext(m, bound, n, tree, engs, m);
  }

  // ... and after a search.
  lemma RememberSearched(m: Memo, bound: seq<Nodes>, n: nat, tree: Node, engs: Engagements, m': Memo)
    requires Candidates(bound, tree) && n < |bound| && Remembers(m, bound, n, tree, engs)
    requires Searchable(bound[n], engs) && m' == After(m, bound[n].unit, Subtree(bound[n].unit), engs)
    ensures Remembers(m', bound, n + 1, tree, engs)
  {
    var x := bound[n].unit;
    SearchKeepsSound(m.processed, m.hits, tree.children, x, engs);
    VisitedEndsAtHit(Subtree(x), engs);
    RememberNext(m, bound, n, tree, engs, m');
  }

  // What a search of its own says about a unit no earlier search has looked at.
  lemma SearchAnswer(m: Memo, bound: seq<Nodes>, n: nat, tree: Node, engs: Engagements)
    requires n < |bound| && Remembers(m, bound, n, tree, engs) && Searchable(bound[n], engs)
    requires bound[n].unit.uuid !in m.processed
    ensures Scan(Subtree(bound[n].unit), engs) == Yes <==> HeldBack(bound, n, engs)
  {
    NotVisitedBefore(m, bound, n, tree, engs);
    ScanIsExact(Subtree(bound[n].unit), engs);
  }

  // One unit more has been asked about: by the memo or by a search, as the source does.
  ghost predicate Answers(m: Memo, x: Node, engs: Engagements, answer: Answer, m': Memo) {
    if x.uuid in m.processed then m' == m && answer == (if x.uuid in m.hits then Yes else No)
    else m' == After(m, x, Subtree(x), engs) && answer == Scan(Subtree(x), engs)
  }

  lemma NextAnswer(m: Memo, bound: seq<Nodes>, flags: seq<bool>, tree: Node, engs: Engagements, answer: Answer, m': Memo)
    requires Candidates(bound, tree) && |flags| < |bound| && Truthful(bound, flags, engs)
    requires Remembers(m, bound, |flags|, tree, engs) && Answers(m, bound[|flags|].unit, engs, answer, m')
    ensures answer == UnitUnknown <==> !Searchable(bound[|flags|], engs)
    ensures answer != UnitUnknown ==>
      Remembers(m', bound, |flags| + 1, tree, engs) && Truthful(bound, flags + [answer == Yes], engs)
  {
    var n := |flags|;
    if bound[n].unit.uuid in m.processed {
      ProcessedBefore(m, bound, n, tree, engs);
      CandidateAnswer(m, bound, n, tree, engs);
      RememberProcessed(m, bound, n, tree, engs);
      OneMoreFlag(bound, flags, answer == Yes, engs);
    } else if answer != UnitUnknown {
      SearchAnswer(m, bound, n, tree, engs);
      RememberSearched(m, bound, n, tree, engs, m');
      OneMoreFlag(bound, flags, answer == Yes, engs);
    }
  }

  lemma OneMoreFlag(bound: seq<Nodes>, flags: seq<bool>, flag: bool, engs: Engagements)
    requires |flags| < |bound| && Truthful(bound, flags, engs) && (flag <==> HeldBack(bound, |flags|, engs))
    ensures Truthful(bound, flags + [flag], engs)
  {
  }

  lemma NothingRemembered(bound: seq<Nodes>, tree: Node, engs: Engagements)
    ensures Remembers(Memo({}, {}, {}), bound, 0, tree, engs)
  {
  }

  // ----- the diff

  // The items of a tree's dictionary, and the dictionary.
  method NodesOf(tree: Node) returns (items: seq<Nodes>, values: map<Uuid, Nodes>)
    requires WellFormed(tree)
    ensures items == Units(tree) && values == Dict(Units(tree))
  {
    var uuidMap := UuidToNodesMap(tree);
    items, values := Items(uuidMap.keys, uuidMap.values), uuidMap.values;
  }

  lemma BoundAreCandidates(mo: Node, sd: Node, roots: seq<Uuid>)
    requires WellFormed(sd)
    ensures Candidates(Bound(mo, sd, roots), sd)
  {
    var bound := Bound(mo, sd, roots);
    var changes := Changes(Units(sd), Dict(Units(mo)));
    PartsAreAscending(mo, sd, roots);
    AscendingIsDistinct(bound, Uuids(Units(sd)));
    FilterMembers(changes, (n: Nodes) => InObsoleteUnitsSubtree(ParentsOf(sd), n.unit.uuid, roots));
    FilterMembers(Units(sd),
      (n: Nodes) => n.unit.uuid in Dict(Units(mo)) && ShouldBeUpdated(n, Dict(Units(mo))[n.unit.uuid]));
    ListedAreUnits(sd, sd.children);
    forall i | 0 <= i < |bound| ensures bound[i].unit in Listed(sd.children) {
      assert bound[i] in bound;
      assert bound[i] in Units(sd);
    }
  }

  lemma SelectedSnoc(xs: seq<Nodes>, flags: seq<bool>, b: bool)
    requires |flags| < |xs|
    ensures Selected(xs[..|flags| + 1], flags + [b], b) == Selected(xs[..|flags|], flags, b) + [xs[|flags|]]
    ensures Selected(xs[..|flags| + 1], flags + [b], !b) == Selected(xs[..|flags|], flags, !b)
  {
    assert xs[..|flags| + 1][..|flags|] == xs[..|flags|];
    assert (flags + [b])[..|flags|] == flags;
  }

  // The units moved and held back so far.
  ghost predicate Sorted(bound: seq<Nodes>, flags: seq<bool>, moved: seq<Nodes>, held: seq<Nodes>)
    requires |flags| <= |bound|
  {
    moved == Selected(bound[..|flags|], flags, false) && held == Selected(bound[..|flags|], flags, true)
  }

  lemma SortNext(bound: seq<Nodes>, flags: seq<bool>, b: bool, moved: seq<Nodes>, held: seq<Nodes>)
    requires |flags| < |bound| && Sorted(bound, flags, moved, held)
    ensures Sorted(bound, flags + [b], if b then moved else moved + [bound[|flags|]],
                   if b then held + [bound[|flags|]] else held)
  {
    SelectedSnoc(bound, flags, b);
  }

  class OrgTreeDiff {
    const moOrgTree: Node
    const sdOrgTree: Node
    const obsoleteUnitRoots: seq<Uuid>
    // What MO answers when asked for the engagements of a unit.
    const engagements: Engagements
    var nodesProcessed: set<Uuid>
    var engsInSubtree: set<Uuid>
    var unitsWithEngs: set<(string, Uuid)>
    var unitsToAdd: seq<Nodes>
    var unitsToUpdate: seq<Nodes>
    var subtreesWithEngs: seq<Nodes>
    ghost var flags: seq<bool>

    constructor (moOrgTree: Node, sdOrgTree: Node, obsoleteUnitRoots: seq<Uuid>, engagements: Engagements)
      ensures this.moOrgTree == moOrgTree && this.sdOrgTree == sdOrgTree
      ensures this.obsoleteUnitRoots == obsoleteUnitRoots && this.engagements == engagements
      ensures Remembered() == Memo({}, {}, {})
    {
      this.moOrgTree, this.sdOrgTree := moOrgTree, sdOrgTree;
      this.obsoleteUnitRoots, this.engagements := obsoleteUnitRoots, engagements;
      nodesProcessed, engsInSubtree, unitsWithEngs := {}, {}, {};
      unitsToAdd, unitsToUpdate, subtreesWithEngs := [], [], [];
    }

    ghost function Remembered(): Memo
      reads this
    {
      Memo(nodesProcessed, engsInSubtree, unitsWithEngs)
    }

    ghost predicate MemoIsSound()
      reads this
    {
      Sound(nodesProcessed, engsInSubtree, Listed(sdOrgTree.children), engagements)
    }

    ghost function BoundHere(): seq<Nodes> { Bound(moOrgTree, sdOrgTree, obsoleteUnitRoots) }

    // The comparison has come to the plan for the two trees.
    ghost predicate Compared()
      reads this
    {
      && |flags| == |BoundHere()|
      && Plan(unitsToAdd, unitsToUpdate, subtreesWithEngs) == PlanOf(moOrgTree, sdOrgTree, obsoleteUnitRoots, flags)
    }

    // sdtoolplus/diff_org_trees.py:180-210
    method HasActiveEngagements(node: Node) returns (r: Answer)
      modifies this`unitsWithEngs
      ensures r == Lookup(engagements, node.uuid)
      ensures unitsWithEngs == old(unitsWithEngs) + if r == Yes then {(node.name, node.uuid)} else {}
    {
      r := Lookup(engagements, node.uuid);
      if r == Yes {
        unitsWithEngs := unitsWithEngs + {(node.name, node.uuid)};
      }
    }

    // sdtoolplus/diff_org_trees.py:223-241; the search does not consult the memo.
    method AddNodeIfSubtreeHasEngagements(subtreeRoot: Node, node: Node) returns (r: Answer)
      modifies this`nodesProcessed, this`engsInSubtree, this`unitsWithEngs
      ensures r == Scan(Subtree(node), engagements)
      ensures Remembered() == After(old(Remembered()), subtreeRoot, Subtree(node), engagements)
      decreases node
    {
      ghost var m := Remembered();
      AfterFirst(m, node, subtreeRoot, engagements);
      nodesProcessed := nodesProcessed + {node.uuid};
      r := HasActiveEngagements(node);
      if r == UnitUnknown {
        return;
      }
      if r == Yes {
        engsInSubtree := engsInSubtree + {subtreeRoot.uuid};
        engsInSubtree := engsInSubtree + {node.uuid};
        assert engsInSubtree == m.hits + {subtreeRoot.uuid, node.uuid};
        return;
      }
      for i := 0 to |node.children|
        invariant r == No && Scan(Searched(node, i), engagements) == No
        invariant Remembered() == After(m, subtreeRoot, Searched(node, i), engagements)
      {
        r := AddNodeIfSubtreeHasEngagements(subtreeRoot, node.children[i]);
        if r != No {
          AfterStop(m, node, i, subtreeRoot, engagements);
          return;
        }
        AfterChild(m, node, i, subtreeRoot, engagements);
      }
      SearchedAll(node);
    }

    // sdtoolplus/diff_org_trees.py:212-245
    method SubtreeHasActiveEngagements(node: Node) returns (r: Answer)
      modifies this`nodesProcessed, this`engsInSubtree, this`unitsWithEngs
      ensures Answers(old(Remembered()), node, engagements, r, Remembered())
      ensures old(MemoIsSound()) && node in Listed(sdOrgTree.children) && r != UnitUnknown ==> MemoIsSound()
    {
      if node.uuid in nodesProcessed {
        return if node.uuid in engsInSubtree then Yes else No;
      }
      ghost var m := Remembered();
      ghost var sound := MemoIsSound() && node in Listed(sdOrgTree.children);
      r := AddNodeIfSubtreeHasEngagements(node, node);
      if sound && r != UnitUnknown {
        SearchKeepsSound(m.processed, m.hits, sdOrgTree.children, node, engagements);
      }
    }

    // The second partition of sdtoolplus/diff_org_trees.py:138-141: the units to move and those to
    // hold back. It ends with an exception exactly if some search meets a unit MO does not know.
    method PartitionByEngagements(bound: seq<Nodes>) returns (ok: bool, moved: seq<Nodes>, held: seq<Nodes>)
      requires Candidates(bound, sdOrgTree) && Remembered() == Memo({}, {}, {})
      modifies this`nodesProcessed, this`engsInSubtree, this`unitsWithEngs, this`flags
      ensures ok <==> AllSearchable(bound, engagements)
      ensures ok ==> MemoIsSound() && |flags| == |bound| && Truthful(bound, flags, engagements)
      ensures ok ==> moved == Selected(bound, flags, false) && held == Selected(bound, flags, true)
    {
      ok, moved, held := true, [], [];
      flags := [];
      NothingRemembered(bound, sdOrgTree, engagements);
      for i := 0 to |bound|
        invariant ok && |flags| == i && Truthful(bound, flags, engagements)
        invariant Remembers(Remembered(), bound, i, sdOrgTree, engagements)
        invariant Sorted(bound, flags, moved, held)
      {
        ghost var m := Remembered();
        var answer := SubtreeHasActiveEngagements(bound[i].unit);
        NextAnswer(m, bound, flags, sdOrgTree, engagements, answer, Remembered());
        if answer == UnitUnknown {
          ok := false;
          return;
        }
        SortNext(bound, flags, answer == Yes, moved, held);
        flags := flags + [answer == Yes];
        if answer == Yes {
          held := held + [bound[i]];
        } else {
          moved := moved + [bound[i]];
        }
      }
      assert bound[..|bound|] == bound;
    }

    // sdtoolplus/diff_org_trees.py:96-144
    method CompareTrees() returns (ok: bool)
      requires WellFormed(sdOrgTree) && WellFormed(moOrgTree) && Remembered() == Memo({}, {}, {})
      modifies this
      ensures ok <==> AllSearchable(BoundHere(), engagements)
      ensures ok ==> MemoIsSound() && Compared() && Truthful(BoundHere(), flags, engagements)
    {
      var sdNodes, sdValues := NodesOf(sdOrgTree);
      var _, moValues := NodesOf(moOrgTree);
      unitsToAdd := Additions(sdNodes, moValues);
      unitsToUpdate := Changes(sdNodes, moValues);
      var parents := ParentUuids(sdValues);
      var straight := Straight(unitsToUpdate, parents, obsoleteUnitRoots);
      var bound := ToObsolete(unitsToUpdate, parents, obsoleteUnitRoots);
      BoundAreCandidates(moOrgTree, sdOrgTree, obsoleteUnitRoots);
      var moved, held;
      ok, moved, held := PartitionByEngagements(bound);
      if ok {
        unitsToUpdate := straight + moved;
        subtreesWithEngs := held;
      }
    }
  }
}
