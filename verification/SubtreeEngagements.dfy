// Which units of a subtree have engagements: the search and its memo
// (sdtoolplus/diff_org_trees.py:180-245).
module SubtreeEngagements {
  import opened Common
  import opened OrgTrees

  // What a look-up in MO comes to; MO not knowing the unit is an exception in the source.
  datatype Answer = Yes | No | UnitUnknown

  // The units MO knows, with whether they have active engagements.
  type Engagements = map<Uuid, bool>

  function Lookup(engs: Engagements, u: Uuid): Answer {
    if u !in engs then UnitUnknown else if engs[u] then Yes else No
  }

  // The nodes of several subtrees, parents before children.
  function Listed(cs: seq<Node>): seq<Node>
    decreases cs
  {
    if cs == [] then [] else [cs[0]] + Listed(cs[0].children) + Listed(cs[1..])
  }

  // A node and everything below it.
  function Subtree(n: Node): seq<Node> { [n] + Listed(n.children) }

  // What a search that stops at the first engaged or unknown node finds, ...
  function Scan(ns: seq<Node>, engs: Engagements): Answer {
    if ns == [] then No
    else if Lookup(engs, ns[0].uuid) == No then Scan(ns[1..], engs)
    else Lookup(engs, ns[0].uuid)
  }

  // ... and the nodes it looks at.
  function Visited(ns: seq<Node>, engs: Engagements): seq<Node> {
    if ns == [] then []
    else if Lookup(engs, ns[0].uuid) == No then [ns[0]] + Visited(ns[1..], engs)
    else [ns[0]]
  }

  function UuidsOf(ns: seq<Node>): set<Uuid> { set n | n in ns :: n.uuid }

  ghost predicate SomeEngaged(ns: seq<Node>, engs: Engagements) {
    exists n :: n in ns && Lookup(engs, n.uuid) == Yes
  }

  ghost predicate AllKnown(ns: seq<Node>, engs: Engagements) {
    forall n :: n in ns ==> n.uuid in engs
  }

  // The search tells whether anything in the list is engaged, as long as MO knows all of it.
  lemma {:induction false} ScanIsExact(ns: seq<Node>, engs: Engagements)
    ensures Scan(ns, engs) == Yes ==> SomeEngaged(ns, engs)
    ensures Scan(ns, engs) == No ==> !SomeEngaged(ns, engs) && AllKnown(ns, engs)
    ensures Scan(ns, engs) == UnitUnknown ==> !AllKnown(ns, engs)
  {
    if ns == [] {
    } else {
      ScanIsExact(ns[1..], engs);
      assert ns[0] in ns;
      assert forall n :: n in ns <==> n == ns[0] || n in ns[1..];
    }
  }

  // The last node a successful search looks at is the engaged one; all others are not engaged.
  lemma {:induction false} VisitedEndsAtHit(ns: seq<Node>, engs: Engagements)
    ensures forall n :: n in Visited(ns, engs) ==> n in ns
    ensures Scan(ns, engs) == No ==> Visited(ns, engs) == ns
    ensures Scan(ns, engs) != No ==> |Visited(ns, engs)| > 0
    ensures Scan(ns, engs) != No ==> Lookup(engs, Hit(ns, engs).uuid) == Scan(ns, engs)
    ensures forall n :: n in Visited(ns, engs) && (Scan(ns, engs) == No || n != Hit(ns, engs)) ==>
        Lookup(engs, n.uuid) == No
  {
    if ns == [] || Lookup(engs, ns[0].uuid) != No {
    } else {
      VisitedEndsAtHit(ns[1..], engs);
    }
  }

  function Hit(ns: seq<Node>, engs: Engagements): Node {
    var vs := Visited(ns, engs);
    if vs == [] then Node(0, "", []) else vs[|vs| - 1]
  }

  // A search over two lists goes on to the second one if it finds nothing in the first.
  lemma {:induction false} ScanConcat(a: seq<Node>, b: seq<Node>, engs: Engagements)
    ensures Scan(a + b, engs) == if Scan(a, engs) == No then Scan(b, engs) else Scan(a, engs)
    ensures Visited(a + b, engs) == if Scan(a, engs) == No then a + Visited(b, engs) else Visited(a, engs)
  {
    if a == [] {
      assert a + b == b;
    } else {
      var rest := a[1..];
      assert (a + b)[0] == a[0] && (a + b)[1..] == rest + b;
      ScanConcat(rest, b, engs);
      if Lookup(engs, a[0].uuid) == No {
        assert Visited(a + b, engs) == [a[0]] + Visited(rest + b, engs);
        assert a == [a[0]] + rest;
      }
    }
  }

  lemma {:induction false} ListedConcat(a: seq<Node>, b: seq<Node>)
    ensures Listed(a + b) == Listed(a) + Listed(b)
    decreases |a|
  {
    if a == [] {
      assert a + b == b;
    } else {
      assert (a + b)[1..] == a[1..] + b;
      ListedConcat(a[1..], b);
    }
  }

  lemma ListedSingle(c: Node)
    ensures Listed([c]) == Subtree(c)
  {
    assert [c][1..] == [];
  }

  // The nodes listed are the units the dictionary of the tree is built from.
  lemma {:induction false} ListedAreUnits(parent: Node, cs: seq<Node>)
    ensures |Listed(cs)| == |Entries(parent, cs)|
    ensures forall i :: 0 <= i < |Listed(cs)| ==> Listed(cs)[i] == Entries(parent, cs)[i].unit
    decreases cs
  {
    if cs == [] {
    } else {
      ListedAreUnits(cs[0], cs[0].children);
      ListedAreUnits(parent, cs[1..]);
    }
  }

  // Everything below a listed node is listed too.
  lemma {:induction false} SubtreeIsListed(cs: seq<Node>, n: Node)
    requires n in Listed(cs)
    ensures forall m :: m in Subtree(n) ==> m in Listed(cs)
    decreases cs
  {
    if n == cs[0] {
    } else if n in Listed(cs[0].children) {
      SubtreeIsListed(cs[0].children, n);
    } else {
      SubtreeIsListed(cs[1..], n);
    }
  }

  // No two listed nodes share an identifier.
  ghost predicate Identified(ns: seq<Node>) {
    forall m, n :: m in ns && n in ns && m.uuid == n.uuid ==> m == n
  }

  lemma WellFormedIsIdentified(tree: Node)
    requires WellFormed(tree)
    ensures Identified(Listed(tree.children))
  {
    var ns := Listed(tree.children);
    ListedAreUnits(tree, tree.children);
    KeysAreDistinct(tree);
    forall m, n | m in ns && n in ns && m.uuid == n.uuid ensures m == n {
      var i :| 0 <= i < |ns| && ns[i] == m;
      var j :| 0 <= j < |ns| && ns[j] == n;
      assert Uuids(Units(tree))[i] == Uuids(Units(tree))[j];
    }
  }

  // What the memo may claim about the nodes ns of a tree: an identifier among hits belongs to
  // a node with engagements at or below it; any other processed one to a node without.
  ghost predicate Sound(processed: set<Uuid>, hits: set<Uuid>, ns: seq<Node>, engs: Engagements) {
    && hits <= processed
    && AreHits(hits, ns, engs)
    && (forall u :: u in processed && u !in hits ==> Lookup(engs, u) == No)
  }

  ghost predicate IsHit(u: Uuid, ns: seq<Node>, engs: Engagements) {
    exists n :: n in ns && n.uuid == u && SomeEngaged(Subtree(n), engs)
  }

  // What a finished search looks at is not engaged, except for the hit.
  lemma SearchedIsQuiet(ns: seq<Node>, engs: Engagements, u: Uuid)
    requires Scan(ns, engs) != UnitUnknown && u in UuidsOf(Visited(ns, engs))
    requires Scan(ns, engs) == Yes ==> u != Hit(ns, engs).uuid
    ensures Lookup(engs, u) == No
  {
    VisitedEndsAtHit(ns, engs);
  }

  // What a search over ns started at a subtree's root records as hits: that root and the hit.
  function Hits(root: Node, ns: seq<Node>, engs: Engagements): set<Uuid> {
    if Scan(ns, engs) == Yes then {root.uuid, Hit(ns, engs).uuid} else {}
  }

  ghost predicate AreHits(us: set<Uuid>, ns: seq<Node>, engs: Engagements) {
    forall u :: u in us ==> IsHit(u, ns, engs)
  }

  // The identifiers a search records are those of nodes it looked at with engagements at or below them.
  lemma HitsAreHits(cs: seq<Node>, root: Node, engs: Engagements)
    requires root in Listed(cs)
    ensures AreHits(Hits(root, Subtree(root), engs), Listed(cs), engs)
    ensures Hits(root, Subtree(root), engs) <= UuidsOf(Visited(Subtree(root), engs))
  {
    var ns := Subtree(root);
    if Scan(ns, engs) == Yes {
      var hit := Hit(ns, engs);
      ScanIsExact(ns, engs);
      VisitedEndsAtHit(ns, engs);
      SubtreeIsListed(cs, root);
      assert hit in Visited(ns, engs) && hit in Listed(cs);
      assert SomeEngaged(Subtree(hit), engs) by {
        assert Subtree(hit)[0] == hit;
        assert hit in Subtree(hit);
      }
      assert Visited(ns, engs)[0] == root;
      assert root in Visited(ns, engs);
      assert IsHit(root.uuid, Listed(cs), engs) && IsHit(hit.uuid, Listed(cs), engs);
    }
  }

  lemma GrowKeepsSound(processed: set<Uuid>, hits: set<Uuid>, ns: seq<Node>, engs: Engagements,
                       seen: set<Uuid>, found: set<Uuid>)
    requires Sound(processed, hits, ns, engs)
    requires found <= seen && AreHits(found, ns, engs)
    requires forall u :: u in seen && u !in found ==> Lookup(engs, u) == No
    ensures Sound(processed + seen, hits + found, ns, engs)
  {
  }

  lemma ScanKeepsSound(processed: set<Uuid>, hits: set<Uuid>, all: seq<Node>, root: Node, ns: seq<Node>,
                       engs: Engagements)
    requires Sound(processed, hits, all, engs) && Scan(ns, engs) != UnitUnknown
    requires AreHits(Hits(root, ns, engs), all, engs)
    requires Hits(root, ns, engs) <= UuidsOf(Visited(ns, engs))
    ensures Sound(processed + UuidsOf(Visited(ns, engs)), hits + Hits(root, ns, engs), all, engs)
  {
    var seen := UuidsOf(Visited(ns, engs));
    var found := Hits(root, ns, engs);
    forall u | u in seen && u !in found ensures Lookup(engs, u) == No {
      SearchedIsQuiet(ns, engs, u);
    }
    GrowKeepsSound(processed, hits, all, engs, seen, found);
  }

  // Name and identifier of the unit a successful search found engagements in.
  function NamedHits(ns: seq<Node>, engs: Engagements): set<(string, Uuid)> {
    if Scan(ns, engs) == Yes then {(Hit(ns, engs).name, Hit(ns, engs).uuid)} else {}
  }

  // A search from a node keeps the memo sound.
  lemma SearchKeepsSound(processed: set<Uuid>, hits: set<Uuid>, cs: seq<Node>, root: Node, engs: Engagements)
    requires Sound(processed, hits, Listed(cs), engs) && root in Listed(cs)
    requires Scan(Subtree(root), engs) != UnitUnknown
    ensures Sound(processed + UuidsOf(Visited(Subtree(root), engs)), hits + Hits(root, Subtree(root), engs),
                  Listed(cs), engs)
  {
    HitsAreHits(cs, root, engs);
    ScanKeepsSound(processed, hits, Listed(cs), root, Subtree(root), engs);
  }

  // What has been searched once a node and its first i children have.
  function Searched(node: Node, i: nat): seq<Node>
    requires i <= |node.children|
  {
    [node] + Listed(node.children[..i])
  }

  lemma UuidsOfConcat(a: seq<Node>, b: seq<Node>)
    ensures UuidsOf(a + b) == UuidsOf(a) + UuidsOf(b)
  {
  }

  // What a diff remembers of its searches: nodes processed, nodes with engagements at or below
  // them, and the units found engaged.
  datatype Memo = Memo(processed: set<Uuid>, hits: set<Uuid>, named: set<(string, Uuid)>)

  // The memo after a search over ns, part of the subtree of root.
  function After(m: Memo, root: Node, ns: seq<Node>, engs: Engagements): Memo {
    Memo(m.processed + UuidsOf(Visited(ns, engs)), m.hits + Hits(root, ns, engs), m.named + NamedHits(ns, engs))
  }

  // Where the first of two lists holds no hit, the hits of both are those of the second one.
  lemma HitConcat(root: Node, a: seq<Node>, b: seq<Node>, engs: Engagements)
    requires Scan(a, engs) == No
    ensures Hits(root, a + b, engs) == Hits(root, b, engs) && Hits(root, a, engs) == {}
    ensures NamedHits(a + b, engs) == NamedHits(b, engs) && NamedHits(a, engs) == {}
  {
    ScanConcat(a, b, engs);
    VisitedEndsAtHit(b, engs);
    if Scan(b, engs) == Yes {
      var vs := Visited(b, engs);
      assert (a + vs)[|a + vs| - 1] == vs[|vs| - 1];
    }
  }

  lemma ProcessedConcat(a: seq<Node>, b: seq<Node>, engs: Engagements)
    requires Scan(a, engs) == No
    ensures UuidsOf(Visited(a + b, engs)) == UuidsOf(Visited(a, engs)) + UuidsOf(Visited(b, engs))
  {
    ScanConcat(a, b, engs);
    VisitedEndsAtHit(a, engs);
    UuidsOfConcat(a, Visited(b, engs));
  }

  lemma AfterConcat(m: Memo, root: Node, a: seq<Node>, b: seq<Node>, engs: Engagements)
    ensures After(m, root, a + b, engs)
         == if Scan(a, engs) == No then After(After(m, root, a, engs), root, b, engs) else After(m, root, a, engs)
  {
    if Scan(a, engs) == No {
      HitConcat(root, a, b, engs);
      ProcessedConcat(a, b, engs);
      var seen, more := UuidsOf(Visited(a, engs)), UuidsOf(Visited(b, engs));
      assert m.processed + (seen + more) == m.processed + seen + more;
    } else {
      ScanConcat(a, b, engs);
    }
  }

  // A search starts with the root of the subtree, ...
  lemma AfterFirst(m: Memo, node: Node, root: Node, engs: Engagements)
    ensures var answer := Lookup(engs, node.uuid);
      var next := Memo(m.processed + {node.uuid},
                       m.hits + (if answer == Yes then {root.uuid, node.uuid} else {}),
                       m.named + (if answer == Yes then {(node.name, node.uuid)} else {}));
      if answer == No then Scan(Searched(node, 0), engs) == No && After(m, root, Searched(node, 0), engs) == next
      else Scan(Subtree(node), engs) == answer && After(m, root, Subtree(node), engs) == next
  {
    assert Searched(node, 0) == [node];
    assert Visited([node], engs) == [node];
    assert UuidsOf([node]) == {node.uuid};
    AfterConcat(m, root, [node], Listed(node.children), engs);
    ScanConcat([node], Listed(node.children), engs);
  }

  // ... goes on with the next child as long as it finds nothing, ...
  lemma AfterChild(m: Memo, node: Node, i: nat, root: Node, engs: Engagements)
    requires i < |node.children| && Scan(Searched(node, i), engs) == No
    requires Scan(Subtree(node.children[i]), engs) == No
    ensures Scan(Searched(node, i + 1), engs) == No
    ensures After(After(m, root, Searched(node, i), engs), root, Subtree(node.children[i]), engs)
         == After(m, root, Searched(node, i + 1), engs)
  {
    var child := node.children[i];
    assert node.children[..i + 1] == node.children[..i] + [child];
    ListedConcat(node.children[..i], [child]);
    ListedSingle(child);
    assert Searched(node, i + 1) == Searched(node, i) + Subtree(child);
    ScanConcat(Searched(node, i), Subtree(child), engs);
    AfterConcat(m, root, Searched(node, i), Subtree(child), engs);
  }

  // ... and ends with the child that stops it, ...
  lemma AfterStop(m: Memo, node: Node, i: nat, root: Node, engs: Engagements)
    requires i < |node.children| && Scan(Searched(node, i), engs) == No
    requires Scan(Subtree(node.children[i]), engs) != No
    ensures Scan(Subtree(node), engs) == Scan(Subtree(node.children[i]), engs)
    ensures After(After(m, root, Searched(node, i), engs), root, Subtree(node.children[i]), engs)
         == After(m, root, Subtree(node), engs)
  {
    var child := node.children[i];
    var later := Listed(node.children[i + 1..]);
    var m1 := After(m, root, Searched(node, i), engs);
    SubtreeSplit(node, i);
    ScanConcat(Searched(node, i), Subtree(child) + later, engs);
    ScanConcat(Subtree(child), later, engs);
    AfterConcat(m, root, Searched(node, i), Subtree(child) + later, engs);
    AfterConcat(m1, root, Subtree(child), later, engs);
  }

  lemma SubtreeSplit(node: Node, i: nat)
    requires i < |node.children|
    ensures Subtree(node)
         == Searched(node, i) + (Subtree(node.children[i]) + Listed(node.children[i + 1..]))
  {
    var child := node.children[i];
    var before := node.children[..i];
    var after := node.children[i + 1..];
    assert node.children == before + ([child] + after);
    ListedConcat(before, [child] + after);
    ListedConcat([child], after);
    ListedSingle(child);
  }

  // ... or with the last one.
  lemma SearchedAll(node: Node)
    ensures Searched(node, |node.children|) == Subtree(node)
  {
    assert node.children[..|node.children|] == node.children;
  }

  // What a search finds below a node it has looked at: nothing MO does not know, and nothing
  // it has not looked at itself.
  lemma {:induction false} VisitedBelow(cs: seq<Node>, x: Node, engs: Engagements)
    requires Scan(Listed(cs), engs) != UnitUnknown && x in Visited(Listed(cs), engs)
    ensures Scan(Subtree(x), engs) != UnitUnknown
    ensures forall m :: m in Visited(Subtree(x), engs) ==> m in Visited(Listed(cs), engs)
    decreases cs
  {
    if cs == [] {
    } else {
      var first := cs[0];
      var below := Listed(first.children);
      assert Listed(cs) == Subtree(first) + Listed(cs[1..]);
      ScanConcat(Subtree(first), Listed(cs[1..]), engs);
      ScanConcat([first], below, engs);
      VisitedEndsAtHit(Subtree(first), engs);
      if x in Visited(Subtree(first), engs) {
        if x != first {
          assert Visited([first], engs) == [first];
          assert x in Visited(below, engs);
          VisitedBelow(first.children, x, engs);
        }
      } else {
        VisitedBelow(cs[1..], x, engs);
      }
    }
  }

  // The same for the search over the subtree of r.
  lemma VisitedInSubtree(r: Node, x: Node, engs: Engagements)
    requires Scan(Subtree(r), engs) != UnitUnknown && x in Visited(Subtree(r), engs)
    ensures Scan(Subtree(x), engs) != UnitUnknown
    ensures forall m :: m in Visited(Subtree(x), engs) ==> m in Visited(Subtree(r), engs)
  {
    ListedSingle(r);
    VisitedBelow([r], x, engs);
  }
}
