// Organisation trees and the dictionary of their nodes (sdtoolplus/diff_org_trees.py:25-52).
module OrgTrees {
  import opened Common
  import opened Forest

  datatype Node = Node(uuid: Uuid, name: string, children: seq<Node>)

  // A unit together with its parent, as the dictionary stores them.
  datatype Nodes = Nodes(unit: Node, parent: Node)

  // The units of the subtrees cs of parent, parents before children, siblings in order.
  function Entries(parent: Node, cs: seq<Node>): seq<Nodes>
    decreases cs
  {
    if cs == [] then []
    else [Nodes(cs[0], parent)] + Entries(cs[0], cs[0].children) + Entries(parent, cs[1..])
  }

  // All units of a tree, its root left out.
  function Units(tree: Node): seq<Nodes> { Entries(tree, tree.children) }

  function Uuids(es: seq<Nodes>): seq<Uuid> { seq(|es|, i requires 0 <= i < |es| => es[i].unit.uuid) }

  ghost predicate WellFormed(tree: Node) {
    Distinct([tree.uuid] + Uuids(Units(tree)))
  }

  lemma {:induction false} EntriesSnoc(parent: Node, cs: seq<Node>, c: Node)
    ensures Entries(parent, cs + [c]) == Entries(parent, cs) + [Nodes(c, parent)] + Entries(c, c.children)
    decreases |cs|
  {
    if cs == [] {
      assert [c][1..] == [];
    } else {
      assert (cs + [c])[1..] == cs[1..] + [c];
      EntriesSnoc(parent, cs[1..], c);
    }
  }

  // The units listed are the given ones and everything below them, each with its own parent.
  lemma {:induction false} EntriesAreBelow(parent: Node, cs: seq<Node>, n: Nodes)
    requires n in Entries(parent, cs)
    ensures (n.parent == parent && n.unit in cs)
         || (n.unit in n.parent.children && exists q :: Nodes(n.parent, q) in Entries(parent, cs))
    decreases cs
  {
    var inner, rest := Entries(cs[0], cs[0].children), Entries(parent, cs[1..]);
    var first := Nodes(cs[0], parent);
    assert Entries(parent, cs) == [first] + inner + rest;
    if n == first {
    } else if n in inner {
      EntriesAreBelow(cs[0], cs[0].children, n);
      if n.parent == cs[0] && n.unit in cs[0].children {
        assert first in Entries(parent, cs);
      } else {
        var q :| Nodes(n.parent, q) in inner;
        assert Nodes(n.parent, q) in Entries(parent, cs);
      }
    } else {
      EntriesAreBelow(parent, cs[1..], n);
      if !(n.parent == parent && n.unit in cs[1..]) {
        var q :| Nodes(n.parent, q) in rest;
        assert Nodes(n.parent, q) in Entries(parent, cs);
      }
    }
  }

  lemma {:induction false} GivenAreListed(parent: Node, cs: seq<Node>, c: Node)
    requires c in cs
    ensures Nodes(c, parent) in Entries(parent, cs)
    decreases |cs|
  {
    if cs[0] == c {
      assert Entries(parent, cs)[0] == Nodes(c, parent);
    } else {
      GivenAreListed(parent, cs[1..], c);
    }
  }

  lemma {:induction false} ChildrenAreListed(parent: Node, cs: seq<Node>, n: Nodes, c: Node)
    requires n in Entries(parent, cs) && c in n.unit.children
    ensures Nodes(c, n.unit) in Entries(parent, cs)
    decreases cs
  {
    var inner, rest := Entries(cs[0], cs[0].children), Entries(parent, cs[1..]);
    assert Entries(parent, cs) == [Nodes(cs[0], parent)] + inner + rest;
    if n == Nodes(cs[0], parent) {
      GivenAreListed(cs[0], cs[0].children, c);
    } else if n in inner {
      ChildrenAreListed(cs[0], cs[0].children, n, c);
    } else {
      ChildrenAreListed(parent, cs[1..], n, c);
    }
  }

  // The units of a tree: the children of the root and those of its units.
  lemma UnitsAreAllBelow(tree: Node, c: Node, p: Node)
    ensures Nodes(c, p) in Units(tree) <==> c in p.children && (p == tree || exists q :: Nodes(p, q) in Units(tree))
  {
    if Nodes(c, p) in Units(tree) {
      EntriesAreBelow(tree, tree.children, Nodes(c, p));
    }
    if c in p.children && p == tree {
      GivenAreListed(tree, tree.children, c);
    }
    if c in p.children && exists q :: Nodes(p, q) in Units(tree) {
      var q :| Nodes(p, q) in Units(tree);
      ChildrenAreListed(tree, tree.children, Nodes(p, q), c);
    }
  }

  // The parent of every listed unit is the given one or stands earlier in the list.
  lemma {:induction false} ParentsComeFirst(parent: Node, cs: seq<Node>)
    ensures forall i | 0 <= i < |Entries(parent, cs)| ::
      Entries(parent, cs)[i].parent == parent || ComesBefore(Entries(parent, cs), i, Entries(parent, cs)[i].parent)
    decreases cs
  {
    if cs == [] {
    } else {
      var es := Entries(parent, cs);
      var inner := Entries(cs[0], cs[0].children);
      var rest := Entries(parent, cs[1..]);
      ParentsComeFirst(cs[0], cs[0].children);
      ParentsComeFirst(parent, cs[1..]);
      forall i | 0 <= i < |es| ensures es[i].parent == parent || ComesBefore(es, i, es[i].parent) {
        if 1 <= i <= |inner| {
          assert es[i] == inner[i - 1];
          if inner[i - 1].parent == cs[0] {
            assert es[0].unit == cs[0];
          } else {
            var j :| 0 <= j < i - 1 && inner[j].unit == es[i].parent;
            assert es[j + 1] == inner[j];
          }
        } else if i > |inner| {
          var k := i - 1 - |inner|;
          assert es[i] == rest[k];
          if rest[k].parent != parent {
            var j :| 0 <= j < k && rest[j].unit == es[i].parent;
            assert es[j + 1 + |inner|] == rest[j];
          }
        }
      }
    }
  }

  ghost predicate ComesBefore(es: seq<Nodes>, i: nat, parent: Node) {
    exists j :: 0 <= j < i && j < |es| && es[j].unit == parent
  }

  // A dictionary after a series of assignments: the last assignment to a key wins, ...
  function Dict(puts: seq<Nodes>): map<Uuid, Nodes> {
    if puts == [] then map[]
    else Dict(puts[..|puts| - 1])[puts[|puts| - 1].unit.uuid := puts[|puts| - 1]]
  }

  // ... and the first one gives the key its place in the iteration order.
  function Order(puts: seq<Nodes>): seq<Uuid> {
    if puts == [] then []
    else
      var before := Order(puts[..|puts| - 1]);
      var key := puts[|puts| - 1].unit.uuid;
      if key in before then before else before + [key]
  }

  lemma {:induction false} DictKeys(puts: seq<Nodes>)
    ensures forall u :: u in Order(puts) <==> u in Dict(puts)
  {
    if puts == [] {
    } else {
      DictKeys(puts[..|puts| - 1]);
    }
  }

  lemma LastIsNew(puts: seq<Nodes>)
    requires puts != [] && Distinct(Uuids(puts))
    ensures var n := |puts| - 1;
      Uuids(puts) == Uuids(puts[..n]) + [puts[n].unit.uuid] && Distinct(Uuids(puts[..n]))
      && puts[n].unit.uuid !in Uuids(puts[..n])
  {
    var n := |puts| - 1;
    assert Uuids(puts[..n]) == Uuids(puts)[..n];
    forall i | 0 <= i < n ensures Uuids(puts[..n])[i] != puts[n].unit.uuid {
      assert Uuids(puts[..n])[i] == Uuids(puts)[i] && Uuids(puts)[n] == puts[n].unit.uuid;
    }
  }

  // With distinct keys nothing is overwritten and the order is that of the assignments.
  lemma {:induction false} DistinctDict(puts: seq<Nodes>)
    requires Distinct(Uuids(puts))
    ensures Order(puts) == Uuids(puts)
    ensures forall u :: u in Dict(puts) <==> u in Uuids(puts)
    ensures forall i :: 0 <= i < |puts| ==> puts[i].unit.uuid in Dict(puts)
    ensures forall i :: 0 <= i < |puts| ==> Dict(puts)[puts[i].unit.uuid] == puts[i]
  {
    DictKeys(puts);
    if puts == [] {
    } else {
      var before, last := puts[..|puts| - 1], |puts| - 1;
      LastIsNew(puts);
      DistinctDict(before);
      forall i | 0 <= i < |puts|
        ensures puts[i].unit.uuid in Dict(puts) && Dict(puts)[puts[i].unit.uuid] == puts[i]
      {
        if i < last {
          assert before[i] == puts[i] && Uuids(before)[i] == puts[i].unit.uuid;
          assert Uuids(before)[i] in Uuids(before);
        }
      }
    }
  }

  // The values of a dictionary in its iteration order.
  function Items(keys: seq<Uuid>, values: map<Uuid, Nodes>): seq<Nodes>
    requires forall u :: u in keys ==> u in values
  {
    seq(|keys|, i requires 0 <= i < |keys| => values[keys[i]])
  }

  // A dictionary from unit identifiers to nodes that remembers the order of insertion.
  class NodesMap {
    var keys: seq<Uuid>
    var values: map<Uuid, Nodes>
    ghost var puts: seq<Nodes>

    ghost predicate Valid()
      reads this
    {
      keys == Order(puts) && values == Dict(puts)
    }

    constructor ()
      ensures Valid() && puts == []
    {
      keys, values, puts := [], map[], [];
    }

    method Put(nodes: Nodes)
      requires Valid()
      modifies this
      ensures Valid() && puts == old(puts) + [nodes]
    {
      var key := nodes.unit.uuid;
      assert (puts + [nodes])[..|puts|] == puts;
      if key !in keys {
        keys := keys + [key];
      }
      values := values[key := nodes];
      puts := puts + [nodes];
    }
  }

  lemma NextChild(node: Node, i: nat)
    requires i < |node.children|
    ensures Entries(node, node.children[..i + 1]) ==
        Entries(node, node.children[..i]) + [Nodes(node.children[i], node)] + Units(node.children[i])
  {
    EntriesSnoc(node, node.children[..i], node.children[i]);
    assert node.children[..i + 1] == node.children[..i] + [node.children[i]];
  }

  method AddNodeChildren(node: Node, parentMap: NodesMap)
    requires parentMap.Valid()
    modifies parentMap
    ensures parentMap.Valid() && parentMap.puts == old(parentMap.puts) + Units(node)
    decreases node
  {
    ghost var before := parentMap.puts;
    for i := 0 to |node.children|
      invariant parentMap.Valid()
      invariant parentMap.puts == before + Entries(node, node.children[..i])
    {
      var child := node.children[i];
      parentMap.Put(Nodes(child, node));
      AddNodeChildren(child, parentMap);
      NextChild(node, i);
      assert parentMap.puts == before + (Entries(node, node.children[..i]) + [Nodes(child, node)] + Units(child));
    }
    assert node.children[..|node.children|] == node.children;
  }

  // sdtoolplus/diff_org_trees.py:34-52
  method UuidToNodesMap(tree: Node) returns (parentMap: NodesMap)
    ensures fresh(parentMap) && parentMap.Valid() && parentMap.puts == Units(tree)
    ensures WellFormed(tree) ==> Lists(parentMap.keys, parentMap.values, tree)
  {
    parentMap := new NodesMap();
    AddNodeChildren(tree, parentMap);
    WellFormedLists(tree);
  }

  // The keys are the units of the tree in preorder, each with its own nodes.
  ghost predicate Lists(keys: seq<Uuid>, values: map<Uuid, Nodes>, tree: Node) {
    && keys == Uuids(Units(tree))
    && (forall u :: u in values <==> u in keys)
    && (forall i :: 0 <= i < |keys| ==> values[keys[i]] == Units(tree)[i])
  }

  lemma WellFormedLists(tree: Node)
    ensures WellFormed(tree) ==> Lists(Order(Units(tree)), Dict(Units(tree)), tree)
  {
    if WellFormed(tree) {
      var all := [tree.uuid] + Uuids(Units(tree));
      forall i, j | 0 <= i < j < |Units(tree)| ensures Uuids(Units(tree))[i] != Uuids(Units(tree))[j] {
        assert all[i + 1] == Uuids(Units(tree))[i] && all[j + 1] == Uuids(Units(tree))[j];
      }
      DistinctDict(Units(tree));
      forall i | 0 <= i < |Units(tree)|
        ensures Dict(Units(tree))[Uuids(Units(tree))[i]] == Units(tree)[i]
      {
        assert Uuids(Units(tree))[i] == Units(tree)[i].unit.uuid;
      }
    }
  }

  function ParentUuids(d: map<Uuid, Nodes>): Parents { map u | u in d :: d[u].parent.uuid }

  function UnitNames(d: map<Uuid, Nodes>): map<Uuid, string> { map u | u in d :: d[u].unit.name }

  function ParentsOf(tree: Node): Parents { ParentUuids(Dict(Units(tree))) }

  function NamesOf(tree: Node): map<Uuid, string> { UnitNames(Dict(Units(tree))) }

  // The place of u in a list without duplicates, counted from one; zero if it is not there.
  function Position(keys: seq<Uuid>, u: Uuid): (p: nat)
    ensures p <= |keys|
    ensures p > 0 <==> u in keys
    ensures p > 0 ==> keys[p - 1] == u
  {
    if keys == [] then 0
    else if keys[|keys| - 1] == u then |keys|
    else Position(keys[..|keys| - 1], u)
  }

  // Positions that decrease from every unit to its parent, ending at a root without parent.
  ghost predicate Ranked(root: Uuid, keys: seq<Uuid>, parents: Parents) {
    && root !in parents
    && (forall u :: u in parents <==> u in keys)
    && forall u :: u in parents ==>
        Position(keys, parents[u]) < Position(keys, u) && (parents[u] == root || parents[u] in parents)
  }

  lemma KeysAreDistinct(tree: Node)
    requires WellFormed(tree)
    ensures Distinct(Uuids(Units(tree))) && tree.uuid !in Uuids(Units(tree))
  {
    var keys := Uuids(Units(tree));
    var all := [tree.uuid] + keys;
    assert all[0] == tree.uuid && forall i :: 0 <= i < |keys| ==> all[i + 1] == keys[i];
    forall i, j | 0 <= i < j < |keys| ensures keys[i] != keys[j] {
      assert all[i + 1] != all[j + 1];
    }
    forall i | 0 <= i < |keys| ensures keys[i] != tree.uuid {
      assert all[0] != all[i + 1];
    }
  }

  lemma PositionOf(keys: seq<Uuid>, i: nat)
    requires i < |keys| && Distinct(keys)
    ensures Position(keys, keys[i]) == i + 1
  {
    assert keys[Position(keys, keys[i]) - 1] == keys[i];
  }

  // In a list of nodes with distinct keys where parents come first, parents have smaller positions.
  lemma ParentIsRanked(es: seq<Nodes>, root: Node, i: nat)
    requires i < |es| && Distinct(Uuids(es)) && root.uuid !in Uuids(es)
    requires es[i].parent == root || ComesBefore(es, i, es[i].parent)
    ensures Position(Uuids(es), es[i].parent.uuid) < Position(Uuids(es), es[i].unit.uuid)
    ensures es[i].parent.uuid == root.uuid || es[i].parent.uuid in Uuids(es)
  {
    var keys := Uuids(es);
    PositionOf(keys, i);
    if es[i].parent != root {
      var j :| 0 <= j < i && j < |es| && es[j].unit == es[i].parent;
      PositionOf(keys, j);
      assert keys[j] == es[i].parent.uuid;
    }
  }

  lemma TreeIsRanked(tree: Node)
    requires WellFormed(tree)
    ensures Distinct(Uuids(Units(tree)))
    ensures Ranked(tree.uuid, Uuids(Units(tree)), ParentsOf(tree))
  {
    var es := Units(tree);
    var keys := Uuids(es);
    var parents := ParentsOf(tree);
    KeysAreDistinct(tree);
    WellFormedLists(tree);
    DistinctDict(es);
    ParentsComeFirst(tree, tree.children);
    forall u | u in parents
      ensures Position(keys, parents[u]) < Position(keys, u) && (parents[u] == tree.uuid || parents[u] in parents)
    {
      var i: nat :| i < |keys| && keys[i] == u;
      assert parents[u] == es[i].parent.uuid;
      ParentIsRanked(es, tree, i);
    }
  }

  // Listed in the order of a tree's keys.
  ghost predicate Ascending(ns: seq<Nodes>, keys: seq<Uuid>) {
    forall i, j :: 0 <= i < j < |ns| ==> Position(keys, ns[i].unit.uuid) < Position(keys, ns[j].unit.uuid)
  }

  lemma FilterKeepsOrder(ns: seq<Nodes>, p: Nodes -> bool, keys: seq<Uuid>)
    requires Ascending(ns, keys)
    ensures Ascending(Filter(ns, p), keys)
  {
    if ns != [] {
      FilterKeepsOrder(ns[1..], p, keys);
      FilterMembers(ns[1..], p);
      var rest := Filter(ns[1..], p);
      forall i | 0 <= i < |rest| ensures Position(keys, ns[0].unit.uuid) < Position(keys, rest[i].unit.uuid) {
        assert rest[i] in ns[1..];
        var j :| 0 <= j < |ns[1..]| && ns[1..][j] == rest[i];
        assert ns[j + 1] == rest[i];
      }
    }
  }

  // The units of a tree, looked up in its dictionary.
  lemma UnitsAndDict(tree: Node)
    requires WellFormed(tree)
    ensures forall n :: n in Units(tree) ==> n.unit.uuid in Dict(Units(tree)) && Dict(Units(tree))[n.unit.uuid] == n
    ensures forall u :: u in Dict(Units(tree)) ==> Dict(Units(tree))[u] in Units(tree) && Dict(Units(tree))[u].unit.uuid == u
    ensures Ascending(Units(tree), Uuids(Units(tree)))
  {
    var es := Units(tree);
    KeysAreDistinct(tree);
    DistinctDict(es);
    forall u | u in Dict(es) ensures Dict(es)[u] in es && Dict(es)[u].unit.uuid == u {
      var i :| 0 <= i < |es| && Uuids(es)[i] == u;
      assert es[i].unit.uuid == u;
    }
    forall i, j | 0 <= i < j < |es|
      ensures Position(Uuids(es), es[i].unit.uuid) < Position(Uuids(es), es[j].unit.uuid)
    {
      PositionOf(Uuids(es), i);
      PositionOf(Uuids(es), j);
    }
  }

  lemma AscendingIsDistinct(ns: seq<Nodes>, keys: seq<Uuid>)
    requires Ascending(ns, keys)
    ensures Distinct(Uuids(ns))
  {
    forall i, j | 0 <= i < j < |ns| ensures Uuids(ns)[i] != Uuids(ns)[j] {
      assert Position(keys, ns[i].unit.uuid) < Position(keys, ns[j].unit.uuid);
    }
  }
}
