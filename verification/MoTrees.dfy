// Rebuilding the trees of MO's units from their parents (sdtoolplus/mo_org_unit_importer.py:266-305).
module MoTrees {
  import opened Common
  import opened Forest

  datatype OrgUnit = OrgUnit(uuid: Uuid, parentUuid: Option<Uuid>)

  // The units naming p as their parent, in input order.
  function Naming(units: seq<OrgUnit>, p: Uuid): seq<Uuid> {
    if units == [] then []
    else if units[0].parentUuid == Some(p) then [units[0].uuid] + Naming(units[1..], p)
    else Naming(units[1..], p)
  }

  ghost predicate UniqueUuids(units: seq<OrgUnit>) {
    forall i, j :: 0 <= i < j < |units| ==> units[i].uuid != units[j].uuid
  }

  function UuidSet(units: seq<OrgUnit>): set<Uuid> { set i | 0 <= i < |units| :: units[i].uuid }

  ghost function ToSet(us: seq<Uuid>): set<Uuid> { set u | u in us }

  ghost predicate IsUnit(units: seq<OrgUnit>, u: Uuid) {
    exists i :: 0 <= i < |units| && units[i].uuid == u
  }

  // Unit u names p as its parent.
  ghost predicate Names(units: seq<OrgUnit>, u: Uuid, p: Uuid) {
    exists i :: 0 <= i < |units| && units[i].uuid == u && units[i].parentUuid == Some(p)
  }

  // Going up from u by the parents the units name leads to the organisation in at most k + 1 steps.
  ghost predicate ReachableBy(units: seq<OrgUnit>, org: Uuid, u: Uuid, k: nat)
    decreases k
  {
    Names(units, u, org) || (k > 0 && exists p :: Names(units, u, p) && ReachableBy(units, org, p, k - 1))
  }

  ghost predicate Reachable(units: seq<OrgUnit>, org: Uuid, u: Uuid) {
    exists k: nat :: ReachableBy(units, org, u, k)
  }

  // The children found come in input order.
  lemma {:induction false} NamingOrder(units: seq<OrgUnit>, p: Uuid, i: nat, j: nat)
    requires UniqueUuids(units) && i < j < |units|
    requires units[i].parentUuid == Some(p) && units[j].parentUuid == Some(p)
    ensures exists a, b :: 0 <= a < b < |Naming(units, p)| && Naming(units, p)[a] == units[i].uuid
                           && Naming(units, p)[b] == units[j].uuid
  {
    var all, rest := Naming(units, p), Naming(units[1..], p);
    assert units[1..][j - 1] == units[j];
    if i == 0 {
      NamingMembers(units[1..], p);
      assert Names(units[1..], units[j].uuid, p);
      var b :| 0 <= b < |rest| && rest[b] == units[j].uuid;
      assert all[0] == units[i].uuid && all[b + 1] == rest[b];
    } else {
      assert units[1..][i - 1] == units[i];
      NamingOrder(units[1..], p, i - 1, j - 1);
      var a, b :| 0 <= a < b < |rest| && rest[a] == units[i].uuid && rest[b] == units[j].uuid;
      var shift := if units[0].parentUuid == Some(p) then 1 else 0;
      assert all[a + shift] == rest[a] && all[b + shift] == rest[b];
    }
  }

  lemma {:induction false} NamingMembers(units: seq<OrgUnit>, p: Uuid)
    requires UniqueUuids(units)
    ensures forall u :: u in Naming(units, p) <==> Names(units, u, p)
    ensures Distinct(Naming(units, p))
  {
    if units == [] {
    } else {
      NamingMembers(units[1..], p);
      forall u
        ensures Names(units, u, p)
           <==> Names(units[1..], u, p) || (units[0].uuid == u && units[0].parentUuid == Some(p))
      {
        if i :| 0 <= i < |units| && units[i].uuid == u && units[i].parentUuid == Some(p) && i > 0 {
          assert units[1..][i - 1] == units[i];
        }
        if i :| 0 <= i < |units[1..]| && units[1..][i].uuid == u && units[1..][i].parentUuid == Some(p) {
          assert units[i + 1] == units[1..][i];
        }
      }
      assert !Names(units[1..], units[0].uuid, p);
    }
  }

  // A unit names one parent at most.
  lemma OneParent(units: seq<OrgUnit>, u: Uuid, p: Uuid, q: Uuid)
    requires UniqueUuids(units) && Names(units, u, p) && Names(units, u, q)
    ensures p == q
  {
  }

  // The units taken from the front of the queue so far and those still in it are distinct: the
  // roots, and the units naming one already taken.
  ghost predicate Explored(units: seq<OrgUnit>, org: Uuid, visited: seq<Uuid>, seen: seq<Uuid>) {
    && visited <= seen && Distinct(seen)
    && (forall u :: Names(units, u, org) ==> u in seen)
    && (forall u, p :: Names(units, u, p) && p in visited ==> u in seen)
    && (forall u :: u in seen ==> Comes(units, org, visited, u))
  }

  // u is a root, or names a unit taken as its parent.
  ghost predicate Comes(units: seq<OrgUnit>, org: Uuid, visited: seq<Uuid>, u: Uuid) {
    Names(units, u, org) || exists p :: Names(units, u, p) && p in visited
  }

  lemma ExploreNext(units: seq<OrgUnit>, org: Uuid, visited: seq<Uuid>, seen: seq<Uuid>)
    requires UniqueUuids(units) && !IsUnit(units, org)
    requires Explored(units, org, visited, seen) && |visited| < |seen|
    ensures Explored(units, org, visited + [seen[|visited|]], seen + Naming(units, seen[|visited|]))
    ensures seen[|visited|] in UuidSet(units) && seen[|visited|] !in visited
  {
    var focus := seen[|visited|];
    var kids := Naming(units, focus);
    var visited' := visited + [focus];
    assert focus in seen && Comes(units, org, visited, focus);
    assert focus !in visited;
    NamingMembers(units, focus);
    forall c | c in kids ensures c !in seen {
      if c in seen {
        assert Comes(units, org, visited, c);
        if p :| Names(units, c, p) && (p == org || p in visited) {
          OneParent(units, c, p, focus);
        }
      }
    }
    forall i, j | 0 <= i < j < |seen + kids| ensures (seen + kids)[i] != (seen + kids)[j] {
      if i < |seen| <= j {
        assert kids[j - |seen|] in kids && seen[i] in seen;
      }
    }
    forall u | u in seen + kids ensures Comes(units, org, visited', u) {
      if u in seen {
        assert Comes(units, org, visited, u);
        if p :| Names(units, u, p) && p in visited {
          assert p in visited';
        }
      } else {
        assert visited'[|visited|] == focus;
        assert Names(units, u, focus) && focus in visited';
      }
    }
  }

  // Units taken are reachable, ...
  lemma {:induction false} SeenAreReachable(units: seq<OrgUnit>, org: Uuid, visited: seq<Uuid>, n: nat)
    requires n <= |visited| && forall i :: 0 <= i < |visited| ==> Comes(units, org, visited[..i], visited[i])
    ensures forall i :: 0 <= i < n ==> Reachable(units, org, visited[i])
  {
    if n == 0 {
    } else {
      SeenAreReachable(units, org, visited, n - 1);
      var u := visited[n - 1];
      assert Comes(units, org, visited[..n - 1], u);
      if Names(units, u, org) {
        assert ReachableBy(units, org, u, 0);
      } else {
        var p :| Names(units, u, p) && p in visited[..n - 1];
        var k: nat :| ReachableBy(units, org, p, k);
        assert ReachableBy(units, org, u, k + 1);
      }
    }
  }

  // ... and once nothing is waiting all reachable units have been taken.
  lemma {:induction false} ReachableAreSeen(units: seq<OrgUnit>, org: Uuid, visited: seq<Uuid>, u: Uuid, k: nat)
    requires Explored(units, org, visited, visited) && ReachableBy(units, org, u, k)
    ensures u in visited
    decreases k
  {
    if Names(units, u, org) {
    } else {
      var p :| Names(units, u, p) && ReachableBy(units, org, p, k - 1);
      ReachableAreSeen(units, org, visited, p, k - 1);
    }
  }

  // Units come after the unit that leads to them.
  ghost predicate InOrder(units: seq<OrgUnit>, org: Uuid, visited: seq<Uuid>) {
    forall i :: 0 <= i < |visited| ==> Comes(units, org, visited[..i], visited[i])
  }

  // Exactly the units in visited have been given their children.
  ghost predicate Filled(units: seq<OrgUnit>, visited: seq<Uuid>, children: map<Uuid, seq<Uuid>>) {
    && (forall u :: u in children <==> u in visited)
    && (forall u :: u in children ==> children[u] == Naming(units, u))
  }

  lemma InOneMore(us: seq<Uuid>, u: Uuid, v: Uuid)
    ensures v in us + [u] <==> v in us || v == u
  {
    if v == u {
      assert (us + [u])[|us|] == v;
    }
  }

  lemma FillNext(units: seq<OrgUnit>, visited: seq<Uuid>, children: map<Uuid, seq<Uuid>>, focus: Uuid)
    requires Filled(units, visited, children)
    ensures Filled(units, visited + [focus], children[focus := Naming(units, focus)])
  {
    forall u ensures u in visited + [focus] <==> u in visited || u == focus {
      InOneMore(visited, focus, u);
    }
  }

  lemma FewerLeft(all: set<Uuid>, visited: seq<Uuid>, focus: Uuid)
    requires focus in all && focus !in visited
    ensures |all - ToSet(visited + [focus])| < |all - ToSet(visited)|
  {
    forall u ensures u in visited + [focus] <==> u in visited || u == focus {
      InOneMore(visited, focus, u);
    }
    assert all - ToSet(visited + [focus]) == all - ToSet(visited) - {focus};
  }

  lemma OrderNext(units: seq<OrgUnit>, org: Uuid, visited: seq<Uuid>, focus: Uuid)
    requires InOrder(units, org, visited) && Comes(units, org, visited, focus)
    ensures InOrder(units, org, visited + [focus])
  {
    var visited' := visited + [focus];
    forall i | 0 <= i < |visited'| ensures Comes(units, org, visited'[..i], visited'[i]) {
      if i < |visited| {
        assert visited'[..i] == visited[..i];
      } else {
        assert visited'[..i] == visited;
      }
    }
  }

  lemma QueueNext(visited: seq<Uuid>, queue: seq<Uuid>, more: seq<Uuid>)
    requires queue != []
    ensures (visited + queue)[|visited|] == queue[0] && queue[0] in visited + queue
    ensures visited + queue + more == visited + [queue[0]] + (queue + more)[1..]
  {
    assert (queue + more)[1..] == queue[1..] + more;
    assert queue == [queue[0]] + queue[1..];
  }

  lemma Start(units: seq<OrgUnit>, org: Uuid)
    requires UniqueUuids(units)
    ensures Explored(units, org, [], Naming(units, org))
  {
    NamingMembers(units, org);
  }

  lemma Finish(units: seq<OrgUnit>, org: Uuid, visited: seq<Uuid>)
    requires Explored(units, org, visited, visited) && InOrder(units, org, visited)
    ensures forall u :: u in visited <==> Reachable(units, org, u)
  {
    SeenAreReachable(units, org, visited, |visited|);
    forall u | Reachable(units, org, u) ensures u in visited {
      var k: nat :| ReachableBy(units, org, u, k);
      ReachableAreSeen(units, org, visited, u, k);
    }
  }

  // With unique identifiers, none of them the organisation's, the loop ends, whatever cycles
  // unreachable units form: every reachable unit is taken once, after the unit it names, and
  // gets as children exactly the units naming it, in input order.
  method BuildTrees(units: seq<OrgUnit>, org: Uuid)
    returns (roots: seq<Uuid>, children: map<Uuid, seq<Uuid>>, ghost visited: seq<Uuid>)
    requires UniqueUuids(units) && !IsUnit(units, org)
    ensures roots == Naming(units, org)
    ensures Filled(units, visited, children) && Distinct(visited) && InOrder(units, org, visited)
    ensures forall u :: u in visited <==> Reachable(units, org, u)
    ensures forall u :: u in roots <==> Names(units, u, org)
    ensures forall p :: Reachable(units, org, p) ==>
      p in children && forall u :: u in children[p] <==> Names(units, u, p)
  {
    roots := Naming(units, org);
    var rootNodes := roots;
    children := map[];
    visited := [];
    Start(units, org);
    assert [] + rootNodes == rootNodes;
    while rootNodes != []
      invariant Explored(units, org, visited, visited + rootNodes)
      invariant Filled(units, visited, children) && InOrder(units, org, visited)
      decreases |UuidSet(units) - ToSet(visited)|
    {
      var focusNode := rootNodes[0];
      var focusNodeChildren := Naming(units, focusNode);
      QueueNext(visited, rootNodes, focusNodeChildren);
      ExploreNext(units, org, visited, visited + rootNodes);
      FillNext(units, visited, children, focusNode);
      FewerLeft(UuidSet(units), visited, focusNode);
      OrderNext(units, org, visited, focusNode);
      children := children[focusNode := focusNodeChildren];
      rootNodes := rootNodes + focusNodeChildren;
      rootNodes := rootNodes[1..];
      visited := visited + [focusNode];
    }
    assert visited + rootNodes == visited;
    Finish(units, org, visited);
    NamingMembers(units, org);
    forall p | Reachable(units, org, p) ensures p in children && forall u :: u in children[p] <==> Names(units, u, p) {
      NamingMembers(units, p);
    }
  }
}
