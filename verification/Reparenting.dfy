// Moving a parent relation towards another one a few units at a time.
module Reparenting {
  import opened Common
  import opened Forest
  import opened OrgTrees

  // mo, with the units in done taking their values from sd.
  function Overlay<V>(mo: map<Uuid, V>, sd: map<Uuid, V>, done: set<Uuid>): map<Uuid, V>
    requires done <= sd.Keys
  {
    map u | u in mo.Keys + done :: if u in done then sd[u] else mo[u]
  }

  // u already has its SD parent when only the units in done have been given theirs.
  ghost predicate InPlace(mo: Parents, sd: Parents, done: set<Uuid>, u: Uuid) {
    u in done || (u in mo && u in sd && mo[u] == sd[u])
  }

  // u and everything above it in SD are in place.
  ghost predicate Settled(mo: Parents, sd: Parents, done: set<Uuid>, u: Uuid) {
    u in sd && forall k: nat :: Settles(mo, sd, done, u, k)
  }

  ghost predicate Settles(mo: Parents, sd: Parents, done: set<Uuid>, u: Uuid, k: nat) {
    Up(sd, u, k).Some? && Up(sd, u, k).value in sd ==> InPlace(mo, sd, done, Up(sd, u, k).value)
  }

  // Every added unit's parent is there, and a moved unit is moved only once all above it are in place.
  ghost predicate Careful(mo: Parents, sd: Parents, root: Uuid, done: set<Uuid>) {
    && done <= sd.Keys
    && (forall u :: u in done && u !in mo ==> sd[u] == root || sd[u] in mo || sd[u] in done)
    && (forall u :: u in done && u in mo && mo[u] != sd[u] ==> Settled(mo, sd, done, u))
  }

  lemma ParentSettled(mo: Parents, sd: Parents, done: set<Uuid>, u: Uuid)
    requires Settled(mo, sd, done, u)
    ensures InPlace(mo, sd, done, u)
    ensures sd[u] in sd ==> Settled(mo, sd, done, sd[u])
  {
    assert Up(sd, u, 0) == Some(u);
    assert Settles(mo, sd, done, u, 0);
    if sd[u] in sd {
      forall k: nat ensures Settles(mo, sd, done, sd[u], k) {
        assert Up(sd, u, k + 1) == Up(sd, sd[u], k);
        assert Settles(mo, sd, done, u, k + 1);
      }
    }
  }

  // A rank for the mixed relation: settled units below all others, added units above them all.
  ghost function MixedRank(mo: Parents, moKeys: seq<Uuid>, sd: Parents, sdKeys: seq<Uuid>, done: set<Uuid>,
                           u: Uuid): nat
  {
    if Settled(mo, sd, done, u) then Position(sdKeys, u)
    else if u in mo then |sdKeys| + Position(moKeys, u)
    else if u in done then |sdKeys| + |moKeys| + Position(sdKeys, u)
    else 0
  }

  lemma MixedRankDecreases(mo: Parents, moKeys: seq<Uuid>, sd: Parents, sdKeys: seq<Uuid>, root: Uuid,
                           done: set<Uuid>, u: Uuid)
    requires Ranked(root, moKeys, mo) && Ranked(root, sdKeys, sd) && Careful(mo, sd, root, done)
    requires u in Overlay(mo, sd, done)
    ensures MixedRank(mo, moKeys, sd, sdKeys, done, Overlay(mo, sd, done)[u]) < MixedRank(mo, moKeys, sd, sdKeys, done, u)
    ensures Overlay(mo, sd, done)[u] == root || Overlay(mo, sd, done)[u] in Overlay(mo, sd, done)
  {
    var p := Overlay(mo, sd, done)[u];
    if Settled(mo, sd, done, u) {
      ParentSettled(mo, sd, done, u);
      assert p == sd[u];
      if p in sd {
        ParentSettled(mo, sd, done, p);
      }
    } else if u in mo {
      assert p == mo[u];
    }
  }

  // No careful intermediate state has a cycle or a missing parent.
  lemma CarefulIsAcyclic(mo: Parents, moKeys: seq<Uuid>, sd: Parents, sdKeys: seq<Uuid>, root: Uuid,
                         done: set<Uuid>)
    requires Ranked(root, moKeys, mo) && Ranked(root, sdKeys, sd) && Careful(mo, sd, root, done)
    ensures Acyclic(Overlay(mo, sd, done))
    ensures NoneMissing(Overlay(mo, sd, done), root)
  {
    var now := Overlay(mo, sd, done);
    var rank := u => MixedRank(mo, moKeys, sd, sdKeys, done, u);
    forall u | u in now ensures rank(now[u]) < rank(u) && (now[u] == root || now[u] in now) {
      MixedRankDecreases(mo, moKeys, sd, sdKeys, root, done, u);
    }
    RankedIsAcyclic(now, rank);
  }

  ghost predicate NoneMissing(parents: Parents, root: Uuid) {
    forall u :: u in parents ==> parents[u] == root || parents[u] in parents
  }
}
