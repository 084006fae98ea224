// Parent relations: ancestors, cycles, depth.
module Forest {
  import opened Common

  type Parents = map<Uuid, Uuid>

  // The k-th ancestor of u; a unit without an entry has no parent.
  function Up(m: Parents, u: Uuid, k: nat): Option<Uuid>
    decreases k
  {
    if k == 0 then Some(u)
    else if u in m then Up(m, m[u], k - 1)
    else None
  }

  // One step up from the j-th ancestor.
  lemma {:induction false} UpOnce(parents: Parents, u: Uuid, j: nat)
    requires Up(parents, u, j).Some?
    ensures var v := Up(parents, u, j).value;
      Up(parents, u, j + 1) == if v in parents then Some(parents[v]) else None
    decreases j
  {
    if j == 0 {
      assert u in parents ==> Up(parents, parents[u], 0) == Some(parents[u]);
    } else {
      UpOnce(parents, parents[u], j - 1);
    }
  }

  // No unit is its own ancestor.
  ghost predicate Acyclic(m: Parents) {
    forall u: Uuid, k: nat :: k > 0 ==> Up(m, u, k) != Some(u)
  }

  // How many parents there are above u, never going through a unit twice.
  function Depth(m: Parents, u: Uuid): nat
    decreases |m|
  {
    if u !in m then 0 else 1 + Depth(m - {u}, m[u])
  }

  lemma {:induction false} DepthAtMostSize(m: Parents, u: Uuid)
    ensures Depth(m, u) <= |m|
    decreases |m|
  {
    if u !in m {
    } else {
      DepthAtMostSize(m - {u}, m[u]);
    }
  }

  // Ancestors in a part of the relation are ancestors in the whole.
  lemma {:induction false} UpInPart(m: Parents, s: set<Uuid>, u: Uuid, k: nat)
    requires Up(m - s, u, k).Some?
    ensures Up(m, u, k) == Up(m - s, u, k)
    decreases k
  {
    if k == 0 {
    } else {
      UpInPart(m, s, m[u], k - 1);
    }
  }

  // Removing a unit that is no ancestor of u does not change u's depth.
  lemma {:induction false} DepthWithout(m: Parents, x: Uuid, u: Uuid)
    requires forall k: nat :: Up(m, u, k) != Some(x)
    ensures Depth(m - {x}, u) == Depth(m, u)
    decreases |m|
  {
    assert Up(m, u, 0) == Some(u);
    if u !in m {
    } else {
      assert m - {x} - {u} == m - {u} - {x};
      forall k: nat ensures Up(m - {u}, m[u], k) != Some(x) {
        if Up(m - {u}, m[u], k).Some? {
          UpInPart(m, {u}, m[u], k);
          assert Up(m, u, k + 1) == Up(m, m[u], k);
        }
      }
      DepthWithout(m - {u}, x, m[u]);
    }
  }

  // In an acyclic relation every step up decreases the depth by one.
  lemma {:induction false} DepthOfParent(m: Parents, u: Uuid)
    requires Acyclic(m) && u in m
    ensures Depth(m, u) == 1 + Depth(m, m[u])
  {
    forall k: nat ensures Up(m, m[u], k) != Some(u) {
      assert Up(m, u, k + 1) == Up(m, m[u], k);
    }
    DepthWithout(m, u, m[u]);
  }

  // A rank that decreases along every edge rules out cycles.
  lemma {:induction false} RankDecreases(m: Parents, rank: Uuid -> nat, u: Uuid, k: nat)
    requires forall v: Uuid :: v in m ==> rank(m[v]) < rank(v)
    requires Up(m, u, k).Some?
    ensures rank(Up(m, u, k).value) + k <= rank(u)
    decreases k
  {
    if k == 0 {
    } else {
      RankDecreases(m, rank, m[u], k - 1);
    }
  }

  lemma RankedIsAcyclic(m: Parents, rank: Uuid -> nat)
    requires forall v: Uuid :: v in m ==> rank(m[v]) < rank(v)
    ensures Acyclic(m)
  {
    forall u: Uuid, k: nat | k > 0 ensures Up(m, u, k) != Some(u) {
      if Up(m, u, k).Some? {
        RankDecreases(m, rank, u, k);
      }
    }
  }

  // u is v or stands above it.
  ghost predicate IsAtOrAbove(m: Parents, u: Uuid, v: Uuid) {
    exists k: nat :: Up(m, v, k) == Some(u)
  }

  lemma AtOrAboveSelf(m: Parents, u: Uuid)
    ensures IsAtOrAbove(m, u, u)
  {
    assert Up(m, u, 0) == Some(u);
  }

  lemma AtOrAboveParent(m: Parents, u: Uuid, v: Uuid)
    requires v in m
    ensures IsAtOrAbove(m, u, v) <==> v == u || IsAtOrAbove(m, u, m[v])
  {
    AtOrAboveSelf(m, u);
    if k: nat :| Up(m, v, k) == Some(u) && k > 0 {
      assert Up(m, m[v], k - 1) == Some(u);
    }
    if k: nat :| Up(m, m[v], k) == Some(u) {
      assert Up(m, v, k + 1) == Some(u);
    }
  }

  // Whether u is v or stands above it, by going up from v and never through a unit twice.
  predicate StandsAbove(m: Parents, u: Uuid, v: Uuid)
    decreases |m|
  {
    v == u || (v in m && StandsAbove(m - {v}, u, m[v]))
  }

  // A path that avoids x is there without x, too.
  lemma {:induction false} UpAvoiding(m: Parents, x: Uuid, v: Uuid, k: nat)
    requires forall j: nat :: j <= k ==> Up(m, v, j) != Some(x)
    ensures Up(m - {x}, v, k) == Up(m, v, k)
    decreases k
  {
    assert Up(m, v, 0) == Some(v);
    if k == 0 || v !in m {
    } else {
      forall j: nat | j <= k - 1 ensures Up(m, m[v], j) != Some(x) {
        assert Up(m, v, j + 1) == Up(m, m[v], j);
      }
      UpAvoiding(m, x, m[v], k - 1);
    }
  }

  // The rest of a path from its i-th unit on.
  lemma {:induction false} UpRest(m: Parents, v: Uuid, i: nat, k: nat)
    requires i <= k && Up(m, v, i).Some?
    ensures Up(m, v, k) == Up(m, Up(m, v, i).value, k - i)
    decreases i
  {
    if i == 0 {
    } else {
      UpRest(m, m[v], i - 1, k - 1);
    }
  }

  lemma {:induction false} PathIsFound(m: Parents, u: Uuid, v: Uuid, k: nat)
    requires Up(m, v, k) == Some(u)
    ensures StandsAbove(m, u, v)
    decreases k
  {
    if v == u {
    } else if i: nat :| i <= k - 1 && Up(m, m[v], i) == Some(v) {
      UpRest(m, m[v], i, k - 1);
      PathIsFound(m, u, v, k - 1 - i);
    } else {
      UpAvoiding(m, v, m[v], k - 1);
      PathIsFound(m - {v}, u, m[v], k - 1);
    }
  }

  lemma {:induction false} StandsAboveIff(m: Parents, u: Uuid, v: Uuid)
    ensures StandsAbove(m, u, v) <==> IsAtOrAbove(m, u, v)
    decreases |m|
  {
    if k: nat :| Up(m, v, k) == Some(u) {
      PathIsFound(m, u, v, k);
    }
    if v == u {
      AtOrAboveSelf(m, u);
    } else if v in m && StandsAbove(m - {v}, u, m[v]) {
      StandsAboveIff(m - {v}, u, m[v]);
      var k: nat :| Up(m - {v}, m[v], k) == Some(u);
      UpInPart(m, {v}, m[v], k);
      AtOrAboveParent(m, u, v);
    }
  }

  // A path up to u does not use u's own edge.
  lemma {:induction false} UpToMoved(m: Parents, u: Uuid, p: Uuid, v: Uuid, k: nat)
    requires Up(m, v, k) == Some(u)
    ensures IsAtOrAbove(m[u := p], u, v)
    decreases k
  {
    if v == u {
      AtOrAboveSelf(m[u := p], u);
    } else {
      UpToMoved(m, u, p, m[v], k - 1);
      AtOrAboveParent(m[u := p], u, v);
    }
  }

  // Moving u below p leaves no cycle if and only if u is not p and does not stand above it.
  lemma MoveIsSafeIff(m: Parents, u: Uuid, p: Uuid)
    requires Acyclic(m)
    ensures Acyclic(m[u := p]) <==> !IsAtOrAbove(m, u, p)
  {
    var next := m[u := p];
    if IsAtOrAbove(m, u, p) {
      var k: nat :| Up(m, p, k) == Some(u);
      UpToMoved(m, u, p, p, k);
      var j: nat :| Up(next, p, j) == Some(u);
      assert Up(next, u, j + 1) == Up(next, p, j);
    } else {
      forall v | v in next ensures MovedRank(m, u, p, next[v]) < MovedRank(m, u, p, v) {
        MovedRankDecreases(m, u, p, v);
      }
      RankedIsAcyclic(next, v => MovedRank(m, u, p, v));
    }
  }

  // u and everything below it ranks above p.
  ghost function MovedRank(m: Parents, u: Uuid, p: Uuid, v: Uuid): nat {
    if IsAtOrAbove(m, u, v) then Depth(m, p) + 1 + Depth(m, v) else Depth(m, v)
  }

  lemma MovedRankDecreases(m: Parents, u: Uuid, p: Uuid, v: Uuid)
    requires Acyclic(m) && !IsAtOrAbove(m, u, p) && v in m[u := p]
    ensures MovedRank(m, u, p, m[u := p][v]) < MovedRank(m, u, p, v)
  {
    if v == u {
      AtOrAboveSelf(m, u);
    } else {
      AtOrAboveParent(m, u, v);
      DepthOfParent(m, v);
    }
  }
}
