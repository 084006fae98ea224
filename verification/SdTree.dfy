// Building the SD tree from department references and completing it with the units the
// references leave out (sdtoolplus/sd/tree.py:133-237 and 322-361).
module SdTree {
  import opened Common
  import opened Forest
  import opened Reparenting

  // A department with the references nested in it: its parent, if it has one.
  datatype DepRef = DepRef(uuid: Uuid, refs: seq<DepRef>)

  // All departments named by a reference.
  function Named(ref: DepRef): set<Uuid> {
    {ref.uuid} + NamedIn(ref.refs)
  }

  function NamedIn(refs: seq<DepRef>): set<Uuid> {
    if refs == [] then {} else Named(refs[0]) + NamedIn(refs[1..])
  }

  lemma NamedSingle(ref: DepRef)
    requires |ref.refs| == 1
    ensures Named(ref) == {ref.uuid} + Named(ref.refs[0])
    ensures ref.refs[0].uuid in Named(ref.refs[0])
  {
    assert ref.refs[1..] == [];
    assert NamedIn(ref.refs[1..]) == {};
    assert NamedIn(ref.refs) == Named(ref.refs[0]);
  }

  // The reference lists the departments above ref.uuid as sd has them, up to one without a parent.
  ghost predicate Chain(ref: DepRef, sd: Parents) {
    if ref.uuid in sd then |ref.refs| == 1 && ref.refs[0].uuid == sd[ref.uuid] && Chain(ref.refs[0], sd)
    else ref.refs == []
  }

  // A chain names what lies above its department, and that is all departments it names.
  lemma {:induction false} ChainGoesUp(ref: DepRef, sd: Parents)
    requires Chain(ref, sd)
    ensures forall u :: u in Named(ref) && u in sd ==> sd[u] in Named(ref)
  {
    if ref.uuid !in sd {
    } else {
      ChainGoesUp(ref.refs[0], sd);
      NamedSingle(ref);
    }
  }

  // The parent the tree gives a unit of the references.
  function ParentIn(sd: Parents, root: Uuid, u: Uuid): Uuid { if u in sd then sd[u] else root }

  // The tree holds units of the references under their SD parents, with all that is above them.
  ghost predicate Follows(parents: Parents, sd: Parents, root: Uuid) {
    && (forall u :: u in parents ==> parents[u] == ParentIn(sd, root, u))
    && (forall u :: u in parents && u in sd ==> sd[u] in parents)
  }

  // Everything above a unit in the tree is in the tree.
  lemma {:induction false} AboveIsIn(parents: Parents, sd: Parents, root: Uuid, ref: DepRef)
    requires Follows(parents, sd, root) && Chain(ref, sd) && ref.uuid in parents
    ensures Named(ref) <= parents.Keys
  {
    if ref.uuid !in sd {
    } else {
      AboveIsIn(parents, sd, root, ref.refs[0]);
      NamedSingle(ref);
    }
  }

  // The reference can be processed when the departments in present are in the tree: up to the
  // first of those, each department is known and nests at most one reference.
  predicate Fits(ref: DepRef, departments: set<Uuid>, present: set<Uuid>) {
    && ref.uuid in departments
    && (ref.uuid in present || ref.refs == [] || (|ref.refs| == 1 && Fits(ref.refs[0], departments, present)))
  }

  // The reference, or one nested in it, gives u the parent p.
  ghost predicate Says(ref: DepRef, u: Uuid, p: Uuid, root: Uuid) {
    || (u == ref.uuid && p == if ref.refs == [] then root else ref.refs[0].uuid)
    || (ref.refs != [] && Says(ref.refs[0], u, p, root))
  }

  // Nothing in the tree changes; what is added has the parent the reference gives it.
  function Attached(parents: Parents, ref: DepRef, root: Uuid): (r: Parents)
    ensures ref.uuid in r && parents.Keys <= r.Keys <= parents.Keys + Named(ref)
    ensures forall u :: u in parents ==> r[u] == parents[u]
    ensures forall u :: u in r && u !in parents ==> Says(ref, u, r[u], root)
  {
    if ref.uuid in parents then parents
    else if ref.refs == [] then parents[ref.uuid := root]
    else Attached(parents, ref.refs[0], root)[ref.uuid := ref.refs[0].uuid]
  }

  function AttachedAll(refs: seq<DepRef>, root: Uuid): Parents {
    if refs == [] then map[] else Attached(AttachedAll(refs[..|refs| - 1], root), refs[|refs| - 1], root)
  }

  // Every reference can be processed after those before it.
  predicate AllFit(refs: seq<DepRef>, departments: set<Uuid>, root: Uuid) {
    refs == []
    || (AllFit(refs[..|refs| - 1], departments, root)
        && Fits(refs[|refs| - 1], departments, AttachedAll(refs[..|refs| - 1], root).Keys))
  }

  lemma {:induction false} OneDoesNotFit(refs: seq<DepRef>, i: nat, departments: set<Uuid>, root: Uuid)
    requires i < |refs| && !Fits(refs[i], departments, AttachedAll(refs[..i], root).Keys)
    ensures !AllFit(refs, departments, root)
  {
    if i == |refs| - 1 {
    } else {
      assert refs[..|refs| - 1][..i] == refs[..i];
      OneDoesNotFit(refs[..|refs| - 1], i, departments, root);
    }
  }

  // ----- references as SD has the departments

  ghost predicate Chains(refs: seq<DepRef>, sd: Parents) {
    forall i :: 0 <= i < |refs| ==> Chain(refs[i], sd)
  }

  class Tree {
    const root: Uuid
    // Each unit's parent: the tree's edges, and the dictionary of existing nodes.
    var parents: Parents
    ghost var inserted: seq<Uuid>

    constructor (root: Uuid)
      ensures this.root == root && parents == map[] && inserted == []
    {
      this.root, parents, inserted := root, map[], [];
    }

    method Attach(u: Uuid, parent: Uuid)
      modifies this
      ensures parents == old(parents)[u := parent] && inserted == old(inserted) + [u]
    {
      parents := parents[u := parent];
      inserted := inserted + [u];
    }

    // sdtoolplus/sd/tree.py:133-203; ok is false where the source raises an exception.
    method ProcessNode(ref: DepRef, departments: set<Uuid>) returns (ok: bool)
      modifies this
      ensures ok <==> Fits(ref, departments, old(parents).Keys)
      ensures parents == if ok then Attached(old(parents), ref, root) else old(parents)
      decreases ref
    {
      if ref.uuid !in departments {
        return false;
      }
      if ref.uuid in parents {
        return true;
      }
      if |ref.refs| > 0 {
        if |ref.refs| != 1 {
          return false;
        }
        ok := ProcessNode(ref.refs[0], departments);
        if ok {
          Attach(ref.uuid, ref.refs[0].uuid);
        }
        return;
      }
      Attach(ref.uuid, root);
      return true;
    }
  }

  // sdtoolplus/sd/tree.py:322-361. Whatever the references say, a department keeps the parent
  // given by the first reference that reaches it. References that list the departments above
  // as sd has them make the tree of all they name, each under its SD parent, and the only
  // exception is then for one that is not among the departments.
  method BuildTree(refs: seq<DepRef>, departments: set<Uuid>, root: Uuid, ghost sd: Parents)
    returns (ok: bool, tree: Tree)
    ensures fresh(tree) && tree.root == root
    ensures ok <==> AllFit(refs, departments, root)
    ensures ok ==> tree.parents == AttachedAll(refs, root)
    ensures Chains(refs, sd) ==> (ok <==> NamedIn(refs) <= departments)
    ensures Chains(refs, sd) && ok ==> tree.parents.Keys == NamedIn(refs) && Follows(tree.parents, sd, root)
  {
    tree := new Tree(root);
    ok := true;
    for i := 0 to |refs|
      invariant ok && tree.parents == AttachedAll(refs[..i], root) && AllFit(refs[..i], departments, root)
    {
      assert refs[..i + 1][..i] == refs[..i];
      ok := tree.ProcessNode(refs[i], departments);
      if !ok {
        OneDoesNotFit(refs, i, departments, root);
        break;
      }
    }
    assert refs[..|refs|] == refs;
    if Chains(refs, sd) {
      ChainsFitIff(refs, departments, root, sd);
      ChainsFollow(refs, root, sd);
    }
  }

  // All units of the tree are named by a reference.
  lemma {:induction false} AttachedAreNamed(refs: seq<DepRef>, root: Uuid)
    ensures AttachedAll(refs, root).Keys <= NamedIn(refs)
  {
    if refs == [] {
    } else {
      var n := |refs| - 1;
      AttachedAreNamed(refs[..n], root);
      NamedInSnoc(refs, n);
      assert refs[..n + 1] == refs;
    }
  }

  lemma {:induction false} NamedInConcat(a: seq<DepRef>, b: seq<DepRef>)
    ensures NamedIn(a + b) == NamedIn(a) + NamedIn(b)
  {
    if a == [] {
      assert a + b == b;
    } else {
      assert (a + b)[1..] == a[1..] + b;
      NamedInConcat(a[1..], b);
    }
  }

  lemma NamedInSnoc(refs: seq<DepRef>, i: nat)
    requires i < |refs|
    ensures NamedIn(refs[..i + 1]) == NamedIn(refs[..i]) + Named(refs[i])
    ensures Named(refs[i]) <= NamedIn(refs)
  {
    assert refs[..i + 1] == refs[..i] + [refs[i]];
    NamedInConcat(refs[..i], [refs[i]]);
    assert [refs[i]][1..] == [];
    assert refs == refs[..i + 1] + refs[i + 1..];
    NamedInConcat(refs[..i + 1], refs[i + 1..]);
  }

  lemma {:induction false} ChainFitsIff(ref: DepRef, departments: set<Uuid>, parents: Parents, root: Uuid, sd: Parents)
    requires Chain(ref, sd) && Follows(parents, sd, root) && parents.Keys <= departments
    ensures Fits(ref, departments, parents.Keys) <==> Named(ref) <= departments
  {
    if ref.uuid in parents {
      AboveIsIn(parents, sd, root, ref);
    } else if ref.uuid in sd {
      NamedSingle(ref);
      ChainFitsIff(ref.refs[0], departments, parents, root, sd);
    } else {
      assert Named(ref) == {ref.uuid};
    }
  }

  lemma {:induction false} ChainFollows(ref: DepRef, parents: Parents, root: Uuid, sd: Parents)
    requires Chain(ref, sd) && Follows(parents, sd, root)
    ensures Follows(Attached(parents, ref, root), sd, root)
    ensures Attached(parents, ref, root).Keys == parents.Keys + Named(ref)
  {
    if ref.uuid in parents {
      AboveIsIn(parents, sd, root, ref);
    } else if ref.uuid in sd {
      NamedSingle(ref);
      ChainFollows(ref.refs[0], parents, root, sd);
    }
  }

  lemma {:induction false} ChainsFollow(refs: seq<DepRef>, root: Uuid, sd: Parents)
    requires Chains(refs, sd)
    ensures Follows(AttachedAll(refs, root), sd, root) && AttachedAll(refs, root).Keys == NamedIn(refs)
  {
    if refs == [] {
    } else {
      var n := |refs| - 1;
      ChainsFollow(refs[..n], root, sd);
      ChainFollows(refs[n], AttachedAll(refs[..n], root), root, sd);
      NamedInSnoc(refs, n);
      assert refs[..n + 1] == refs;
    }
  }

  lemma {:induction false} ChainsFitIff(refs: seq<DepRef>, departments: set<Uuid>, root: Uuid, sd: Parents)
    requires Chains(refs, sd)
    ensures AllFit(refs, departments, root) <==> NamedIn(refs) <= departments
  {
    if refs == [] {
    } else {
      var n := |refs| - 1;
      ChainsFitIff(refs[..n], departments, root, sd);
      ChainsFollow(refs[..n], root, sd);
      NamedInSnoc(refs, n);
      assert refs[..n + 1] == refs;
      if NamedIn(refs[..n]) <= departments {
        ChainFitsIff(refs[n], departments, AttachedAll(refs[..n], root), root, sd);
      }
    }
  }

  // ----- references of any kind

  // No reference names its own department again above it.
  predicate NoneAboveItself(ref: DepRef) {
    ref.refs == [] || (ref.uuid !in Named(ref.refs[0]) && NoneAboveItself(ref.refs[0]))
  }

  lemma {:induction false} AncestorsAreIn(parents: Parents, root: Uuid, u: Uuid, k: nat)
    requires NoneMissing(parents, root) && root !in parents && u in parents && Up(parents, u, k).Some?
    ensures Up(parents, u, k).value == root || Up(parents, u, k).value in parents
    decreases k
  {
    if k == 0 {
    } else if parents[u] in parents {
      AncestorsAreIn(parents, root, parents[u], k - 1);
    } else {
      assert Up(parents, u, k) == Up(parents, root, k - 1);
    }
  }

  lemma {:induction false} AttachedIsForest(parents: Parents, ref: DepRef, root: Uuid)
    requires Acyclic(parents) && NoneMissing(parents, root) && root !in parents
    requires NoneAboveItself(ref) && root !in Named(ref)
    ensures Acyclic(Attached(parents, ref, root)) && NoneMissing(Attached(parents, ref, root), root)
  {
    if ref.uuid in parents {
    } else if ref.refs == [] {
      assert forall k: nat :: k > 0 ==> Up(parents, root, k) == None;
      MoveIsSafeIff(parents, ref.uuid, root);
    } else {
      var above := Attached(parents, ref.refs[0], root);
      AttachedIsForest(parents, ref.refs[0], root);
      forall k: nat | Up(above, ref.refs[0].uuid, k).Some?
        ensures Up(above, ref.refs[0].uuid, k) != Some(ref.uuid)
      {
        AncestorsAreIn(above, root, ref.refs[0].uuid, k);
      }
      MoveIsSafeIff(above, ref.uuid, ref.refs[0].uuid);
    }
  }

  // References may disagree about parents: the tree still has no cycle and no missing parent.
  lemma {:induction false} BuiltIsForest(refs: seq<DepRef>, root: Uuid)
    requires root !in NamedIn(refs) && forall i :: 0 <= i < |refs| ==> NoneAboveItself(refs[i])
    ensures Acyclic(AttachedAll(refs, root)) && NoneMissing(AttachedAll(refs, root), root)
    ensures AttachedAll(refs, root).Keys <= NamedIn(refs)
  {
    AttachedAreNamed(refs, root);
    if refs == [] {
    } else {
      var n := |refs| - 1;
      AttachedAreNamed(refs[..n], root);
      NamedInSnoc(refs, n);
      assert refs[..n + 1] == refs;
      BuiltIsForest(refs[..n], root);
      AttachedIsForest(AttachedAll(refs[..n], root), refs[n], root);
    }
  }

  // That every department is known and nests at most one reference is enough...
  predicate NestsOneAtMost(ref: DepRef) {
    ref.refs == [] || (|ref.refs| == 1 && NestsOneAtMost(ref.refs[0]))
  }

  lemma {:induction false} SlimFits(ref: DepRef, departments: set<Uuid>, present: set<Uuid>)
    requires Named(ref) <= departments && NestsOneAtMost(ref)
    ensures Fits(ref, departments, present)
  {
    if ref.refs == [] {
    } else {
      NamedSingle(ref);
      SlimFits(ref.refs[0], departments, present);
    }
  }

  // ... and needed too of a reference that names nothing present.
  lemma {:induction false} NewFitsIff(ref: DepRef, departments: set<Uuid>, present: set<Uuid>)
    requires Named(ref) !! present
    ensures Fits(ref, departments, present) <==> Named(ref) <= departments && NestsOneAtMost(ref)
  {
    if ref.refs == [] {
      assert Named(ref) == {ref.uuid};
    } else if |ref.refs| == 1 {
      NamedSingle(ref);
      NewFitsIff(ref.refs[0], departments, present);
    }
  }

  // Elsewhere it is not: a department already in the tree is not looked into, so a second
  // reference to it may nest two others, neither of them known.
  lemma RepeatedIsNotLookedInto() returns (refs: seq<DepRef>, departments: set<Uuid>, root: Uuid)
    ensures AllFit(refs, departments, root) && !(NamedIn(refs) <= departments)
    ensures exists i :: 0 <= i < |refs| && !NestsOneAtMost(refs[i])
  {
    var second := DepRef(5, [DepRef(6, []), DepRef(7, [])]);
    refs, departments, root := [DepRef(5, []), second], {5}, 1;
    assert refs[..1] == [DepRef(5, [])] && refs[..1][..0] == [];
    assert AttachedAll(refs[..1], root) == map[5 := 1];
    assert 6 in Named(second) by {
      assert 6 in Named(second.refs[0]);
    }
    NamedInSnoc(refs, 1);
    assert !NestsOneAtMost(refs[1]);
  }

  // The tree so built has no cycle and every parent in it.
  lemma FollowsIsForest(parents: Parents, sd: Parents, root: Uuid)
    requires Acyclic(sd) && Follows(parents, sd, root) && root !in parents
    ensures Acyclic(parents) && NoneMissing(parents, root)
  {
    var rank := u => if u in parents then 1 + Depth(sd, u) else 0;
    forall u | u in parents ensures rank(parents[u]) < rank(u) {
      if u in sd {
        DepthOfParent(sd, u);
      }
    }
    RankedIsAcyclic(parents, rank);
  }

  // sdtoolplus/sd/tree.py:223-226
  method AddUnit(existing: set<Uuid>, ref: DepRef) returns (more: set<Uuid>)
    ensures more == existing + Named(ref)
    decreases ref
  {
    more := existing + {ref.uuid};
    for i := 0 to |ref.refs|
      invariant more == existing + {ref.uuid} + NamedIn(ref.refs[..i])
    {
      NamedInSnoc(ref.refs, i);
      more := AddUnit(more, ref.refs[i]);
    }
    assert ref.refs[..|ref.refs|] == ref.refs;
  }

  // sdtoolplus/sd/tree.py:206-237: the departments no reference names at any level.
  method GetExtraNodes(refs: seq<DepRef>, departments: set<Uuid>) returns (extra: set<Uuid>)
    ensures forall u :: u in extra <==> u in departments && u !in NamedIn(refs)
  {
    var existing := {};
    for i := 0 to |refs|
      invariant existing == NamedIn(refs[..i])
    {
      NamedInSnoc(refs, i);
      existing := AddUnit(existing, refs[i]);
    }
    assert refs[..|refs|] == refs;
    extra := departments - existing;
  }
}
