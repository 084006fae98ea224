// Applying a tree difference to MO (sdtoolplus/tree_diff_executor.py:266-369).
module TreeDiffExecutor {
  import opened Common
  import opened Forest
  import opened OrgTrees
  import opened TreeDiff
  import opened Reparenting

  // The parents and names of MO's units, and the parents after each write so far.
  datatype MoState = MoState(parents: Parents, names: map<Uuid, string>, history: seq<Parents>)

  // s after writing parent and name of n's unit.
  function Writing(s: MoState, n: Nodes): MoState {
    var parents := s.parents[n.unit.uuid := n.parent.uuid];
    MoState(parents, s.names[n.unit.uuid := n.unit.name], s.history + [parents])
  }

  // MO accepts an update of n's unit: it has unit and parent, and the unit does not come to lie
  // below itself.
  ghost predicate Accepted(root: Uuid, parents: Parents, n: Nodes) {
    && n.unit.uuid in parents && (n.parent.uuid == root || n.parent.uuid in parents)
    && !IsAtOrAbove(parents, n.unit.uuid, n.parent.uuid)
  }

  // MO refuses a unit whose parent it does not have, and a unit below itself.
  class MoUnits {
    const root: Uuid
    var parents: Parents
    var names: map<Uuid, string>
    ghost var history: seq<Parents>

    constructor (root: Uuid, parents: Parents, names: map<Uuid, string>)
      ensures this.root == root && State() == MoState(parents, names, [])
    {
      this.root, this.parents, this.names, history := root, parents, names, [];
    }

    ghost function State(): MoState
      reads this
    {
      MoState(parents, names, history)
    }

    // AddOrgUnitMutation, sdtoolplus/tree_diff_executor.py:115-155
    method AddUnit(n: Nodes) returns (ok: bool)
      modifies this
      ensures ok <==> n.parent.uuid == root || n.parent.uuid in old(parents)
      ensures State() == if ok then Writing(old(State()), n) else old(State())
    {
      ok := n.parent.uuid == root || n.parent.uuid in parents;
      if ok {
        parents := parents[n.unit.uuid := n.parent.uuid];
        names := names[n.unit.uuid := n.unit.name];
        history := history + [parents];
      }
    }

    // UpdateOrgUnitMutation, sdtoolplus/tree_diff_executor.py:75-112
    method UpdateUnit(n: Nodes) returns (ok: bool)
      modifies this
      ensures ok <==> Accepted(root, old(parents), n)
      ensures State() == if ok then Writing(old(State()), n) else old(State())
    {
      StandsAboveIff(parents, n.unit.uuid, n.parent.uuid);
      ok := n.unit.uuid in parents && (n.parent.uuid == root || n.parent.uuid in parents)
            && !StandsAbove(parents, n.unit.uuid, n.parent.uuid);
      if ok {
        parents := parents[n.unit.uuid := n.parent.uuid];
        names := names[n.unit.uuid := n.unit.name];
        history := history + [parents];
      }
    }
  }

  // sdtoolplus/filters.py:50-56
  function FilterByUuid(orgUnit: Option<Uuid>, ns: seq<Nodes>): seq<Nodes> {
    if orgUnit == None then ns else Filter(ns, (n: Nodes) => n.unit.uuid == orgUnit.value)
  }

  // sdtoolplus/filters.py:59-78; matches tells which names match one of the regular expressions.
  function RemoveByName(matches: string -> bool, ns: seq<Nodes>): seq<Nodes> {
    Filter(ns, (n: Nodes) => !matches(n.unit.name))
  }

  datatype Filters = Filters(orgUnit: Option<Uuid>, matches: string -> bool, applyNameFilterOnUpdate: bool)

  function KeptAdds(f: Filters, adds: seq<Nodes>): seq<Nodes> {
    RemoveByName(f.matches, FilterByUuid(f.orgUnit, adds))
  }

  function KeptUpdates(f: Filters, updates: seq<Nodes>): seq<Nodes> {
    if f.applyNameFilterOnUpdate then RemoveByName(f.matches, FilterByUuid(f.orgUnit, updates))
    else FilterByUuid(f.orgUnit, updates)
  }

  function Keys(ns: seq<Nodes>): set<Uuid> { set n | n in ns :: n.unit.uuid }

  // The two relations an execution leads from and to: MO's units before it, SD's units.
  datatype Relations = Relations(root: Uuid, mo: Parents, moNames: map<Uuid, string>, moKeys: seq<Uuid>,
                                 sd: Parents, sdNames: map<Uuid, string>, sdKeys: seq<Uuid>)

  ghost predicate Proper(r: Relations) {
    && Ranked(r.root, r.moKeys, r.mo) && r.moNames.Keys == r.mo.Keys
    && Ranked(r.root, r.sdKeys, r.sd) && r.sdNames.Keys == r.sd.Keys
  }

  // The units listed are SD units with their SD parents and names.
  ghost predicate From(ns: seq<Nodes>, r: Relations) {
    forall n :: n in ns ==>
      && n.unit.uuid in r.sd && r.sd[n.unit.uuid] == n.parent.uuid
      && n.unit.uuid in r.sdNames && r.sdNames[n.unit.uuid] == n.unit.name
  }

  // The unit's parent is the root, in MO, or among the units added.
  ghost predicate Foreseen(r: Relations, added: set<Uuid>, n: Nodes) {
    n.parent.uuid == r.root || n.parent.uuid in r.mo || n.parent.uuid in added
  }

  ghost predicate AllForeseen(r: Relations, added: set<Uuid>, ns: seq<Nodes>) {
    forall i :: 0 <= i < |ns| ==> Foreseen(r, added, ns[i])
  }

  ghost predicate ForeseenUpTo(r: Relations, added: set<Uuid>, ns: seq<Nodes>, n: nat)
    requires n <= |ns|
  {
    forall j :: 0 <= j < n ==> Foreseen(r, added, ns[j])
  }

  // What a list of additions and one of updates can be: SD units MO lacks, in SD's order, and units of both.
  ghost predicate Work(r: Relations, adds: seq<Nodes>, updates: seq<Nodes>) {
    && From(adds, r) && From(updates, r) && Ascending(adds, r.sdKeys)
    && (forall n :: n in adds ==> n.unit.uuid !in r.mo)
    && (forall n :: n in updates ==> n.unit.uuid in r.mo)
  }

  // A unit that is moved comes after all units above it that still have to change.
  ghost predicate MovedInTurn(r: Relations, adds: seq<Nodes>, updates: seq<Nodes>, i: nat)
    requires i < |updates|
  {
    var u := updates[i].unit.uuid;
    u in r.mo && r.mo[u] != updates[i].parent.uuid ==>
      Settled(r.mo, r.sd, Keys(adds) + Keys(updates[..i + 1]), u)
  }

  ghost predicate Orderly(r: Relations, adds: seq<Nodes>, updates: seq<Nodes>) {
    forall i: nat :: i < |updates| ==> MovedInTurn(r, adds, updates, i)
  }

  // MO has got as far as the units in done.
  ghost predicate Reached(s: MoState, r: Relations, past: nat, done: set<Uuid>) {
    && done <= r.sd.Keys && r.sdNames.Keys == r.sd.Keys && past <= |s.history|
    && s.parents == Overlay(r.mo, r.sd, done) && s.names == Overlay(r.moNames, r.sdNames, done)
  }

  // No parent relation written since then has a cycle or a missing parent.
  ghost predicate AllSafe(history: seq<Parents>, past: nat, root: Uuid) {
    forall i :: past <= i < |history| ==> Acyclic(history[i]) && NoneMissing(history[i], root)
  }

  lemma KeysSnoc(ns: seq<Nodes>, i: nat)
    requires i < |ns|
    ensures Keys(ns[..i + 1]) == Keys(ns[..i]) + {ns[i].unit.uuid}
  {
    assert ns[..i + 1] == ns[..i] + [ns[i]];
  }

  lemma OverlaySnoc<V>(mo: map<Uuid, V>, sd: map<Uuid, V>, done: set<Uuid>, u: Uuid)
    requires done <= sd.Keys && u in sd
    ensures Overlay(mo, sd, done + {u}) == Overlay(mo, sd, done)[u := sd[u]]
  {
  }

  lemma SettledGrows(mo: Parents, sd: Parents, done: set<Uuid>, more: set<Uuid>, u: Uuid)
    requires Settled(mo, sd, done, u) && done <= more
    ensures Settled(mo, sd, more, u)
  {
    forall k: nat ensures Settles(mo, sd, more, u, k) {
      assert Settles(mo, sd, done, u, k);
    }
  }

  // A parent among the additions is among the earlier ones.
  lemma AddedBefore(r: Relations, adds: seq<Nodes>, i: nat)
    requires Proper(r) && From(adds, r) && Ascending(adds, r.sdKeys) && i < |adds|
    requires adds[i].parent.uuid in Keys(adds)
    ensures adds[i].parent.uuid in Keys(adds[..i])
  {
    var n :| n in adds && n.unit.uuid == adds[i].parent.uuid;
    var j :| 0 <= j < |adds| && adds[j] == n;
    assert adds[i] in adds;
    assert Position(r.sdKeys, n.unit.uuid) < Position(r.sdKeys, adds[i].unit.uuid);
    assert j < i;
    assert adds[..i][j] == n;
  }

  // One write leads from done to done and the unit written.
  lemma OneMore(s: MoState, r: Relations, past: nat, done: set<Uuid>, n: Nodes)
    requires Proper(r) && From([n], r) && Reached(s, r, past, done)
    ensures Reached(Writing(s, n), r, past, done + {n.unit.uuid})
  {
    assert n in [n];
    OverlaySnoc(r.mo, r.sd, done, n.unit.uuid);
    OverlaySnoc(r.moNames, r.sdNames, done, n.unit.uuid);
  }

  // ----- additions

  // A stage of an execution whose every state so far was sound.
  ghost predicate Stage(s: MoState, r: Relations, past: nat, done: set<Uuid>) {
    Reached(s, r, past, done) && Careful(r.mo, r.sd, r.root, done) && AllSafe(s.history, past, r.root)
  }

  lemma CarefulAdd(r: Relations, done: set<Uuid>, n: Nodes)
    requires Careful(r.mo, r.sd, r.root, done) && From([n], r) && n.unit.uuid !in r.mo && Foreseen(r, done, n)
    ensures Careful(r.mo, r.sd, r.root, done + {n.unit.uuid})
  {
    assert n in [n];
    forall u | u in done && u in r.mo && r.mo[u] != r.sd[u]
      ensures Settled(r.mo, r.sd, done + {n.unit.uuid}, u)
    {
      SettledGrows(r.mo, r.sd, done, done + {n.unit.uuid}, u);
    }
  }

  lemma ParentPresentIff(s: MoState, r: Relations, past: nat, ns: seq<Nodes>, i: nat)
    requires Proper(r) && Work(r, ns, []) && i < |ns| && Reached(s, r, past, Keys(ns[..i]))
    ensures ns[i].parent.uuid == r.root || ns[i].parent.uuid in s.parents <==> Foreseen(r, Keys(ns), ns[i])
    ensures Foreseen(r, Keys(ns), ns[i]) ==> Foreseen(r, Keys(ns[..i]), ns[i])
  {
    if ns[i].parent.uuid in Keys(ns) {
      AddedBefore(r, ns, i);
    }
    assert forall u :: u in Keys(ns[..i]) ==> u in Keys(ns);
  }

  lemma StageNext(s: MoState, r: Relations, past: nat, ns: seq<Nodes>, i: nat)
    requires Proper(r) && Work(r, ns, []) && i < |ns| && Stage(s, r, past, Keys(ns[..i]))
    requires Foreseen(r, Keys(ns), ns[i])
    ensures Stage(Writing(s, ns[i]), r, past, Keys(ns[..i + 1]))
  {
    var done := Keys(ns[..i]);
    var s' := Writing(s, ns[i]);
    assert ns[i] in ns;
    ParentPresentIff(s, r, past, ns, i);
    KeysSnoc(ns, i);
    CarefulAdd(r, done, ns[i]);
    OneMore(s, r, past, done, ns[i]);
    CarefulIsAcyclic(r.mo, r.moKeys, r.sd, r.sdKeys, r.root, done + {ns[i].unit.uuid});
    assert s'.history[|s.history|] == s'.parents;
  }

  lemma StageZero(s: MoState, r: Relations)
    requires Reached(s, r, |s.history|, {})
    ensures Stage(s, r, |s.history|, Keys([]))
  {
    assert Keys([]) == {};
  }

  method AddAll(ns: seq<Nodes>, m: MoUnits, ghost r: Relations, ghost past: nat) returns (ok: bool)
    requires Proper(r) && Work(r, ns, []) && m.root == r.root
    requires past == |m.history| && Reached(m.State(), r, past, {})
    modifies m
    ensures ok <==> AllForeseen(r, Keys(ns), ns)
    ensures ok ==> Stage(m.State(), r, past, Keys(ns))
    ensures AllSafe(m.history, past, r.root)
  {
    ok := true;
    ghost var s := m.State();
    StageZero(s, r);
    assert ns[..0] == [];
    for i := 0 to |ns|
      invariant ok && m.State() == s && Stage(s, r, past, Keys(ns[..i]))
      invariant ForeseenUpTo(r, Keys(ns), ns, i)
    {
      ParentPresentIff(s, r, past, ns, i);
      ok := m.AddUnit(ns[i]);
      if !ok {
        return;
      }
      StageNext(s, r, past, ns, i);
      s := Writing(s, ns[i]);
    }
    assert ns[..|ns|] == ns;
  }

  // ----- updates

  // The i-th update does not move its unit to itself or to a unit below it, as MO's parents are
  // by then.
  ghost predicate SafeMove(r: Relations, adds: seq<Nodes>, updates: seq<Nodes>, i: nat)
    requires i < |updates|
  {
    var done := Keys(adds) + Keys(updates[..i]);
    done <= r.sd.Keys && !IsAtOrAbove(Overlay(r.mo, r.sd, done), updates[i].unit.uuid, updates[i].parent.uuid)
  }

  ghost predicate SafeMoves(r: Relations, adds: seq<Nodes>, updates: seq<Nodes>, n: nat)
    requires n <= |updates|
  {
    forall i: nat :: i < n ==> SafeMove(r, adds, updates, i)
  }

  lemma CarefulUpdate(r: Relations, done: set<Uuid>, n: Nodes)
    requires Careful(r.mo, r.sd, r.root, done) && From([n], r) && n.unit.uuid in r.mo
    requires r.mo[n.unit.uuid] != n.parent.uuid ==> Settled(r.mo, r.sd, done + {n.unit.uuid}, n.unit.uuid)
    ensures Careful(r.mo, r.sd, r.root, done + {n.unit.uuid})
  {
    assert n in [n];
    forall u | u in done && u in r.mo && r.mo[u] != r.sd[u]
      ensures Settled(r.mo, r.sd, done + {n.unit.uuid}, u)
    {
      SettledGrows(r.mo, r.sd, done, done + {n.unit.uuid}, u);
    }
  }

  lemma UpdatedKeys(adds: seq<Nodes>, updates: seq<Nodes>, i: nat)
    requires i < |updates|
    ensures Keys(adds) + Keys(updates[..i + 1]) == Keys(adds) + Keys(updates[..i]) + {updates[i].unit.uuid}
  {
    KeysSnoc(updates, i);
  }

  // Moved in turn, units leave MO in a careful state all along, ...
  lemma {:induction false} OrderlyIsCareful(r: Relations, adds: seq<Nodes>, updates: seq<Nodes>, i: nat)
    requires Work(r, adds, updates) && Careful(r.mo, r.sd, r.root, Keys(adds))
    requires Orderly(r, adds, updates) && i <= |updates|
    ensures Careful(r.mo, r.sd, r.root, Keys(adds) + Keys(updates[..i]))
  {
    if i == 0 {
      assert Keys(adds) + Keys(updates[..0]) == Keys(adds);
    } else {
      OrderlyIsCareful(r, adds, updates, i - 1);
      OrderlyStep(r, adds, updates, i - 1);
    }
  }

  lemma OrderlyStep(r: Relations, adds: seq<Nodes>, updates: seq<Nodes>, i: nat)
    requires Work(r, adds, updates) && i < |updates| && MovedInTurn(r, adds, updates, i)
    requires Careful(r.mo, r.sd, r.root, Keys(adds) + Keys(updates[..i]))
    ensures Careful(r.mo, r.sd, r.root, Keys(adds) + Keys(updates[..i + 1]))
  {
    assert updates[i] in updates;
    UpdatedKeys(adds, updates, i);
    CarefulUpdate(r, Keys(adds) + Keys(updates[..i]), updates[i]);
  }

  lemma AddsAreCareful(r: Relations, adds: seq<Nodes>)
    requires Work(r, adds, []) && AllForeseen(r, Keys(adds), adds)
    ensures Careful(r.mo, r.sd, r.root, Keys(adds))
  {
    forall u | u in Keys(adds) ensures u in r.sd && (r.sd[u] == r.root || r.sd[u] in r.mo || r.sd[u] in Keys(adds)) {
      var n :| n in adds && n.unit.uuid == u;
      var i :| 0 <= i < |adds| && adds[i] == n;
      assert Foreseen(r, Keys(adds), adds[i]);
    }
  }

  // ... so none of them is moved below itself.
  lemma OrderlyMovesAreSafe(r: Relations, adds: seq<Nodes>, updates: seq<Nodes>)
    requires Proper(r) && Work(r, adds, updates) && AllForeseen(r, Keys(adds), adds) && Orderly(r, adds, updates)
    ensures SafeMoves(r, adds, updates, |updates|)
  {
    AddsAreCareful(r, adds);
    forall i: nat | i < |updates| ensures SafeMove(r, adds, updates, i) {
      var done := Keys(adds) + Keys(updates[..i]);
      assert updates[i] in updates;
      OrderlyIsCareful(r, adds, updates, i);
      OrderlyStep(r, adds, updates, i);
      CarefulIsAcyclic(r.mo, r.moKeys, r.sd, r.sdKeys, r.root, done);
      CarefulIsAcyclic(r.mo, r.moKeys, r.sd, r.sdKeys, r.root, Keys(adds) + Keys(updates[..i + 1]));
      UpdatedKeys(adds, updates, i);
      OverlaySnoc(r.mo, r.sd, done, updates[i].unit.uuid);
      MoveIsSafeIff(Overlay(r.mo, r.sd, done), updates[i].unit.uuid, updates[i].parent.uuid);
    }
  }

  // What MO's parents are after all additions and the first n updates.
  ghost function ParentsAfter(r: Relations, adds: seq<Nodes>, updates: seq<Nodes>, n: nat): Parents
    requires Work(r, adds, updates) && n <= |updates|
  {
    UpdatedAreSd(r, adds, updates, n);
    Overlay(r.mo, r.sd, Keys(adds) + Keys(updates[..n]))
  }

  lemma UpdatedAreSd(r: Relations, adds: seq<Nodes>, updates: seq<Nodes>, n: nat)
    requires Work(r, adds, updates) && n <= |updates|
    ensures Keys(adds) + Keys(updates[..n]) <= r.sd.Keys
  {
    assert forall u :: u in updates[..n] ==> u in updates;
  }

  lemma ParentsAfterNext(r: Relations, adds: seq<Nodes>, updates: seq<Nodes>, i: nat)
    requires Work(r, adds, updates) && i < |updates|
    ensures ParentsAfter(r, adds, updates, i + 1)
         == ParentsAfter(r, adds, updates, i)[updates[i].unit.uuid := updates[i].parent.uuid]
  {
    assert updates[i] in updates;
    UpdatedAreSd(r, adds, updates, i);
    UpdatedKeys(adds, updates, i);
    OverlaySnoc(r.mo, r.sd, Keys(adds) + Keys(updates[..i]), updates[i].unit.uuid);
  }

  // After safe moves there is no cycle.
  lemma {:induction false} SafeMovesKeepAcyclic(r: Relations, adds: seq<Nodes>, updates: seq<Nodes>, n: nat)
    requires Proper(r) && Work(r, adds, updates) && AllForeseen(r, Keys(adds), adds)
    requires n <= |updates| && SafeMoves(r, adds, updates, n)
    ensures Acyclic(ParentsAfter(r, adds, updates, n))
  {
    if n == 0 {
      AddsAreCareful(r, adds);
      CarefulIsAcyclic(r.mo, r.moKeys, r.sd, r.sdKeys, r.root, Keys(adds));
      assert Keys(adds) + Keys(updates[..0]) == Keys(adds);
    } else {
      SafeMovesKeepAcyclic(r, adds, updates, n - 1);
      ParentsAfterNext(r, adds, updates, n - 1);
      assert SafeMove(r, adds, updates, n - 1);
      MoveIsSafeIff(ParentsAfter(r, adds, updates, n - 1), updates[n - 1].unit.uuid, updates[n - 1].parent.uuid);
    }
  }

  // After n updates, all of them sound.
  ghost predicate Updating(s: MoState, r: Relations, past: nat, adds: seq<Nodes>, updates: seq<Nodes>, n: nat)
    requires n <= |updates|
  {
    && Reached(s, r, past, Keys(adds) + Keys(updates[..n]))
    && AllSafe(s.history, past, r.root) && NoneMissing(s.parents, r.root) && Acyclic(s.parents)
  }

  lemma UpdatingZero(s: MoState, r: Relations, past: nat, adds: seq<Nodes>, updates: seq<Nodes>)
    requires Proper(r) && Stage(s, r, past, Keys(adds))
    ensures Updating(s, r, past, adds, updates, 0)
  {
    assert Keys(adds) + Keys(updates[..0]) == Keys(adds);
    CarefulIsAcyclic(r.mo, r.moKeys, r.sd, r.sdKeys, r.root, Keys(adds));
  }

  // MO accepts the next update exactly if its parent was foreseen and the move is safe; one more
  // sound relation is written then.
  lemma UpdatingNext(s: MoState, r: Relations, past: nat, adds: seq<Nodes>, updates: seq<Nodes>, n: nat)
    requires Proper(r) && Work(r, adds, updates) && n < |updates| && Updating(s, r, past, adds, updates, n)
    ensures Accepted(r.root, s.parents, updates[n])
       <==> Foreseen(r, Keys(adds), updates[n]) && SafeMove(r, adds, updates, n)
    ensures Accepted(r.root, s.parents, updates[n]) ==>
      Updating(Writing(s, updates[n]), r, past, adds, updates, n + 1)
  {
    var u := updates[n];
    assert u in updates;
    assert Keys(updates[..n]) <= r.mo.Keys;
    if Accepted(r.root, s.parents, u) {
      UpdatedKeys(adds, updates, n);
      OneMore(s, r, past, Keys(adds) + Keys(updates[..n]), u);
      MoveIsSafeIff(s.parents, u.unit.uuid, u.parent.uuid);
    }
  }

  // s after writing the first n units of ns.
  ghost function WrittenUpTo(s: MoState, ns: seq<Nodes>, n: nat): MoState
    requires n <= |ns|
  {
    if n == 0 then s else Writing(WrittenUpTo(s, ns, n - 1), ns[n - 1])
  }

  // The first n updates of ns are accepted one after the other.
  ghost predicate AcceptedUpTo(root: Uuid, s: MoState, ns: seq<Nodes>, n: nat)
    requires n <= |ns|
  {
    n > 0 ==> AcceptedUpTo(root, s, ns, n - 1) && Accepted(root, WrittenUpTo(s, ns, n - 1).parents, ns[n - 1])
  }

  // steps counts the updates MO accepted.
  method UpdateAll(ns: seq<Nodes>, m: MoUnits) returns (ok: bool, ghost steps: nat)
    modifies m
    ensures steps <= |ns| && m.State() == WrittenUpTo(old(m.State()), ns, steps)
    ensures AcceptedUpTo(m.root, old(m.State()), ns, steps)
    ensures ok <==> steps == |ns|
    ensures !ok ==> !Accepted(m.root, m.parents, ns[steps])
  {
    ok, steps := true, 0;
    for i := 0 to |ns|
      invariant ok && steps == i && m.State() == WrittenUpTo(old(m.State()), ns, i)
      invariant AcceptedUpTo(m.root, old(m.State()), ns, i)
    {
      ok := m.UpdateUnit(ns[i]);
      if !ok {
        return;
      }
      steps := i + 1;
    }
  }

  lemma ForeseenNext(r: Relations, added: set<Uuid>, ns: seq<Nodes>, n: nat)
    requires n < |ns| && ForeseenUpTo(r, added, ns, n) && Foreseen(r, added, ns[n])
    ensures ForeseenUpTo(r, added, ns, n + 1)
  {
  }

  lemma UpdateLeadsOn(s: MoState, r: Relations, past: nat, adds: seq<Nodes>, ns: seq<Nodes>, n: nat)
    requires Proper(r) && Work(r, adds, ns) && n < |ns| && Updating(s, r, past, adds, ns, n)
    requires Accepted(r.root, s.parents, ns[n])
    requires ForeseenUpTo(r, Keys(adds), ns, n) && SafeMoves(r, adds, ns, n)
    ensures Updating(Writing(s, ns[n]), r, past, adds, ns, n + 1)
    ensures ForeseenUpTo(r, Keys(adds), ns, n + 1) && SafeMoves(r, adds, ns, n + 1)
  {
    UpdatingNext(s, r, past, adds, ns, n);
    ForeseenNext(r, Keys(adds), ns, n);
    assert forall i: nat :: i < n + 1 ==> SafeMove(r, adds, ns, i);
  }

  // Updates MO accepted were foreseen and safe and lead from one stage to the next.
  lemma {:induction false} UpdatesLeadOn(s: MoState, r: Relations, past: nat, adds: seq<Nodes>, ns: seq<Nodes>, n: nat)
    requires Proper(r) && Work(r, adds, ns) && Updating(s, r, past, adds, ns, 0) && n <= |ns|
    requires AcceptedUpTo(r.root, s, ns, n)
    ensures Updating(WrittenUpTo(s, ns, n), r, past, adds, ns, n)
    ensures ForeseenUpTo(r, Keys(adds), ns, n) && SafeMoves(r, adds, ns, n)
  {
    if n == 0 {
    } else {
      UpdatesLeadOn(s, r, past, adds, ns, n - 1);
      UpdateLeadsOn(WrittenUpTo(s, ns, n - 1), r, past, adds, ns, n - 1);
    }
  }

  // All updates are accepted exactly if all parents were foreseen and all moves are safe.
  lemma UpdatesEnd(s: MoState, r: Relations, past: nat, adds: seq<Nodes>, ns: seq<Nodes>, steps: nat)
    requires Proper(r) && Work(r, adds, ns) && Updating(s, r, past, adds, ns, 0) && steps <= |ns|
    requires AcceptedUpTo(r.root, s, ns, steps)
    requires steps < |ns| ==> !Accepted(r.root, WrittenUpTo(s, ns, steps).parents, ns[steps])
    ensures steps == |ns| <==> AllForeseen(r, Keys(adds), ns) && SafeMoves(r, adds, ns, |ns|)
    ensures Updating(WrittenUpTo(s, ns, steps), r, past, adds, ns, steps)
  {
    UpdatesLeadOn(s, r, past, adds, ns, steps);
    if steps < |ns| {
      UpdatingNext(WrittenUpTo(s, ns, steps), r, past, adds, ns, steps);
    }
  }

  lemma FiltersKeepWork(r: Relations, adds: seq<Nodes>, updates: seq<Nodes>, f: Filters)
    requires Work(r, adds, updates)
    ensures Work(r, KeptAdds(f, adds), KeptUpdates(f, updates))
    ensures forall n :: n in KeptAdds(f, adds) <==>
      n in adds && (f.orgUnit == None || f.orgUnit == Some(n.unit.uuid)) && !f.matches(n.unit.name)
    ensures forall n :: n in KeptUpdates(f, updates) <==>
      && n in updates && (f.orgUnit == None || f.orgUnit == Some(n.unit.uuid))
      && (f.applyNameFilterOnUpdate ==> !f.matches(n.unit.name))
  {
    var byName := (n: Nodes) => !f.matches(n.unit.name);
    if f.orgUnit.Some? {
      var byUuid := (n: Nodes) => n.unit.uuid == f.orgUnit.value;
      FilterKeepsOrder(adds, byUuid, r.sdKeys);
      FilterMembers(adds, byUuid);
      FilterMembers(updates, byUuid);
    }
    FilterKeepsOrder(FilterByUuid(f.orgUnit, adds), byName, r.sdKeys);
    FilterMembers(FilterByUuid(f.orgUnit, adds), byName);
    FilterMembers(FilterByUuid(f.orgUnit, updates), byName);
  }

  // sdtoolplus/tree_diff_executor.py:317-369; ok tells whether MO accepted every mutation, steps
  // how many updates it accepted. Everything written was sound, that is without a cycle or a
  // missing parent.
  method Execute(adds: seq<Nodes>, updates: seq<Nodes>, f: Filters, dryRun: bool, m: MoUnits, ghost r: Relations)
    returns (ok: bool, ghost steps: nat)
    requires Proper(r) && Work(r, adds, updates) && m.root == r.root && Reached(m.State(), r, |m.history|, {})
    modifies m
    ensures dryRun ==> ok && steps == 0 && m.State() == old(m.State())
    ensures !dryRun ==> (ok <==> Executable(r, KeptAdds(f, adds), KeptUpdates(f, updates)))
    ensures steps <= |KeptUpdates(f, updates)| && (!dryRun && ok ==> steps == |KeptUpdates(f, updates)|)
    ensures !dryRun && AllForeseen(r, Keys(KeptAdds(f, adds)), KeptAdds(f, adds)) ==>
      Reached(m.State(), r, |old(m.history)|, Keys(KeptAdds(f, adds)) + Keys(KeptUpdates(f, updates)[..steps]))
    ensures AllSafe(m.history, |old(m.history)|, r.root)
  {
    var unitsToAdd := KeptAdds(f, adds);
    var unitsToUpdate := KeptUpdates(f, updates);
    FiltersKeepWork(r, adds, updates, f);
    steps := 0;
    if dryRun {
      return true, 0;
    }
    ghost var past := |m.history|;
    ok := AddAll(unitsToAdd, m, r, past);
    if ok {
      ghost var s := m.State();
      UpdatingZero(s, r, past, unitsToAdd, unitsToUpdate);
      ok, steps := UpdateAll(unitsToUpdate, m);
      UpdatesEnd(s, r, past, unitsToAdd, unitsToUpdate, steps);
    }
  }

  // Foreseen units moved in turn can be executed.
  lemma OrderlyIsExecutable(r: Relations, adds: seq<Nodes>, updates: seq<Nodes>)
    requires Proper(r) && Work(r, adds, updates) && Orderly(r, adds, updates)
    requires AllForeseen(r, Keys(adds), adds) && AllForeseen(r, Keys(adds), updates)
    ensures Executable(r, adds, updates)
  {
    OrderlyMovesAreSafe(r, adds, updates);
  }

  // All parents are foreseen and no unit is moved below itself. All of it can be told before.
  ghost predicate Executable(r: Relations, adds: seq<Nodes>, updates: seq<Nodes>) {
    && AllForeseen(r, Keys(adds), adds) && AllForeseen(r, Keys(adds), updates)
    && SafeMoves(r, adds, updates, |updates|)
  }
}
