// The queue of unit events: a unit whose parent MO lacks waits while its parent is processed, and
// a unit to be terminated waits while its children are
// (sdtoolplus/mo/timelines/org_unit.py:282-327, 375-400 and 607-632, sdtoolplus/main.py:34-43,
// sdtoolplus/events.py:358-377).
module ParentRequeue {
  import opened Common
  import opened Forest
  import OrgUnitStore
  import OrgUnitWrites

  type Event = OrgUnitStore.Event

  // MO's units with their parents; a top-level unit has none.
  type MoForest = map<Uuid, Option<Uuid>>

  // MO has the unit as SD wants it: below the parent SD gives it, or not at all if SD gives none.
  predicate Settled(mo: MoForest, sd: Parents, u: Uuid) {
    if u in sd then u in mo && mo[u] == Some(sd[u]) else u !in mo
  }

  function MoParents(mo: MoForest): Parents { map u | u in mo && mo[u].Some? :: mo[u].value }

  // All parents are in MO.
  ghost predicate NoneDangling(mo: MoForest) {
    forall u :: u in mo && mo[u].Some? ==> mo[u].value in mo
  }

  // The units MO has directly below u.
  function Children(mo: MoForest, u: Uuid): set<Uuid> { set c | c in mo && mo[c] == Some(u) }

  // The i-th event is among those with the lowest number.
  ghost predicate IsFront(queue: seq<Event>, i: nat) {
    i < |queue| && forall j :: 0 <= j < |queue| ==> queue[i].priority <= queue[j].priority
  }

  function Without(queue: seq<Event>, i: nat): seq<Event>
    requires i < |queue|
  {
    queue[..i] + queue[i + 1..]
  }

  // ----- the units a run is about

  // A run that handles u goes on to v: the parent SD gives u if MO lacked it, or, if SD does
  // not have u, what MO had below it.
  ghost predicate LeadsTo(mo0: MoForest, sd: Parents, u: Uuid, v: Uuid) {
    if u in sd then v == sd[u] && v !in mo0 else v in Children(mo0, u)
  }

  ghost predicate IsQueued(q0: seq<Event>, v: Uuid) {
    exists i :: 0 <= i < |q0| && q0[i].unit == v
  }

  ghost predicate SoughtAfter(q0: seq<Event>, mo0: MoForest, sd: Parents, v: Uuid, n: nat)
    decreases n
  {
    if n == 0 then IsQueued(q0, v)
    else exists u :: SoughtAfter(q0, mo0, sd, u, n - 1) && LeadsTo(mo0, sd, u, v)
  }

  // v is queued at the start, or a run is led to it from there. This is told from the queue, MO
  // and SD before the run.
  ghost predicate Sought(q0: seq<Event>, mo0: MoForest, sd: Parents, v: Uuid) {
    exists n: nat :: SoughtAfter(q0, mo0, sd, v, n)
  }

  lemma QueuedIsSought(q0: seq<Event>, mo0: MoForest, sd: Parents, i: nat)
    requires i < |q0|
    ensures Sought(q0, mo0, sd, q0[i].unit)
  {
    assert SoughtAfter(q0, mo0, sd, q0[i].unit, 0);
  }

  lemma SoughtNext(q0: seq<Event>, mo0: MoForest, sd: Parents, u: Uuid, v: Uuid)
    requires Sought(q0, mo0, sd, u) && LeadsTo(mo0, sd, u, v)
    ensures Sought(q0, mo0, sd, v)
  {
    var n: nat :| SoughtAfter(q0, mo0, sd, u, n);
    assert SoughtAfter(q0, mo0, sd, v, n + 1);
  }

  // No unit sought lies, in SD, below a unit sought that SD does not have itself.
  ghost predicate Grounded(q0: seq<Event>, mo0: MoForest, sd: Parents) {
    forall v :: Sought(q0, mo0, sd, v) && v in sd && Sought(q0, mo0, sd, sd[v]) ==> sd[v] in sd
  }

  // ----- handling one event

  // How an event ends: nothing to do, the unit written, the unit terminated, or put off until
  // its parent is there or its children are gone.
  datatype Handled = NothingToDo | UnitWritten | UnitTerminated | ParentFirst | ChildrenFirst(children: seq<Uuid>)

  // The queue, MO and the units written or terminated so far.
  datatype State = State(queue: seq<Event>, mo: MoForest, done: seq<Uuid>)

  // children lists exactly the units MO has below u.
  ghost predicate Lists(children: seq<Uuid>, mo: MoForest, u: Uuid) {
    children != [] && forall c :: c in children <==> c in Children(mo, u)
  }

  // How handling the i-th event can end, and what it leaves.
  ghost predicate Ends(s: State, i: nat, sd: Parents, r: Handled, s': State)
    requires i < |s.queue|
  {
    var u := s.queue[i].unit;
    var number := s.queue[i].priority - 1;
    match r
    case NothingToDo =>
      Settled(s.mo, sd, u) && s' == s.(queue := Without(s.queue, i))
    case UnitWritten =>
      && !Settled(s.mo, sd, u) && u in sd && sd[u] in s.mo
      && s' == State(Without(s.queue, i), s.mo[u := Some(sd[u])], s.done + [u])
    case UnitTerminated =>
      && !Settled(s.mo, sd, u) && u !in sd && Children(s.mo, u) == {}
      && s' == State(Without(s.queue, i), s.mo - {u}, s.done + [u])
    case ParentFirst =>
      && !Settled(s.mo, sd, u) && u in sd && sd[u] !in s.mo
      && s' == s.(queue := s.queue + [OrgUnitStore.Event(sd[u], number)])
    case ChildrenFirst(children) =>
      && !Settled(s.mo, sd, u) && u !in sd && Lists(children, s.mo, u)
      && s' == s.(queue := s.queue + OrgUnitWrites.EventsFor(children, number))
  }

  // One event with the lowest number is handled.
  ghost predicate Step(s: State, sd: Parents, s': State) {
    exists i: nat, r :: IsFront(s.queue, i) && Ends(s, i, sd, r, s')
  }

  // ----- what holds at every moment of a run from the events q0 and the units mo0

  // Only units sought are queued, and those queued at first still are or are settled;
  ghost predicate QueueInvariant(s: State, q0: seq<Event>, mo0: MoForest, sd: Parents) {
    && (forall i :: 0 <= i < |s.queue| ==> Sought(q0, mo0, sd, s.queue[i].unit))
    && (forall i :: 0 <= i < |q0| ==> q0[i] in s.queue || Settled(s.mo, sd, q0[i].unit))
  }

  // the units done are settled, all others are as at first, and all parents are there;
  ghost predicate UnitsInvariant(s: State, mo0: MoForest, sd: Parents) {
    && NoneDangling(s.mo)
    && (forall v :: v in s.done ==> Settled(s.mo, sd, v))
    && (forall v :: v !in s.done ==> (v in s.mo <==> v in mo0) && (v in s.mo ==> s.mo[v] == mo0[v]))
  }

  // the units done are distinct units sought that were not settled, each in turn.
  ghost predicate DoneInvariant(s: State, q0: seq<Event>, mo0: MoForest, sd: Parents) {
    && Distinct(s.done) && InTurn(s.done, mo0, sd)
    && forall v :: v in s.done ==> Sought(q0, mo0, sd, v) && !Settled(mo0, sd, v)
  }

  // Units are written after their parents and terminated after their children.
  ghost predicate InTurn(done: seq<Uuid>, mo0: MoForest, sd: Parents) {
    forall i :: 0 <= i < |done| ==> ComesInTurn(done, i, mo0, sd)
  }

  ghost predicate ComesInTurn(done: seq<Uuid>, i: nat, mo0: MoForest, sd: Parents)
    requires i < |done|
  {
    if done[i] in sd then sd[done[i]] in mo0 || sd[done[i]] in done[..i]
    else forall c :: c in Children(mo0, done[i]) ==> c in done[..i]
  }

  ghost predicate Underway(s: State, q0: seq<Event>, mo0: MoForest, sd: Parents) {
    QueueInvariant(s, q0, mo0, sd) && UnitsInvariant(s, mo0, sd) && DoneInvariant(s, q0, mo0, sd)
  }

  lemma Begin(q0: seq<Event>, mo0: MoForest, sd: Parents)
    requires NoneDangling(mo0)
    ensures Underway(State(q0, mo0, []), q0, mo0, sd)
  {
    forall i | 0 <= i < |q0| ensures Sought(q0, mo0, sd, q0[i].unit) {
      QueuedIsSought(q0, mo0, sd, i);
    }
  }

  lemma StillQueued(q: seq<Event>, i: nat, e: Event)
    requires i < |q| && e in q
    ensures e in Without(q, i) || e == q[i]
  {
    var j :| 0 <= j < |q| && q[j] == e;
    if j < i {
      assert Without(q, i)[j] == e;
    } else if j > i {
      assert Without(q, i)[j - 1] == e;
    }
  }

  // The i-th event leaves the queue, its unit being settled by then and no other unsettled.
  lemma EventIsDone(s: State, i: nat, q0: seq<Event>, mo0: MoForest, sd: Parents, s': State)
    requires QueueInvariant(s, q0, mo0, sd) && i < |s.queue| && s'.queue == Without(s.queue, i)
    requires Settled(s'.mo, sd, s.queue[i].unit)
    requires forall v :: Settled(s.mo, sd, v) ==> Settled(s'.mo, sd, v)
    ensures QueueInvariant(s', q0, mo0, sd)
  {
    forall j | 0 <= j < |q0| ensures q0[j] in s'.queue || Settled(s'.mo, sd, q0[j].unit) {
      if q0[j] in s.queue {
        StillQueued(s.queue, i, q0[j]);
      }
    }
  }

  // MO once u has been written or terminated.
  function SettledMo(mo: MoForest, sd: Parents, u: Uuid): MoForest {
    if u in sd then mo[u := Some(sd[u])] else mo - {u}
  }

  // Its parent is there, or its children are gone.
  ghost predicate CanBeSettled(mo: MoForest, sd: Parents, u: Uuid) {
    if u in sd then sd[u] in mo else Children(mo, u) == {}
  }

  lemma SettlingLeavesNoneDangling(mo: MoForest, sd: Parents, u: Uuid)
    requires NoneDangling(mo) && CanBeSettled(mo, sd, u)
    ensures NoneDangling(SettledMo(mo, sd, u))
  {
    var next := SettledMo(mo, sd, u);
    forall v | v in next && next[v].Some? ensures next[v].value in next {
      assert u !in sd ==> v !in Children(mo, u);
    }
  }

  lemma UnitIsDone(s: State, s': State, mo0: MoForest, sd: Parents, u: Uuid)
    requires UnitsInvariant(s, mo0, sd) && CanBeSettled(s.mo, sd, u)
    requires s'.mo == SettledMo(s.mo, sd, u) && s'.done == s.done + [u]
    ensures UnitsInvariant(s', mo0, sd) && forall v :: Settled(s.mo, sd, v) ==> Settled(s'.mo, sd, v)
  {
    SettlingLeavesNoneDangling(s.mo, sd, u);
    assert s'.done[|s.done|] == u;
    assert forall v :: v in s.done ==> v in s'.done;
  }

  lemma DoneInTurn(s: State, s': State, q0: seq<Event>, mo0: MoForest, sd: Parents, u: Uuid)
    requires UnitsInvariant(s, mo0, sd) && DoneInvariant(s, q0, mo0, sd) && Sought(q0, mo0, sd, u)
    requires !Settled(s.mo, sd, u) && CanBeSettled(s.mo, sd, u) && s'.done == s.done + [u]
    ensures DoneInvariant(s', q0, mo0, sd)
  {
    var done := s'.done;
    assert u !in s.done;
    assert !Settled(mo0, sd, u);
    forall i | 0 <= i < |done| ensures ComesInTurn(done, i, mo0, sd) {
      if i < |s.done| {
        assert done[..i] == s.done[..i];
        assert ComesInTurn(s.done, i, mo0, sd);
      } else {
        assert done[..i] == s.done;
        NextInTurn(s, mo0, sd, u);
      }
    }
  }

  lemma NextInTurn(s: State, mo0: MoForest, sd: Parents, u: Uuid)
    requires UnitsInvariant(s, mo0, sd) && CanBeSettled(s.mo, sd, u)
    ensures if u in sd then sd[u] in mo0 || sd[u] in s.done else forall c :: c in Children(mo0, u) ==> c in s.done
  {
    if u !in sd {
      forall c | c in Children(mo0, u) ensures c in s.done {
        assert c !in Children(s.mo, u);
      }
    }
  }

  // What MO has below a unit that is not SD's is sought with it.
  lemma ChildIsSought(s: State, q0: seq<Event>, mo0: MoForest, sd: Parents, u: Uuid, c: Uuid)
    requires UnitsInvariant(s, mo0, sd) && DoneInvariant(s, q0, mo0, sd)
    requires Sought(q0, mo0, sd, u) && u !in sd && c in Children(s.mo, u)
    ensures Sought(q0, mo0, sd, c)
  {
    if c !in s.done {
      SoughtNext(q0, mo0, sd, u, c);
    }
  }

  // A parent MO lacks is sought with the unit.
  lemma ParentIsSought(s: State, q0: seq<Event>, mo0: MoForest, sd: Parents, u: Uuid)
    requires UnitsInvariant(s, mo0, sd) && DoneInvariant(s, q0, mo0, sd)
    requires Sought(q0, mo0, sd, u) && u in sd && sd[u] !in s.mo
    ensures Sought(q0, mo0, sd, sd[u])
  {
    if sd[u] !in s.done {
      SoughtNext(q0, mo0, sd, u, sd[u]);
    }
  }

  lemma MoreQueued(s: State, q0: seq<Event>, mo0: MoForest, sd: Parents, more: seq<Event>)
    requires QueueInvariant(s, q0, mo0, sd)
    requires forall i :: 0 <= i < |more| ==> Sought(q0, mo0, sd, more[i].unit)
    ensures QueueInvariant(s.(queue := s.queue + more), q0, mo0, sd)
  {
  }

  // Whatever SD and MO are, handling an event keeps all of that.
  lemma StaysUnderway(s: State, i: nat, q0: seq<Event>, mo0: MoForest, sd: Parents, r: Handled, s': State)
    requires Underway(s, q0, mo0, sd) && i < |s.queue| && Ends(s, i, sd, r, s')
    ensures Underway(s', q0, mo0, sd)
  {
    var u := s.queue[i].unit;
    match r
    case NothingToDo =>
      EventIsDone(s, i, q0, mo0, sd, s');
    case UnitWritten =>
      UnitIsDone(s, s', mo0, sd, u);
      DoneInTurn(s, s', q0, mo0, sd, u);
      EventIsDone(s, i, q0, mo0, sd, s');
    case UnitTerminated =>
      UnitIsDone(s, s', mo0, sd, u);
      DoneInTurn(s, s', q0, mo0, sd, u);
      EventIsDone(s, i, q0, mo0, sd, s');
    case ParentFirst =>
      ParentIsSought(s, q0, mo0, sd, u);
      MoreQueued(s, q0, mo0, sd, [OrgUnitStore.Event(sd[u], s.queue[i].priority - 1)]);
    case ChildrenFirst(children) =>
      forall j | 0 <= j < |children| ensures Sought(q0, mo0, sd, children[j]) {
        assert children[j] in children;
        ChildIsSought(s, q0, mo0, sd, u, children[j]);
      }
      MoreQueued(s, q0, mo0, sd, OrgUnitWrites.EventsFor(children, s.queue[i].priority - 1));
  }

  // ----- what an empty queue means

  // Where a settled unit has led to has been done.
  lemma LedToIsDone(s: State, mo0: MoForest, sd: Parents, u: Uuid, v: Uuid)
    requires UnitsInvariant(s, mo0, sd) && Settled(s.mo, sd, u) && LeadsTo(mo0, sd, u, v)
    ensures v in s.done
  {
  }

  // All units sought are settled once the queue is empty.
  lemma {:induction false} SoughtAreSettled(s: State, q0: seq<Event>, mo0: MoForest, sd: Parents, v: Uuid, n: nat)
    requires Underway(s, q0, mo0, sd) && s.queue == [] && SoughtAfter(q0, mo0, sd, v, n)
    ensures Settled(s.mo, sd, v)
    decreases n
  {
    if n == 0 {
      var i :| 0 <= i < |q0| && q0[i].unit == v;
      assert q0[i] !in s.queue;
    } else {
      var u :| SoughtAfter(q0, mo0, sd, u, n - 1) && LeadsTo(mo0, sd, u, v);
      SoughtAreSettled(s, q0, mo0, sd, u, n - 1);
      LedToIsDone(s, mo0, sd, u, v);
    }
  }

  // What a run comes to: exactly the units sought that were not settled are written or
  // terminated, each once and in turn; everything else is as it was.
  ghost predicate Drained(q0: seq<Event>, mo0: MoForest, sd: Parents, mo: MoForest, done: seq<Uuid>) {
    && NoneDangling(mo) && Distinct(done) && InTurn(done, mo0, sd)
    && (forall v :: v in done <==> Sought(q0, mo0, sd, v) && !Settled(mo0, sd, v))
    && (forall v :: v in mo <==> if v in done then v in sd else v in mo0)
    && (forall v :: v in mo ==> mo[v] == if v in done then Some(sd[v]) else mo0[v])
  }

  lemma End(s: State, q0: seq<Event>, mo0: MoForest, sd: Parents)
    requires Underway(s, q0, mo0, sd) && s.queue == []
    ensures Drained(q0, mo0, sd, s.mo, s.done)
  {
    forall v | Sought(q0, mo0, sd, v) && !Settled(mo0, sd, v) ensures v in s.done {
      var n: nat :| SoughtAfter(q0, mo0, sd, v, n);
      SoughtAreSettled(s, q0, mo0, sd, v, n);
    }
  }

  // The queue can only become empty if the run was grounded.
  lemma EmptyOnlyIfGrounded(s: State, q0: seq<Event>, mo0: MoForest, sd: Parents)
    requires Underway(s, q0, mo0, sd) && s.queue == []
    ensures Grounded(q0, mo0, sd)
  {
    forall v | Sought(q0, mo0, sd, v) && v in sd && Sought(q0, mo0, sd, sd[v]) ensures sd[v] in sd {
      var n: nat :| SoughtAfter(q0, mo0, sd, v, n);
      var k: nat :| SoughtAfter(q0, mo0, sd, sd[v], k);
      SoughtAreSettled(s, q0, mo0, sd, v, n);
      SoughtAreSettled(s, q0, mo0, sd, sd[v], k);
      assert s.mo[v] == Some(sd[v]);
    }
  }

  // ----- the measure

  function CountSettled(queue: seq<Event>, mo: MoForest, sd: Parents): nat {
    if queue == [] then 0
    else (if Settled(mo, sd, queue[0].unit) then 1 else 0) + CountSettled(queue[1..], mo, sd)
  }

  lemma {:induction false} CountConcat(a: seq<Event>, b: seq<Event>, mo: MoForest, sd: Parents)
    ensures CountSettled(a + b, mo, sd) == CountSettled(a, mo, sd) + CountSettled(b, mo, sd)
  {
    if a == [] {
      assert a + b == b;
    } else {
      assert (a + b)[1..] == a[1..] + b;
      CountConcat(a[1..], b, mo, sd);
    }
  }

  lemma CountWithout(queue: seq<Event>, i: nat, mo: MoForest, sd: Parents)
    requires i < |queue|
    ensures CountSettled(queue, mo, sd)
         == CountSettled(Without(queue, i), mo, sd) + if Settled(mo, sd, queue[i].unit) then 1 else 0
  {
    assert queue == queue[..i] + ([queue[i]] + queue[i + 1..]);
    CountConcat(queue[..i], [queue[i]] + queue[i + 1..], mo, sd);
    CountConcat([queue[i]], queue[i + 1..], mo, sd);
    CountConcat(queue[..i], queue[i + 1..], mo, sd);
    assert [queue[i]][1..] == [];
  }

  lemma {:induction false} CountNone(queue: seq<Event>, mo: MoForest, sd: Parents)
    requires forall i :: 0 <= i < |queue| ==> !Settled(mo, sd, queue[i].unit)
    ensures CountSettled(queue, mo, sd) == 0
  {
    if queue == [] {
    } else {
      CountNone(queue[1..], mo, sd);
    }
  }

  ghost function Unsettled(universe: set<Uuid>, mo: MoForest, sd: Parents): set<Uuid> {
    set u | u in universe && !Settled(mo, sd, u)
  }

  // How long a unit can be put off: first down to what MO has below it, then up to what SD has
  // above that.
  function Rank(mo0: MoForest, sd: Parents, u: Uuid): nat {
    DepthAtMostSize(MoParents(mo0), u);
    if u in sd then Depth(sd, u) else |sd| + 1 + |MoParents(mo0)| - Depth(MoParents(mo0), u)
  }

  function LowestNumber(queue: seq<Event>): (p: int)
    requires queue != []
    ensures forall i :: 0 <= i < |queue| ==> p <= queue[i].priority
    ensures exists i :: 0 <= i < |queue| && queue[i].priority == p
  {
    if |queue| == 1 then queue[0].priority
    else
      var rest := LowestNumber(queue[1..]);
      assert forall i :: 1 <= i < |queue| ==> queue[i] == queue[1..][i - 1];
      if queue[0].priority < rest then queue[0].priority else rest
  }

  // The greatest rank of a unit with an event numbered p.
  function RankAt(queue: seq<Event>, p: int, mo0: MoForest, sd: Parents): nat {
    if queue == [] then 0
    else Max(if queue[0].priority == p then Rank(mo0, sd, queue[0].unit) else 0, RankAt(queue[1..], p, mo0, sd))
  }

  function FrontRank(queue: seq<Event>, mo0: MoForest, sd: Parents): nat {
    if queue == [] then 0 else RankAt(queue, LowestNumber(queue), mo0, sd)
  }

  lemma {:induction false} RankAtBounds(queue: seq<Event>, i: nat, mo0: MoForest, sd: Parents)
    requires i < |queue|
    ensures Rank(mo0, sd, queue[i].unit) <= RankAt(queue, queue[i].priority, mo0, sd)
  {
    if i == 0 {
    } else {
      RankAtBounds(queue[1..], i - 1, mo0, sd);
    }
  }

  lemma {:induction false} RankAtBelow(queue: seq<Event>, p: int, n: nat, mo0: MoForest, sd: Parents)
    requires n > 0
    requires forall i :: 0 <= i < |queue| && queue[i].priority == p ==> Rank(mo0, sd, queue[i].unit) < n
    ensures RankAt(queue, p, mo0, sd) < n
  {
    if queue == [] {
    } else {
      assert forall i :: 0 <= i < |queue| - 1 ==> queue[1..][i] == queue[i + 1];
      RankAtBelow(queue[1..], p, n, mo0, sd);
    }
  }

  // Events queued one lower are the only ones that can come next, and the front ranks lower if
  // all of their units do.
  lemma QueuedAreNext(queue: seq<Event>, i: nat, more: seq<Event>, mo0: MoForest, sd: Parents)
    requires IsFront(queue, i) && more != []
    requires forall j :: 0 <= j < |more| ==>
      more[j].priority == queue[i].priority - 1 && Rank(mo0, sd, more[j].unit) < Rank(mo0, sd, queue[i].unit)
    ensures forall j: nat :: IsFront(queue + more, j) ==> |queue| <= j
    ensures FrontRank(queue + more, mo0, sd) < FrontRank(queue, mo0, sd)
  {
    var next := queue + more;
    var p := queue[i].priority - 1;
    assert next[|queue|] == more[0];
    forall j | 0 <= j < |next|
      ensures next[j].priority == p <==> |queue| <= j
      ensures p <= next[j].priority && (next[j].priority == p ==> Rank(mo0, sd, next[j].unit) < Rank(mo0, sd, queue[i].unit))
    {
      assert next[j] == if j < |queue| then queue[j] else more[j - |queue|];
    }
    assert forall j: nat :: IsFront(next, j) ==> next[j].priority <= next[|queue|].priority;
    assert LowestNumber(next) == p && LowestNumber(queue) == queue[i].priority;
    RankAtBelow(next, p, Rank(mo0, sd, queue[i].unit), mo0, sd);
    RankAtBounds(queue, i, mo0, sd);
  }

  // A parent a unit is put off for is not settled and ranks lower, ...
  lemma ParentRanksLower(s: State, q0: seq<Event>, mo0: MoForest, sd: Parents, u: Uuid)
    requires Grounded(q0, mo0, sd) && Acyclic(sd) && Underway(s, q0, mo0, sd) && Sought(q0, mo0, sd, u)
    requires u in sd && sd[u] !in s.mo
    ensures !Settled(s.mo, sd, sd[u]) && Rank(mo0, sd, sd[u]) < Rank(mo0, sd, u)
  {
    ParentIsSought(s, q0, mo0, sd, u);
    DepthOfParent(sd, u);
  }

  // ... and so are the children a unit is put off for.
  lemma ChildRanksLower(s: State, q0: seq<Event>, mo0: MoForest, sd: Parents, u: Uuid, c: Uuid)
    requires Grounded(q0, mo0, sd) && Acyclic(MoParents(mo0)) && Underway(s, q0, mo0, sd) && Sought(q0, mo0, sd, u)
    requires u !in sd && c in Children(s.mo, u)
    ensures !Settled(s.mo, sd, c) && Rank(mo0, sd, c) < Rank(mo0, sd, u)
  {
    ChildIsSought(s, q0, mo0, sd, u, c);
    DepthAtMostSize(MoParents(mo0), u);
    DepthAtMostSize(MoParents(mo0), c);
    if c in sd {
      DepthAtMostSize(sd, c);
    } else {
      assert c !in s.done;
      DepthOfParent(MoParents(mo0), c);
    }
  }

  // All units met during a run are in the universe.
  ghost predicate Within(s: State, mo0: MoForest, sd: Parents, universe: set<Uuid>) {
    && sd.Values + mo0.Keys <= universe
    && (forall i :: 0 <= i < |s.queue| ==> s.queue[i].unit in universe)
    && forall v :: v in s.done ==> v in universe
  }

  // Fewer units are unsettled, or as many and fewer events are about settled ones, or as many of
  // both and the front ranks lower.
  ghost predicate Smaller(s': State, s: State, mo0: MoForest, sd: Parents, universe: set<Uuid>) {
    || |Unsettled(universe, s'.mo, sd)| < |Unsettled(universe, s.mo, sd)|
    || (|Unsettled(universe, s'.mo, sd)| == |Unsettled(universe, s.mo, sd)| &&
         (CountSettled(s'.queue, s'.mo, sd) < CountSettled(s.queue, s.mo, sd) ||
           (CountSettled(s'.queue, s'.mo, sd) == CountSettled(s.queue, s.mo, sd) &&
             FrontRank(s'.queue, mo0, sd) < FrontRank(s.queue, mo0, sd))))
  }

  lemma AfterDone(s: State, i: nat, mo0: MoForest, sd: Parents, universe: set<Uuid>)
    requires i < |s.queue| && !Settled(s.mo, sd, s.queue[i].unit) && Within(s, mo0, sd, universe)
    ensures var u := s.queue[i].unit;
      var s' := State(Without(s.queue, i), SettledMo(s.mo, sd, u), s.done + [u]);
      Within(s', mo0, sd, universe) && Smaller(s', s, mo0, sd, universe)
  {
    var u := s.queue[i].unit;
    assert Unsettled(universe, SettledMo(s.mo, sd, u), sd) == Unsettled(universe, s.mo, sd) - {u};
  }

  lemma PutOffIsSmaller(s: State, i: nat, more: seq<Event>, mo0: MoForest, sd: Parents, universe: set<Uuid>)
    requires IsFront(s.queue, i) && more != []
    requires forall j :: 0 <= j < |more| ==>
      more[j].priority == s.queue[i].priority - 1 && Rank(mo0, sd, more[j].unit) < Rank(mo0, sd, s.queue[i].unit)
    requires forall j :: 0 <= j < |more| ==> !Settled(s.mo, sd, more[j].unit)
    ensures Smaller(s.(queue := s.queue + more), s, mo0, sd, universe)
  {
    QueuedAreNext(s.queue, i, more, mo0, sd);
    CountConcat(s.queue, more, s.mo, sd);
    CountNone(more, s.mo, sd);
  }

  lemma AfterNothing(s: State, i: nat, mo0: MoForest, sd: Parents, universe: set<Uuid>)
    requires i < |s.queue| && Settled(s.mo, sd, s.queue[i].unit) && Within(s, mo0, sd, universe)
    ensures var s' := s.(queue := Without(s.queue, i));
      Within(s', mo0, sd, universe) && Smaller(s', s, mo0, sd, universe)
  {
    CountWithout(s.queue, i, s.mo, sd);
  }

  lemma AfterParentFirst(s: State, i: nat, q0: seq<Event>, mo0: MoForest, sd: Parents, universe: set<Uuid>)
    requires Grounded(q0, mo0, sd) && Acyclic(sd)
    requires IsFront(s.queue, i) && Underway(s, q0, mo0, sd) && Within(s, mo0, sd, universe)
    requires s.queue[i].unit in sd && sd[s.queue[i].unit] !in s.mo
    ensures var s' := s.(queue := s.queue + [OrgUnitStore.Event(sd[s.queue[i].unit], s.queue[i].priority - 1)]);
      Within(s', mo0, sd, universe) && Smaller(s', s, mo0, sd, universe)
  {
    ParentRanksLower(s, q0, mo0, sd, s.queue[i].unit);
    PutOffIsSmaller(s, i, [OrgUnitStore.Event(sd[s.queue[i].unit], s.queue[i].priority - 1)], mo0, sd, universe);
  }

  lemma AfterChildrenFirst(s: State, i: nat, children: seq<Uuid>, q0: seq<Event>, mo0: MoForest, sd: Parents,
                           universe: set<Uuid>)
    requires Grounded(q0, mo0, sd) && Acyclic(MoParents(mo0))
    requires IsFront(s.queue, i) && Underway(s, q0, mo0, sd) && Within(s, mo0, sd, universe)
    requires s.queue[i].unit !in sd && Lists(children, s.mo, s.queue[i].unit)
    ensures var s' := s.(queue := s.queue + OrgUnitWrites.EventsFor(children, s.queue[i].priority - 1));
      Within(s', mo0, sd, universe) && Smaller(s', s, mo0, sd, universe)
  {
    var u := s.queue[i].unit;
    forall j | 0 <= j < |children|
      ensures !Settled(s.mo, sd, children[j]) && Rank(mo0, sd, children[j]) < Rank(mo0, sd, u)
      ensures children[j] in universe
    {
      assert children[j] in children;
      ChildRanksLower(s, q0, mo0, sd, u, children[j]);
      assert children[j] in s.done || children[j] in mo0;
    }
    PutOffIsSmaller(s, i, OrgUnitWrites.EventsFor(children, s.queue[i].priority - 1), mo0, sd, universe);
  }

  // Handling the next event of a grounded run makes the measure smaller, however it ends.
  lemma Progress(s: State, i: nat, q0: seq<Event>, mo0: MoForest, sd: Parents, universe: set<Uuid>, r: Handled, s': State)
    requires Grounded(q0, mo0, sd) && Acyclic(sd) && Acyclic(MoParents(mo0))
    requires IsFront(s.queue, i) && Underway(s, q0, mo0, sd) && Within(s, mo0, sd, universe)
    requires Ends(s, i, sd, r, s')
    ensures Within(s', mo0, sd, universe) && Smaller(s', s, mo0, sd, universe)
  {
    match r
    case NothingToDo =>
      AfterNothing(s, i, mo0, sd, universe);
    case UnitWritten =>
      AfterDone(s, i, mo0, sd, universe);
    case UnitTerminated =>
      AfterDone(s, i, mo0, sd, universe);
    case ParentFirst =>
      AfterParentFirst(s, i, q0, mo0, sd, universe);
    case ChildrenFirst(children) =>
      AfterChildrenFirst(s, i, children, q0, mo0, sd, universe);
  }

  // ----- the queue

  class OrgEvents {
    const sd: Parents
    var queue: seq<Event>
    var mo: MoForest
    ghost var done: seq<Uuid>

    constructor (sd: Parents, queue: seq<Event>, mo: MoForest)
      ensures this.sd == sd && Now() == State(queue, mo, [])
    {
      this.sd, this.queue, this.mo, done := sd, queue, mo, [];
    }

    ghost function Now(): State
      reads this
    {
      State(queue, mo, done)
    }

    // The event system hands out one of the events with the lowest number.
    method Fetch() returns (i: nat)
      requires queue != []
      ensures IsFront(queue, i)
    {
      i := 0;
      for j := 1 to |queue|
        invariant i < |queue| && forall l :: 0 <= l < j ==> queue[i].priority <= queue[l].priority
      {
        if queue[j].priority < queue[i].priority {
          i := j;
        }
      }
    }

    // MO lists the children of a unit in any order.
    method ListChildren(u: Uuid) returns (children: seq<Uuid>)
      ensures forall c :: c in children <==> c in Children(mo, u)
    {
      children := [];
      var todo := Children(mo, u);
      while todo != {}
        invariant todo <= Children(mo, u) && forall c :: c in children <==> c in Children(mo, u) - todo
        decreases todo
      {
        var c :| c in todo;
        children := children + [c];
        todo := todo - {c};
      }
    }

    // An event that is not put off leaves the queue. One that is put off stays: MO lacks the
    // unit's parent, or will not terminate it because of its children.
    method Handle(i: nat) returns (r: Handled)
      requires IsFront(queue, i)
      modifies this
      ensures Ends(old(Now()), i, sd, r, Now())
    {
      var e := queue[i];
      if Settled(mo, sd, e.unit) {
        queue := Without(queue, i);
        return NothingToDo;
      }
      if e.unit in sd {
        if sd[e.unit] !in mo {
          queue := queue + [OrgUnitStore.Event(sd[e.unit], e.priority - 1)];
          return ParentFirst;
        }
        mo := mo[e.unit := Some(sd[e.unit])];
        done := done + [e.unit];
        queue := Without(queue, i);
        return UnitWritten;
      }
      var children := ListChildren(e.unit);
      if children != [] {
        queue := queue + OrgUnitWrites.EventsFor(children, e.priority - 1);
        return ChildrenFirst(children);
      }
      NoneListed(children, mo, e.unit);
      mo := mo - {e.unit};
      done := done + [e.unit];
      queue := Without(queue, i);
      return UnitTerminated;
    }

    // One event at a time, lowest number first, until none is left; it ends whatever the order
    // among equal numbers and of children.
    method Drain()
      requires Acyclic(sd) && NoneDangling(mo) && Acyclic(MoParents(mo)) && done == [] && Grounded(queue, mo, sd)
      modifies this
      ensures queue == [] && Drained(old(queue), old(mo), sd, mo, done)
      ensures AllAsWanted(old(queue), mo, sd)
    {
      ghost var q0, mo0 := queue, mo;
      ghost var universe := (set i | 0 <= i < |queue| :: queue[i].unit) + sd.Values + mo0.Keys;
      Begin(q0, mo0, sd);
      while queue != []
        invariant Underway(Now(), q0, mo0, sd) && Within(Now(), mo0, sd, universe)
        decreases |Unsettled(universe, mo, sd)|, CountSettled(queue, mo, sd), FrontRank(queue, mo0, sd)
      {
        ghost var s := Now();
        var i := Fetch();
        var r := Handle(i);
        StaysUnderway(s, i, q0, mo0, sd, r, Now());
        Progress(s, i, q0, mo0, sd, universe, r, Now());
      }
      End(Now(), q0, mo0, sd);
      QueuedAreAsWanted(Now(), q0, mo0, sd);
    }
  }

  // Every unit queued is below the parent SD gives it, and gone if SD gives none.
  ghost predicate AllAsWanted(q0: seq<Event>, mo: MoForest, sd: Parents) {
    forall i :: 0 <= i < |q0| ==>
      if q0[i].unit in sd then q0[i].unit in mo && mo[q0[i].unit] == Some(sd[q0[i].unit]) else q0[i].unit !in mo
  }

  lemma QueuedAreAsWanted(s: State, q0: seq<Event>, mo0: MoForest, sd: Parents)
    requires QueueInvariant(s, q0, mo0, sd) && s.queue == []
    ensures AllAsWanted(q0, s.mo, sd)
  {
    forall i | 0 <= i < |q0|
      ensures if q0[i].unit in sd then q0[i].unit in s.mo && s.mo[q0[i].unit] == Some(sd[q0[i].unit])
              else q0[i].unit !in s.mo
    {
      assert q0[i] !in s.queue;
      assert Settled(s.mo, sd, q0[i].unit);
    }
  }

  lemma NoneListed(children: seq<Uuid>, mo: MoForest, u: Uuid)
    requires children == [] && forall c :: c in children <==> c in Children(mo, u)
    ensures Children(mo, u) == {}
  {
    assert forall c :: c !in children;
  }

  // ----- runs of any kind

  ghost predicate IsRun(run: seq<State>, q0: seq<Event>, mo0: MoForest, sd: Parents) {
    && run != [] && run[0] == State(q0, mo0, [])
    && forall i :: 0 <= i < |run| - 1 ==> Step(run[i], sd, run[i + 1])
  }

  lemma {:induction false} RunIsUnderway(run: seq<State>, q0: seq<Event>, mo0: MoForest, sd: Parents)
    requires NoneDangling(mo0) && IsRun(run, q0, mo0, sd)
    ensures Underway(run[|run| - 1], q0, mo0, sd)
    decreases |run|
  {
    var n := |run| - 1;
    if n == 0 {
      Begin(q0, mo0, sd);
    } else {
      RunIsUnderway(run[..n], q0, mo0, sd);
      assert Step(run[n - 1], sd, run[n]);
      var i: nat, r :| IsFront(run[n - 1].queue, i) && Ends(run[n - 1], i, sd, r, run[n]);
      StaysUnderway(run[n - 1], i, q0, mo0, sd, r, run[n]);
    }
  }

  // A run that is not grounded never ends, whatever the order: some event is always queued.
  lemma NeverEmpty(run: seq<State>, q0: seq<Event>, mo0: MoForest, sd: Parents)
    requires NoneDangling(mo0) && !Grounded(q0, mo0, sd) && IsRun(run, q0, mo0, sd)
    ensures run[|run| - 1].queue != []
  {
    RunIsUnderway(run, q0, mo0, sd);
    if run[|run| - 1].queue == [] {
      EmptyOnlyIfGrounded(run[|run| - 1], q0, mo0, sd);
    }
  }

  lemma SomeFront(queue: seq<Event>) returns (i: nat)
    requires queue != []
    ensures IsFront(queue, i)
  {
    var p := LowestNumber(queue);
    i :| 0 <= i < |queue| && queue[i].priority == p;
    assert forall j :: 0 <= j < |queue| ==> p <= queue[j].priority;
  }

  // Every event can be handled.
  lemma SomeEnd(s: State, i: nat, sd: Parents) returns (r: Handled, s': State)
    requires i < |s.queue|
    ensures Ends(s, i, sd, r, s')
  {
    var u := s.queue[i].unit;
    var number := s.queue[i].priority - 1;
    if Settled(s.mo, sd, u) {
      return NothingToDo, s.(queue := Without(s.queue, i));
    }
    if u in sd {
      if sd[u] in s.mo {
        return UnitWritten, State(Without(s.queue, i), s.mo[u := Some(sd[u])], s.done + [u]);
      }
      return ParentFirst, s.(queue := s.queue + [OrgUnitStore.Event(sd[u], number)]);
    }
    if Children(s.mo, u) == {} {
      return UnitTerminated, State(Without(s.queue, i), s.mo - {u}, s.done + [u]);
    }
    var children := Listed(Children(s.mo, u));
    return ChildrenFirst(children), s.(queue := s.queue + OrgUnitWrites.EventsFor(children, number));
  }

  lemma {:induction false} Listed(us: set<Uuid>) returns (r: seq<Uuid>)
    ensures (forall u :: u in r <==> u in us) && (us != {} ==> r != [])
  {
    r := [];
    if us == {} {
    } else {
      var u := Pick(us);
      var rest := Listed(us - {u});
      r := [u] + rest;
    }
  }

  // One more step of a grounded run.
  lemma NextState(s: State, universe: set<Uuid>, q0: seq<Event>, mo0: MoForest, sd: Parents) returns (s': State)
    requires Grounded(q0, mo0, sd) && Acyclic(sd) && Acyclic(MoParents(mo0))
    requires Underway(s, q0, mo0, sd) && Within(s, mo0, sd, universe) && s.queue != []
    ensures Step(s, sd, s') && Underway(s', q0, mo0, sd)
    ensures Within(s', mo0, sd, universe) && Smaller(s', s, mo0, sd, universe)
  {
    var i := SomeFront(s.queue);
    var r;
    r, s' := SomeEnd(s, i, sd);
    StaysUnderway(s, i, q0, mo0, sd, r, s');
    Progress(s, i, q0, mo0, sd, universe, r, s');
  }

  // The states in rest follow s one by one, and after the last of them no event is left.
  ghost predicate EndsWith(s: State, rest: seq<State>, sd: Parents)
    decreases |rest|
  {
    if rest == [] then s.queue == [] else Step(s, sd, rest[0]) && EndsWith(rest[0], rest[1..], sd)
  }

  lemma RunOn(s: State, universe: set<Uuid>, q0: seq<Event>, mo0: MoForest, sd: Parents) returns (rest: seq<State>)
    requires Grounded(q0, mo0, sd) && Acyclic(sd) && Acyclic(MoParents(mo0))
    requires Underway(s, q0, mo0, sd) && Within(s, mo0, sd, universe)
    ensures EndsWith(s, rest, sd)
    decreases |Unsettled(universe, s.mo, sd)|, CountSettled(s.queue, s.mo, sd), FrontRank(s.queue, mo0, sd)
  {
    if s.queue == [] {
      rest := [];
    } else {
      var s' := NextState(s, universe, q0, mo0, sd);
      rest := RunOn(s', universe, q0, mo0, sd);
      assert ([s'] + rest)[1..] == rest;
      rest := [s'] + rest;
    }
  }

  lemma {:induction false} EndedRun(run: seq<State>, rest: seq<State>, q0: seq<Event>, mo0: MoForest, sd: Parents)
    requires IsRun(run, q0, mo0, sd) && EndsWith(run[|run| - 1], rest, sd)
    ensures IsRun(run + rest, q0, mo0, sd) && (run + rest)[|run + rest| - 1].queue == []
    decreases |rest|
  {
    if rest == [] {
      assert run + rest == run;
    } else {
      EndedRun(run + [rest[0]], rest[1..], q0, mo0, sd);
      assert run + [rest[0]] + rest[1..] == run + rest;
    }
  }

  // Every run from a grounded queue, however far it has got, can be continued to an empty queue.
  lemma RunCanEnd(run: seq<State>, q0: seq<Event>, mo0: MoForest, sd: Parents) returns (rest: seq<State>)
    requires NoneDangling(mo0) && Grounded(q0, mo0, sd) && Acyclic(sd) && Acyclic(MoParents(mo0))
    requires IsRun(run, q0, mo0, sd)
    ensures IsRun(run + rest, q0, mo0, sd) && (run + rest)[|run + rest| - 1].queue == []
  {
    var s := run[|run| - 1];
    var queued := set i | 0 <= i < |s.queue| :: s.queue[i].unit;
    RunIsUnderway(run, q0, mo0, sd);
    rest := RunOn(s, queued + (set u | u in s.done) + sd.Values + mo0.Keys, q0, mo0, sd);
    EndedRun(run, rest, q0, mo0, sd);
  }

  // A queue can be worked off if and only if it is grounded.
  lemma DrainsIffGrounded(q0: seq<Event>, mo0: MoForest, sd: Parents)
    requires NoneDangling(mo0) && Acyclic(sd) && Acyclic(MoParents(mo0))
    ensures Grounded(q0, mo0, sd) <==> exists run: seq<State> :: IsRun(run, q0, mo0, sd) && run[|run| - 1].queue == []
  {
    if Grounded(q0, mo0, sd) {
      var rest := RunCanEnd([State(q0, mo0, [])], q0, mo0, sd);
    } else {
      forall run: seq<State> | IsRun(run, q0, mo0, sd) ensures run[|run| - 1].queue != [] {
        NeverEmpty(run, q0, mo0, sd);
      }
    }
  }

  // SD gives unit 1 the parent 2 but does not have 2 itself, nor has MO: event 1 waits for 2,
  // for which there is nothing to do, for ever.
  lemma ParentNobodyHas() returns (q0: seq<Event>, mo0: MoForest, sd: Parents)
    ensures NoneDangling(mo0) && Acyclic(sd) && Acyclic(MoParents(mo0)) && !Grounded(q0, mo0, sd)
    ensures forall run: seq<State> :: IsRun(run, q0, mo0, sd) ==> run[|run| - 1].queue != []
  {
    q0, mo0, sd := [OrgUnitStore.Event(1, 10)], map[], map[1 := 2];
    RankedIsAcyclic(sd, u => if u == 1 then 1 else 0);
    RankedIsAcyclic(MoParents(mo0), u => 0);
    QueuedIsSought(q0, mo0, sd, 0);
    SoughtNext(q0, mo0, sd, 1, 2);
    assert Sought(q0, mo0, sd, 1) && Sought(q0, mo0, sd, 2) && sd[1] == 2 && 2 !in sd;
    forall run: seq<State> | IsRun(run, q0, mo0, sd) ensures run[|run| - 1].queue != [] {
      NeverEmpty(run, q0, mo0, sd);
    }
  }

  // MO has unit 2, which SD does not have, and below it unit 1, as SD wants: 2 waits for 1 to go,
  // which it does not.
  lemma ChildThatStays() returns (q0: seq<Event>, mo0: MoForest, sd: Parents)
    ensures NoneDangling(mo0) && Acyclic(sd) && Acyclic(MoParents(mo0)) && !Grounded(q0, mo0, sd)
    ensures forall run: seq<State> :: IsRun(run, q0, mo0, sd) ==> run[|run| - 1].queue != []
  {
    q0, mo0, sd := [OrgUnitStore.Event(2, 10)], map[1 := Some(2), 2 := None], map[1 := 2];
    RankedIsAcyclic(sd, u => if u == 1 then 1 else 0);
    RankedIsAcyclic(MoParents(mo0), u => if u == 1 then 1 else 0);
    QueuedIsSought(q0, mo0, sd, 0);
    assert 1 in Children(mo0, 2);
    SoughtNext(q0, mo0, sd, 2, 1);
    assert Sought(q0, mo0, sd, 1) && Sought(q0, mo0, sd, 2) && sd[1] == 2 && 2 !in sd;
    forall run: seq<State> | IsRun(run, q0, mo0, sd) ensures run[|run| - 1].queue != [] {
      NeverEmpty(run, q0, mo0, sd);
    }
  }

  // Units both have were settled before the run, which wrote or terminated the others sought.
  ghost predicate OnlyNewWritten(mo0: MoForest, sd: Parents, mo: MoForest) {
    forall u :: u in mo ==>
      if u in mo0 then mo[u] == mo0[u] else u in sd && mo[u] == Some(sd[u])
  }

  // A new unit above all of MO's, ordered by depth in SD.
  function NewLast(mo0: MoForest, sd: Parents, u: Uuid): nat {
    if u in mo0 then Depth(MoParents(mo0), u) else |MoParents(mo0)| + 1 + Depth(sd, u)
  }

  lemma NewLastDecreases(mo0: MoForest, sd: Parents, mo: MoForest, u: Uuid)
    requires Acyclic(sd) && NoneDangling(mo0) && Acyclic(MoParents(mo0)) && OnlyNewWritten(mo0, sd, mo)
    requires u in MoParents(mo)
    ensures NewLast(mo0, sd, MoParents(mo)[u]) < NewLast(mo0, sd, u)
  {
    if u in mo0 {
      assert mo[u] == mo0[u];
      DepthOfParent(MoParents(mo0), u);
    } else {
      assert u in sd && mo[u] == Some(sd[u]);
      DepthOfParent(sd, u);
      DepthAtMostSize(MoParents(mo0), sd[u]);
    }
  }

  // Where the units both have were settled before a run, it leaves no unit above itself.
  lemma RunKeepsForest(q0: seq<Event>, mo0: MoForest, sd: Parents, mo: MoForest, done: seq<Uuid>)
    requires Acyclic(sd) && NoneDangling(mo0) && Acyclic(MoParents(mo0)) && Drained(q0, mo0, sd, mo, done)
    requires forall u :: u in mo0 && u in sd ==> Settled(mo0, sd, u)
    ensures Acyclic(MoParents(mo))
  {
    assert OnlyNewWritten(mo0, sd, mo);
    forall u | u in MoParents(mo) ensures NewLast(mo0, sd, MoParents(mo)[u]) < NewLast(mo0, sd, u) {
      NewLastDecreases(mo0, sd, mo, u);
    }
    RankedIsAcyclic(MoParents(mo), u => NewLast(mo0, sd, u));
  }
}
