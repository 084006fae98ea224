// Half-open intervals, timelines, and the normal form computed by combine_intervals.
module Timelines {
  import opened Common

  datatype Interval<+V> = Interval(start: Time, end: Time, value: V)

  predicate Covers<V>(i: Interval<V>, t: Time) {
    i.start <= t < i.end
  }

  // The value a list of intervals has at t. On a timeline at most one interval covers t
  // (see AtMostOneCovers), so taking the first one is what the source's lookup does.
  function At<V>(s: seq<Interval<V>>, t: Time): Option<V> {
    if s == [] then None
    else if Covers(s[0], t) then Some(s[0].value)
    else At(s[1..], t)
  }

  function Endpoints<V>(s: seq<Interval<V>>): (r: set<Time>) {
    (set i | 0 <= i < |s| :: s[i].start) + (set i | 0 <= i < |s| :: s[i].end)
  }

  // No interval reaches beyond the end of time.
  ghost predicate InTime<V>(s: seq<Interval<V>>) {
    forall p :: p in Endpoints(s) ==> p <= POSITIVE_INFINITY
  }

  predicate HasHoles<V>(s: seq<Interval<V>>) {
    exists i :: 0 <= i < |s| - 1 && s[i].end != s[i + 1].start
  }

  // ----- the validators of a timeline

  predicate StartsSorted<V>(s: seq<Interval<V>>) {
    forall i, j :: 0 <= i < j < |s| ==> s[i].start <= s[j].start
  }

  predicate NeighboursApart<V>(s: seq<Interval<V>>) {
    forall i :: 0 <= i < |s| - 1 ==> s[i].end <= s[i + 1].start
  }

  predicate NoRepeats<V(==)>(s: seq<Interval<V>>) {
    forall i :: 0 <= i < |s| - 1 && s[i].end == s[i + 1].start ==> s[i].value != s[i + 1].value
  }

  predicate PassesValidators<V(==)>(s: seq<Interval<V>>) {
    StartsSorted(s) && NeighboursApart(s) && NoRepeats(s)
  }

  // The source never checks that an interval ends after it starts.
  ghost predicate Proper<V>(s: seq<Interval<V>>) {
    forall i :: 0 <= i < |s| ==> s[i].start < s[i].end
  }

  // Sorted, non-overlapping, non-empty intervals: the input combine_intervals is meant for.
  ghost predicate Ordered<V>(s: seq<Interval<V>>) {
    Proper(s) && forall i, j :: 0 <= i < j < |s| ==> s[i].end <= s[j].start
  }

  ghost predicate Canonical<V>(s: seq<Interval<V>>) {
    Ordered(s) && NoRepeats(s)
  }

  lemma {:induction false} ApartAtAnyDistance<V>(s: seq<Interval<V>>, i: nat, j: nat)
    requires Proper(s) && NeighboursApart(s) && i < j < |s|
    ensures s[i].end <= s[j].start
    decreases j - i
  {
    if j <= i + 1 {
    } else {
      ApartAtAnyDistance(s, i + 1, j);
    }
  }

  // On non-empty intervals the validators say exactly "canonical".
  lemma CanonicalIffValid<V>(s: seq<Interval<V>>)
    requires Proper(s)
    ensures PassesValidators(s) <==> Canonical(s)
  {
    if PassesValidators(s) {
      forall i, j | 0 <= i < j < |s| ensures s[i].end <= s[j].start {
        ApartAtAnyDistance(s, i, j);
      }
    }
  }

  lemma AtMostOneCovers<V>(s: seq<Interval<V>>, t: Time, i: nat, j: nat)
    requires Ordered(s) && i < |s| && j < |s|
    requires Covers(s[i], t) && Covers(s[j], t)
    ensures i == j
  {
  }

  // ----- reading values

  lemma {:induction false} AtCovered<V>(s: seq<Interval<V>>, i: nat, t: Time)
    requires Ordered(s) && i < |s| && Covers(s[i], t)
    ensures At(s, t) == Some(s[i].value)
  {
    if i == 0 {
    } else {
      assert s[0].end <= s[i].start;
      assert s[1..][i - 1] == s[i];
      AtCovered(s[1..], i - 1, t);
    }
  }

  // At finds a value exactly when some interval covers the instant.
  lemma {:induction false} AtWitness<V>(s: seq<Interval<V>>, t: Time)
    ensures At(s, t).None? <==> forall i :: 0 <= i < |s| ==> !Covers(s[i], t)
    ensures At(s, t).Some? ==> exists i :: 0 <= i < |s| && Covers(s[i], t) && s[i].value == At(s, t).value
  {
    if s == [] || Covers(s[0], t) {
    } else {
      AtWitness(s[1..], t);
      forall i | 0 <= i < |s| && Covers(s[i], t) ensures At(s, t).Some? {
        assert s[1..][i - 1] == s[i];
      }
      if At(s, t).Some? {
        var i :| 0 <= i < |s[1..]| && Covers(s[1..][i], t) && s[1..][i].value == At(s[1..], t).value;
        assert s[i + 1] == s[1..][i];
      }
    }
  }

  lemma {:induction false} AtConcat<V>(a: seq<Interval<V>>, b: seq<Interval<V>>, t: Time)
    ensures At(a + b, t) == if At(a, t).Some? then At(a, t) else At(b, t)
  {
    if a == [] {
      assert a + b == b;
    } else {
      assert (a + b)[1..] == a[1..] + b;
      AtConcat(a[1..], b, t);
    }
  }

  lemma AtSingle<V>(i: Interval<V>, t: Time)
    ensures At([i], t) == if Covers(i, t) then Some(i.value) else None
  {
    assert [i][1..] == [];
  }

  lemma EndpointsSingle<V>(i: Interval<V>)
    ensures Endpoints([i]) == {i.start, i.end}
  {
    EndpointsTail([i]);
    assert Endpoints([i][1..]) == {};
  }

  // Equal at every instant.
  ghost predicate SameValues<V>(a: seq<Interval<V>>, b: seq<Interval<V>>) {
    forall t :: At(a, t) == At(b, t)
  }

  // ----- elementary intervals

  // No endpoint of s lies strictly between a and b.
  ghost predicate Elementary<V>(s: seq<Interval<V>>, a: Time, b: Time) {
    forall i :: 0 <= i < |s| ==> !(a < s[i].start < b) && !(a < s[i].end < b)
  }

  // Between two neighbouring endpoints the value never changes, whatever the list.
  lemma {:induction false} ConstantOnElementary<V>(s: seq<Interval<V>>, a: Time, b: Time, t: Time)
    requires Elementary(s, a, b) && a <= t < b
    ensures At(s, t) == At(s, a)
  {
    if s == [] {
    } else {
      assert forall i :: 0 <= i < |s[1..]| ==> s[1..][i] == s[i + 1];
      ConstantOnElementary(s[1..], a, b, t);
    }
  }

  // Consecutive members of a sorted list that has every endpoint bound elementary intervals.
  lemma ChunkIsElementary<V>(s: seq<Interval<V>>, e: seq<Time>, k: nat)
    requires StrictlyIncreasing(e) && k + 1 < |e|
    requires forall p :: p in Endpoints(s) && e[0] <= p <= e[|e| - 1] ==> p in e
    ensures Elementary(s, e[k], e[k + 1])
  {
    forall i | 0 <= i < |s| ensures !(e[k] < s[i].start < e[k + 1]) && !(e[k] < s[i].end < e[k + 1]) {
      assert s[i].start in Endpoints(s) && s[i].end in Endpoints(s);
      NoMemberBetween(e, k, s[i].start);
      NoMemberBetween(e, k, s[i].end);
    }
  }

  lemma NoMemberBetween(e: seq<Time>, k: nat, p: Time)
    requires StrictlyIncreasing(e) && k + 1 < |e|
    requires e[0] <= p <= e[|e| - 1] ==> p in e
    ensures !(e[k] < p < e[k + 1])
  {
    assert e[0] <= e[k] && e[k + 1] <= e[|e| - 1];
    assert forall m :: 0 <= m <= k ==> e[m] <= e[k];
    assert forall m :: k + 1 <= m < |e| ==> e[k + 1] <= e[m];
  }

  lemma ConstantOnChunk<V>(s: seq<Interval<V>>, e: seq<Time>, k: nat)
    requires StrictlyIncreasing(e) && k + 1 < |e|
    requires forall p :: p in Endpoints(s) && e[0] <= p <= e[|e| - 1] ==> p in e
    ensures forall t :: e[k] <= t < e[k + 1] ==> At(s, t) == At(s, e[k])
  {
    ChunkIsElementary(s, e, k);
    forall t | e[k] <= t < e[k + 1] ensures At(s, t) == At(s, e[k]) {
      ConstantOnElementary(s, e[k], e[k + 1], t);
    }
  }

  // A list has no value before its first or from its last endpoint on.
  lemma NothingOutsideHull<V>(s: seq<Interval<V>>, e: seq<Time>, t: Time)
    requires StrictlyIncreasing(e) && forall p :: p in Endpoints(s) ==> p in e
    requires e == [] || t < e[0] || e[|e| - 1] <= t
    ensures At(s, t) == None
  {
    AtWitness(s, t);
    forall i | 0 <= i < |s| ensures !Covers(s[i], t) {
      assert s[i].start in Endpoints(s) && s[i].end in Endpoints(s);
      var m :| 0 <= m < |e| && e[m] == s[i].start;
      var n :| 0 <= n < |e| && e[n] == s[i].end;
    }
  }

  // Every instant inside the hull lies in exactly one chunk.
  lemma {:induction false} ChunkOf(e: seq<Time>, t: Time) returns (k: nat)
    requires StrictlyIncreasing(e) && e != [] && e[0] <= t < e[|e| - 1]
    ensures k + 1 < |e| && e[k] <= t < e[k + 1]
  {
    k := 0;
    while !(t < e[k + 1])
      invariant k + 1 < |e| && e[k] <= t
      decreases |e| - k
    {
      k := k + 1;
    }
  }

  ghost predicate InHull(e: seq<Time>, t: Time) {
    e != [] && e[0] <= t < e[|e| - 1]
  }

  // The chunk of e that t lies in.
  ghost function ChunkIndex(e: seq<Time>, t: Time): (k: nat)
    requires StrictlyIncreasing(e) && InHull(e, t)
    ensures k < |e| - 1 && e[k] <= t < e[k + 1]
    decreases |e|
  {
    if t < e[1] then 0 else
      assert StrictlyIncreasing(e[1..]);
      1 + ChunkIndex(e[1..], t)
  }

  lemma ChunkIndexUnique(e: seq<Time>, t: Time, k: nat)
    requires StrictlyIncreasing(e) && k < |e| - 1 && e[k] <= t < e[k + 1]
    ensures InHull(e, t) && ChunkIndex(e, t) == k
  {
    assert e[0] <= e[k] && e[k + 1] <= e[|e| - 1];
    assert forall j :: 0 < j <= k ==> e[j] <= e[k];
    assert forall j :: k < j < |e| ==> e[k + 1] <= e[j];
  }

  // The sorted points that lie in [start, end], both ends included.
  function EndpointsWithin(points: set<Time>, start: Time, end: Time): (e: seq<Time>)
    requires start < end
    ensures StrictlyIncreasing(e) && |e| >= 2
    ensures e[0] == start && e[|e| - 1] == end
    ensures forall p :: p in e <==> start <= p <= end && (p in points || p == start || p == end)
  {
    var e := SortedSeq(set p | p in points + {start, end} && start <= p <= end);
    assert start in e && end in e;
    SortedEnds(e, start, end);
    e
  }

  lemma SortedEnds(e: seq<Time>, a: Time, b: Time)
    requires StrictlyIncreasing(e) && a in e && b in e
    requires forall p :: p in e ==> a <= p <= b
    ensures e[0] == a && e[|e| - 1] == b
  {
    assert e[0] in e && e[|e| - 1] in e;
  }

  // The value of s does not change in [a, b).
  ghost predicate Steady<V>(s: seq<Interval<V>>, a: Time, b: Time) {
    forall t :: a <= t < b ==> At(s, t) == At(s, a)
  }

  ghost predicate SteadyAt<V>(s: seq<Interval<V>>, e: seq<Time>, k: nat)
    requires k < |e| - 1
  {
    e[k] < e[k + 1] && Steady(s, e[k], e[k + 1])
  }

  ghost predicate SteadyChunk<V>(s: seq<Interval<V>>, e: seq<Time>, k: nat, start: Time, end: Time)
    requires k < |e| - 1
  {
    start <= e[k] < e[k + 1] <= end && Steady(s, e[k], e[k + 1])
  }

  // e cuts time so that s changes only at members of e and is silent outside the hull of e.
  ghost predicate Cuts<V>(e: seq<Time>, s: seq<Interval<V>>) {
    && StrictlyIncreasing(e)
    && (forall k :: 0 <= k < |e| - 1 ==> SteadyAt(s, e, k))
    && forall t :: !InHull(e, t) ==> At(s, t) == None
  }

  lemma HasEndpointsCuts<V>(e: seq<Time>, s: seq<Interval<V>>)
    requires StrictlyIncreasing(e) && forall p :: p in Endpoints(s) ==> p in e
    ensures Cuts(e, s)
  {
    forall k | 0 <= k < |e| - 1 ensures SteadyAt(s, e, k) {
      ConstantOnChunk(s, e, k);
    }
    forall t | !InHull(e, t) ensures At(s, t) == None {
      NothingOutsideHull(s, e, t);
    }
  }

  // The sorted endpoints of two timelines.
  method MergedCuts<V, W>(s: seq<Interval<V>>, r: seq<Interval<W>>) returns (e: seq<Time>)
    ensures Cuts(e, s) && Cuts(e, r)
  {
    e := SortedSeq(Endpoints(s) + Endpoints(r));
    HasEndpointsCuts(e, s);
    HasEndpointsCuts(e, r);
  }

  // [start, end) cut at the endpoints of s.
  method ChunksWithin<V>(s: seq<Interval<V>>, start: Time, end: Time) returns (e: seq<Time>)
    requires start < end
    ensures |e| >= 2 && e[0] == start && e[|e| - 1] == end
    ensures forall k :: 0 <= k < |e| - 1 ==> SteadyChunk(s, e, k, start, end)
  {
    e := EndpointsWithin(Endpoints(s), start, end);
    forall k | 0 <= k < |e| - 1 ensures SteadyChunk(s, e, k, start, end) {
      assert e[k] in e && e[k + 1] in e;
      ConstantOnChunk(s, e, k);
    }
  }

  // ----- building a timeline chunk by chunk

  // acc is an ordered list, ends at b at the latest, and has the values f gives below b.
  ghost predicate RealisedBelow<V(!new)>(acc: seq<Interval<V>>, f: Time -> Option<V>, b: Time) {
    && Ordered(acc)
    && (forall i :: 0 <= i < |acc| ==> acc[i].end <= b)
    && forall t :: t < b ==> At(acc, t) == f(t)
  }

  lemma ExtendSome<V(!new)>(acc: seq<Interval<V>>, f: Time -> Option<V>, a: Time, b: Time, v: V)
    requires RealisedBelow(acc, f, a) && a < b
    requires forall t :: a <= t < b ==> f(t) == Some(v)
    ensures RealisedBelow(acc + [Interval(a, b, v)], f, b)
  {
    forall t | t < b ensures At(acc + [Interval(a, b, v)], t) == f(t) {
      AtConcat(acc, [Interval(a, b, v)], t);
      AtWitness(acc, t);
    }
  }

  lemma ExtendNone<V(!new)>(acc: seq<Interval<V>>, f: Time -> Option<V>, a: Time, b: Time)
    requires RealisedBelow(acc, f, a) && a <= b
    requires forall t :: a <= t < b ==> f(t) == None
    ensures RealisedBelow(acc, f, b)
  {
    forall t | t < b ensures At(acc, t) == f(t) {
      AtWitness(acc, t);
    }
  }

  // pieces lie in [a, b) and have the values of f there.
  ghost predicate RealisedOn<V(!new)>(pieces: seq<Interval<V>>, f: Time -> Option<V>, a: Time, b: Time) {
    && Ordered(pieces)
    && (forall i :: 0 <= i < |pieces| ==> a <= pieces[i].start && pieces[i].end <= b)
    && forall t :: a <= t < b ==> At(pieces, t) == f(t)
  }

  lemma ExtendPieces<V(!new)>(p: seq<Interval<V>>, q: seq<Interval<V>>, f: Time -> Option<V>, a: Time, b: Time, c: Time)
    requires a <= b <= c && RealisedOn(p, f, a, b) && RealisedOn(q, f, b, c)
    ensures RealisedOn(p + q, f, a, c)
  {
    forall t | a <= t < c ensures At(p + q, t) == f(t) {
      AtConcat(p, q, t);
      AtWitness(p, t);
      AtWitness(q, t);
    }
  }

  lemma OnePiece<V(!new)>(f: Time -> Option<V>, a: Time, b: Time, v: V)
    requires a < b && forall t :: a <= t < b ==> f(t) == Some(v)
    ensures RealisedOn([Interval(a, b, v)], f, a, b)
  {
    forall t | a <= t < b ensures At([Interval(a, b, v)], t) == f(t) {
      AtSingle(Interval(a, b, v), t);
    }
  }

  lemma ExtendMany<V(!new)>(acc: seq<Interval<V>>, q: seq<Interval<V>>, f: Time -> Option<V>, a: Time, b: Time)
    requires a <= b && RealisedBelow(acc, f, a) && RealisedOn(q, f, a, b)
    ensures RealisedBelow(acc + q, f, b)
  {
    forall t | t < b ensures At(acc + q, t) == f(t) {
      AtConcat(acc, q, t);
      AtWitness(acc, t);
      AtWitness(q, t);
    }
  }

  // An ordered list with a value at every instant of [a, b), and nothing outside, runs from
  // a to b without a hole.
  lemma GapFree<V>(s: seq<Interval<V>>, a: Time, b: Time)
    requires Ordered(s) && a < b
    requires forall i :: 0 <= i < |s| ==> a <= s[i].start && s[i].end <= b
    requires forall t :: a <= t < b ==> At(s, t).Some?
    ensures s != [] && s[0].start == a && s[|s| - 1].end == b
    ensures !HasHoles(s)
  {
    var first := CoveredBy(s, a);
    assert forall l :: 0 < l < |s| ==> s[0].end <= s[l].start;
    var last := CoveredBy(s, b - 1);
    assert forall l :: 0 <= l < |s| - 1 ==> s[l].end <= s[|s| - 1].start;
    forall i | 0 <= i < |s| - 1 ensures s[i].end == s[i + 1].start {
      assert s[i].end <= s[i + 1].start < b;
      var j := CoveredBy(s, s[i].end);
      assert forall l :: 0 <= l <= i ==> s[l].end <= s[i].end;
      assert forall l :: i + 1 <= l < |s| ==> s[i + 1].start <= s[l].start;
    }
  }

  lemma CoveredBy<V>(s: seq<Interval<V>>, t: Time) returns (i: nat)
    requires At(s, t).Some?
    ensures i < |s| && Covers(s[i], t)
  {
    AtWitness(s, t);
    i :| 0 <= i < |s| && Covers(s[i], t);
  }

  // acc has exactly the values of f, at every instant.
  ghost predicate Realises<V(!new)>(acc: seq<Interval<V>>, f: Time -> Option<V>) {
    Ordered(acc) && forall t :: At(acc, t) == f(t)
  }

  lemma RealisedEverywhere<V(!new)>(acc: seq<Interval<V>>, f: Time -> Option<V>, b: Time)
    requires RealisedBelow(acc, f, b)
    requires forall t :: b <= t ==> f(t) == None
    ensures Realises(acc, f)
  {
    forall t ensures At(acc, t) == f(t) {
      AtWitness(acc, t);
    }
  }

  // ----- combine_intervals

  // Neighbours are put in different groups when there is a gap between them or their
  // values differ.
  predicate SplitBetween<V(==)>(i1: Interval<V>, i2: Interval<V>) {
    i1.end < i2.start || i1.value != i2.value
  }

  // Each group of neighbours becomes its first interval, ending where its last one ends.
  function CombineIntervals<V(==)>(s: seq<Interval<V>>): (r: seq<Interval<V>>)
    ensures s != [] ==> r != [] && r[0].start == s[0].start && r[0].value == s[0].value
    ensures s == [] ==> r == []
  {
    if s == [] then []
    else
      var rest := CombineIntervals(s[1..]);
      if |s| == 1 || SplitBetween(s[0], s[1]) then [s[0]] + rest
      else [s[0].(end := rest[0].end)] + rest[1..]
  }

  // A canonical list is one group per interval, so combining changes nothing.
  lemma {:induction false} CombineKeepsCanonical<V>(s: seq<Interval<V>>)
    requires Canonical(s)
    ensures CombineIntervals(s) == s
  {
    if |s| <= 1 {
    } else {
      assert s[1..][0] == s[1];
      assert s[0].end <= s[1].start;
      CombineKeepsCanonical(s[1..]);
    }
  }

  // Merging a first interval with a list that continues it at the same value.
  lemma MergeFront<V>(first: Interval<V>, rest: seq<Interval<V>>)
    requires Canonical(rest) && rest != []
    requires first.start < first.end == rest[0].start && first.value == rest[0].value
    ensures Canonical([first.(end := rest[0].end)] + rest[1..])
  {
    var r := [first.(end := rest[0].end)] + rest[1..];
    assert forall i :: 1 <= i < |r| ==> r[i] == rest[i];
  }

  lemma MergeFrontAt<V>(first: Interval<V>, rest: seq<Interval<V>>, t: Time)
    requires Canonical(rest) && rest != []
    requires first.start < first.end == rest[0].start && first.value == rest[0].value
    ensures At([first.(end := rest[0].end)] + rest[1..], t) == At([first] + rest, t)
  {
    assert ([first.(end := rest[0].end)] + rest[1..])[1..] == rest[1..];
    assert ([first] + rest)[1..] == rest;
    BeforeTail(rest, t);
  }

  // On ordered input, combining yields a canonical list with the same value everywhere.
  lemma {:induction false} CombineCanonical<V>(s: seq<Interval<V>>)
    requires Ordered(s)
    ensures Canonical(CombineIntervals(s))
    ensures s != [] ==> s[0].end <= CombineIntervals(s)[0].end
    ensures SameValues(CombineIntervals(s), s)
  {
    if |s| > 1 {
      var rest := CombineIntervals(s[1..]);
      assert s[1..][0] == s[1];
      assert s[0].end <= s[1].start;
      CombineCanonical(s[1..]);
      forall t ensures At(CombineIntervals(s), t) == At(s, t) {
        assert At([s[0]] + rest, t) == At(s, t) by {
          assert ([s[0]] + rest)[1..] == rest;
        }
        if !SplitBetween(s[0], s[1]) {
          MergeFrontAt(s[0], rest, t);
        }
      }
      if SplitBetween(s[0], s[1]) {
        assert forall i :: 1 <= i < |CombineIntervals(s)| ==> CombineIntervals(s)[i] == rest[i - 1];
        assert forall i :: 0 <= i < |rest| ==> rest[0].start <= rest[i].start;
      } else {
        MergeFront(s[0], rest);
      }
    } else if |s| == 1 {
      assert CombineIntervals(s) == s;
    }
  }

  lemma {:induction false} CombineEndpoints<V>(s: seq<Interval<V>>)
    requires Ordered(s)
    ensures Endpoints(CombineIntervals(s)) <= Endpoints(s)
  {
    if s == [] {
    } else {
      var rest := CombineIntervals(s[1..]);
      CombineEndpoints(s[1..]);
      EndpointsTail(s);
      EndpointsTail(CombineIntervals(s));
      if |s| > 1 && !SplitBetween(s[0], s[1]) {
        EndpointsTail(rest);
        assert CombineIntervals(s)[1..] == rest[1..];
      } else {
        assert CombineIntervals(s)[1..] == rest;
      }
    }
  }

  lemma EndpointsTail<V>(s: seq<Interval<V>>)
    requires s != []
    ensures Endpoints(s) == {s[0].start, s[0].end} + Endpoints(s[1..])
  {
    forall p | p in Endpoints(s) ensures p in {s[0].start, s[0].end} + Endpoints(s[1..]) {
      var i :| 0 <= i < |s| && (p == s[i].start || p == s[i].end);
      if i > 0 { assert s[1..][i - 1] == s[i]; }
    }
    forall p | p in Endpoints(s[1..]) ensures p in Endpoints(s) {
      var i :| 0 <= i < |s[1..]| && (p == s[1..][i].start || p == s[1..][i].end);
      assert s[i + 1] == s[1..][i];
    }
  }

  // Canonical lists are a normal form: the values determine the list.
  lemma {:induction false} CanonicalUnique<V>(a: seq<Interval<V>>, b: seq<Interval<V>>)
    requires Canonical(a) && Canonical(b)
    requires SameValues(a, b)
    ensures a == b
    decreases |a| + |b|
  {
    if a != [] && b != [] {
      FirstStart(a, b);
      FirstStart(b, a);
      FirstEnd(a, b);
      FirstEnd(b, a);
      assert a[0] == b[0];
      forall t ensures At(a[1..], t) == At(b[1..], t) {
        BeforeTail(a, t);
        BeforeTail(b, t);
      }
      CanonicalUnique(a[1..], b[1..]);
    } else {
      assert a != [] ==> At(a, a[0].start).Some?;
      assert b != [] ==> At(b, b[0].start).Some?;
    }
  }

  lemma FirstStart<V>(a: seq<Interval<V>>, b: seq<Interval<V>>)
    requires Canonical(a) && Canonical(b) && a != [] && b != []
    requires SameValues(a, b)
    ensures a[0].start >= b[0].start
  {
    var t := a[0].start;
    assert At(a, t) == At(b, t);
    AtWitness(b, t);
  }

  lemma FirstEnd<V>(a: seq<Interval<V>>, b: seq<Interval<V>>)
    requires Canonical(a) && Canonical(b) && a != [] && b != []
    requires a[0].start == b[0].start
    requires SameValues(a, b)
    ensures a[0].value == b[0].value && a[0].end >= b[0].end
  {
    assert At(a, a[0].start) == At(b, a[0].start);
    var t := a[0].end;
    if t < b[0].end {
      assert At(a, t) == At(b, t) == Some(b[0].value);
      TouchingSecond(a);
    }
  }

  // If a value exists where the first interval ends, it is the second interval's.
  lemma TouchingSecond<V>(a: seq<Interval<V>>)
    requires Canonical(a) && a != []
    ensures At(a, a[0].end) != Some(a[0].value)
  {
    var t := a[0].end;
    AtWitness(a, t);
    assert forall i :: 1 < i < |a| ==> a[1].start < a[1].end <= a[i].start;
    assert forall i :: 0 <= i < |a| && Covers(a[i], t) ==> i == 1;
  }

  lemma BeforeTail<V>(a: seq<Interval<V>>, t: Time)
    requires Ordered(a) && a != []
    ensures At(a[1..], t) == if t < a[0].end then None else At(a, t)
  {
    AtWitness(a[1..], t);
    forall i | 0 <= i < |a[1..]| ensures a[0].end <= a[1..][i].start {
      assert a[1..][i] == a[i + 1];
    }
  }

  // Combining yields a list every validator accepts, and combining again changes nothing.
  lemma CombineIsNormal<V>(a: seq<Interval<V>>)
    requires Ordered(a)
    ensures PassesValidators(CombineIntervals(a))
    ensures CombineIntervals(CombineIntervals(a)) == CombineIntervals(a)
  {
    var c := CombineIntervals(a);
    CombineCanonical(a);
    CanonicalIffValid(c);
    CombineKeepsCanonical(c);
  }

  // Two ordered lists combine to the same timeline exactly when they agree at every instant.
  lemma CombineDecidesEquality<V>(a: seq<Interval<V>>, b: seq<Interval<V>>)
    requires Ordered(a) && Ordered(b)
    ensures CombineIntervals(a) == CombineIntervals(b) <==> SameValues(a, b)
  {
    var c, d := CombineIntervals(a), CombineIntervals(b);
    CombineCanonical(a);
    CombineCanonical(b);
    if c == d {
      forall t ensures At(a, t) == At(b, t) {
        assert At(c, t) == At(a, t);
        assert At(d, t) == At(b, t);
      }
    } else if SameValues(a, b) {
      CanonicalUnique(c, d);
    }
  }

  // Combining what was built chunk by chunk gives the canonical timeline of f.
  lemma CombineRealises<V(!new)>(acc: seq<Interval<V>>, f: Time -> Option<V>)
    requires Realises(acc, f)
    ensures Canonical(CombineIntervals(acc))
    ensures forall t :: At(CombineIntervals(acc), t) == f(t)
  {
    CombineCanonical(acc);
    forall t ensures At(CombineIntervals(acc), t) == f(t) {
      assert At(CombineIntervals(acc), t) == At(acc, t);
    }
  }

  // ----- the timeline of one field

  // Each interval with one field of its value.
  function MapValues<R, V>(s: seq<Interval<R>>, field: R -> V): (r: seq<Interval<V>>)
    ensures |r| == |s|
    ensures forall i :: 0 <= i < |r| ==> r[i] == Interval(s[i].start, s[i].end, field(s[i].value))
  {
    if s == [] then []
    else [Interval(s[0].start, s[0].end, field(s[0].value))] + MapValues(s[1..], field)
  }

  lemma {:induction false} MapValuesAt<R, V>(s: seq<Interval<R>>, field: R -> V, t: Time)
    ensures At(MapValues(s, field), t) == if At(s, t).Some? then Some(field(At(s, t).value)) else None
  {
    if s == [] {
    } else {
      MapValuesAt(s[1..], field, t);
    }
  }

  function Field<R, V(==)>(s: seq<Interval<R>>, field: R -> V): seq<Interval<V>> {
    CombineIntervals(MapValues(s, field))
  }

  lemma FieldAt<R, V>(s: seq<Interval<R>>, field: R -> V)
    requires Ordered(s)
    ensures Canonical(Field(s, field))
    ensures forall t :: At(Field(s, field), t) == if At(s, t).Some? then Some(field(At(s, t).value)) else None
  {
    CombineCanonical(MapValues(s, field));
    forall t ensures At(Field(s, field), t) == if At(s, t).Some? then Some(field(At(s, t).value)) else None {
      MapValuesAt(s, field, t);
    }
  }
}
