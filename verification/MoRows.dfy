// What writing to and removing from a range of days does to a list of dated rows.
module MoRows {
  import opened Common
  import opened Timelines
  import opened MoDates

  // The part of s before a, and the part of s from b on.
  function Before<V>(s: seq<Interval<V>>, a: Time): seq<Interval<V>> {
    if s == [] then []
    else if s[0].start < a then [s[0].(end := Min(s[0].end, a))] + Before(s[1..], a)
    else Before(s[1..], a)
  }

  function After<V>(s: seq<Interval<V>>, b: Time): seq<Interval<V>> {
    if s == [] then []
    else if b < s[0].end then [s[0].(start := Max(s[0].start, b))] + After(s[1..], b)
    else After(s[1..], b)
  }

  function Clip<V>(s: seq<Interval<V>>, a: Time, b: Time): seq<Interval<V>> {
    Before(s, a) + After(s, b)
  }

  function Overwrite<V>(s: seq<Interval<V>>, a: Time, b: Time, v: V): seq<Interval<V>> {
    Before(s, a) + [Interval(a, b, v)] + After(s, b)
  }

  // Rows as MO keeps them: ordered, and none ends after the end of time.
  ghost predicate WellFormed<V>(s: seq<Interval<V>>) {
    Ordered(s) && forall i :: 0 <= i < |s| ==> s[i].end <= POSITIVE_INFINITY
  }

  lemma {:induction false} BeforeProperties<V>(s: seq<Interval<V>>, a: Time)
    requires WellFormed(s)
    ensures WellFormed(Before(s, a))
    ensures forall i :: 0 <= i < |Before(s, a)| ==> Before(s, a)[i].end <= a
    ensures forall i :: 0 <= i < |Before(s, a)| ==> s != [] && s[0].start <= Before(s, a)[i].start
    ensures forall t :: At(Before(s, a), t) == if t < a then At(s, t) else None
  {
    if s == [] {
    } else {
      BeforeProperties(s[1..], a);
      if s[0].start < a {
        var r := [s[0].(end := Min(s[0].end, a))] + Before(s[1..], a);
        assert r[1..] == Before(s[1..], a);
      } else {
        forall t ensures At(Before(s, a), t) == if t < a then At(s, t) else None {
          assert t < a ==> !Covers(s[0], t);
        }
      }
    }
  }

  lemma {:induction false} AfterProperties<V>(s: seq<Interval<V>>, b: Time)
    requires WellFormed(s)
    ensures WellFormed(After(s, b))
    ensures forall i :: 0 <= i < |After(s, b)| ==> b <= After(s, b)[i].start
    ensures forall i :: 0 <= i < |After(s, b)| ==> s != [] && s[0].start <= After(s, b)[i].start
    ensures forall t :: At(After(s, b), t) == if b <= t then At(s, t) else None
  {
    if s == [] {
    } else {
      AfterProperties(s[1..], b);
      if b < s[0].end {
        var r := [s[0].(start := Max(s[0].start, b))] + After(s[1..], b);
        assert r[1..] == After(s[1..], b);
      }
    }
  }

  // Two well-formed lists, the first ending before the second starts.
  lemma JoinProperties<V>(p: seq<Interval<V>>, q: seq<Interval<V>>, c: Time)
    requires WellFormed(p) && WellFormed(q)
    requires forall i :: 0 <= i < |p| ==> p[i].end <= c
    requires forall i :: 0 <= i < |q| ==> c <= q[i].start
    ensures WellFormed(p + q)
    ensures forall t :: At(p + q, t) == if t < c then At(p, t) else At(q, t)
  {
    forall t ensures At(p + q, t) == if t < c then At(p, t) else At(q, t) {
      AtConcat(p, q, t);
      AtWitness(p, t);
      AtWitness(q, t);
    }
  }

  // Removing a range empties exactly that range.
  lemma ClipProperties<V>(s: seq<Interval<V>>, a: Time, b: Time)
    requires WellFormed(s) && a <= b
    ensures WellFormed(Clip(s, a, b))
    ensures forall t :: At(Clip(s, a, b), t) == if a <= t < b then None else At(s, t)
  {
    BeforeProperties(s, a);
    AfterProperties(s, b);
    JoinProperties(Before(s, a), After(s, b), b);
  }

  // Writing a range gives every instant of it the new data and touches no other instant.
  lemma OverwriteProperties<V>(s: seq<Interval<V>>, a: Time, b: Time, v: V)
    requires WellFormed(s) && a < b <= POSITIVE_INFINITY
    ensures WellFormed(Overwrite(s, a, b, v))
    ensures forall t :: At(Overwrite(s, a, b, v), t) == if a <= t < b then Some(v) else At(s, t)
  {
    BeforeProperties(s, a);
    AfterProperties(s, b);
    var new_ := [Interval(a, b, v)];
    JoinProperties(Before(s, a), new_, a);
    JoinProperties(Before(s, a) + new_, After(s, b), b);
  }

  // ----- what a write leaves alone

  // The rows from c on are the same in both lists, row by row.
  ghost predicate SameFrom<V>(r: seq<Interval<V>>, s: seq<Interval<V>>, c: Time) {
    After(r, c) == After(s, c)
  }

  lemma {:induction false} AfterOfConcat<V>(p: seq<Interval<V>>, q: seq<Interval<V>>, c: Time)
    ensures After(p + q, c) == After(p, c) + After(q, c)
  {
    if p == [] {
      assert p + q == q;
    } else {
      assert (p + q)[1..] == p[1..] + q;
      AfterOfConcat(p[1..], q, c);
    }
  }

  lemma {:induction false} AfterOfAfter<V>(s: seq<Interval<V>>, b: Time, c: Time)
    requires b <= c
    ensures After(After(s, b), c) == After(s, c)
  {
    if s == [] {
    } else {
      AfterOfAfter(s[1..], b, c);
      if b < s[0].end {
        assert After(s, b)[1..] == After(s[1..], b);
      }
    }
  }

  lemma {:induction false} AfterOfBefore<V>(s: seq<Interval<V>>, a: Time, c: Time)
    requires a <= c
    ensures After(Before(s, a), c) == []
  {
    if s == [] {
    } else {
      AfterOfBefore(s[1..], a, c);
      if s[0].start < a {
        assert Before(s, a)[1..] == Before(s[1..], a);
      }
    }
  }

  lemma {:induction false} AfterInfinity<V>(s: seq<Interval<V>>)
    requires forall i :: 0 <= i < |s| ==> s[i].end <= POSITIVE_INFINITY
    ensures After(s, POSITIVE_INFINITY) == []
  {
    if s == [] {
    } else {
      AfterInfinity(s[1..]);
    }
  }

  lemma ClipSameFrom<V>(s: seq<Interval<V>>, a: Time, b: Time)
    requires a <= b
    ensures SameFrom(Clip(s, a, b), s, b)
  {
    AfterOfConcat(Before(s, a), After(s, b), b);
    AfterOfBefore(s, a, b);
    AfterOfAfter(s, b, b);
  }

  lemma OverwriteSameFrom<V>(s: seq<Interval<V>>, a: Time, b: Time, v: V)
    requires a < b
    ensures SameFrom(Overwrite(s, a, b, v), s, b)
  {
    var new_ := [Interval(a, b, v)];
    AfterOfConcat(Before(s, a) + new_, After(s, b), b);
    AfterOfConcat(Before(s, a), new_, b);
    AfterOfBefore(s, a, b);
    AfterOfAfter(s, b, b);
    assert new_[1..] == [] && After(new_, b) == [];
  }

  lemma SameFromLater<V>(r: seq<Interval<V>>, s: seq<Interval<V>>, b: Time, c: Time)
    requires SameFrom(r, s, b) && b <= c
    ensures SameFrom(r, s, c)
  {
    AfterOfAfter(r, b, c);
    AfterOfAfter(s, b, c);
  }

  lemma NothingAfterInfinity<V>(s: seq<Interval<V>>, t: Time)
    requires WellFormed(s) && POSITIVE_INFINITY <= t
    ensures At(s, t) == None
  {
    AtWitness(s, t);
  }

  lemma SilentAfterInfinityIsInTime<V>(s: seq<Interval<V>>)
    requires Ordered(s) && forall t :: POSITIVE_INFINITY <= t ==> At(s, t) == None
    ensures InTime(s)
  {
    forall p | p in Endpoints(s) ensures p <= POSITIVE_INFINITY {
      var i :| 0 <= i < |s| && (p == s[i].start || p == s[i].end);
      AtCovered(s, i, s[i].end - 1);
    }
  }

  // ----- reading a timeline back

  // The rows as read: from and to of each go through MO's inclusive form on the way.
  function AsRead<R>(rows: seq<Interval<R>>): seq<Interval<R>> {
    if rows == [] then []
    else
      var moRow := TimelineIntervalToMoValidity(rows[0].start, rows[0].end);
      [Interval(moRow.from, MoEndToTimelineEnd(moRow.to), rows[0].value)] + AsRead(rows[1..])
  }

  lemma {:induction false} ReadUnchanged<R>(rows: seq<Interval<R>>)
    requires WellFormed(rows)
    ensures AsRead(rows) == rows
  {
    if rows == [] {
    } else {
      ReadUnchanged(rows[1..]);
      DayShiftRoundTrip(rows[0].start, rows[0].end);
    }
  }

  // One field of the rows as a timeline.
  function FieldTimeline<R, V(==)>(rows: seq<Interval<R>>, field: R -> V): seq<Interval<V>> {
    Field(AsRead(rows), field)
  }

  lemma FieldTimelineAt<R, V>(rows: seq<Interval<R>>, field: R -> V)
    requires WellFormed(rows)
    ensures Canonical(FieldTimeline(rows, field))
    ensures forall t ::
      At(FieldTimeline(rows, field), t) == if At(rows, t).Some? then Some(field(At(rows, t).value)) else None
  {
    ReadUnchanged(rows);
    FieldAt(rows, field);
  }

  // MO answers a query for [a, b) with the rows that overlap it.
  function Overlapping<R>(rows: seq<Interval<R>>, a: Time, b: Time): (r: seq<Interval<R>>) {
    if rows == [] then []
    else if rows[0].start < b && a < rows[0].end then [rows[0]] + Overlapping(rows[1..], a, b)
    else Overlapping(rows[1..], a, b)
  }

  lemma {:induction false} OverlappingProperties<R>(rows: seq<Interval<R>>, a: Time, b: Time)
    requires WellFormed(rows)
    ensures WellFormed(Overlapping(rows, a, b))
    ensures forall i :: 0 <= i < |Overlapping(rows, a, b)| ==>
              rows != [] && rows[0].start <= Overlapping(rows, a, b)[i].start
              && Overlapping(rows, a, b)[i].start < b && a < Overlapping(rows, a, b)[i].end
    ensures forall t :: a <= t < b ==> At(Overlapping(rows, a, b), t) == At(rows, t)
  {
    if rows == [] {
    } else {
      OverlappingProperties(rows[1..], a, b);
      var rest := Overlapping(rows[1..], a, b);
      if rows[0].start < b && a < rows[0].end {
        assert ([rows[0]] + rest)[1..] == rest;
      }
    }
  }

  // ----- patching the rows found in a chunk, one by one

  // cur differs from before exactly where one of the rows overlaps the chunk: there it holds
  // what update makes of that row.
  ghost predicate Patched<R(!new)>(cur: seq<Interval<R>>, before: seq<Interval<R>>,
                                   rows: seq<Interval<R>>, start: Time, end: Time, update: R -> R)
  {
    forall t ::
      At(cur, t) == if start <= t < end && At(rows, t).Some? then Some(update(At(rows, t).value))
                    else At(before, t)
  }

  lemma PatchOneMore<R(!new)>(cur: seq<Interval<R>>, next: seq<Interval<R>>, before: seq<Interval<R>>,
                              rows: seq<Interval<R>>, i: nat, start: Time, end: Time, update: R -> R)
    requires Ordered(rows) && i < |rows|
    requires Patched(cur, before, rows[..i], start, end, update)
    requires forall t ::
      At(next, t) == if Max(rows[i].start, start) <= t < Min(rows[i].end, end) then Some(update(rows[i].value))
                     else At(cur, t)
    ensures Patched(next, before, rows[..i + 1], start, end, update)
  {
    assert rows[..i + 1] == rows[..i] + [rows[i]];
    forall t ensures At(next, t) == if start <= t < end && At(rows[..i + 1], t).Some?
                                    then Some(update(At(rows[..i + 1], t).value)) else At(before, t)
    {
      AtConcat(rows[..i], [rows[i]], t);
      AtWitness(rows[..i], t);
    }
  }

  // Patching the rows a query for the chunk returned is patching all rows.
  lemma PatchedAll<R(!new)>(cur: seq<Interval<R>>, before: seq<Interval<R>>, start: Time, end: Time, update: R -> R)
    requires WellFormed(before)
    requires Patched(cur, before, Overlapping(before, start, end), start, end, update)
    ensures Patched(cur, before, before, start, end, update)
  {
    OverlappingProperties(before, start, end);
  }
}
