// Values shared by every part of the model.
module Common {

  datatype Option<+T> = None | Some(value: T)

  lemma OptionalBool(o: Option<bool>)
    ensures o == None || o == Some(true) || o == Some(false)
  {
    if o.Some? {
      assert o.value == true || o.value == false;
    }
  }

  // Identifiers of units, persons and managers. The source only compares them for
  // equality and, in two places, sorts them; natural numbers offer both.
  type Uuid = nat

  // A point in time, counted in whole days.
  type Time = int

  // The latest representable point in time; an interval ending here never ends.
  const POSITIVE_INFINITY: Time := 3_652_060

  function Max(a: int, b: int): int { if a < b then b else a }

  function Min(a: int, b: int): int { if b < a then b else a }

  // The elements of xs that satisfy p, in their original order.
  function Filter<T>(xs: seq<T>, p: T -> bool): seq<T> {
    if xs == [] then []
    else if p(xs[0]) then [xs[0]] + Filter(xs[1..], p)
    else Filter(xs[1..], p)
  }

  lemma {:induction false} FilterMembers<T(!new)>(xs: seq<T>, p: T -> bool)
    ensures forall x :: x in Filter(xs, p) <==> x in xs && p(x)
  {
    if xs == [] {
    } else {
      FilterMembers(xs[1..], p);
      assert forall x :: x in xs <==> x == xs[0] || x in xs[1..];
    }
  }

  ghost predicate Distinct<T>(xs: seq<T>) {
    forall i, j :: 0 <= i < j < |xs| ==> xs[i] != xs[j]
  }

  ghost predicate StrictlyIncreasing(e: seq<int>) {
    forall i, j :: 0 <= i < j < |e| ==> e[i] < e[j]
  }

  ghost function Pick<T>(s: set<T>): (x: T)
    requires s != {}
    ensures x in s
  {
    var x :| x in s; x
  }

  // A non-empty finite set of integers has a least element.
  lemma {:induction false} LeastExists(s: set<int>)
    requires s != {}
    ensures exists m :: m in s && forall x :: x in s ==> m <= x
  {
    var y := Pick(s);
    var smaller := set x | x in s && x < y;
    if smaller != {} {
      assert y !in smaller && smaller <= s;
      LeastExists(smaller);
      var m :| m in smaller && forall x :: x in smaller ==> m <= x;
      assert forall x :: x in s ==> x in smaller || y <= x;
      assert m in s && forall x :: x in s ==> m <= x;
    } else {
      assert forall x :: x in s ==> x in smaller || y <= x;
      assert y in s && forall x :: x in s ==> y <= x;
    }
  }

  function Least(s: set<int>): (m: int)
    requires s != {}
    ensures m in s && forall x :: x in s ==> m <= x
  {
    LeastExists(s);
    var m :| m in s && forall x :: x in s ==> m <= x;
    m
  }

  // sorted(s) for a set s of integers.
  function SortedSeq(s: set<int>): (r: seq<int>)
    ensures StrictlyIncreasing(r)
    ensures forall x :: x in r <==> x in s
    decreases |s|
  {
    if s == {} then []
    else
      var m := Least(s);
      [m] + SortedSeq(s - {m})
  }

  lemma FirstMember(e: seq<int>)
    ensures e != [] ==> e[0] in e
  {
  }

  // There is only one increasing list of the same members.
  lemma {:induction false} IncreasingUnique(a: seq<int>, b: seq<int>)
    requires StrictlyIncreasing(a) && StrictlyIncreasing(b) && forall p :: p in a <==> p in b
    ensures a == b
  {
    FirstMember(a);
    FirstMember(b);
    if a == [] || b == [] {
    } else {
      assert a[0] in b && b[0] in a;
      assert a[0] == b[0];
      assert forall p :: p in a <==> p == a[0] || p in a[1..];
      assert forall p :: p in b <==> p == b[0] || p in b[1..];
      assert forall i :: 0 <= i < |a| - 1 ==> a[1..][i] == a[i + 1];
      assert forall i :: 0 <= i < |b| - 1 ==> b[1..][i] == b[i + 1];
      IncreasingUnique(a[1..], b[1..]);
    }
  }
}
