/** Counting: sizes of sets, and weighted sums over sequences that change one element at a time. */
module Tally {

  lemma SubsetSize(a: set<nat>, b: set<nat>)
    requires a <= b
    ensures |a| <= |b|
  {
    if a != {} {
      var x :| x in a;
      SubsetSize(a - {x}, b - {x});
    }
  }

  function Sum<T>(s: seq<T>, w: T -> nat): nat {
    if s == [] then 0 else Sum(s[..|s| - 1], w) + w(s[|s| - 1])
  }

  lemma {:induction false} SumUpdate<T>(s: seq<T>, w: T -> nat, i: nat, x: T)
    requires i < |s|
    ensures Sum(s[i := x], w) + w(s[i]) == Sum(s, w) + w(x)
  {
    var last := |s| - 1;
    if i == last {
      assert s[i := x][..last] == s[..last];
    } else {
      assert s[i := x][..last] == s[..last][i := x];
      SumUpdate(s[..last], w, i, x);
    }
  }

  lemma SumAppend<T>(s: seq<T>, w: T -> nat, x: T)
    ensures Sum(s + [x], w) == Sum(s, w) + w(x)
  {
    assert (s + [x])[..|s|] == s;
  }

  lemma {:induction false} SumAtLeast<T>(s: seq<T>, w: T -> nat, i: nat)
    requires i < |s|
    ensures Sum(s, w) >= w(s[i])
  {
    var last := |s| - 1;
    if i < last { SumAtLeast(s[..last], w, i); }
  }

  lemma {:induction false} SumMonotone<T>(s: seq<T>, v: T -> nat, w: T -> nat)
    requires forall i | 0 <= i < |s| :: v(s[i]) <= w(s[i])
    ensures Sum(s, v) <= Sum(s, w)
  {
    if s != [] { SumMonotone(s[..|s| - 1], v, w); }
  }

  lemma {:induction false} SumZero<T>(s: seq<T>, w: T -> nat)
    requires forall i | 0 <= i < |s| :: w(s[i]) == 0
    ensures Sum(s, w) == 0
  {
    if s != [] { SumZero(s[..|s| - 1], w); }
  }

  lemma {:induction false} SumBound<T>(s: seq<T>, w: T -> nat)
    requires forall i | 0 <= i < |s| :: w(s[i]) <= 1
    ensures Sum(s, w) <= |s|
  {
    if s != [] { SumBound(s[..|s| - 1], w); }
  }

  lemma {:induction false} SumSingle<T>(s: seq<T>, w: T -> nat, i: nat)
    requires i < |s| && forall k | 0 <= k < |s| && k != i :: w(s[k]) == 0
    ensures Sum(s, w) == w(s[i])
  {
    var last := |s| - 1;
    if i < last {
      SumSingle(s[..last], w, i);
    } else {
      SumZero(s[..last], w);
    }
  }

  lemma {:induction false} SumSplit<T>(s: seq<T>, u: T -> nat, v: T -> nat, w: T -> nat)
    requires forall i | 0 <= i < |s| :: u(s[i]) == v(s[i]) + w(s[i])
    ensures Sum(s, u) == Sum(s, v) + Sum(s, w)
  {
    if s != [] { SumSplit(s[..|s| - 1], u, v, w); }
  }
}
