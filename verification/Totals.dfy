/** Sums over a family of participants, one weight each. */
module Totals {

  function Total<T>(w: T -> nat, ts: seq<T>): nat
  {
    if ts == [] then 0 else w(ts[0]) + Total(w, ts[1..])
  }

  /** One participant moves: the sum changes by what that participant changes. */
  lemma {:induction false} TotalUpdate<T>(w: T -> nat, ts: seq<T>, i: nat, t: T)
    requires i < |ts|
    ensures Total(w, ts[i := t]) + w(ts[i]) == Total(w, ts) + w(t)
    decreases i
  {
    if i > 0 {
      assert ts[i := t][1..] == ts[1..][i - 1 := t];
      TotalUpdate(w, ts[1..], i - 1, t);
    } else {
      assert ts[i := t][1..] == ts[1..];
    }
  }

  lemma {:induction false} TotalAtLeast<T>(w: T -> nat, ts: seq<T>, i: nat)
    requires i < |ts|
    ensures w(ts[i]) <= Total(w, ts)
  {
    if i > 0 { TotalAtLeast(w, ts[1..], i - 1); }
  }

  lemma {:induction false} TotalAtLeastTwo<T>(w: T -> nat, ts: seq<T>, i: nat, j: nat)
    requires i < j < |ts|
    ensures w(ts[i]) + w(ts[j]) <= Total(w, ts)
  {
    if i > 0 { TotalAtLeastTwo(w, ts[1..], i - 1, j - 1); } else { TotalAtLeast(w, ts[1..], j - 1); }
  }

  /** A positive sum has a participant behind it. */
  lemma {:induction false} TotalPositive<T>(w: T -> nat, ts: seq<T>) returns (i: nat)
    requires Total(w, ts) > 0
    ensures i < |ts| && w(ts[i]) > 0
  {
    if w(ts[0]) > 0 {
      i := 0;
    } else {
      i := TotalPositive(w, ts[1..]);
      i := i + 1;
    }
  }

  lemma {:induction false} TotalBounded<T>(w: T -> nat, ts: seq<T>, most: nat)
    requires forall t :: w(t) <= most
    ensures Total(w, ts) <= most * |ts|
  {
    if ts != [] {
      TotalBounded(w, ts[1..], most);
      assert most * |ts| == most * |ts[1..]| + most;
    }
  }

  lemma {:induction false} TotalZero<T>(w: T -> nat, ts: seq<T>)
    requires forall i :: 0 <= i < |ts| ==> w(ts[i]) == 0
    ensures Total(w, ts) == 0
  {
    if ts != [] { TotalZero(w, ts[1..]); }
  }

  lemma {:induction false} TotalMonotone<T>(v: T -> nat, w: T -> nat, ts: seq<T>)
    requires forall t :: v(t) <= w(t)
    ensures Total(v, ts) <= Total(w, ts)
  {
    if ts != [] { TotalMonotone(v, w, ts[1..]); }
  }

  /** Two weights that always add up to two others. */
  lemma {:induction false} TotalSplit<T>(a: T -> nat, b: T -> nat, c: T -> nat, d: T -> nat, ts: seq<T>)
    requires forall t :: a(t) + b(t) == c(t) + d(t)
    ensures Total(a, ts) + Total(b, ts) == Total(c, ts) + Total(d, ts)
  {
    if ts != [] { TotalSplit(a, b, c, d, ts[1..]); }
  }
}
