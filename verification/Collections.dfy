/** The kernel's linked lists as sequences without repetition, and subsets of a map's keys
    picked by their values. */
module Collections {

  ghost predicate Distinct<T>(xs: seq<T>)
  {
    forall i, j :: 0 <= i < j < |xs| ==> xs[i] != xs[j]
  }

  /** The list holds the members of the set, each once. */
  ghost predicate Lists<T>(xs: seq<T>, s: set<T>)
  {
    Distinct(xs) && (forall x :: x in xs ==> x in s) && (forall x {:trigger x in xs} :: x in s ==> x in xs)
  }

  /** list_del of the entry x. */
  function Without<T(==)>(xs: seq<T>, x: T): seq<T>
  {
    if xs == [] then []
    else if xs[0] == x then xs[1..]
    else [xs[0]] + Without(xs[1..], x)
  }

  /** The tail of a list lists the set without its first member. */
  lemma TailLists<T>(xs: seq<T>, s: set<T>)
    requires Lists(xs, s) && xs != []
    ensures Lists(xs[1..], s - {xs[0]})
  {
    assert xs == [xs[0]] + xs[1..];
    forall y | y in s - {xs[0]} ensures y in xs[1..] { assert y in xs; }
  }

  lemma {:induction false} WithoutLists<T>(xs: seq<T>, s: set<T>, x: T)
    requires Lists(xs, s) && x in s
    ensures Lists(Without(xs, x), s - {x})
  {
    assert x in xs;
    TailLists(xs, s);
    if xs[0] != x {
      WithoutLists(xs[1..], s - {xs[0]}, x);
      var r := Without(xs[1..], x);
      forall i, j | 0 <= i < j < |r| + 1 ensures ([xs[0]] + r)[i] != ([xs[0]] + r)[j] {
        assert ([xs[0]] + r)[j] == r[j - 1] && r[j - 1] in r;
      }
      forall y | y in s - {x} ensures y in [xs[0]] + r { assert y == xs[0] || y in r; }
    }
  }

  /** The entry is cut out, and the others stay in order. */
  lemma {:induction false} WithoutCuts<T>(xs: seq<T>, x: T) returns (i: nat)
    requires x in xs
    ensures i < |xs| && xs[i] == x && Without(xs, x) == xs[..i] + xs[i + 1..]
  {
    if xs[0] == x {
      i := 0;
    } else {
      i := WithoutCuts(xs[1..], x);
      i := i + 1;
      assert xs[..i] == [xs[0]] + xs[1..][..i - 1];
    }
  }

  lemma AppendLists<T>(xs: seq<T>, s: set<T>, x: T)
    requires Lists(xs, s) && x !in s
    ensures Lists(xs + [x], s + {x}) && Lists([x] + xs, s + {x})
  {
  }

  lemma {:induction false} ListsLength<T>(xs: seq<T>, s: set<T>)
    requires Lists(xs, s)
    ensures |xs| == |s|
  {
    if xs == [] {
      forall x | x in s ensures x in xs { }
      assert s == {};
    } else {
      TailLists(xs, s);
      ListsLength(xs[1..], s - {xs[0]});
    }
  }

  // ---------------------------------------------------------------- picking keys by value

  function Where<K, V>(m: map<K, V>, p: V -> bool): set<K>
  {
    set k | k in m && p(m[k])
  }

  /** How the picked keys change when one entry is set ... */
  lemma WhereSet<K, V>(m: map<K, V>, k: K, v: V, p: V -> bool)
    ensures Where(m[k := v], p) == if p(v) then Where(m, p) + {k} else Where(m, p) - {k}
  {
  }

  /** ... or removed. */
  lemma WhereRemoved<K, V>(m: map<K, V>, k: K, p: V -> bool)
    ensures Where(m - {k}, p) == Where(m, p) - {k}
  {
  }
}
