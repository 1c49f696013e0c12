/** Fisher-Yates: from the last position down, swap with a position not above it. */
module Shuffles {
  import opened Common

  function Swap<T>(a: seq<T>, i: nat, j: nat): (r: seq<T>)
    requires i < |a| && j < |a|
    ensures |r| == |a| && r[i] == a[j] && r[j] == a[i] && multiset(r) == multiset(a)
    ensures forall k :: 0 <= k < |a| && k != i && k != j ==> r[k] == a[k]
  {
    a[i := a[j]][j := a[i]]
  }

  /** One choice per position from the last to the second, each in range. */
  predicate InRange(cs: seq<nat>, n: nat) {
    if n <= 1 then cs == [] else cs != [] && cs[0] < n && InRange(cs[1..], n - 1)
  }

  function Shuffle<T>(a: seq<T>, cs: seq<nat>): (r: seq<T>)
    requires InRange(cs, |a|)
    ensures |r| == |a|
    decreases |a|
  {
    if |a| <= 1 then a
    else
      var n := |a| - 1;
      var b := Swap(a, n, cs[0]);
      Shuffle(b[..n], cs[1..]) + [b[n]]
  }

  /** The first choice says what comes last. */
  lemma LastDrawn<T>(a: seq<T>, cs: seq<nat>)
    requires InRange(cs, |a|) && |a| > 1
    ensures Shuffle(a, cs)[|a| - 1] == a[cs[0]]
  {
  }

  /** The result is a rearrangement. */
  lemma {:induction false} ShufflePermutes<T>(a: seq<T>, cs: seq<nat>)
    requires InRange(cs, |a|)
    ensures multiset(Shuffle(a, cs)) == multiset(a)
    decreases |a|
  {
    hide Swap;
    if |a| > 1 {
      var n := |a| - 1;
      var b := Swap(a, n, cs[0]);
      ShufflePermutes(b[..n], cs[1..]);
      assert b == b[..n] + [b[n]];
    }
  }

  lemma SwapNoDup<T>(a: seq<T>, i: nat, j: nat)
    requires i < |a| && j < |a| && NoDup(a)
    ensures NoDup(Swap(a, i, j))
  {
    var b := Swap(a, i, j);
    forall x, y | 0 <= x < y < |b| ensures b[x] != b[y] {
      var x0 := if x == i then j else if x == j then i else x;
      var y0 := if y == i then j else if y == j then i else y;
      assert b[x] == a[x0] && b[y] == a[y0] && x0 != y0;
    }
  }

  /** Different choices give different arrangements. */
  lemma {:induction false} ShuffleInjective<T>(a: seq<T>, cs: seq<nat>, ds: seq<nat>)
    requires InRange(cs, |a|) && InRange(ds, |a|) && NoDup(a)
    requires Shuffle(a, cs) == Shuffle(a, ds)
    ensures cs == ds
    decreases |a|
  {
    hide Swap;
    if |a| > 1 {
      var n := |a| - 1;
      var b, c := Swap(a, n, cs[0]), Swap(a, n, ds[0]);
      assert Shuffle(a, cs)[n] == b[n] == a[cs[0]];
      assert Shuffle(a, ds)[n] == c[n] == a[ds[0]];
      assert cs[0] == ds[0];
      SwapNoDup(a, n, cs[0]);
      assert Shuffle(b[..n], cs[1..]) == Shuffle(a, cs)[..n];
      assert Shuffle(b[..n], ds[1..]) == Shuffle(a, ds)[..n];
      ShuffleInjective(b[..n], cs[1..], ds[1..]);
      assert cs == [cs[0]] + cs[1..] && ds == [ds[0]] + ds[1..];
    }
  }

  lemma SameButLast<T>(b: seq<T>, p: seq<T>)
    requires multiset(b) == multiset(p) && |b| == |p| > 0 && b[|b| - 1] == p[|b| - 1]
    ensures multiset(b[..|b| - 1]) == multiset(p[..|b| - 1])
  {
    var n := |b| - 1;
    assert b == b[..n] + [b[n]] && p == p[..n] + [p[n]];
    assert multiset(b[..n]) == multiset(b) - multiset{b[n]};
    assert multiset(p[..n]) == multiset(p) - multiset{p[n]};
  }

  lemma WhereIs<T>(a: seq<T>, p: seq<T>, k: nat) returns (i: nat)
    requires multiset(p) == multiset(a) && k < |p|
    ensures i < |a| && a[i] == p[k]
  {
    assert p[k] in multiset(a);
    i :| i < |a| && a[i] == p[k];
  }

  lemma SameLength<T>(a: seq<T>, p: seq<T>)
    requires multiset(p) == multiset(a)
    ensures |p| == |a|
  {
    assert |p| == |multiset(p)| && |a| == |multiset(a)|;
  }

  lemma OneArrangement<T>(a: seq<T>, p: seq<T>)
    requires multiset(p) == multiset(a) && |p| == |a| <= 1
    ensures Shuffle(a, []) == p
  {
    if |a| == 1 { var i := WhereIs(a, p, 0); }
  }

  lemma {:induction false} ShuffleCons<T>(a: seq<T>, i: nat, rest: seq<nat>, p: seq<T>)
    requires |a| == |p| > 1 && i < |a| && InRange(rest, |a| - 1)
    requires var n := |a| - 1; Shuffle(Swap(a, n, i)[..n], rest) == p[..n] && a[i] == p[n]
    ensures InRange([i] + rest, |a|) && Shuffle(a, [i] + rest) == p
  {
    hide Swap;
    var n := |a| - 1;
    var cs := [i] + rest;
    assert cs[1..] == rest;
    assert p == p[..n] + [p[n]];
  }

  /** Every arrangement is the result of some choices. */
  lemma {:induction false} ShuffleSurjective<T>(a: seq<T>, p: seq<T>) returns (cs: seq<nat>)
    requires multiset(p) == multiset(a)
    ensures InRange(cs, |a|) && Shuffle(a, cs) == p
    decreases |a|
  {
    hide Shuffle;
    SameLength(a, p);
    if |a| <= 1 {
      OneArrangement(a, p);
      cs := [];
    } else {
      hide Swap;
      var n := |a| - 1;
      var i := WhereIs(a, p, n);
      var b := Swap(a, n, i);
      SameButLast(b, p);
      var rest := ShuffleSurjective(b[..n], p[..n]);
      cs := [i] + rest;
      ShuffleCons(a, i, rest, p);
    }
  }

  /** For distinct elements, an arrangement is a permutation of them exactly when one, and only
      one, sequence of in-range choices produces it. */
  lemma ShuffleExact<T>(a: seq<T>, p: seq<T>)
    requires NoDup(a)
    ensures multiset(p) == multiset(a) <==> exists cs :: InRange(cs, |a|) && Shuffle(a, cs) == p
    ensures forall cs, ds :: InRange(cs, |a|) && InRange(ds, |a|) && Shuffle(a, cs) == p == Shuffle(a, ds) ==> cs == ds
  {
    if multiset(p) == multiset(a) {
      var cs := ShuffleSurjective(a, p);
    }
    forall cs | InRange(cs, |a|) && Shuffle(a, cs) == p ensures multiset(p) == multiset(a) {
      ShufflePermutes(a, cs);
    }
    forall cs, ds | InRange(cs, |a|) && InRange(ds, |a|) && Shuffle(a, cs) == p == Shuffle(a, ds) ensures cs == ds {
      ShuffleInjective(a, cs, ds);
    }
  }
}
