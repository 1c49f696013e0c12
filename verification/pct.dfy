/** PCT: shuffled initial priorities, change points, and demotion to lower strata. */
module Pct {
  import opened Common
  import Arith
  import opened SchedTypes
  import opened Shuffles

  const S32_MAX: nat := 0x7fff_ffff
  const N: nat := MAX_CYCLE_THREADS

  /** Two's complement reading of a 32-bit word. */
  function ToS32(x: int): int {
    var m := x % U32;
    if m <= S32_MAX then m else m - U32
  }

  /** Unsigned 32-bit arithmetic, then read as signed. */
  function StrataBase(strata: nat): int { ToS32(S32_MAX - (strata + 2) * N) }

  /** The stratum is low enough for its whole band to be positive. */
  predicate StratumFits(strata: nat) { (strata + 2) * N <= S32_MAX }

  /** Band s is the 200 values above its base, and the bands are stacked downwards. */
  lemma BandsStack(s: nat, t: nat)
    requires StratumFits(s) && StratumFits(t)
    ensures StrataBase(s) == S32_MAX - (s + 2) * N >= 0
    ensures s < t ==> StrataBase(t) + N <= StrataBase(s)
  {
  }

  predicate DepthOk(depth: nat) { 1 <= depth <= N + 1 }

  // ----- shuffled initial priorities -----

  /** The priorities before shuffling: base + depth upwards, as 32-bit words. */
  function Ladder(depth: nat, strata: nat): (r: seq<nat>)
    ensures |r| == N
  {
    seq(N, k requires 0 <= k < N => (StrataBase(strata) + depth + k) % U32)
  }

  lemma LadderPlain(depth: nat)
    requires DepthOk(depth)
    ensures forall k :: 0 <= k < N ==> Ladder(depth, 0)[k] == S32_MAX - 2 * N + depth + k <= S32_MAX
    ensures NoDup(Ladder(depth, 0))
  {
    BandsStack(0, 0);
  }

  /** Priority slots of one group, as init leaves them. */
  ghost predicate SlotsOk(depth: nat, slots: seq<nat>) {
    |slots| == N && multiset(slots) == multiset(Ladder(depth, 0))
  }

  lemma {:induction false} MemberOf<T>(a: seq<T>, b: seq<T>, i: nat)
    requires multiset(a) == multiset(b) && i < |a|
    ensures a[i] in b
  {
    assert a[i] in multiset(b);
  }

  lemma {:induction false} NoDupMoves<T>(a: seq<T>, b: seq<T>)
    requires multiset(a) == multiset(b) && NoDup(b)
    ensures NoDup(a)
  {
    forall i, j | 0 <= i < j < |a| ensures a[i] != a[j] {
      if a[i] == a[j] {
        CountTwice(a, i, j);
        var x := a[i];
        assert multiset(b)[x] >= 2;
        CountOnce(b, x);
      }
    }
  }

  lemma {:induction false} CountTwice<T>(a: seq<T>, i: nat, j: nat)
    requires i < j < |a| && a[i] == a[j]
    ensures multiset(a)[a[i]] >= 2
  {
    assert a == a[..j] + a[j..] && a[..j][i] == a[i] && a[j..][0] == a[j];
    assert multiset(a) == multiset(a[..j]) + multiset(a[j..]);
    assert a[i] in a[..j] && a[i] in a[j..];
  }

  lemma {:induction false} CountOnce<T>(b: seq<T>, x: T)
    requires NoDup(b)
    ensures multiset(b)[x] <= 1
  {
    if b != [] {
      var n := |b| - 1;
      assert b == b[..n] + [b[n]];
      CountOnce(b[..n], x);
      if x == b[n] { assert x !in b[..n]; }
    }
  }

  /** All slots differ and lie in [base + depth, base + depth + 200), within s32. */
  lemma SlotsSpread(depth: nat, slots: seq<nat>)
    requires DepthOk(depth) && SlotsOk(depth, slots)
    ensures NoDup(slots)
    ensures forall k :: 0 <= k < N ==> StrataBase(0) + depth <= slots[k] <= S32_MAX
  {
    LadderPlain(depth);
    NoDupMoves(slots, Ladder(depth, 0));
    BandsStack(0, 0);
    forall k | 0 <= k < N ensures StrataBase(0) + depth <= slots[k] <= S32_MAX {
      MemberOf(slots, Ladder(depth, 0), k);
    }
  }

  /** The slot a task draws its initial priority from. */
  function Slot(detId: nat): nat { detId % N }

  /** Two tasks draw the same initial priority exactly when their ids agree modulo 200. */
  lemma SlotsCollideIff(depth: nat, slots: seq<nat>, d: nat, e: nat)
    requires DepthOk(depth) && SlotsOk(depth, slots)
    ensures slots[Slot(d)] == slots[Slot(e)] <==> d % N == e % N
  {
    SlotsSpread(depth, slots);
  }

  // ----- change points and demotions -----

  /** The first change point that equals r, or the number of change points. */
  function FirstHit(cps: seq<nat>, r: nat): (i: nat)
    ensures i <= |cps|
    ensures i < |cps| ==> cps[i] == r
    ensures forall k :: 0 <= k < i ==> cps[k] != r
  {
    if cps == [] then 0 else if cps[0] == r then 0 else 1 + FirstHit(cps[1..], r)
  }

  /** Event e (counted from 1) fires a change point. */
  predicate Fires(cps: seq<nat>, max: nat, e: nat)
    requires max > 0
  {
    e % max in cps
  }

  predicate ChangePointsOk(cps: seq<nat>, depth: nat, max: nat) {
    |cps| == depth - 1 && forall i :: 0 <= i < |cps| ==> 1 <= cps[i] <= max
  }

  /** A change point fires at event q * max + c of every lap q, and at no other, if it is below the
      number of expected events; one equal to that number, though it may be drawn, never fires. */
  lemma PointFiresIff(cps: seq<nat>, depth: nat, max: nat, c: nat)
    requires max > 0 && ChangePointsOk(cps, depth, max) && c in cps
    ensures (exists e: nat :: Fires(cps, max, e) && cps[FirstHit(cps, e % max)] == c) <==> c < max
    ensures forall e: nat :: e % max == c ==> Fires(cps, max, e)
  {
    if c < max {
      Arith.DivModUnique(c, max, 0, c);
      assert Fires(cps, max, c);
    }
  }

  /** The value drawn for a change point from the random number r. */
  function DrawPoint(r: nat, max: nat): (c: nat)
    requires max > 0
    ensures 1 <= c <= max
  {
    r % max + 1
  }

  /** Exactly the random numbers congruent to -1 modulo max draw a point that never fires. */
  lemma DrawnPointFiresIff(r: nat, max: nat)
    requires max > 0
    ensures (exists e: nat :: Fires([DrawPoint(r, max)], max, e)) <==> r % max != max - 1
  {
    var cps := [DrawPoint(r, max)];
    PointFiresIff(cps, 2, max, cps[0]);
    forall e: nat | Fires(cps, max, e) ensures cps[FirstHit(cps, e % max)] == cps[0] {}
  }

  /** So a cycle demotes at some event if and only if one of its points is below max. */
  lemma SomeEventFiresIff(cps: seq<nat>, depth: nat, max: nat)
    requires max > 0 && ChangePointsOk(cps, depth, max)
    ensures (exists e: nat :: Fires(cps, max, e)) <==> (exists c :: c in cps && c < max)
  {
    if c :| c in cps && c < max {
      PointFiresIff(cps, depth, max, c);
    }
    if e: nat :| Fires(cps, max, e) {
      assert e % max in cps && e % max < max;
    }
  }

  /** The priority a demotion at event e ought to give: in the band of lap e / max. */
  function Demoted(cps: seq<nat>, max: nat, e: nat): int
    requires max > 0
  {
    S32_MAX - (e / max + 2) * N + FirstHit(cps, e % max) + 1
  }

  lemma DemotedInBand(cps: seq<nat>, max: nat, e: nat, depth: nat)
    requires max > 0 && DepthOk(depth) && ChangePointsOk(cps, depth, max) && Fires(cps, max, e)
    ensures var b := S32_MAX - (e / max + 2) * N; b < Demoted(cps, max, e) < b + depth && Demoted(cps, max, e) <= b + N
  {
    var r := e % max;
    var i :| 0 <= i < |cps| && cps[i] == r;
  }

  /** No two firing events demote to the same priority. */
  lemma DemotionsDiffer(cps: seq<nat>, max: nat, e: nat, f: nat, depth: nat)
    requires max > 0 && DepthOk(depth) && ChangePointsOk(cps, depth, max)
    requires Fires(cps, max, e) && Fires(cps, max, f) && Demoted(cps, max, e) == Demoted(cps, max, f)
    ensures e == f
  {
    DemotedInBand(cps, max, e, depth);
    DemotedInBand(cps, max, f, depth);
    var q, r := e / max, f / max;
    assert q == r;
    assert FirstHit(cps, e % max) == FirstHit(cps, f % max);
    assert e == max * q + e % max && f == max * r + f % max;
  }
}
