/** Facts about the constants of inflate: the fixed codes are usable, and the order in which code
    length code lengths are stored is a permutation. */
module PuffFixed {
  import opened Common
  import Arith
  import opened BitStream
  import opened Huffman
  import Inflate

  function Clamp(x: int, hi: nat): nat { if x < 0 then 0 else if x > hi then hi else x }

  lemma {:induction false} FixedCounts(n: nat, k: nat)
    requires n <= 288
    ensures CountIn(Inflate.FixedLens(), n, k) ==
      if k == 7 then Clamp(n - 256, 24)
      else if k == 8 then Clamp(n, 144) + Clamp(n - 280, 8)
      else if k == 9 then Clamp(n - 144, 112)
      else 0
    decreases n
  {
    if n > 0 { FixedCounts(n - 1, k); }
  }

  lemma {:induction false} DistCounts(n: nat, k: nat)
    requires n <= 30
    ensures CountIn(Inflate.FixedDists(), n, k) == if k == 5 then n else 0
    decreases n
  {
    if n > 0 { DistCounts(n - 1, k); }
  }

  /** Doubling without deductions. */
  lemma {:induction false} LeftDoubles(lens: seq<nat>, j: nat, k: nat)
    requires j <= k && forall i :: j < i <= k ==> Count(lens, i) == 0
    ensures Left(lens, j) >= 0 ==> Left(lens, k) >= 0
    ensures j == 0 && k <= 6 ==> Left(lens, k) == [1, 2, 4, 8, 16, 32, 64][k]
    decreases k
  {
    hide CountIn;
    if j < k { LeftDoubles(lens, j, k - 1); }
  }

  lemma {:induction false} FixedLeft()
    ensures Left(Inflate.FixedLens(), MAXBITS) >= 0
  {
    var l := Inflate.FixedLens();
    forall k: nat ensures Count(l, k) == if k == 7 then 24 else if k == 8 then 152 else if k == 9 then 112 else 0 {
      FixedCounts(288, k);
    }
    hide CountIn, Count, Inflate.FixedLens;
    LeftDoubles(l, 0, 6);
    assert Left(l, 7) == 104 && Left(l, 8) == 56 && Left(l, 9) == 0;
    LeftDoubles(l, 9, MAXBITS);
  }

  lemma {:induction false} DistLeft()
    ensures Left(Inflate.FixedDists(), MAXBITS) >= 0
  {
    var l := Inflate.FixedDists();
    forall k: nat ensures Count(l, k) == if k == 5 then 30 else 0 { DistCounts(30, k); }
    hide CountIn, Count, Inflate.FixedDists;
    LeftDoubles(l, 0, 4);
    assert Left(l, 5) == 2;
    LeftDoubles(l, 5, MAXBITS);
  }

  /** Neither fixed code is over-subscribed. */
  lemma {:induction false} FixedUsable()
    ensures Verdict(Inflate.FixedLens()) >= 0 && Verdict(Inflate.FixedDists()) >= 0
    ensures LengthsOk(Inflate.FixedLens()) && LengthsOk(Inflate.FixedDists())
  {
    FixedLeft();
    DistLeft();
    hide CountIn, Left;
    VerdictSign(Inflate.FixedLens(), 1);
    VerdictSign(Inflate.FixedDists(), 1);
  }

  /** Where each length is found in the stored order. */
  const PLACE: seq<nat> := [3, 17, 15, 13, 11, 9, 7, 5, 4, 6, 8, 10, 12, 14, 16, 18, 0, 1, 2]

  lemma OrderAt(k: nat)
    requires k < 19
    ensures |Inflate.ORDER| == 19 && Inflate.ORDER[k] < 19 && PLACE[Inflate.ORDER[k]] == k
  {
  }

  lemma PlaceAt(j: nat)
    requires j < 19
    ensures |Inflate.ORDER| == 19 && PLACE[j] < 19 && Inflate.ORDER[PLACE[j]] == j
  {
  }

  /** What the 19 places hold once the first n lengths have been read. */
  ghost predicate Holds(input: seq<Byte>, pos: nat, n: nat, k: nat, cl: seq<nat>)
    requires n <= 19 && pos + 3 * n <= 8 * |input| && |cl| == 19 && k < 19
  {
    OrderAt(k);
    cl[Inflate.ORDER[k]] == if k < n then Take(input, pos + 3 * k, 3) else 0
  }

  lemma {:induction false} CodeLengthAt(input: seq<Byte>, pos: nat, n: nat, k: nat)
    requires n <= 19 && k < 19 && pos + 3 * n <= 8 * |input|
    ensures Holds(input, pos, n, k, Inflate.CodeLengthLens(input, pos, n))
    decreases n
  {
    hide Take;
    OrderAt(k);
    if n > 0 {
      CodeLengthAt(input, pos, n - 1, k);
      OrderAt(n - 1);
      PlacedNext(input, pos, n, k, Inflate.CodeLengthLens(input, pos, n - 1));
    }
  }

  /** Placing one more length leaves the others alone. */
  lemma PlacedNext(input: seq<Byte>, pos: nat, n: nat, k: nat, cl: seq<nat>)
    requires 0 < n <= 19 && pos + 3 * n <= 8 * |input| && |cl| == 19 && k < 19
    requires Holds(input, pos, n - 1, k, cl) && Inflate.ORDER[n - 1] < 19
    ensures Holds(input, pos, n, k, cl[Inflate.ORDER[n - 1] := Take(input, pos + 3 * (n - 1), 3)])
  {
    hide Take;
    OrderAt(k);
    OrderAt(n - 1);
  }

  ghost predicate AllHold(input: seq<Byte>, pos: nat, n: nat, cl: seq<nat>)
    requires n <= 19 && pos + 3 * n <= 8 * |input| && |cl| == 19
  {
    forall k :: 0 <= k < 19 ==> Holds(input, pos, n, k, cl)
  }

  lemma NonePlaced(input: seq<Byte>, pos: nat)
    requires pos <= 8 * |input|
    ensures AllHold(input, pos, 0, seq(19, _ => 0))
  {
    var none: seq<nat> := seq(19, _ => 0);
    forall k | 0 <= k < 19 ensures Holds(input, pos, 0, k, none) { OrderAt(k); }
  }

  lemma PlacedAll(input: seq<Byte>, pos: nat, n: nat, cl: seq<nat>)
    requires n < 19 && pos + 3 * (n + 1) <= 8 * |input| && |cl| == 19 && AllHold(input, pos, n, cl)
    ensures Inflate.ORDER[n] < 19 && AllHold(input, pos, n + 1, cl[Inflate.ORDER[n] := Take(input, pos + 3 * n, 3)])
  {
    hide Take, Holds;
    OrderAt(n);
    var after := cl[Inflate.ORDER[n] := Take(input, pos + 3 * n, 3)];
    var m := n + 1;
    forall k | 0 <= k < 19 ensures Holds(input, pos, m, k, after) { PlacedNext(input, pos, m, k, cl); }
  }

  lemma {:induction false} ClosedForm(input: seq<Byte>, pos: nat, n: nat, cl: seq<nat>)
    requires n <= 19 && pos + 3 * n <= 8 * |input| && |cl| == 19
    requires AllHold(input, pos, n, cl)
    ensures cl == Inflate.CodeLengthLens(input, pos, n) && LengthsOk(cl)
  {
    hide Take, Inflate.CodeLengthLens, Holds;
    var want := Inflate.CodeLengthLens(input, pos, n);
    forall j | 0 <= j < 19 ensures cl[j] == want[j] && cl[j] <= MAXBITS { PlaceHolds(input, pos, n, j, cl); }
  }

  lemma {:induction false} PlaceHolds(input: seq<Byte>, pos: nat, n: nat, j: nat, cl: seq<nat>)
    requires n <= 19 && pos + 3 * n <= 8 * |input| && |cl| == 19 && j < 19
    requires AllHold(input, pos, n, cl)
    ensures cl[j] == Inflate.CodeLengthLens(input, pos, n)[j] && cl[j] <= MAXBITS
  {
    hide Take, Inflate.CodeLengthLens;
    PlaceAt(j);
    var k := PLACE[j];
    CodeLengthAt(input, pos, n, k);
    assert Holds(input, pos, n, k, cl);
    if k < n { ThreeBits(input, pos + 3 * k); }
  }

  lemma {:induction false} ThreeBits(input: seq<Byte>, pos: nat)
    requires pos + 3 <= 8 * |input|
    ensures Take(input, pos, 3) < 8
  {
    TakeBound(input, pos, 3);
    assert Arith.Pow2(3) == 8;
  }

  lemma WordParts(lo: Byte, hi: Byte)
    ensures Inflate.Word(lo, hi) % 256 == lo && Inflate.Word(lo, hi) / 256 == hi
  {
  }
}
