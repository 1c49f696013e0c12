/** What the tables of inflate say: each length and each distance has one code, which the closed
    forms below compute. */
module InflateTables {
  import opened Common
  import opened Arith
  import opened Huffman
  import PuffFixed
  import Inflate

  /** Numbers fall into spans that double in width: below m each has an index of its own, above, m / 2
      indices share each doubling. `Extra` bits below the index tell the numbers of a span apart. */
  function Index(m: nat, x: nat): nat
    requires m >= 2
  {
    if x < m then x else m / 2 + Index(m, x / 2)
  }

  function Extra(m: nat, x: nat): nat
    requires m >= 2
  {
    if x < m then 0 else 1 + Extra(m, x / 2)
  }

  function Rest(m: nat, x: nat): (r: nat)
    requires m >= 2
    ensures r < Pow2(Extra(m, x))
  {
    if x < m then 0 else x % 2 + 2 * Rest(m, x / 2)
  }

  lemma {:induction false} IndexBound(m: nat, x: nat, j: nat)
    requires m >= 2 && x < m * Pow2(j)
    ensures Index(m, x) < m + m / 2 * j
    decreases j
  {
    hide Pow2;
    if x >= m {
      Pow2Next(0);
      if j > 0 {
        Pow2Next(j - 1);
        assert m * Pow2(j) == 2 * (m * Pow2(j - 1));
        IndexBound(m, x / 2, j - 1);
        assert m / 2 * j == m / 2 * (j - 1) + m / 2;
      }
    }
  }

  // ----- lengths -----

  lemma LengthTable(k: nat)
    requires k < 28
    ensures |Inflate.LENS| == |Inflate.LEXT| == 29
    ensures Inflate.LEXT[k] == if k < 8 then 0 else k / 4 - 1
    ensures Inflate.LENS[0] == 3 && (k < 27 ==> Inflate.LENS[k + 1] == Inflate.LENS[k] + Pow2(Inflate.LEXT[k]))
    ensures Inflate.LENS[27] + Pow2(Inflate.LEXT[27]) == 259
    ensures Inflate.LENS[28] == 258 && Inflate.LEXT[28] == 0
  {
    Powers();
    hide Pow2;
    LengthExtra(k);
    if k < 27 { LengthStep(k); }
  }

  lemma LengthExtra(k: nat)
    requires k < 28
    ensures |Inflate.LEXT| == 29 && Inflate.LEXT[k] == if k < 8 then 0 else k / 4 - 1
  {
  }

  lemma LengthStep(k: nat)
    requires k < 27
    ensures |Inflate.LENS| == |Inflate.LEXT| == 29
    ensures Inflate.LENS[k + 1] == Inflate.LENS[k] + Pow2(Inflate.LEXT[k])
  {
    Powers();
    hide Pow2;
  }

  lemma LengthDoubles(k: nat)
    requires k < 28
    ensures |Inflate.LENS| == |Inflate.LEXT| == 29
    ensures k < 8 ==> Inflate.LENS[k] == k + 3 && Inflate.LEXT[k] == 0
    ensures k >= 8 ==>
      Inflate.LENS[k] - 3 == 2 * (Inflate.LENS[k - 4] - 3) && Inflate.LEXT[k] == Inflate.LEXT[k - 4] + 1
  {
  }

  /** The code of a length and its extra bits. */
  lemma {:induction false} LengthParts(x: nat)
    requires x < 256
    ensures Index(8, x) < 28 && |Inflate.LENS| == |Inflate.LEXT| == 29
    ensures Inflate.LEXT[Index(8, x)] == Extra(8, x) && Inflate.LENS[Index(8, x)] + Rest(8, x) == x + 3
    decreases x
  {
    hide Pow2;
    Powers();
    IndexBound(8, x, 5);
    LengthDoubles(Index(8, x));
    if x >= 8 { LengthParts(x / 2); }
  }

  lemma {:induction false} LengthsGrow(j: nat, k: nat)
    requires j < k < 28
    ensures |Inflate.LENS| == |Inflate.LEXT| == 29 && Inflate.LENS[j] + Pow2(Inflate.LEXT[j]) <= Inflate.LENS[k]
    decreases k
  {
    hide Pow2;
    LengthTable(k - 1);
    if j < k - 1 { LengthsGrow(j, k - 1); }
  }

  /** Each length from 3 to 257 has exactly one code and extra value. */
  lemma LengthUnique(len: nat, k: nat, e: nat)
    requires 3 <= len <= 257 && k < 28 && |Inflate.LENS| == |Inflate.LEXT| == 29 && e < Pow2(Inflate.LEXT[k])
    ensures Inflate.LENS[k] + e == len <==> k == Index(8, len - 3) && e == Rest(8, len - 3)
  {
    hide Pow2, Index, Rest, Extra;
    var j := Index(8, len - 3);
    LengthParts(len - 3);
    if j < k { LengthsGrow(j, k); }
    if k < j { LengthsGrow(k, j); }
  }

  // ----- distances -----

  lemma DistanceTable(k: nat)
    requires k < 30
    ensures |Inflate.DISTS| == |Inflate.DEXT| == 30
    ensures Inflate.DEXT[k] == if k < 2 then 0 else k / 2 - 1
    ensures Inflate.DISTS[0] == 1 && (k < 29 ==> Inflate.DISTS[k + 1] == Inflate.DISTS[k] + Pow2(Inflate.DEXT[k]))
    ensures Inflate.DISTS[29] + Pow2(Inflate.DEXT[29]) == 32769
  {
    Powers();
    hide Pow2;
    DistanceExtra(k);
    if k < 29 { DistanceStep(k); }
  }

  lemma DistanceExtra(k: nat)
    requires k < 30
    ensures |Inflate.DEXT| == 30 && Inflate.DEXT[k] == if k < 2 then 0 else k / 2 - 1
  {
  }

  lemma DistanceStep(k: nat)
    requires k < 29
    ensures |Inflate.DISTS| == |Inflate.DEXT| == 30
    ensures Inflate.DISTS[k + 1] == Inflate.DISTS[k] + Pow2(Inflate.DEXT[k])
  {
    Powers();
    hide Pow2;
  }

  lemma Powers()
    ensures Pow2(0) == 1 && Pow2(1) == 2 && Pow2(2) == 4 && Pow2(3) == 8 && Pow2(4) == 16 && Pow2(5) == 32
    ensures Pow2(6) == 64 && Pow2(7) == 128 && Pow2(8) == 256 && Pow2(9) == 512 && Pow2(10) == 1024
    ensures Pow2(11) == 2048 && Pow2(12) == 4096 && Pow2(13) == 8192
  {
  }

  lemma DistanceDoubles(k: nat)
    requires k < 30
    ensures |Inflate.DISTS| == |Inflate.DEXT| == 30
    ensures k < 4 ==> Inflate.DISTS[k] == k + 1 && Inflate.DEXT[k] == 0
    ensures k >= 4 ==>
      Inflate.DISTS[k] - 1 == 2 * (Inflate.DISTS[k - 2] - 1) && Inflate.DEXT[k] == Inflate.DEXT[k - 2] + 1
  {
  }

  lemma {:induction false} DistanceParts(y: nat)
    requires y < 32768
    ensures Index(4, y) < 30 && |Inflate.DISTS| == |Inflate.DEXT| == 30
    ensures Inflate.DEXT[Index(4, y)] == Extra(4, y) && Inflate.DISTS[Index(4, y)] + Rest(4, y) == y + 1
    decreases y
  {
    hide Pow2;
    Powers();
    IndexBound(4, y, 13);
    DistanceDoubles(Index(4, y));
    if y >= 4 { DistanceParts(y / 2); }
  }

  lemma {:induction false} DistancesGrow(j: nat, k: nat)
    requires j < k < 30
    ensures |Inflate.DISTS| == |Inflate.DEXT| == 30 && Inflate.DISTS[j] + Pow2(Inflate.DEXT[j]) <= Inflate.DISTS[k]
    decreases k
  {
    hide Pow2;
    DistanceTable(k - 1);
    if j < k - 1 { DistancesGrow(j, k - 1); }
  }

  /** Each distance from 1 to 32768 has exactly one code and extra value. */
  lemma DistanceUnique(dist: nat, k: nat, e: nat)
    requires 1 <= dist <= 32768 && k < 30 && |Inflate.DISTS| == |Inflate.DEXT| == 30 && e < Pow2(Inflate.DEXT[k])
    ensures Inflate.DISTS[k] + e == dist <==> k == Index(4, dist - 1) && e == Rest(4, dist - 1)
  {
    hide Pow2, Index, Rest, Extra;
    var j := Index(4, dist - 1);
    DistanceParts(dist - 1);
    if j < k { DistancesGrow(j, k); }
    if k < j { DistancesGrow(k, j); }
  }

  // ----- the other constants -----

  /** The repeat instructions cover 3 to 6, 3 to 10 and 11 to 138 times, each count once. */
  lemma RepeatRange(s: nat, v: nat)
    requires 16 <= s <= 18
    ensures v < Pow2(Inflate.RepeatBits(s)) <==>
      Inflate.RepeatBase(s) + v <= if s == 16 then 6 else if s == 17 then 10 else 138
    ensures Inflate.RepeatBase(s) == if s == 18 then 11 else 3
  {
    assert Pow2(2) == 4 && Pow2(3) == 8 && Pow2(7) == 128;
  }

  /** The order of the code length code lengths: the repeats, then outwards from 8, after 0. */
  function OrderOf(k: nat): (j: nat)
    requires k < 19
    ensures j < 19
  {
    if k < 3 then 16 + k else if k == 3 then 0 else if k % 2 == 0 then 6 + k / 2 else 9 - k / 2
  }

  lemma OrderIs(k: nat)
    requires k < 19
    ensures |Inflate.ORDER| == 19 && Inflate.ORDER[k] == OrderOf(k)
  {
  }

  /** The fixed codes of section 3.2.6 of RFC 1951: length and code of every symbol. */
  lemma FixedCode(s: nat)
    requires s < 288
    ensures var l := Inflate.FixedLens();
      && l[s] == (if s < 144 then 8 else if s < 256 then 9 else if s < 280 then 7 else 8)
      && Code(l, s) == if s < 144 then 0x30 + s
                       else if s < 256 then 0x190 + s - 144
                       else if s < 280 then s - 256
                       else 0xC0 + s - 280
  {
    var l := Inflate.FixedLens();
    PuffFixed.FixedCounts(s, l[s]);
    forall k: nat ensures Count(l, k) == if k == 7 then 24 else if k == 8 then 152 else if k == 9 then 112 else 0 {
      PuffFixed.FixedCounts(288, k);
    }
    assert CountIn(l, s, l[s]) ==
      if s < 144 then s else if s < 256 then s - 144 else if s < 280 then s - 256 else s - 136;
    FixedFirsts(l);
    hide First, CountIn;
  }

  lemma FixedFirsts(l: seq<nat>)
    requires forall k: nat :: Count(l, k) == if k == 7 then 24 else if k == 8 then 152 else if k == 9 then 112 else 0
    ensures First(l, 7) == 0 && First(l, 8) == 48 && First(l, 9) == 400
  {
    hide Count;
    assert First(l, 1) == First(l, 2) == First(l, 3) == First(l, 4) == First(l, 5) == First(l, 6) == First(l, 7) == 0;
  }

  lemma FixedDistanceCode(d: nat)
    requires d < 30
    ensures Inflate.FixedDists()[d] == 5 && Code(Inflate.FixedDists(), d) == d
  {
    var l := Inflate.FixedDists();
    PuffFixed.DistCounts(d, 5);
    forall k: nat ensures Count(l, k) == if k == 5 then 30 else 0 { PuffFixed.DistCounts(30, k); }
    hide CountIn, Count;
    assert First(l, 1) == First(l, 2) == First(l, 3) == First(l, 4) == First(l, 5) == 0;
  }
}
