/** Canonical Huffman codes (section 3.2.2 of RFC 1951) and the table-driven way to decode them. */
module Huffman {
  import opened Common
  import opened Arith
  import opened BitStream

  const MAXBITS: nat := 15

  /** Code lengths, one per symbol; length 0 means the symbol is not in the code. */
  predicate LengthsOk(lens: seq<nat>) { forall s :: 0 <= s < |lens| ==> lens[s] <= MAXBITS }

  /** How many of the first n symbols have length k. */
  function CountIn(lens: seq<nat>, n: nat, k: nat): nat
    requires n <= |lens|
    decreases n
  {
    if n == 0 then 0 else CountIn(lens, n - 1, k) + (if lens[n - 1] == k then 1 else 0)
  }

  function Count(lens: seq<nat>, k: nat): nat { CountIn(lens, |lens|, k) }

  /** The first code of length k. */
  function First(lens: seq<nat>, k: nat): nat
    decreases k
  {
    if k <= 1 then 0 else 2 * (First(lens, k - 1) + Count(lens, k - 1))
  }

  /** How many symbols have a shorter, non-zero length. */
  function Offset(lens: seq<nat>, k: nat): nat
    decreases k
  {
    if k <= 1 then 0 else Offset(lens, k - 1) + Count(lens, k - 1)
  }

  function Rank(lens: seq<nat>, s: nat): nat
    requires s < |lens|
  {
    CountIn(lens, s, lens[s])
  }

  /** The code of a symbol: codes of one length are consecutive, in symbol order. */
  function Code(lens: seq<nat>, s: nat): nat
    requires s < |lens|
  {
    First(lens, lens[s]) + Rank(lens, s)
  }

  // ----- counting -----

  lemma {:induction false} CountMono(lens: seq<nat>, m: nat, n: nat, k: nat)
    requires m <= n <= |lens|
    ensures CountIn(lens, m, k) <= CountIn(lens, n, k)
    decreases n
  {
    if m < n { CountMono(lens, m, n - 1, k); }
  }

  lemma {:induction false} RankBelowCount(lens: seq<nat>, s: nat)
    requires s < |lens|
    ensures Rank(lens, s) < Count(lens, lens[s])
  {
    CountMono(lens, s + 1, |lens|, lens[s]);
  }

  /** The symbol of length k and rank r. */
  lemma {:induction false} SymbolOfRank(lens: seq<nat>, n: nat, k: nat, r: nat) returns (s: nat)
    requires n <= |lens| && r < CountIn(lens, n, k)
    ensures s < n && lens[s] == k && Rank(lens, s) == r
    decreases n
  {
    if lens[n - 1] == k && CountIn(lens, n - 1, k) == r {
      s := n - 1;
    } else {
      s := SymbolOfRank(lens, n - 1, k, r);
    }
  }

  lemma {:induction false} RankInjective(lens: seq<nat>, s: nat, t: nat)
    requires s < |lens| && t < |lens| && lens[s] == lens[t] && Rank(lens, s) == Rank(lens, t)
    ensures s == t
  {
    if s < t { CountMono(lens, s + 1, t, lens[s]); }
    if t < s { CountMono(lens, t + 1, s, lens[s]); }
  }

  // ----- codes of different lengths never collide -----

  /** Everything of length j, extended to k bits, is below the first code of length k. */
  lemma {:induction false} FirstGrows(lens: seq<nat>, j: nat, k: nat)
    requires 1 <= j < k
    ensures First(lens, k) >= Pow2(k - j) * (First(lens, j) + Count(lens, j))
    decreases k
  {
    hide Pow2, CountIn;
    var x := First(lens, j) + Count(lens, j);
    Pow2Next(k - j - 1);
    DoubleMul(Pow2(k - j - 1), x);
    if j + 1 == k {
      Pow2Next(0);
    } else {
      FirstGrows(lens, j, k - 1);
    }
  }

  /** The first j of k bits are the k bits shifted right. */
  lemma {:induction false} MsbPrefix(input: seq<Byte>, pos: nat, j: nat, k: nat)
    requires j <= k && pos + k <= 8 * |input|
    ensures Pow2(k - j) * Msb(input, pos, j) <= Msb(input, pos, k) < Pow2(k - j) * (Msb(input, pos, j) + 1)
    decreases k
  {
    hide BitAt;
    if j < k {
      MsbPrefix(input, pos, j, k - 1);
      DoubleBounds(Pow2(k - 1 - j), Msb(input, pos, j), Msb(input, pos, k - 1), BitAt(input, pos + k - 1));
    }
  }

  lemma DoubleBounds(p: nat, m: nat, y: nat, b: nat)
    requires p * m <= y < p * (m + 1) && b < 2
    ensures (2 * p) * m <= 2 * y + b < (2 * p) * (m + 1)
  {
    assert (2 * p) * m == 2 * (p * m) && (2 * p) * (m + 1) == 2 * (p * (m + 1));
  }

  /** Bits at pos begin with the code of symbol s. */
  predicate Matches(lens: seq<nat>, input: seq<Byte>, pos: nat, s: nat) {
    && s < |lens| && lens[s] > 0 && pos + lens[s] <= 8 * |input|
    && Msb(input, pos, lens[s]) == Code(lens, s)
  }

  /** If the bits begin with the code of s, no shorter code fits. */
  lemma {:induction false} ShorterTooSmall(lens: seq<nat>, input: seq<Byte>, pos: nat, s: nat, j: nat)
    requires Matches(lens, input, pos, s) && 1 <= j < lens[s]
    ensures Msb(input, pos, j) >= First(lens, j) + Count(lens, j)
  {
    hide First, Msb, Pow2, CountIn;
    var k := lens[s];
    FirstGrows(lens, j, k);
    MsbPrefix(input, pos, j, k);
    var x, m, p := First(lens, j) + Count(lens, j), Msb(input, pos, j), Pow2(k - j);
    if m < x { assert p * (m + 1) <= p * x by { MulMono(p, m + 1, x); } }
  }

  lemma MulMono(p: nat, a: nat, b: nat)
    requires a <= b
    ensures p * a <= p * b
  {
  }

  /** The code is prefix-free: at most one symbol matches. */
  lemma {:induction false} MatchUnique(lens: seq<nat>, input: seq<Byte>, pos: nat, s: nat, t: nat)
    requires Matches(lens, input, pos, s) && Matches(lens, input, pos, t)
    ensures s == t
  {
    if lens[s] == lens[t] {
      RankInjective(lens, s, t);
    } else if lens[s] < lens[t] {
      ShorterTooSmall(lens, input, pos, t, lens[s]);
      RankBelowCount(lens, s);
    } else {
      ShorterTooSmall(lens, input, pos, s, lens[t]);
      RankBelowCount(lens, t);
    }
  }

  // ----- decoding -----

  datatype Decoded = Symbol(sym: nat, next: nat) | NeedInput | BadCode

  /** What decoding means: the symbol whose code comes next, if any; otherwise more input is
      needed, unless 15 bits were there and matched nothing. */
  ghost function Decode(lens: seq<nat>, input: seq<Byte>, pos: nat): (d: Decoded)
    ensures d.Symbol? ==> d.sym < |lens| && pos < d.next <= 8 * |input|
  {
    if exists s: nat :: Matches(lens, input, pos, s) then
      var s: nat :| Matches(lens, input, pos, s);
      Symbol(s, pos + lens[s])
    else if pos + MAXBITS > 8 * |input| then NeedInput
    else BadCode
  }

  /** A symbol whose code comes next is what is decoded, and exactly its length is consumed. */
  lemma {:induction false} DecodesItsCode(lens: seq<nat>, input: seq<Byte>, pos: nat, s: nat)
    ensures Decode(lens, input, pos) == Symbol(s, pos + (if s < |lens| then lens[s] else 0)) <==>
      Matches(lens, input, pos, s)
  {
    if Matches(lens, input, pos, s) {
      var t: nat :| Matches(lens, input, pos, t) && Decode(lens, input, pos) == Symbol(t, pos + lens[t]);
      MatchUnique(lens, input, pos, s, t);
    }
  }

  /** The decoding tables: symbols counted by length, and sorted by length and symbol order. */
  datatype Table = Table(count: seq<nat>, symbol: seq<nat>)

  ghost predicate Placed(symbol: seq<nat>, lens: seq<nat>, s: nat) {
    s < |lens| && lens[s] > 0 ==>
      var i := Offset(lens, lens[s]) + Rank(lens, s); i < |symbol| && symbol[i] == s
  }

  ghost predicate TableFor(t: Table, lens: seq<nat>) {
    && |t.count| == MAXBITS + 1
    && (forall k :: 0 <= k <= MAXBITS ==> t.count[k] == Count(lens, k))
    && (forall s: nat :: Placed(t.symbol, lens, s))
  }

  lemma CountIs(t: Table, lens: seq<nat>, k: nat)
    requires TableFor(t, lens) && k <= MAXBITS
    ensures |t.count| == MAXBITS + 1 && t.count[k] == Count(lens, k)
  {
  }

  /** No code of up to k bits fits the bits at pos. */
  ghost predicate NoneUpTo(lens: seq<nat>, input: seq<Byte>, pos: nat, k: nat) {
    && pos + k <= 8 * |input|
    && forall j :: 1 <= j <= k ==> Msb(input, pos, j) >= First(lens, j) + Count(lens, j)
  }

  /** One more bit keeps the bits read at or above the first code of their length. */
  lemma {:induction false} AtLeastFirst(lens: seq<nat>, input: seq<Byte>, pos: nat, k: nat)
    requires 1 <= k && NoneUpTo(lens, input, pos, k - 1) && pos + k <= 8 * |input|
    ensures Msb(input, pos, k) >= First(lens, k)
  {
    hide BitAt, CountIn;
    if k > 1 { assert Msb(input, pos, k - 1) >= First(lens, k - 1) + Count(lens, k - 1); }
  }

  /** The test of the decoding loop succeeds: the table entry is the symbol. */
  lemma {:induction false} DecodedAt(lens: seq<nat>, input: seq<Byte>, pos: nat, k: nat) returns (s: nat)
    requires 1 <= k && NoneUpTo(lens, input, pos, k - 1) && pos + k <= 8 * |input|
    requires Msb(input, pos, k) < First(lens, k) + Count(lens, k)
    ensures Msb(input, pos, k) >= First(lens, k) && Decode(lens, input, pos) == Symbol(s, pos + k)
    ensures s < |lens| && lens[s] == k && Rank(lens, s) == Msb(input, pos, k) - First(lens, k)
  {
    hide Decode, Msb, First, NoneUpTo;
    AtLeastFirst(lens, input, pos, k);
    var r := Msb(input, pos, k) - First(lens, k);
    s := SymbolOfRank(lens, |lens|, k, r);
    assert Matches(lens, input, pos, s);
    DecodesItsCode(lens, input, pos, s);
  }

  lemma {:induction false} FoundAt(t: Table, lens: seq<nat>, input: seq<Byte>, pos: nat, k: nat)
    requires TableFor(t, lens) && 1 <= k && NoneUpTo(lens, input, pos, k - 1) && pos + k <= 8 * |input|
    requires Msb(input, pos, k) < First(lens, k) + Count(lens, k)
    ensures var i := Offset(lens, k) + Msb(input, pos, k) - First(lens, k);
      0 <= i < |t.symbol| && Decode(lens, input, pos) == Symbol(t.symbol[i], pos + k)
  {
    hide Decode, Msb, First, Offset, CountIn, NoneUpTo, Rank;
    var s := DecodedAt(lens, input, pos, k);
    assert Placed(t.symbol, lens, s);
  }

  /** Where the decoding loop starts. */
  lemma {:induction false} Begins(lens: seq<nat>, input: seq<Byte>, pos: nat)
    requires pos <= 8 * |input|
    ensures NoneUpTo(lens, input, pos, 0) && Msb(input, pos, 0) == 0 && First(lens, 1) == 0 && Offset(lens, 1) == 0
  {
  }

  /** The test of the decoding loop fails: on to the next length. */
  lemma {:induction false} GoesOn(t: Table, lens: seq<nat>, input: seq<Byte>, pos: nat, k: nat)
    requires TableFor(t, lens) && 1 <= k <= MAXBITS && NoneUpTo(lens, input, pos, k - 1) && pos + k <= 8 * |input|
    requires Msb(input, pos, k) >= First(lens, k) + t.count[k]
    ensures NoneUpTo(lens, input, pos, k)
    ensures First(lens, k + 1) == 2 * (First(lens, k) + t.count[k])
    ensures Offset(lens, k + 1) == Offset(lens, k) + t.count[k]
  {
    hide Msb, CountIn;
  }

  lemma {:induction false} MatchLongerThan(lens: seq<nat>, input: seq<Byte>, pos: nat, k: nat, s: nat)
    requires NoneUpTo(lens, input, pos, k) && Matches(lens, input, pos, s)
    ensures lens[s] > k
  {
    RankBelowCount(lens, s);
  }

  /** Fifteen bits and no match, or the input ends first. */
  lemma {:induction false} NotFound(lens: seq<nat>, input: seq<Byte>, pos: nat, k: nat)
    requires LengthsOk(lens) && NoneUpTo(lens, input, pos, k)
    ensures k == MAXBITS ==> Decode(lens, input, pos) == BadCode
    ensures k < MAXBITS && pos + k == 8 * |input| ==> Decode(lens, input, pos) == NeedInput
  {
    if k == MAXBITS || pos + k == 8 * |input| {
      forall s: nat ensures !Matches(lens, input, pos, s) {
        if Matches(lens, input, pos, s) { MatchLongerThan(lens, input, pos, k, s); }
      }
    }
  }

  // ----- over-subscribed, complete and incomplete codes -----

  /** Codes of length k still unused after all codes of up to k bits are given out. */
  function Left(lens: seq<nat>, k: nat): int {
    if k == 0 then 1 else 2 * Left(lens, k - 1) - Count(lens, k)
  }

  lemma {:induction false} LeftIs(lens: seq<nat>, k: nat)
    requires k >= 1
    ensures Left(lens, k) == Pow2(k) - First(lens, k) - Count(lens, k)
  {
    hide CountIn;
    if k > 1 { LeftIs(lens, k - 1); }
  }

  /** What the construction reports: 0 for the empty code, else the first negative number left,
      else the number left after 15 bits. */
  function VerdictFrom(lens: seq<nat>, k: nat): int
    decreases MAXBITS + 1 - k
  {
    if k >= MAXBITS || Left(lens, k) < 0 then Left(lens, k) else VerdictFrom(lens, k + 1)
  }

  function Verdict(lens: seq<nat>): int {
    if Count(lens, 0) == |lens| then 0 else VerdictFrom(lens, 1)
  }

  /** The Kraft sum in units of 2^-15. */
  function Kraft(lens: seq<nat>, n: nat): nat
    requires n <= |lens|
    decreases n
  {
    if n == 0 then 0
    else Kraft(lens, n - 1) + (if 0 < lens[n - 1] <= MAXBITS then Pow2(MAXBITS - lens[n - 1]) else 0)
  }

  /** The same sum taken by length, over the first n symbols and lengths up to k. */
  function KraftUpTo(lens: seq<nat>, n: nat, k: nat): nat
    requires n <= |lens| && k <= MAXBITS
    decreases k
  {
    if k == 0 then 0 else KraftUpTo(lens, n, k - 1) + CountIn(lens, n, k) * Pow2(MAXBITS - k)
  }

  lemma {:induction false} KraftStep(lens: seq<nat>, n: nat, k: nat)
    requires 0 < n <= |lens| && k <= MAXBITS
    ensures KraftUpTo(lens, n, k) == KraftUpTo(lens, n - 1, k) +
              (if 0 < lens[n - 1] <= k then Pow2(MAXBITS - lens[n - 1]) else 0)
    decreases k
  {
    hide Pow2, CountIn;
    if k > 0 {
      KraftStep(lens, n, k - 1);
      CountNext(lens, n, k);
      OneMore(CountIn(lens, n - 1, k), Pow2(MAXBITS - k));
    }
  }

  lemma CountNext(lens: seq<nat>, n: nat, k: nat)
    requires 0 < n <= |lens|
    ensures CountIn(lens, n, k) == CountIn(lens, n - 1, k) + (if lens[n - 1] == k then 1 else 0)
  {
  }

  lemma OneMore(c: nat, p: nat)
    ensures (c + 1) * p == c * p + p
  {
  }

  lemma {:induction false} KraftZero(lens: seq<nat>, k: nat)
    requires k <= MAXBITS
    ensures KraftUpTo(lens, 0, k) == 0
  {
    if k > 0 { KraftZero(lens, k - 1); assert CountIn(lens, 0, k) * Pow2(MAXBITS - k) == 0; }
  }

  lemma {:induction false} KraftByLength(lens: seq<nat>, n: nat)
    requires n <= |lens|
    ensures Kraft(lens, n) == KraftUpTo(lens, n, MAXBITS)
    decreases n
  {
    hide Pow2, KraftUpTo;
    if n == 0 { KraftZero(lens, MAXBITS); } else { KraftByLength(lens, n - 1); KraftStep(lens, n, MAXBITS); }
  }

  lemma {:induction false} LeftAsKraft(lens: seq<nat>, k: nat)
    requires k <= MAXBITS
    ensures Left(lens, k) * Pow2(MAXBITS - k) == Pow2(MAXBITS) - KraftUpTo(lens, |lens|, k)
  {
    hide Pow2, CountIn;
    if k == 0 {
      assert 1 * Pow2(MAXBITS) == Pow2(MAXBITS);
    } else {
      LeftAsKraft(lens, k - 1);
      Pow2Next(MAXBITS - k);
      LeftStep(Left(lens, k - 1), Count(lens, k), Pow2(MAXBITS - k));
    }
  }

  lemma LeftStep(l: int, c: nat, p: nat)
    ensures (2 * l - c) * p == l * (2 * p) - c * p
  {
  }

  lemma {:induction false} LeftStaysNegative(lens: seq<nat>, j: nat, k: nat)
    requires j <= k && Left(lens, j) < 0
    ensures Left(lens, k) < 0
    decreases k
  {
    if j < k { LeftStaysNegative(lens, j, k - 1); }
  }

  lemma {:induction false} VerdictSign(lens: seq<nat>, k: nat)
    requires 1 <= k <= MAXBITS
    ensures VerdictFrom(lens, k) < 0 <==> Left(lens, MAXBITS) < 0
    ensures VerdictFrom(lens, k) >= 0 ==> VerdictFrom(lens, k) == Left(lens, MAXBITS)
    ensures VerdictFrom(lens, k) >= 0 ==> forall j :: k <= j <= MAXBITS ==> Left(lens, j) >= 0
    decreases MAXBITS - k
  {
    hide Left;
    if k < MAXBITS {
      if Left(lens, k) < 0 { LeftStaysNegative(lens, k, MAXBITS); } else { VerdictSign(lens, k + 1); }
    }
  }

  /** The sign of the verdict on a non-empty code is that of what its Kraft sum leaves of 1. */
  lemma {:induction false} VerdictByKraft(lens: seq<nat>)
    requires Count(lens, 0) != |lens|
    ensures Verdict(lens) < 0 <==> Kraft(lens, |lens|) > Pow2(MAXBITS)
    ensures Verdict(lens) == 0 <==> Kraft(lens, |lens|) == Pow2(MAXBITS)
    ensures Verdict(lens) > 0 <==> Kraft(lens, |lens|) < Pow2(MAXBITS)
  {
    VerdictSign(lens, 1);
    LeftAsKraft(lens, MAXBITS);
    KraftByLength(lens, |lens|);
    assert Pow2(0) == 1;
    hide Left, Pow2, VerdictFrom, KraftUpTo, Kraft, CountIn;
  }

  /** In a code that is not over-subscribed every code fits its length. */
  lemma {:induction false} CodeFits(lens: seq<nat>, s: nat)
    requires s < |lens| && 0 < lens[s] <= MAXBITS && Verdict(lens) >= 0
    ensures Code(lens, s) < Pow2(lens[s])
  {
    var k := lens[s];
    NotAllZero(lens, |lens|, s);
    VerdictSign(lens, 1);
    LeftIs(lens, k);
    RankBelowCount(lens, s);
    hide Left, First, CountIn, Pow2, VerdictFrom;
    assert Left(lens, k) >= 0;
  }

  lemma {:induction false} NotAllZero(lens: seq<nat>, n: nat, s: nat)
    requires s < n <= |lens| && lens[s] > 0
    ensures CountIn(lens, n, 0) < n
    decreases n
  {
    if s < n - 1 { NotAllZero(lens, n - 1, s); } else { AtMostAll(lens, s, 0); }
  }

  lemma {:induction false} AtMostAll(lens: seq<nat>, n: nat, k: nat)
    requires n <= |lens|
    ensures CountIn(lens, n, k) <= n
    decreases n
  {
    if n > 0 { AtMostAll(lens, n - 1, k); }
  }

  /** With a non-empty complete code, any 15 bits resolve to a symbol. */
  lemma {:induction false} CompleteResolves(lens: seq<nat>, input: seq<Byte>, pos: nat)
    requires LengthsOk(lens) && Verdict(lens) == 0 && Count(lens, 0) != |lens|
    requires pos + MAXBITS <= 8 * |input|
    ensures Decode(lens, input, pos).Symbol?
  {
    VerdictSign(lens, 1);
    LeftIs(lens, MAXBITS);
    MsbBound(input, pos, MAXBITS);
    assert Msb(input, pos, MAXBITS) < First(lens, MAXBITS) + Count(lens, MAXBITS);
    FirstFound(lens, input, pos, 1, MAXBITS);
  }

  lemma {:induction false} FirstFound(lens: seq<nat>, input: seq<Byte>, pos: nat, k: nat, m: nat)
    requires 1 <= k <= m && NoneUpTo(lens, input, pos, k - 1) && pos + m <= 8 * |input|
    requires Msb(input, pos, m) < First(lens, m) + Count(lens, m)
    ensures Decode(lens, input, pos).Symbol?
    decreases m - k
  {
    hide Decode, Msb, First, CountIn;
    if Msb(input, pos, k) < First(lens, k) + Count(lens, k) {
      var _ := DecodedAt(lens, input, pos, k);
    } else {
      FirstFound(lens, input, pos, k + 1, m);
    }
  }
}
