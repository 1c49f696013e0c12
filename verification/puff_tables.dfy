/** puff_construct: counting sort of the symbols by code length. */
module PuffTables {
  import opened Huffman

  function SumCounts(lens: seq<nat>, n: nat, k: nat): nat
    requires n <= |lens|
    decreases k
  {
    if k <= 1 then 0 else SumCounts(lens, n, k - 1) + CountIn(lens, n, k - 1)
  }

  lemma {:induction false} OffsetIsSum(lens: seq<nat>, k: nat)
    ensures Offset(lens, k) == SumCounts(lens, |lens|, k)
  {
    hide CountIn;
    if k > 1 { OffsetIsSum(lens, k - 1); }
  }

  lemma {:induction false} SumStep(lens: seq<nat>, n: nat, k: nat)
    requires 0 < n <= |lens|
    ensures SumCounts(lens, n, k) == SumCounts(lens, n - 1, k) + (if 1 <= lens[n - 1] < k then 1 else 0)
    decreases k
  {
    if k > 1 { SumStep(lens, n, k - 1); }
  }

  lemma {:induction false} SumZero(lens: seq<nat>, k: nat)
    ensures SumCounts(lens, 0, k) == 0
  {
    if k > 1 { SumZero(lens, k - 1); }
  }

  lemma {:induction false} SumBound(lens: seq<nat>, n: nat, k: nat)
    requires n <= |lens|
    ensures SumCounts(lens, n, k) <= n
    decreases n
  {
    hide SumCounts;
    if n == 0 { SumZero(lens, k); } else { SumBound(lens, n - 1, k); SumStep(lens, n, k); }
  }

  lemma {:induction false} OffsetMono(lens: seq<nat>, j: nat, k: nat)
    requires 1 <= j < k
    ensures Offset(lens, j) + Count(lens, j) <= Offset(lens, k)
    decreases k
  {
    hide CountIn;
    if j + 1 < k { OffsetMono(lens, j, k - 1); }
  }

  /** The place of a symbol in the table. */
  function Place(lens: seq<nat>, s: nat): nat
    requires s < |lens|
  {
    Offset(lens, lens[s]) + Rank(lens, s)
  }

  lemma {:induction false} PlaceInRange(lens: seq<nat>, s: nat)
    requires s < |lens| && lens[s] > 0
    ensures Place(lens, s) < |lens|
  {
    var k := lens[s];
    RankBelowCount(lens, s);
    OffsetIsSum(lens, k + 1);
    SumBound(lens, |lens|, k + 1);
    assert Offset(lens, k + 1) == Offset(lens, k) + Count(lens, k);
  }

  lemma {:induction false} PlacesDiffer(lens: seq<nat>, s: nat, t: nat)
    requires s < |lens| && t < |lens| && s != t && lens[s] > 0 && lens[t] > 0
    ensures Place(lens, s) != Place(lens, t)
  {
    if lens[s] == lens[t] {
      if Rank(lens, s) == Rank(lens, t) { RankInjective(lens, s, t); }
    } else if lens[s] < lens[t] {
      RankBelowCount(lens, s);
      OffsetMono(lens, lens[s], lens[t]);
    } else {
      RankBelowCount(lens, t);
      OffsetMono(lens, lens[t], lens[s]);
    }
  }

  method CountLengths(lens: seq<nat>) returns (count: array<nat>)
    requires LengthsOk(lens)
    ensures fresh(count) && count.Length == MAXBITS + 1
    ensures forall k :: 0 <= k <= MAXBITS ==> count[k] == Count(lens, k)
  {
    count := new nat[MAXBITS + 1](_ => 0);
    var s := 0;
    while s < |lens|
      invariant 0 <= s <= |lens|
      invariant forall k :: 0 <= k <= MAXBITS ==> count[k] == CountIn(lens, s, k)
    {
      count[lens[s]] := count[lens[s]] + 1;
      s := s + 1;
    }
  }

  /** The check for an over-subscribed or incomplete set of lengths. */
  method CheckLengths(lens: seq<nat>, count: array<nat>) returns (left: int)
    requires count.Length == MAXBITS + 1 && forall k :: 0 <= k <= MAXBITS ==> count[k] == Count(lens, k)
    ensures left == VerdictFrom(lens, 1)
  {
    hide CountIn;
    left := 1;
    var len := 1;
    while len <= MAXBITS
      invariant 1 <= len <= MAXBITS + 1 && left == Left(lens, len - 1)
      invariant VerdictFrom(lens, 1) == if len <= MAXBITS then VerdictFrom(lens, len) else left
    {
      left := 2 * left - count[len];
      if left < 0 { return; }
      len := len + 1;
    }
  }

  lemma FirstOffset(lens: seq<nat>)
    ensures Offset(lens, 1) == 0
  {
  }

  lemma NextOffset(lens: seq<nat>, k: nat)
    requires k >= 1
    ensures Offset(lens, k + 1) == Offset(lens, k) + Count(lens, k)
  {
    hide Count;
  }

  method Offsets(lens: seq<nat>, count: array<nat>) returns (offs: array<nat>)
    requires count.Length == MAXBITS + 1 && forall k :: 0 <= k <= MAXBITS ==> count[k] == Count(lens, k)
    ensures fresh(offs) && offs.Length == MAXBITS + 1
    ensures forall k :: 1 <= k <= MAXBITS ==> offs[k] == Offset(lens, k)
  {
    hide Count, Offset;
    offs := new nat[MAXBITS + 1](_ => 0);
    FirstOffset(lens);
    var len := 1;
    while len < MAXBITS
      invariant 1 <= len <= MAXBITS
      invariant forall k :: 1 <= k <= len ==> offs[k] == Offset(lens, k)
    {
      NextOffset(lens, len);
      offs[len + 1] := offs[len] + count[len];
      len := len + 1;
    }
  }

  /** Symbols by length, in symbol order within each length. */
  method SortSymbols(lens: seq<nat>, offs: array<nat>) returns (symbol: array<nat>)
    requires LengthsOk(lens) && offs.Length == MAXBITS + 1
    requires forall k :: 1 <= k <= MAXBITS ==> offs[k] == Offset(lens, k)
    modifies offs
    ensures fresh(symbol) && forall s: nat :: Placed(symbol[..], lens, s)
  {
    hide Offset, CountIn, Place;
    symbol := new nat[|lens|];
    var s := 0;
    NoneCounted(lens);
    while s < |lens|
      invariant 0 <= s <= |lens| && symbol.Length == |lens|
      invariant forall k :: 1 <= k <= MAXBITS ==> offs[k] == Offset(lens, k) + CountIn(lens, s, k)
      invariant forall t :: 0 <= t < s && lens[t] > 0 ==> Place(lens, t) < |lens| && symbol[Place(lens, t)] == t
    {
      if lens[s] != 0 {
        PlaceInRange(lens, s);
        PlaceIs(lens, s);
        forall t | 0 <= t < s && lens[t] > 0 ensures Place(lens, t) != Place(lens, s) { PlacesDiffer(lens, s, t); }
        symbol[offs[lens[s]]] := s;
        offs[lens[s]] := offs[lens[s]] + 1;
      }
      OneCounted(lens, s);
      s := s + 1;
    }
    AllPlaced(symbol[..], lens);
  }

  lemma NoneCounted(lens: seq<nat>)
    ensures forall k :: CountIn(lens, 0, k) == 0
  {
  }

  lemma OneCounted(lens: seq<nat>, s: nat)
    requires s < |lens|
    ensures forall k :: CountIn(lens, s + 1, k) == CountIn(lens, s, k) + if lens[s] == k then 1 else 0
  {
  }

  lemma PlaceIs(lens: seq<nat>, s: nat)
    requires s < |lens| && lens[s] > 0
    ensures Place(lens, s) == Offset(lens, lens[s]) + CountIn(lens, s, lens[s])
  {
    hide Offset, CountIn;
  }

  lemma AllPlaced(symbol: seq<nat>, lens: seq<nat>)
    requires |symbol| == |lens|
    requires forall t :: 0 <= t < |lens| && lens[t] > 0 ==> Place(lens, t) < |lens| && symbol[Place(lens, t)] == t
    ensures forall s: nat :: Placed(symbol, lens, s)
  {
    hide Offset, CountIn, Rank;
  }

  lemma {:induction false} AllZero(lens: seq<nat>, n: nat, s: nat)
    requires s < n <= |lens| && CountIn(lens, n, 0) == n
    ensures lens[s] == 0
  {
    if lens[s] > 0 { NotAllZero(lens, n, s); }
  }

  /** puff_construct: the return value is the verdict on the lengths, and unless it is negative the
      tables are those of the code. */
  method Construct(lens: seq<nat>) returns (t: Table, err: int)
    requires LengthsOk(lens)
    ensures err == Verdict(lens)
    ensures |t.count| == MAXBITS + 1 && forall k :: 0 <= k <= MAXBITS ==> t.count[k] == Count(lens, k)
    ensures err >= 0 ==> TableFor(t, lens)
  {
    hide CountIn, VerdictFrom, Placed;
    var count := CountLengths(lens);
    if count[0] == |lens| {
      t := Table(count[..], []);
      err := 0;
      forall s: nat ensures Placed(t.symbol, lens, s) { EmptyPlaced(lens, s); }
      return;
    }
    err := CheckLengths(lens, count);
    if err < 0 {
      t := Table(count[..], []);
      return;
    }
    var offs := Offsets(lens, count);
    var symbol := SortSymbols(lens, offs);
    t := Table(count[..], symbol[..]);
  }

  lemma {:induction false} EmptyPlaced(lens: seq<nat>, s: nat)
    requires Count(lens, 0) == |lens|
    ensures Placed([], lens, s)
  {
    if s < |lens| { AllZero(lens, |lens|, s); }
  }
}
