/** The memory allocator of the program generator: a two-level bitmap of 64-byte granules, kept
    equal to the set of granules in use. */
module Alloc {
  import opened Arith

  const GRANULE: nat := 64
  const L0: nat := 64
  const WORD: nat := 64
  const L1: nat := 64
  const SPAN: nat := L0 * WORD
  const TOTAL: nat := L1 * SPAN

  /** A 64-bit word as its bits. */
  type Word = w: seq<bool> | |w| == 64 witness seq(64, _ => false)

  const ZERO: Word := seq(64, _ => false)

  /** pos: the array, the word in it and the bit of the word. */
  function ArrayOf(idx: nat): (i: nat)
    requires idx < TOTAL
    ensures i < L1
  {
    idx / SPAN
  }

  function WordOf(idx: nat): (i: nat)
    ensures i < L0
  {
    idx % SPAN / WORD
  }

  function BitOf(idx: nat): (i: nat)
    ensures i < WORD
  {
    idx % SPAN % WORD
  }

  lemma PlacesDiffer(a: nat, b: nat)
    requires a < TOTAL && b < TOTAL && ArrayOf(a) == ArrayOf(b) && WordOf(a) == WordOf(b) && BitOf(a) == BitOf(b)
    ensures a == b
  {
    var x, y := a % SPAN, b % SPAN;
    assert x == WORD * (x / WORD) + x % WORD && y == WORD * (y / WORD) + y % WORD;
    assert a == SPAN * (a / SPAN) + x && b == SPAN * (b / SPAN) + y;
  }

  ghost predicate In(g: nat, start: nat, n: nat) { start <= g < start + n }

  /** n granules from start on. */
  ghost function Range(start: nat, n: nat): set<nat> { set g | start <= g < start + n && In(g, start, n) }

  /** Granules in use from `end` on are out of reach of the allocator. */
  ghost function Beyond(used: set<nat>, end: nat): set<nat> { set g | g in used && g >= end }

  class MemAlloc {
    const size: nat
    var mem: seq<array?<Word>>
    ghost var noted: set<nat>

    ghost function Arrays(): set<array<Word>>
      reads this
    {
      set a: array<Word> | a in mem
    }

    ghost predicate Shape()
      reads this, Arrays()
    {
      && |mem| == L1 && size <= TOTAL && size % SPAN == 0
      && (forall i :: 0 <= i < L1 && mem[i] != null ==> mem[i].Length == L0)
      && forall i, j :: 0 <= i < j < L1 && mem[i] != null ==> mem[i] != mem[j]
    }

    predicate Bit(i1: nat, i0: nat, bit: nat)
      requires Shape() && i1 < L1 && i0 < L0 && bit < WORD
      reads this, Arrays()
    {
      mem[i1] != null && mem[i1][i0][bit]
    }

    /** The bitmap marks exactly the noted granules. */
    ghost predicate Valid()
      reads this, Arrays()
    {
      && Shape() && (forall g :: g in noted ==> g < TOTAL)
      && forall g :: 0 <= g < TOTAL ==> (Bit(ArrayOf(g), WordOf(g), BitOf(g)) <==> g in noted)
    }

    lemma InBounds()
      requires Valid()
      ensures size <= TOTAL
    {
    }

    /** newMemAlloc. */
    constructor (totalMemSize: nat)
      requires totalMemSize <= TOTAL * GRANULE && totalMemSize % (SPAN * GRANULE) == 0
      ensures Valid() && size == totalMemSize / GRANULE && noted == {} && fresh(Arrays())
    {
      size := totalMemSize / GRANULE;
      var buf := new Word[L0](_ => ZERO);
      mem := [buf] + seq(L1 - 1, _ => null);
      noted := {};
      new;
      assert size == SPAN * (totalMemSize / (SPAN * GRANULE));
    }

    method SetBit(i1: nat, i0: nat, bit: nat)
      requires Shape() && i1 < L1 && i0 < L0 && bit < WORD
      modifies `mem, Arrays()
      ensures Shape() && fresh(Arrays() - old(Arrays()))
      ensures forall j1, j0, b :: 0 <= j1 < L1 && 0 <= j0 < L0 && 0 <= b < WORD ==>
        (Bit(j1, j0, b) <==> old(Bit(j1, j0, b)) || (j1 == i1 && j0 == i0 && b == bit))
    {
      if mem[i1] == null {
        var a := new Word[L0](_ => ZERO);
        mem := mem[i1 := a];
      }
      var w := mem[i1];
      w[i0] := w[i0][bit := true];
    }

    /** set. */
    method Set(idx: nat)
      requires Valid() && idx < TOTAL
      modifies this, Arrays()
      ensures Valid() && noted == old(noted) + {idx} && fresh(Arrays() - old(Arrays()))
    {
      hide ArrayOf, WordOf, BitOf;
      SetBit(ArrayOf(idx), WordOf(idx), BitOf(idx));
      noted := noted + {idx};
      forall g | 0 <= g < TOTAL ensures Bit(ArrayOf(g), WordOf(g), BitOf(g)) <==> g in noted {
        if ArrayOf(g) == ArrayOf(idx) && WordOf(g) == WordOf(idx) && BitOf(g) == BitOf(idx) { PlacesDiffer(g, idx); }
      }
    }

    /** get. */
    predicate Get(idx: nat): (b: bool)
      requires Valid() && idx < TOTAL
      reads this, Arrays()
      ensures b <==> idx in noted
    {
      var i1, i0, bit := ArrayOf(idx), WordOf(idx), BitOf(idx);
      assert Bit(i1, i0, bit) <==> idx in noted;
      mem[i1] != null && mem[i1][i0][bit]
    }

    /** noteAlloc: every granule that holds one of the bytes. */
    method NoteAlloc(addr0: nat, size0: nat)
      requires Valid() && addr0 + size0 <= TOTAL * GRANULE
      modifies this, Arrays()
      ensures Valid()
      ensures noted == old(noted) + Range(addr0 / GRANULE, (addr0 + size0 + GRANULE - 1) / GRANULE - addr0 / GRANULE)
      ensures fresh(Arrays() - old(Arrays()))
    {
      hide Shape;
      var addr := addr0 / GRANULE;
      var n := (addr0 + size0 + GRANULE - 1) / GRANULE - addr;
      ghost var was := noted;
      for i := 0 to n
        invariant Valid() && noted == was + Range(addr, i) && fresh(Arrays() - old(Arrays()))
      {
        Set(addr + i);
        RangeNext(addr, i);
      }
    }

    method ZeroArray(i1: nat)
      requires Shape() && i1 < L1
      modifies Arrays()
      ensures Shape()
      ensures forall j1, j0, b :: 0 <= j1 < L1 && 0 <= j0 < L0 && 0 <= b < WORD ==>
        (Bit(j1, j0, b) <==> j1 != i1 && old(Bit(j1, j0, b)))
    {
      if mem[i1] == null { return; }
      var a := mem[i1];
      assert a in Arrays();
      for i0 := 0 to L0
        modifies a
        invariant forall j :: 0 <= j < i0 ==> a[j] == ZERO
      {
        a[i0] := ZERO;
      }
    }

    method ZeroArrays(n: nat)
      requires Shape() && n <= L1
      modifies Arrays()
      ensures Shape()
      ensures forall j1, j0, b :: 0 <= j1 < L1 && 0 <= j0 < L0 && 0 <= b < WORD ==>
        (Bit(j1, j0, b) <==> j1 >= n && old(Bit(j1, j0, b)))
    {
      hide Bit;
      for i1 := 0 to n
        invariant Shape()
        invariant forall j1, j0, b :: 0 <= j1 < L1 && 0 <= j0 < L0 && 0 <= b < WORD ==>
          (Bit(j1, j0, b) <==> j1 >= i1 && old(Bit(j1, j0, b)))
      {
        ZeroArray(i1);
      }
    }

    /** bankruptcy: all of memory is free again. */
    method Bankruptcy()
      requires Valid()
      modifies this, Arrays()
      ensures Valid() && noted == Beyond(old(noted), size) && mem == old(mem)
    {
      hide WordOf, BitOf;
      ZeroArrays(size / SPAN);
      noted := Beyond(noted, size);
      forall g | 0 <= g < TOTAL ensures Bit(ArrayOf(g), WordOf(g), BitOf(g)) <==> g in noted {
        Spans(g, size);
      }
    }

    /** Is a run of granules free? The scan stops at the first one in use. */
    method Empty(start: nat, n: nat) returns (empty: bool)
      requires Valid() && start + n <= TOTAL
      ensures empty <==> noted !! Range(start, n)
    {
      hide Valid;
      for i := 0 to n
        invariant Valid() && noted !! Range(start, i)
      {
        RangeNext(start, i);
        if Get(start + i) {
          InRange(start, n, start + i);
          return false;
        }
      }
      return true;
    }

    /** alloc: the first aligned run of free granules; if there is none, everything is freed and the
        object goes to the start of memory, so that the recursive call is the last. */
    method Alloc(size0: nat, alignment0: nat) returns (r: nat)
      requires Valid() && size > 0 && size0 <= size * GRANULE
      modifies this, Arrays()
      ensures Valid() && fresh(Arrays() - old(Arrays())) && r % GRANULE == 0
      ensures old(HasPlace(noted, size, Needed(size0), Needed(alignment0))) ==>
        && FirstPlace(old(noted), size, Needed(size0), Needed(alignment0), r / GRANULE)
        && noted == old(noted) + Range(r / GRANULE, Needed(size0))
      ensures !old(HasPlace(noted, size, Needed(size0), Needed(alignment0))) ==>
        r == 0 && noted == Beyond(old(noted), size) + Range(0, Needed(size0))
      decreases if HasPlace(noted, size, Needed(size0), Needed(alignment0)) then 0 else 1
    {
      InBounds();
      hide Valid, Place, HasPlace;
      var n, alignment := Needed(size0), Needed(alignment0);
      NeededFits(size0, size);
      var found, start := Search(n, alignment);
      if found {
        NotedRange(start, size0);
        NoteAlloc(start * GRANULE, if size0 == 0 then 1 else size0);
        return start * GRANULE;
      }
      ghost var was := noted;
      Bankruptcy();
      StartFree(was, size, n, alignment);
      r := Alloc(size0, alignment0);
    }

    /** The scan of alloc over aligned starts. */
    method Search(n: nat, alignment: nat) returns (found: bool, start: nat)
      requires Valid() && 0 < n <= size && alignment > 0
      ensures found ==>
        FirstPlace(noted, size, n, alignment, start) && HasPlace(noted, size, n, alignment) && start + n <= size
      ensures !found ==> !HasPlace(noted, size, n, alignment)
    {
      InBounds();
      hide Valid, Place;
      var end := size - n;
      start := 0;
      while start <= end
        invariant Valid() && start % alignment == 0
        invariant forall t :: 0 <= t < start ==> !Place(noted, size, n, alignment, t)
        decreases end + 1 - start
      {
        var empty := Empty(start, n);
        PlaceHere(noted, size, n, alignment, start);
        if empty { return true, start; }
        NextPlace(noted, size, n, alignment, start);
        start := start + alignment;
      }
      NoPlace(noted, size, n, alignment, start);
      found := false;
    }
  }

  /** Granules for so many bytes; none counts as one. */
  function Needed(bytes: nat): (n: nat)
    ensures n >= 1
  {
    var b := if bytes == 0 then 1 else bytes;
    (b + GRANULE - 1) / GRANULE
  }

  /** The fewest granules of 64 bytes that hold so many bytes, and at least one. */
  lemma NeededIff(bytes: nat, m: nat)
    ensures m >= Needed(bytes) <==> m >= 1 && 64 * m >= bytes
  {
  }

  /** n granules from s on are aligned, within memory and free. */
  ghost predicate Place(used: set<nat>, end: nat, n: nat, align: nat, s: nat)
    requires align > 0
  {
    s % align == 0 && s + n <= end && used !! Range(s, n)
  }

  ghost predicate HasPlace(used: set<nat>, end: nat, n: nat, align: nat)
    requires align > 0
  {
    exists s: nat :: Place(used, end, n, align, s)
  }

  ghost predicate FirstPlace(used: set<nat>, end: nat, n: nat, align: nat, s: nat)
    requires align > 0
  {
    Place(used, end, n, align, s) && forall t :: 0 <= t < s ==> !Place(used, end, n, align, t)
  }

  lemma Spans(g: nat, size: nat)
    requires g < TOTAL && size % SPAN == 0
    ensures ArrayOf(g) >= size / SPAN <==> g >= size
  {
    assert size == SPAN * (size / SPAN) && g == SPAN * (g / SPAN) + g % SPAN;
  }

  lemma InRange(start: nat, n: nat, g: nat)
    requires start <= g < start + n
    ensures g in Range(start, n)
  {
    assert In(g, start, n);
  }

  lemma RangeNext(start: nat, n: nat)
    ensures Range(start, n + 1) == Range(start, n) + {start + n}
  {
    assert In(start + n, start, n + 1);
  }

  lemma NeededFits(size0: nat, size: nat)
    requires size > 0 && size0 <= size * GRANULE
    ensures Needed(size0) <= size
  {
  }

  /** The granules of an object placed at the start of one. */
  lemma NotedRange(start: nat, size0: nat)
    ensures var bytes := if size0 == 0 then 1 else size0;
      start * GRANULE / GRANULE == start && (start * GRANULE + bytes + GRANULE - 1) / GRANULE - start == Needed(size0)
      && bytes <= Needed(size0) * GRANULE
  {
  }

  lemma PlaceHere(used: set<nat>, end: nat, n: nat, align: nat, s: nat)
    requires align > 0 && s % align == 0 && s + n <= end
    ensures Place(used, end, n, align, s) <==> used !! Range(s, n)
  {
  }

  /** Between two neighbouring multiples there is no place. */
  lemma NextPlace(used: set<nat>, end: nat, n: nat, align: nat, s: nat)
    requires align > 0 && s % align == 0 && !Place(used, end, n, align, s)
    ensures (s + align) % align == 0 && forall t :: s <= t < s + align ==> !Place(used, end, n, align, t)
  {
    NextMultiple(s, align);
    forall t | s < t < s + align ensures t % align != 0 { BetweenMultiples(s, align, t); }
  }

  lemma NextMultiple(s: nat, align: nat)
    requires align > 0 && s % align == 0
    ensures (s + align) % align == 0
  {
    var q := s / align;
    assert s + align == (q + 1) * align;
    DivModUnique(s + align, align, q + 1, 0);
  }

  lemma BetweenMultiples(s: nat, align: nat, t: nat)
    requires align > 0 && s % align == 0 && s < t < s + align
    ensures t % align == t - s
  {
    var q := s / align;
    assert s == q * align;
    DivModUnique(t, align, q, t - s);
  }

  lemma NoPlace(used: set<nat>, end: nat, n: nat, align: nat, s: nat)
    requires align > 0 && s + n > end && forall t :: 0 <= t < s ==> !Place(used, end, n, align, t)
    ensures !HasPlace(used, end, n, align)
  {
  }

  /** After a bankruptcy the start of memory is free. */
  lemma StartFree(used: set<nat>, end: nat, n: nat, align: nat)
    requires align > 0 && n <= end
    ensures HasPlace(Beyond(used, end), end, n, align)
    ensures forall s: nat :: FirstPlace(Beyond(used, end), end, n, align, s) ==> s == 0
  {
    assert Place(Beyond(used, end), end, n, align, 0);
  }

  // ----- alignment in bytes -----

  /** Rounding the alignment to granules is enough if it divides the rounded one. */
  lemma AlignedBytes(a: nat, s: nat)
    requires a > 0 && GRANULE * Needed(a) % a == 0 && s % Needed(a) == 0
    ensures GRANULE * s % a == 0
  {
    var n := Needed(a);
    var q, k := s / n, GRANULE * n / a;
    assert s == q * n;
    assert GRANULE * n == k * a;
    assert GRANULE * s == (q * k) * a by { assert GRANULE * s == q * (GRANULE * n) == q * (k * a); }
    DivModUnique(GRANULE * s, a, q * k, 0);
  }

  /** It does for every power of two. */
  lemma SmallPowers()
    ensures Pow2(0) == 1 && Pow2(1) == 2 && Pow2(2) == 4 && Pow2(3) == 8
    ensures Pow2(4) == 16 && Pow2(5) == 32 && Pow2(6) == 64
  {
    hide Pow2;
    Pow2Next(0);
    Pow2Next(1);
    Pow2Next(2);
    Pow2Next(3);
    Pow2Next(4);
    Pow2Next(5);
  }

  lemma {:induction false} PowersDivide(k: nat)
    ensures GRANULE * Needed(Pow2(k)) % Pow2(k) == 0
  {
    hide Pow2;
    SmallPowers();
    if k > 6 {
      Pow2Add(6, k - 6);
      var m := Pow2(k - 6);
      assert Pow2(k) == 64 * m && Needed(64 * m) == m;
      DivModUnique(64 * m, 64 * m, 1, 0);
    }
  }

  /** The alignments that rounding to granules preserves. */
  predicate Granular(a: nat)
    requires a > 0
  {
    GRANULE % a == 0 || a % GRANULE == 0
  }

  /** A rounded alignment is a multiple of the alignment exactly for these. */
  lemma GranularIff(a: nat)
    requires a > 0
    ensures Granular(a) <==> GRANULE * Needed(a) % a == 0
  {
    var n := Needed(a);
    if a > GRANULE {
      assert a <= GRANULE * n < a + GRANULE;
      if GRANULE * n == a {
        DivModUnique(GRANULE * n, a, 1, 0);
      } else {
        DivModUnique(GRANULE * n, a, 1, GRANULE * n - a);
      }
    }
  }

  /** An alignment is met at every aligned granule if and only if it divides 64 or 64 divides it. */
  lemma AlignedIff(a: nat)
    requires a > 0
    ensures (forall s: nat :: s % Needed(a) == 0 ==> GRANULE * s % a == 0) <==> Granular(a)
  {
    hide Granular;
    GranularIff(a);
    if GRANULE * Needed(a) % a == 0 {
      forall s: nat | s % Needed(a) == 0 ensures GRANULE * s % a == 0 { AlignedBytes(a, s); }
    } else {
      assert Needed(a) % Needed(a) == 0;
    }
  }

  /** With the first granule in use, the first place is the first multiple of the alignment. */
  lemma SecondPlace(end: nat, align: nat)
    requires align > 0 && align < end
    ensures FirstPlace({0}, end, 1, align, align)
  {
    RangeNext(align, 0);
    assert Range(align, 0) == {};
    DivModUnique(align, align, 1, 0);
    forall t | 0 <= t < align ensures !Place({0}, end, 1, align, t) {
      if t == 0 { InRange(0, 1, 0); } else { DivModUnique(t, align, 0, t); }
    }
  }

  /** The second object of a fresh allocator: its alignment is met if and only if it divides 64 or 64
      divides it. */
  method SecondObject(totalMemSize: nat, a: nat) returns (r: nat)
    requires totalMemSize <= TOTAL * GRANULE && totalMemSize % (SPAN * GRANULE) == 0
    requires a > 0 && Needed(a) < totalMemSize / GRANULE
    ensures r % a == 0 <==> Granular(a)
  {
    var ma := new MemAlloc(totalMemSize);
    hide MemAlloc.Valid, Granular, Place, HasPlace;
    var n := ma.size;
    FirstObject(n);
    var first := ma.Alloc(1, 1);
    assert ma.noted == {0};
    SecondPlace(n, Needed(a));
    HasFirst({0}, n, 1, Needed(a), Needed(a));
    r := ma.Alloc(1, a);
    FirstIsOne({0}, n, 1, Needed(a), Needed(a), r / GRANULE);
    assert r == GRANULE * Needed(a);
    GranularIff(a);
  }

  lemma FirstObject(end: nat)
    requires end > 0
    ensures Needed(1) == 1 && Range(0, 1) == {0} && FirstPlace({}, end, 1, 1, 0) && HasPlace({}, end, 1, 1)
    ensures forall s: nat :: FirstPlace({}, end, 1, 1, s) ==> s == 0
  {
    RangeNext(0, 0);
    assert Range(0, 0) == {};
    assert Place({}, end, 1, 1, 0);
  }

  lemma HasFirst(used: set<nat>, end: nat, n: nat, align: nat, s: nat)
    requires align > 0 && FirstPlace(used, end, n, align, s)
    ensures HasPlace(used, end, n, align)
  {
    assert Place(used, end, n, align, s);
  }

  lemma FirstIsOne(used: set<nat>, end: nat, n: nat, align: nat, s: nat, t: nat)
    requires align > 0 && FirstPlace(used, end, n, align, s) && FirstPlace(used, end, n, align, t)
    ensures s == t
  {
  }

  /** So 96 bytes is not met where 192 is. */
  lemma SomeAlignments()
    ensures !Granular(96) && Granular(192)
  {
  }

  /** What alloc returns is aligned for every power of two, within memory and clear of what was noted. */
  lemma {:induction false} PlaceInBytes(used: set<nat>, end: nat, size0: nat, k: nat, s: nat, byte: nat)
    requires Place(used, end, Needed(size0), Needed(Pow2(k)), s) && GRANULE * s <= byte < GRANULE * s + size0
    ensures GRANULE * s % Pow2(k) == 0 && byte < GRANULE * end && byte / GRANULE !in used
  {
    PowersDivide(k);
    AlignedBytes(Pow2(k), s);
    InRange(s, Needed(size0), byte / GRANULE);
  }
}
