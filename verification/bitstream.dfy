/** Bytes as one stream of bits, least significant first (section 3.1.1 of RFC 1951). */
module BitStream {
  import opened Common
  import opened Arith

  function BitAt(input: seq<Byte>, k: nat): (b: nat)
    requires k < 8 * |input|
    ensures b < 2
  {
    (input[k / 8] / Pow2(k % 8)) % 2
  }

  /** n bits from position pos as a number, first bit least significant. */
  function Take(input: seq<Byte>, pos: nat, n: nat): nat
    requires pos + n <= 8 * |input|
    decreases n
  {
    if n == 0 then 0 else BitAt(input, pos) + 2 * Take(input, pos + 1, n - 1)
  }

  /** n bits from position pos as a number, first bit most significant: how codes are packed. */
  function Msb(input: seq<Byte>, pos: nat, n: nat): nat
    requires pos + n <= 8 * |input|
    decreases n
  {
    if n == 0 then 0 else 2 * Msb(input, pos, n - 1) + BitAt(input, pos + n - 1)
  }

  lemma {:induction false} TakeBound(input: seq<Byte>, pos: nat, n: nat)
    requires pos + n <= 8 * |input|
    ensures Take(input, pos, n) < Pow2(n)
    decreases n
  {
    if n > 0 { TakeBound(input, pos + 1, n - 1); }
  }

  lemma {:induction false} MsbBound(input: seq<Byte>, pos: nat, n: nat)
    requires pos + n <= 8 * |input|
    ensures Msb(input, pos, n) < Pow2(n)
    decreases n
  {
    if n > 0 { MsbBound(input, pos, n - 1); }
  }

  /** Reading a + b bits is reading a bits, then b more. */
  lemma {:induction false} TakeSplit(input: seq<Byte>, pos: nat, a: nat, b: nat)
    requires pos + a + b <= 8 * |input|
    ensures Take(input, pos, a + b) == Take(input, pos, a) + Pow2(a) * Take(input, pos + a, b)
    decreases a
  {
    hide Take, Pow2, BitAt;
    if a == 0 {
      TakeNone(input, pos);
      Pow2Next(0);
    } else {
      TakeSplit(input, pos + 1, a - 1, b);
      TakeNext(input, pos, a + b);
      TakeNext(input, pos, a);
      Pow2Next(a - 1);
      DoubleMul(Pow2(a - 1), Take(input, pos + a, b));
    }
  }

  lemma TakeNone(input: seq<Byte>, pos: nat)
    requires pos <= 8 * |input|
    ensures Take(input, pos, 0) == 0
  {
  }

  lemma TakeNext(input: seq<Byte>, pos: nat, n: nat)
    requires 0 < n && pos + n <= 8 * |input|
    ensures Take(input, pos, n) == BitAt(input, pos) + 2 * Take(input, pos + 1, n - 1)
  {
    hide BitAt;
  }

  lemma Pow2Of8()
    ensures Pow2(8) == 256
  {
    assert Pow2(4) == 16;
  }

  /** The bits of a byte from bit j up are the byte shifted right by j. */
  lemma {:induction false} TakeInByte(input: seq<Byte>, i: nat, j: nat)
    requires i < |input| && j <= 8
    ensures Take(input, 8 * i + j, 8 - j) == input[i] / Pow2(j)
    decreases 8 - j
  {
    hide Take, Pow2;
    if j == 8 {
      Pow2Of8();
      TakeNone(input, 8 * i + 8);
    } else {
      TakeInByte(input, i, j + 1);
      TakeNext(input, 8 * i + j, 8 - j);
      HalveDiv(input[i], j);
      InByte(i, j);
    }
  }

  lemma InByte(i: nat, j: nat)
    requires j < 8
    ensures (8 * i + j) / 8 == i && (8 * i + j) % 8 == j
  {
  }

  lemma {:induction false} HalveDiv(x: nat, j: nat)
    ensures x / Pow2(j) == (x / Pow2(j)) % 2 + 2 * (x / Pow2(j + 1))
  {
    hide Pow2;
    Pow2Next(j);
    var p := Pow2(j);
    var y, r := x / p, x % p;
    var z, b := y / 2, y % 2;
    assert x == y * p + r by { assert x == p * y + r; }
    assert y * p == z * (2 * p) + b * p;
    assert 0 <= b * p + r < 2 * p by { if b == 1 { assert b * p == p; } else { assert b * p == 0; } }
    DivModUnique(x, 2 * p, z, b * p + r);
  }

  lemma {:induction false} TakeByte(input: seq<Byte>, i: nat)
    requires i < |input|
    ensures Take(input, 8 * i, 8) == input[i]
  {
    hide BitAt, Take, Pow2;
    Pow2Next(0);
    TakeInByte(input, i, 0);
  }

  /** Dropping the first n bits of a + n. */
  lemma {:induction false} TakeDrop(input: seq<Byte>, pos: nat, n: nat, b: nat)
    requires pos + n + b <= 8 * |input|
    ensures Take(input, pos, n + b) % Pow2(n) == Take(input, pos, n)
    ensures Take(input, pos, n + b) / Pow2(n) == Take(input, pos + n, b)
  {
    hide Take, Pow2;
    TakeSplit(input, pos, n, b);
    TakeBound(input, pos, n);
    var t := Take(input, pos + n, b);
    assert t * Pow2(n) == Pow2(n) * t;
    DivModUnique(Take(input, pos, n + b), Pow2(n), t, Take(input, pos, n));
  }
}
