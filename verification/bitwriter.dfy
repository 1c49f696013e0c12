/** Bits written to a stream, and the bytes that hold them. */
module BitWriter {
  import opened Common
  import opened Arith
  import opened BitStream
  import opened Huffman

  type Bit = b: nat | b < 2
  type Bits = seq<Bit>

  /** The bits stand at position pos of the stream. */
  ghost predicate Stand(input: seq<Byte>, pos: nat, bits: Bits) {
    pos + |bits| <= 8 * |input| && forall k :: 0 <= k < |bits| ==> BitAt(input, pos + k) == bits[k]
  }

  lemma StandSplit(input: seq<Byte>, pos: nat, a: Bits, b: Bits)
    requires Stand(input, pos, a + b)
    ensures Stand(input, pos, a) && Stand(input, pos + |a|, b)
  {
    hide BitAt;
    forall k | 0 <= k < |a| ensures BitAt(input, pos + k) == a[k] { assert (a + b)[k] == a[k]; }
    forall k | 0 <= k < |b| ensures BitAt(input, pos + |a| + k) == b[k] {
      assert (a + b)[|a| + k] == b[k];
      assert BitAt(input, pos + (|a| + k)) == (a + b)[|a| + k];
    }
  }

  // ----- numbers -----

  /** A number of n bits, least significant first. */
  function Lsb(v: nat, n: nat): (r: Bits)
    ensures |r| == n
    decreases n
  {
    if n == 0 then [] else [v % 2] + Lsb(v / 2, n - 1)
  }

  lemma {:induction false} LsbRead(input: seq<Byte>, pos: nat, v: nat, n: nat)
    requires v < Pow2(n) && Stand(input, pos, Lsb(v, n))
    ensures Take(input, pos, n) == v
    decreases n
  {
    hide Pow2, BitAt, Take, Stand;
    if n == 0 {
      Pow2Next(0);
      StandFits(input, pos, Lsb(v, n));
      TakeNone(input, pos);
    } else {
      Pow2Next(n - 1);
      StandFits(input, pos, Lsb(v, n));
      StandSplit(input, pos, [v % 2], Lsb(v / 2, n - 1));
      LsbRead(input, pos + 1, v / 2, n - 1);
      TakeNext(input, pos, n);
      OneBit(input, pos, v % 2);
    }
  }

  lemma StandFits(input: seq<Byte>, pos: nat, bits: Bits)
    requires Stand(input, pos, bits)
    ensures pos + |bits| <= 8 * |input|
  {
  }

  lemma OneBit(input: seq<Byte>, pos: nat, b: Bit)
    requires Stand(input, pos, [b])
    ensures pos < 8 * |input| && BitAt(input, pos) == b
  {
    hide BitAt;
    assert BitAt(input, pos + 0) == [b][0];
  }

  /** A number of n bits, most significant first: how codes are written. */
  function MsbBits(c: nat, n: nat): (r: Bits)
    ensures |r| == n
    decreases n
  {
    if n == 0 then [] else MsbBits(c / 2, n - 1) + [c % 2]
  }

  lemma {:induction false} MsbRead(input: seq<Byte>, pos: nat, c: nat, n: nat)
    requires c < Pow2(n) && Stand(input, pos, MsbBits(c, n))
    ensures pos + n <= 8 * |input| && Msb(input, pos, n) == c
    decreases n
  {
    hide Pow2, BitAt, Stand;
    StandFits(input, pos, MsbBits(c, n));
    if n == 0 {
      Pow2Next(0);
    } else {
      Pow2Next(n - 1);
      StandSplit(input, pos, MsbBits(c / 2, n - 1), [c % 2]);
      MsbRead(input, pos, c / 2, n - 1);
      OneBit(input, pos + n - 1, c % 2);
    }
  }

  // ----- symbols -----

  /** A code one can write with: no length over 15, and not over-subscribed. */
  ghost predicate Usable(lens: seq<nat>) { LengthsOk(lens) && Verdict(lens) >= 0 }

  /** The symbol has a code. */
  predicate Has(lens: seq<nat>, s: nat) { s < |lens| && lens[s] > 0 }

  function SymbolBits(lens: seq<nat>, s: nat): (r: Bits)
    requires s < |lens|
    ensures |r| == lens[s]
  {
    MsbBits(Code(lens, s), lens[s])
  }

  /** A symbol written with a usable code is the symbol decoded. */
  lemma SymbolRead(lens: seq<nat>, input: seq<Byte>, pos: nat, s: nat)
    requires Usable(lens) && Has(lens, s) && Stand(input, pos, SymbolBits(lens, s))
    ensures Decode(lens, input, pos) == Symbol(s, pos + lens[s]) && pos + lens[s] <= 8 * |input|
  {
    hide Stand, Code, Verdict, MsbBits, Msb, Decode;
    CodeFits(lens, s);
    MsbRead(input, pos, Code(lens, s), lens[s]);
    DecodesItsCode(lens, input, pos, s);
  }

  // ----- bytes -----

  function ByteBits(data: seq<Byte>): (r: Bits)
    ensures |r| == 8 * |data|
  {
    if data == [] then [] else Lsb(data[0], 8) + ByteBits(data[1..])
  }

  /** Bytes written at a byte boundary are bytes of the stream. */
  lemma {:induction false} BytesRead(input: seq<Byte>, i: nat, data: seq<Byte>)
    requires Stand(input, 8 * i, ByteBits(data))
    ensures i + |data| <= |input| && input[i..i + |data|] == data
    decreases |data|
  {
    hide Stand, Lsb, Take;
    StandFits(input, 8 * i, ByteBits(data));
    if data != [] {
      StandSplit(input, 8 * i, Lsb(data[0], 8), ByteBits(data[1..]));
      assert 8 * i + 8 == 8 * (i + 1);
      BytesRead(input, i + 1, data[1..]);
      Pow2Of8();
      LsbRead(input, 8 * i, data[0], 8);
      TakeByte(input, i);
      assert input[i..i + |data|] == [input[i]] + input[i + 1..i + 1 + |data[1..]|];
    }
  }

  // ----- packing -----

  function Number(bits: Bits): (v: nat)
    ensures v < Pow2(|bits|)
  {
    if bits == [] then 0 else bits[0] + 2 * Number(bits[1..])
  }

  lemma {:induction false} NumberBit(bits: Bits, j: nat)
    requires j < |bits|
    ensures (Number(bits) / Pow2(j)) % 2 == bits[j]
    decreases j
  {
    hide Pow2, Number;
    NumberNext(bits);
    if j == 0 {
      Pow2Next(0);
    } else {
      NumberBit(bits[1..], j - 1);
      Pow2Next(j - 1);
      HalfThenDiv(Number(bits), Pow2(j - 1));
    }
  }

  lemma NumberNext(bits: Bits)
    requires bits != []
    ensures Number(bits) % 2 == bits[0] && Number(bits) / 2 == Number(bits[1..])
  {
    hide Pow2;
  }

  lemma HalfThenDiv(x: nat, p: nat)
    requires p > 0
    ensures x / (2 * p) == x / 2 / p
  {
    var y := x / 2;
    var q, r := y / p, y % p;
    DivMod(y, p);
    assert q * (2 * p) == 2 * (q * p);
    DivModUnique(x, 2 * p, q, 2 * r + x % 2);
  }

  /** Eight bits a byte, the last byte filled up with zeros. */
  function Pack(bits: Bits): (r: seq<Byte>)
    ensures |r| == (|bits| + 7) / 8
  {
    if bits == [] then []
    else if |bits| < 8 then
      assert Number(bits) < 256 by { Pow2Mono(|bits|, 8); Pow2Of8(); }
      [Number(bits)]
    else
      assert Number(bits[..8]) < 256 by { Pow2Of8(); }
      [Number(bits[..8])] + Pack(bits[8..])
  }

  lemma {:induction false} PackBit(bits: Bits, k: nat)
    requires k < |bits|
    ensures BitAt(Pack(bits), k) == bits[k]
    decreases |bits|
  {
    hide Pow2, Number, BitAt;
    if |bits| < 8 {
      FirstByteBit(Pack(bits), bits, k);
    } else if k < 8 {
      FirstByteBit(Pack(bits), bits[..8], k);
    } else {
      PackBit(bits[8..], k - 8);
      NextByteBit(Pack(bits), Pack(bits[8..]), k);
    }
  }

  lemma FirstByteBit(input: seq<Byte>, bits: Bits, k: nat)
    requires k < |bits| <= 8 && input != [] && input[0] == Number(bits)
    ensures BitAt(input, k) == bits[k]
  {
    hide Pow2, Number;
    InByte(0, k);
    NumberBit(bits, k);
  }

  lemma NextByteBit(input: seq<Byte>, rest: seq<Byte>, k: nat)
    requires input != [] && input[1..] == rest && 8 <= k < 8 * |input|
    ensures BitAt(input, k) == BitAt(rest, k - 8)
  {
    hide Pow2;
    assert k / 8 == (k - 8) / 8 + 1 && k % 8 == (k - 8) % 8;
    assert input[k / 8] == rest[(k - 8) / 8];
  }

  lemma Packed(bits: Bits)
    ensures Stand(Pack(bits), 0, bits)
  {
    hide BitAt, Pack;
    forall k | 0 <= k < |bits| ensures BitAt(Pack(bits), 0 + k) == bits[k] { PackBit(bits, k); }
  }
}
