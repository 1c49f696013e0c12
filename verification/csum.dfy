/** The Internet checksum of the executor, against the one's complement sum of section 1 of RFC 1071. */
module Csum {
  import opened Common
  import opened Arith

  const TWO32: nat := 0x1_0000_0000
  const MAX_CHUNK: nat := 131072

  function Word(lo: nat, hi: nat): nat { lo + 256 * hi }

  /** The sum of the 16-bit words of data, low byte first; a last odd byte counts as a word. */
  function WordSum(data: seq<Byte>): nat {
    if |data| == 0 then 0
    else if |data| == 1 then data[0]
    else Word(data[0], data[1]) + WordSum(data[2..])
  }

  /** Carries are added back in until 16 bits are enough. */
  function Fold(x: nat): (r: nat)
    ensures r <= 0xFFFF
  {
    if x <= 0xFFFF then x else Fold(x % 0x1_0000 + x / 0x1_0000)
  }

  /** What is left of a sum in 32 bits. */
  function Wrap(x: nat): (r: nat)
    ensures r < TWO32
  {
    x % TWO32
  }

  lemma WrapAdd(x: nat, v: nat)
    ensures Wrap(Wrap(x) + v) == Wrap(x + v)
  {
  }

  lemma WrapSmall(x: nat)
    requires x < TWO32
    ensures Wrap(x) == x
  {
  }

  /** The checksum of a whole message, computed without bounds. */
  function Digest(data: seq<Byte>): nat { 0xFFFF - Fold(WordSum(data)) }

  // ----- folding is reduction modulo 0xFFFF -----

  lemma {:induction false} FoldIs(x: nat)
    ensures Fold(x) == if x == 0 then 0 else (x - 1) % 0xFFFF + 1
    decreases x
  {
    if x > 0xFFFF {
      var lo, hi := x % 0x1_0000, x / 0x1_0000;
      FoldIs(lo + hi);
      assert x - 1 == (lo + hi - 1) + 0xFFFF * hi;
      DropMultiple(lo + hi - 1, hi);
    }
  }

  lemma DropMultiple(y: nat, k: nat)
    ensures (y + 0xFFFF * k) % 0xFFFF == y % 0xFFFF
  {
    DivModUnique(y + 0xFFFF * k, 0xFFFF, y / 0xFFFF + k, y % 0xFFFF);
  }

  /** Folding early does not change the sum. */
  lemma {:induction false} FoldAdd(x: nat, y: nat)
    ensures Fold(Fold(x) + y) == Fold(x + y)
  {
    FoldIs(x);
    FoldIs(x + y);
    FoldIs(Fold(x) + y);
    if x > 0 {
      var q := (x - 1) / 0xFFFF;
      assert x == Fold(x) + 0xFFFF * q;
      DropMultiple(Fold(x) + y - 1, q);
    }
  }

  // ----- sums of parts -----

  lemma {:induction false} WordSumConcat(s: seq<Byte>, t: seq<Byte>)
    requires |s| % 2 == 0
    ensures WordSum(s + t) == WordSum(s) + WordSum(t)
    decreases |s|
  {
    if s == [] {
      assert s + t == t;
    } else {
      WordSumConcat(s[2..], t);
      assert (s + t)[2..] == s[2..] + t;
    }
  }

  lemma {:induction false} WordSumBound(data: seq<Byte>)
    ensures WordSum(data) <= 0xFFFF * ((|data| + 1) / 2)
    decreases |data|
  {
    if |data| >= 2 { WordSumBound(data[2..]); }
  }

  class CsumInet {
    var acc: nat

    /** csum_inet_init. */
    constructor ()
      ensures acc == 0
    {
      acc := 0;
    }

    /** Adds to the 32-bit accumulator. */
    method Add(v: nat)
      requires acc < TWO32 && v <= 0xFFFF
      modifies this
      ensures acc == Wrap(old(acc) + v)
    {
      acc := Wrap(acc + v);
    }

    /** csum_inet_update: the sum is folded after it has wrapped at 32 bits; up to 131072 bytes at a
        time it has not. */
    method Update(data: seq<Byte>)
      requires acc <= 0xFFFF
      modifies this
      ensures acc <= 0xFFFF && acc == Fold(Wrap(old(acc) + WordSum(data)))
      ensures |data| <= MAX_CHUNK ==> acc == Fold(old(acc) + WordSum(data))
    {
      hide WordSum, Fold, Wrap;
      FoldZero();
      WrapSmall(acc);
      if |data| == 0 {
        FoldSmall(acc);
        return;
      }
      ghost var start := acc;
      assert data[..0] == [];
      var i := 0;
      while i < |data| - 1
        invariant i <= |data| && i % 2 == 0 && acc == Wrap(start + WordSum(data[..i]))
      {
        NextWord(data, i);
        WrapAdd(start + WordSum(data[..i]), Word(data[i], data[i + 1]));
        Add(Word(data[i], data[i + 1]));
        i := i + 2;
      }
      if |data| % 2 == 1 {
        LastByte(data);
        WrapAdd(start + WordSum(data[..i]), data[|data| - 1]);
        Add(data[|data| - 1]);
      }
      assert data[..|data|] == data;
      Room(data);
      if |data| <= MAX_CHUNK { WrapSmall(start + WordSum(data)); }
      Reduce();
    }

    /** The folding loop. */
    method Reduce()
      requires acc < TWO32
      modifies this
      ensures acc == Fold(old(acc))
    {
      while acc > 0xFFFF
        invariant acc < TWO32 && Fold(acc) == Fold(old(acc))
        decreases acc
      {
        acc := acc % 0x1_0000 + acc / 0x1_0000;
      }
    }

    /** csum_inet_digest. */
    function Value(): nat
      requires acc <= 0xFFFF
      reads this
    {
      0xFFFF - acc
    }
  }

  lemma OneWord(w: seq<Byte>)
    requires |w| == 2
    ensures WordSum(w) == Word(w[0], w[1])
  {
    assert WordSum(w[2..]) == 0;
  }

  lemma FoldSmall(x: nat)
    requires x <= 0xFFFF
    ensures Fold(x + WordSum([])) == x
  {
  }

  lemma {:induction false} NextWord(data: seq<Byte>, i: nat)
    requires i % 2 == 0 && i + 2 <= |data|
    ensures WordSum(data[..i + 2]) == WordSum(data[..i]) + Word(data[i], data[i + 1])
    ensures Word(data[i], data[i + 1]) <= 0xFFFF
  {
    hide WordSum;
    var w := data[i..i + 2];
    assert data[..i + 2] == data[..i] + w;
    WordSumConcat(data[..i], w);
    OneWord(w);
  }

  lemma {:induction false} LastByte(data: seq<Byte>)
    requires |data| % 2 == 1
    ensures WordSum(data) == WordSum(data[..|data| - 1]) + data[|data| - 1]
  {
    var n := |data| - 1;
    assert data == data[..n] + [data[n]];
    WordSumConcat(data[..n], [data[n]]);
  }

  /** Up to the bound the words fit the accumulator on top of 16 bits. */
  lemma {:induction false} Room(data: seq<Byte>)
    ensures |data| <= MAX_CHUNK ==> 0xFFFF + WordSum(data) < TWO32
  {
    WordSumBound(data);
  }

  // ----- messages in several parts -----

  function Flat(parts: seq<seq<Byte>>): seq<Byte> {
    if parts == [] then [] else Flat(parts[..|parts| - 1]) + parts[|parts| - 1]
  }

  /** All parts but the last have even length. */
  ghost predicate EvenParts(parts: seq<seq<Byte>>) { forall i :: 0 <= i < |parts| - 1 ==> |parts[i]| % 2 == 0 }

  lemma {:induction false} FlatEven(parts: seq<seq<Byte>>)
    requires forall i :: 0 <= i < |parts| ==> |parts[i]| % 2 == 0
    ensures |Flat(parts)| % 2 == 0
    decreases |parts|
  {
    if parts != [] { FlatEven(parts[..|parts| - 1]); }
  }

  // ----- congruence -----

  /** Equal modulo 0xFFFF. */
  predicate Cong(x: int, y: int) { (x - y) % 0xFFFF == 0 }

  /** Two sums fold to the same value if and only if they are congruent and both zero or neither. */
  lemma {:induction false} FoldCong(x: nat, y: nat)
    ensures Fold(x) == Fold(y) <==> Cong(x, y) && (x == 0 <==> y == 0)
  {
    hide Fold;
    FoldIs(x);
    FoldIs(y);
    SameRest(x - 1, y - 1);
  }

  lemma SameRest(a: int, b: int)
    ensures a % 0xFFFF == b % 0xFFFF <==> (a - b) % 0xFFFF == 0
  {
    var q, r := a / 0xFFFF - b / 0xFFFF, a % 0xFFFF - b % 0xFFFF;
    assert a - b == 0xFFFF * q + r;
    if r >= 0 { DivModUnique(a - b, 0xFFFF, q, r); } else { DivModUnique(a - b, 0xFFFF, q - 1, r + 0xFFFF); }
  }

  /** A byte in front exchanges the two halves of every word, which multiplies the sum by 256. */
  lemma {:induction false} ShiftedSum(b: Byte, t: seq<Byte>)
    ensures Cong(WordSum([b] + t), b + 256 * WordSum(t))
    decreases |t|
  {
    var s := [b] + t;
    if |t| >= 2 {
      ShiftedSum(t[1], t[2..]);
      assert s[2..] == t[1..] == [t[1]] + t[2..];
      CongStep(WordSum(t[1..]), t[1], WordSum(t[2..]), b, t[0]);
    } else if |t| == 1 {
      assert s[2..] == [];
    }
  }

  lemma CongStep(x: nat, y: nat, w: nat, b: nat, a: nat)
    requires Cong(x, y + 256 * w)
    ensures Cong(Word(b, a) + x, b + 256 * (Word(a, y) + w))
  {
  }

  /** What a part adds to the sum of the message, by the parity of its offset. */
  lemma {:induction false} OddConcat(s: seq<Byte>, t: seq<Byte>)
    requires |s| % 2 == 1
    ensures Cong(WordSum(s + t), WordSum(s) + 256 * WordSum(t))
    decreases |s|
  {
    if |s| == 1 {
      ShiftedSum(s[0], t);
      assert s == [s[0]];
    } else {
      OddConcat(s[2..], t);
      assert (s + t)[2..] == s[2..] + t;
    }
  }

  // ----- when the digest of the parts is right -----

  /** The sum of the parts, each summed on its own. */
  function PartSum(parts: seq<seq<Byte>>): nat {
    if parts == [] then 0 else PartSum(parts[..|parts| - 1]) + WordSum(parts[|parts| - 1])
  }

  /** The sum of those parts that start at an odd offset. */
  function OddSum(parts: seq<seq<Byte>>): nat {
    if parts == [] then 0
    else
      var n := |parts| - 1;
      OddSum(parts[..n]) + if |Flat(parts[..n])| % 2 == 1 then WordSum(parts[n]) else 0
  }

  /** The sum of the message is that of its parts, with those at odd offsets counted 256 times. */
  lemma {:induction false} FlatSum(parts: seq<seq<Byte>>)
    ensures Cong(WordSum(Flat(parts)), PartSum(parts) + 255 * OddSum(parts))
    decreases |parts|
  {
    hide WordSum, Cong;
    if parts == [] {
      FoldZero();
      CongSame(0);
    } else {
      var n := |parts| - 1;
      var s, t := Flat(parts[..n]), parts[n];
      var f, ps, o := WordSum(s), PartSum(parts[..n]), OddSum(parts[..n]);
      FlatSum(parts[..n]);
      if |s| % 2 == 1 {
        OddConcat(s, t);
        CongAdd(f, ps + 255 * o, 256 * WordSum(t));
        CongTrans(WordSum(s + t), f + 256 * WordSum(t), ps + 255 * o + 256 * WordSum(t));
      } else {
        WordSumConcat(s, t);
        CongAdd(f, ps + 255 * o, WordSum(t));
      }
    }
  }

  lemma {:induction false} ZeroSum(data: seq<Byte>)
    ensures WordSum(data) == 0 <==> forall i :: 0 <= i < |data| ==> data[i] == 0
    decreases |data|
  {
    if |data| >= 2 {
      ZeroSum(data[2..]);
      assert forall i :: 2 <= i < |data| ==> data[i] == data[2..][i - 2];
    }
  }

  lemma {:induction false} ZeroParts(parts: seq<seq<Byte>>)
    ensures PartSum(parts) == 0 <==> WordSum(Flat(parts)) == 0
    decreases |parts|
  {
    hide WordSum;
    if parts == [] {
      FoldZero();
    } else {
      var n := |parts| - 1;
      var s, t := Flat(parts[..n]), parts[n];
      ZeroParts(parts[..n]);
      ZeroSum(s);
      ZeroSum(t);
      ZeroSum(s + t);
      assert (forall i :: 0 <= i < |s + t| ==> (s + t)[i] == 0) ==> (forall i :: 0 <= i < |t| ==> t[i] == 0) by {
        assert forall i :: 0 <= i < |t| ==> t[i] == (s + t)[|s| + i];
      }
      assert (forall i :: 0 <= i < |s + t| ==> (s + t)[i] == 0) ==> (forall i :: 0 <= i < |s| ==> s[i] == 0) by {
        assert forall i :: 0 <= i < |s| ==> s[i] == (s + t)[i];
      }
    }
  }

  /** However a message is cut, adding up its parts gives its sum if and only if the words of the
      parts at odd offsets add up to a multiple of 257. */
  lemma {:induction false} PartsRightIff(parts: seq<seq<Byte>>)
    ensures Fold(PartSum(parts)) == Fold(WordSum(Flat(parts))) <==> OddSum(parts) % 257 == 0
  {
    hide WordSum, Fold, Flat, PartSum, OddSum;
    FoldCong(PartSum(parts), WordSum(Flat(parts)));
    ZeroParts(parts);
    FlatSum(parts);
    Times255(WordSum(Flat(parts)), PartSum(parts), OddSum(parts));
  }

  lemma CongDiff(w: int, p: int, x: int)
    requires Cong(w, p + x)
    ensures Cong(p, w) <==> x % 0xFFFF == 0
  {
    SameRest(w - p, x);
    NegMod(w - p);
  }

  lemma Times255(w: nat, p: nat, o: nat)
    requires Cong(w, p + 255 * o)
    ensures Cong(p, w) <==> o % 257 == 0
  {
    CongDiff(w, p, 255 * o);
    hide Cong;
    var q, r := o / 257, o % 257;
    assert 255 * o == 0xFFFF * q + 255 * r;
    DivModUnique(255 * o, 0xFFFF, q, 255 * r);
  }

  lemma {:induction false} EvenOddSum(parts: seq<seq<Byte>>)
    requires EvenParts(parts)
    ensures OddSum(parts) == 0
    decreases |parts|
  {
    if parts != [] {
      var n := |parts| - 1;
      FlatEven(parts[..n]);
      EvenOddSum(parts[..n]);
    }
  }

  // ----- updates of any length -----

  /** The accumulator after an update for each part. */
  function AccOf(parts: seq<seq<Byte>>): (r: nat)
    ensures r <= 0xFFFF
  {
    if parts == [] then 0 else Fold(Wrap(AccOf(parts[..|parts| - 1]) + WordSum(parts[|parts| - 1])))
  }

  /** How often the accumulator wraps. */
  function Wraps(parts: seq<seq<Byte>>): nat {
    if parts == [] then 0
    else
      var n := |parts| - 1;
      Wraps(parts[..n]) + (AccOf(parts[..n]) + WordSum(parts[n])) / TWO32
  }

  /** Each wrap loses one from the sum, modulo 0xFFFF. */
  lemma WrapCong(x: nat)
    ensures Cong(Fold(Wrap(x)) + x / TWO32, x)
  {
    hide Fold;
    var w, y := x / TWO32, x % TWO32;
    FoldIs(y);
    assert Cong(Fold(y), y) by { if y > 0 { assert y == Fold(y) + 0xFFFF * ((y - 1) / 0xFFFF); } }
    assert x == y + TWO32 * w && TWO32 * w == 0xFFFF * (0x1_0001 * w) + w;
    CongShift(Fold(y), y, w, 0x1_0001 * w);
  }

  lemma CongShift(a: nat, y: nat, w: nat, k: nat)
    requires Cong(a, y)
    ensures Cong(a + w, y + (0xFFFF * k + w))
  {
  }

  lemma CongAdd(a: int, b: int, c: int)
    requires Cong(a, b)
    ensures Cong(a + c, b + c) && Cong(b, a)
  {
    assert (a + c) - (b + c) == a - b;
  }

  lemma CongTrans(a: int, b: int, c: int)
    requires Cong(a, b) && Cong(b, c)
    ensures Cong(a, c)
  {
  }

  lemma {:induction false} AccCong(parts: seq<seq<Byte>>)
    ensures Cong(AccOf(parts) + Wraps(parts), PartSum(parts))
    decreases |parts|
  {
    hide Fold, Wrap, WordSum, Cong;
    if parts == [] {
      assert Cong(0, 0) by { CongSame(0); }
    } else {
      var n := |parts| - 1;
      var t := parts[..n];
      AccCong(t);
      var x := AccOf(t) + WordSum(parts[n]);
      WrapCong(x);
      CongAdd(AccOf(parts) + x / TWO32, x, Wraps(t));
      CongAdd(AccOf(t) + Wraps(t), PartSum(t), WordSum(parts[n]));
      CongTrans(AccOf(parts) + Wraps(parts), x + Wraps(t), PartSum(parts));
    }
  }

  lemma CongSame(x: int)
    ensures Cong(x, x)
  {
  }

  /** Parts of up to 131072 bytes do not make the accumulator wrap. */
  lemma {:induction false} ShortParts(parts: seq<seq<Byte>>)
    requires forall i :: 0 <= i < |parts| ==> |parts[i]| <= MAX_CHUNK
    ensures Wraps(parts) == 0 && AccOf(parts) == Fold(PartSum(parts))
    decreases |parts|
  {
    hide Fold, Wrap, WordSum;
    if parts == [] {
      FoldZero();
    } else {
      var n := |parts| - 1;
      ShortParts(parts[..n]);
      Room(parts[n]);
      WrapSmall(AccOf(parts[..n]) + WordSum(parts[n]));
      FoldAdd(PartSum(parts[..n]), WordSum(parts[n]));
    }
  }

  /** What makes the sum right: the words at odd offsets and the wraps make up for each other, and a
      sum of zero is not confused with one of 0xFFFF. The wraps are known only by following the
      accumulator; with parts of up to 131072 bytes there are none, and the condition in `Checksum`
      speaks of the parts alone. */
  ghost predicate RightSum(parts: seq<seq<Byte>>) {
    (255 * OddSum(parts) + Wraps(parts)) % 0xFFFF == 0 && (AccOf(parts) == 0 <==> WordSum(Flat(parts)) == 0)
  }

  lemma {:induction false} RightSumIff(parts: seq<seq<Byte>>)
    ensures AccOf(parts) == Fold(WordSum(Flat(parts))) <==> RightSum(parts)
  {
    hide WordSum, Fold, Flat, PartSum, OddSum, AccOf, Wraps;
    var acc, w, o, f, ps := AccOf(parts), Wraps(parts), OddSum(parts), WordSum(Flat(parts)), PartSum(parts);
    FoldIs(acc);
    FoldCong(acc, f);
    AccCong(parts);
    FlatSum(parts);
    Balance(acc, w, o, f, ps);
  }

  lemma Balance(acc: nat, w: nat, o: nat, f: nat, ps: nat)
    requires Cong(acc + w, ps) && Cong(f, ps + 255 * o)
    ensures Cong(acc, f) <==> (255 * o + w) % 0xFFFF == 0
  {
    assert (255 * o + w) - (f - acc) == (acc + w - ps) - (f - (ps + 255 * o));
  }

  /** csum_inet_init, the updates and csum_inet_digest, for parts of any length and number. With parts
      of up to 131072 bytes the digest is right if and only if the words of the parts at odd offsets add
      up to a multiple of 257, so always if all parts but the last have even length. */
  method Checksum(parts: seq<seq<Byte>>) returns (digest: nat)
    ensures digest == Digest(Flat(parts)) <==> RightSum(parts)
    ensures (forall i :: 0 <= i < |parts| ==> |parts[i]| <= MAX_CHUNK) ==>
      (digest == Digest(Flat(parts)) <==> OddSum(parts) % 257 == 0) &&
      (EvenParts(parts) ==> digest == Digest(Flat(parts)))
  {
    hide Fold, WordSum, Flat, OddSum, RightSum, Wrap;
    var c := new CsumInet();
    for n := 0 to |parts|
      invariant c.acc <= 0xFFFF && c.acc == AccOf(parts[..n])
    {
      c.Update(parts[n]);
      assert parts[..n + 1][..n] == parts[..n];
    }
    assert parts[..|parts|] == parts;
    RightSumIff(parts);
    if forall i :: 0 <= i < |parts| ==> |parts[i]| <= MAX_CHUNK {
      ShortParts(parts);
      PartsRightIff(parts);
      if EvenParts(parts) { EvenOddSum(parts); }
    }
    digest := c.Value();
  }

  lemma FoldZero()
    ensures WordSum([]) == 0 && Fold(WordSum([])) == 0
  {
  }

  /** Two parts of one byte each: the second is counted in the wrong half of its word. */
  lemma OddPart()
    ensures OddSum([[1], [1]]) == 1 && Fold(PartSum([[1], [1]])) != Fold(WordSum(Flat([[1], [1]])))
  {
    var one: seq<seq<Byte>> := [[1]];
    var two: seq<seq<Byte>> := [[1], [1]];
    assert one[..0] == [] && two[..1] == one;
    assert Flat(one) == [1] && OddSum(one) == 0 && PartSum(one) == 1;
    assert OddSum(two) == 1;
    PartsRightIff(two);
  }

  // ----- the bound is exact -----

  /** A sum that wraps at 32 bits folds to the right value if and only if it wraps a multiple of
      0xFFFF times, and does not wrap to zero. */
  lemma {:induction false} WrapRightIff(x: nat)
    ensures Fold(Wrap(x)) == Fold(x) <==> x / TWO32 == 0 || (x / TWO32 % 0xFFFF == 0 && Wrap(x) != 0)
  {
    hide Fold;
    var w, y := x / TWO32, x % TWO32;
    FoldCong(y, x);
    assert x - y == TWO32 * w;
    assert TWO32 * w == 0xFFFF * (0x1_0001 * w) + w;
    DropMultiple(w, 0x1_0001 * w);
    assert Cong(y, x) <==> w % 0xFFFF == 0 by {
      assert (y - x) % 0xFFFF == (0 - TWO32 * w) % 0xFFFF;
      NegMod(TWO32 * w);
    }
  }

  lemma NegMod(x: int)
    ensures (0 - x) % 0xFFFF == 0 <==> x % 0xFFFF == 0
  {
  }

  lemma {:induction false} AllOnes(n: nat)
    ensures WordSum(seq(2 * n, _ => 255)) == 0xFFFF * n
    decreases n
  {
    if n > 0 {
      var s: seq<Byte> := seq(2 * n, _ => 255);
      assert s[2..] == seq(2 * (n - 1), _ => 255);
      AllOnes(n - 1);
    }
  }

  /** 131073 bytes of ones, followed by zeros. */
  function Full(n: nat): (data: seq<Byte>)
    requires n > MAX_CHUNK
    ensures |data| == n
  {
    seq(MAX_CHUNK, _ => 255) + ([255] + seq(n - MAX_CHUNK - 1, _ => 0))
  }

  lemma {:induction false} FullSum(n: nat)
    requires n > MAX_CHUNK
    ensures WordSum(Full(n)) == 0xFFFF * 65536 + 255
  {
    var ones: seq<Byte> := seq(MAX_CHUNK, _ => 255);
    var zeros: seq<Byte> := seq(n - MAX_CHUNK - 1, _ => 0);
    AllOnes(65536);
    WordSumConcat(ones, [255] + zeros);
    if |zeros| > 0 {
      ZeroSum(zeros[1..]);
      assert ([255] + zeros)[2..] == zeros[1..];
    }
  }

  ghost predicate RightAt(acc: nat, data: seq<Byte>) { Fold(Wrap(acc + WordSum(data))) == Fold(acc + WordSum(data)) }

  /** An update of n bytes is right for every accumulator and all data if and only if n <= 131072. */
  lemma {:induction false} BoundIsExact(n: nat)
    ensures (forall acc: nat, data: seq<Byte> :: acc <= 0xFFFF && |data| == n ==> RightAt(acc, data)) <==>
      n <= MAX_CHUNK
  {
    hide Fold, WordSum, Full;
    if n <= MAX_CHUNK {
      forall acc: nat, data: seq<Byte> | acc <= 0xFFFF && |data| == n ensures RightAt(acc, data) { Room(data); }
    } else {
      FullSum(n);
      WrapRightIff(0xFFFF + WordSum(Full(n)));
      assert !RightAt(0xFFFF, Full(n));
    }
  }

  // ----- the field that holds the checksum -----

  lemma {:induction false} StoreWord(data: seq<Byte>, k: nat, v: nat)
    requires k % 2 == 0 && k + 2 <= |data| && data[k] == 0 && data[k + 1] == 0 && v <= 0xFFFF
    ensures WordSum(data[k := v % 256][k + 1 := v / 256]) == WordSum(data) + v
    decreases k
  {
    var d := data[k := v % 256][k + 1 := v / 256];
    if k == 0 {
      assert d[2..] == data[2..];
    } else {
      StoreWord(data[2..], k - 2, v);
      assert d[2..] == data[2..][k - 2 := v % 256][k - 1 := v / 256];
    }
  }

  /** With the digest stored in a zeroed field at an even offset, the message sums to zero. */
  lemma {:induction false} StoredDigest(data: seq<Byte>, k: nat)
    requires k % 2 == 0 && k + 2 <= |data| && data[k] == 0 && data[k + 1] == 0
    ensures Digest(data[k := Digest(data) % 256][k + 1 := Digest(data) / 256]) == 0
  {
    hide WordSum;
    var v := Digest(data);
    StoreWord(data, k, v);
    FoldAdd(WordSum(data), v);
  }

  // ----- byte order -----

  /** The sum as RFC 1071 has it: 16-bit words in network order, an odd last byte filled up with zero. */
  function NetworkSum(data: seq<Byte>): nat {
    if |data| == 0 then 0
    else if |data| == 1 then 256 * data[0]
    else 256 * data[0] + data[1] + NetworkSum(data[2..])
  }

  /** The sum over words in host order is that sum with its two bytes swapped (section 2 (B)). */
  lemma {:induction false} ByteOrder(data: seq<Byte>)
    ensures Cong(256 * WordSum(data), NetworkSum(data)) && (WordSum(data) == 0 <==> NetworkSum(data) == 0)
    decreases |data|
  {
    if |data| >= 2 {
      ByteOrder(data[2..]);
      var z: int := 256 * WordSum(data[2..]) - NetworkSum(data[2..]);
      assert 256 * WordSum(data) - NetworkSum(data) == 0xFFFF * data[1] + z;
      DropMultiple2(z, data[1]);
    }
  }

  lemma DropMultiple2(y: int, k: nat)
    requires y % 0xFFFF == 0
    ensures (0xFFFF * k + y) % 0xFFFF == 0
  {
    DivModUnique(0xFFFF * k + y, 0xFFFF, k + y / 0xFFFF, 0);
  }

  function Swap16(x: nat): nat
    requires x <= 0xFFFF
  {
    x % 256 * 256 + x / 256
  }

  lemma {:induction false} DigestInNetworkOrder(data: seq<Byte>)
    ensures Digest(data) <= 0xFFFF && Swap16(Digest(data)) == 0xFFFF - Fold(NetworkSum(data))
  {
    hide WordSum, NetworkSum, Fold;
    ByteOrder(data);
    var f := Fold(WordSum(data));
    SwapIs(f);
    SwapComplement(f);
    FoldIs(WordSum(data));
    FoldSwapped(WordSum(data), NetworkSum(data));
  }

  lemma SwapIs(x: nat)
    requires x <= 0xFFFF
    ensures 256 * x == Swap16(x) + 0xFFFF * (x / 256) && Swap16(x) <= 0xFFFF && (Swap16(x) == 0 <==> x == 0)
  {
  }

  lemma SwapComplement(x: nat)
    requires x <= 0xFFFF
    ensures Swap16(0xFFFF - x) == 0xFFFF - Swap16(x)
  {
    var lo, hi := x % 256, x / 256;
    assert 0xFFFF - x == (255 - lo) + 256 * (255 - hi);
  }

  lemma FoldSwapped(x: nat, y: nat)
    requires Cong(256 * x, y) && (x == 0 <==> y == 0)
    ensures Fold(x) <= 0xFFFF && Fold(y) == Swap16(Fold(x))
  {
    hide Fold, Cong, Swap16;
    var f := Fold(x);
    SwapIs(f);
    FoldZeroIff(x);
    FoldOnce(x);
    CongSwapped(x, f, y);
    FoldCong(y, Swap16(f));
    FoldedAlready(Swap16(f));
  }

  lemma FoldZeroIff(x: nat)
    ensures Fold(x) == 0 <==> x == 0
  {
    FoldIs(x);
  }

  lemma FoldedAlready(x: nat)
    requires x <= 0xFFFF
    ensures Fold(x) == x
  {
  }

  lemma FoldOnce(x: nat)
    ensures Cong(x, Fold(x))
  {
    hide Fold;
    FoldedAlready(Fold(x));
    FoldCong(x, Fold(x));
  }

  lemma CongSwapped(x: nat, f: nat, y: nat)
    requires f <= 0xFFFF && Cong(x, f) && Cong(256 * x, y)
    ensures Cong(y, Swap16(f))
  {
    SwapIs(f);
    var a, b := (x - f) / 0xFFFF, (256 * x - y) / 0xFFFF;
    assert x - f == 0xFFFF * a && 256 * x - y == 0xFFFF * b;
    assert y - Swap16(f) == 0xFFFF * (256 * a - b + f / 256);
    DivModUnique(y - Swap16(f), 0xFFFF, 256 * a - b + f / 256, 0);
  }
}
