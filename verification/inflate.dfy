/** Plain inflate (sections 3.2.3 to 3.2.7 of RFC 1951): codes are decoded by definition, bits are
    read off one flat stream, and output is only ever appended. `cap` is the room for output.
    The numbers are puff's return codes. */
module Inflate {
  import opened Common
  import Arith
  import opened BitStream
  import opened Huffman

  /** `Done` continues at bit `pos`; `Stop` gives up with an error code. */
  datatype Outcome = Done(pos: nat, out: seq<Byte>) | Stop(code: int, out: seq<Byte>)

  const LENS: seq<nat> := [
    3, 4, 5, 6, 7, 8, 9, 10, 11, 13, 15, 17, 19, 23, 27, 31,
    35, 43, 51, 59, 67, 83, 99, 115, 131, 163, 195, 227, 258]
  const LEXT: seq<nat> := [
    0, 0, 0, 0, 0, 0, 0, 0, 1, 1, 1, 1, 2, 2, 2, 2,
    3, 3, 3, 3, 4, 4, 4, 4, 5, 5, 5, 5, 0]
  const DISTS: seq<nat> := [
    1, 2, 3, 4, 5, 7, 9, 13, 17, 25, 33, 49, 65, 97, 129, 193,
    257, 385, 513, 769, 1025, 1537, 2049, 3073, 4097, 6145,
    8193, 12289, 16385, 24577]
  const DEXT: seq<nat> := [
    0, 0, 0, 0, 1, 1, 2, 2, 3, 3, 4, 4, 5, 5, 6, 6,
    7, 7, 8, 8, 9, 9, 10, 10, 11, 11,
    12, 12, 13, 13]
  const ORDER: seq<nat> := [16, 17, 18, 0, 8, 7, 9, 6, 10, 5, 11, 4, 12, 3, 13, 2, 14, 1, 15]
  const MAXLCODES: nat := 286
  const MAXDCODES: nat := 30

  ghost predicate Within(r: Outcome, input: seq<Byte>, pos: nat) { r.Done? ==> pos <= r.pos <= 8 * |input| }

  /** Append len bytes, each a copy of the one dist back. */
  function CopyBack(out: seq<Byte>, dist: nat, len: nat): seq<Byte>
    requires 1 <= dist <= |out|
    decreases len
  {
    if len == 0 then out else CopyBack(out + [out[|out| - dist]], dist, len - 1)
  }

  /** A length code k has been read: its extra bits, then a distance, then the copy. */
  ghost function CopyPair(dlens: seq<nat>, input: seq<Byte>, pos: nat, k: nat, out: seq<Byte>, cap: nat): (r: Outcome)
    requires |dlens| <= MAXDCODES
    ensures Within(r, input, pos)
  {
    if k >= 29 then Stop(-10, out)
    else if pos + LEXT[k] > 8 * |input| then Stop(2, out)
    else
      var len := LENS[k] + Take(input, pos, LEXT[k]);
      match Decode(dlens, input, pos + LEXT[k])
      case NeedInput => Stop(2, out)
      case BadCode => Stop(-10, out)
      case Symbol(d, p) => CopyFrom(input, p, d, len, out, cap)
  }

  ghost function CopyFrom(input: seq<Byte>, pos: nat, d: nat, len: nat, out: seq<Byte>, cap: nat): (r: Outcome)
    requires d < MAXDCODES
    ensures Within(r, input, pos)
  {
    if pos + DEXT[d] > 8 * |input| then Stop(2, out)
    else
      var dist := DISTS[d] + Take(input, pos, DEXT[d]);
      if dist > |out| then Stop(-11, out)
      else if |out| + len > cap then Stop(1, out)
      else Done(pos + DEXT[d], CopyBack(out, dist, len))
  }

  /** Literals and length/distance pairs up to the end-of-block symbol. */
  ghost function Codes(llens: seq<nat>, dlens: seq<nat>, input: seq<Byte>, pos: nat, out: seq<Byte>,
                       cap: nat): (r: Outcome)
    requires |dlens| <= MAXDCODES
    ensures Within(r, input, pos)
    decreases 8 * |input| - pos
  {
    match Decode(llens, input, pos)
    case NeedInput => Stop(2, out)
    case BadCode => Stop(-10, out)
    case Symbol(s, p) =>
      if s < 256 then
        if |out| == cap then Stop(1, out) else Codes(llens, dlens, input, p, out + [s], cap)
      else if s == 256 then Done(p, out)
      else
        var r := CopyPair(dlens, input, p, s - 257, out, cap);
        if r.Stop? then r else Codes(llens, dlens, input, r.pos, r.out, cap)
  }

  function Word(lo: nat, hi: nat): nat { lo + 256 * hi }

  /** A stored block starts at the next byte boundary. */
  ghost function Stored(input: seq<Byte>, pos: nat, out: seq<Byte>, cap: nat): (r: Outcome)
    requires pos <= 8 * |input|
    ensures Within(r, input, pos)
  {
    var i := (pos + 7) / 8;
    if i + 4 > |input| then Stop(2, out)
    else
      var len := Word(input[i], input[i + 1]);
      if input[i + 2] != 255 - input[i] || input[i + 3] != 255 - input[i + 1] then Stop(-2, out)
      else if i + 4 + len > |input| then Stop(2, out)
      else if |out| + len > cap then Stop(1, out)
      else Done(8 * (i + 4 + len), out + input[i + 4..i + 4 + len])
  }

  function FixedLens(): (r: seq<nat>)
    ensures |r| == 288
  {
    seq(288, s => if s < 144 then 8 else if s < 256 then 9 else if s < 280 then 7 else 8)
  }

  function FixedDists(): (r: seq<nat>)
    ensures |r| == MAXDCODES
  {
    seq(MAXDCODES, s => 5)
  }

  /** The first n of the code length code lengths, 3 bits each, put in their places. */
  function CodeLengthLens(input: seq<Byte>, pos: nat, n: nat): (r: seq<nat>)
    requires n <= 19 && pos + 3 * n <= 8 * |input|
    ensures |r| == 19
    decreases n
  {
    if n == 0 then seq(19, _ => 0)
    else CodeLengthLens(input, pos, n - 1)[ORDER[n - 1] := Take(input, pos + 3 * (n - 1), 3)]
  }

  datatype LensOutcome = Lens(pos: nat, lens: seq<nat>) | LensStop(code: int)

  /** A repeat instruction: how many bits it takes, the least count, the length repeated. */
  function RepeatBits(s: nat): nat { if s == 16 then 2 else if s == 17 then 3 else 7 }
  function RepeatBase(s: nat): nat { if s == 18 then 11 else 3 }

  /** The lengths of both codes, run-length encoded. */
  ghost function ReadLens(cl: seq<nat>, input: seq<Byte>, pos: nat, acc: seq<nat>, total: nat): (r: LensOutcome)
    requires |cl| == 19 && pos <= 8 * |input| && |acc| <= total && LengthsOk(acc)
    ensures r.Lens? ==> pos <= r.pos <= 8 * |input| && |r.lens| == total && LengthsOk(r.lens)
    decreases 8 * |input| - pos
  {
    if |acc| == total then Lens(pos, acc)
    else
      match Decode(cl, input, pos)
      case NeedInput => LensStop(2)
      case BadCode => LensStop(-10)
      case Symbol(s, p) =>
        if s < 16 then ReadLens(cl, input, p, acc + [s], total)
        else if s == 16 && acc == [] then LensStop(-5)
        else if p + RepeatBits(s) > 8 * |input| then LensStop(2)
        else
          var n := RepeatBase(s) + Take(input, p, RepeatBits(s));
          var v := if s == 16 then acc[|acc| - 1] else 0;
          if |acc| + n > total then LensStop(-6)
          else ReadLens(cl, input, p + RepeatBits(s), acc + seq(n, _ => v), total)
  }

  /** An incomplete code is accepted only if it has a single code, of length 1. */
  ghost predicate Unusable(lens: seq<nat>) {
    Verdict(lens) != 0 && (Verdict(lens) < 0 || |lens| != Count(lens, 0) + Count(lens, 1))
  }

  ghost function Dynamic(input: seq<Byte>, pos: nat, out: seq<Byte>, cap: nat): (r: Outcome)
    ensures Within(r, input, pos)
  {
    if pos + 14 > 8 * |input| then Stop(2, out)
    else
      var nlen := Take(input, pos, 5) + 257;
      var ndist := Take(input, pos + 5, 5) + 1;
      var ncode := Take(input, pos + 10, 4) + 4;
      TakeSmall(input, pos + 10);
      if nlen > MAXLCODES || ndist > MAXDCODES then Stop(-3, out)
      else DynamicCodes(input, pos + 14, nlen, ndist, ncode, out, cap)
  }

  lemma TakeSmall(input: seq<Byte>, pos: nat)
    requires pos + 4 <= 8 * |input|
    ensures Take(input, pos, 4) < 16
  {
    TakeBound(input, pos, 4);
    assert Arith.Pow2(4) == 16;
  }

  ghost function DynamicCodes(input: seq<Byte>, pos: nat, nlen: nat, ndist: nat, ncode: nat, out: seq<Byte>,
                              cap: nat): (r: Outcome)
    requires 257 <= nlen && 1 <= ndist <= MAXDCODES && ncode <= 19 && pos <= 8 * |input|
    ensures Within(r, input, pos)
  {
    if pos + 3 * ncode > 8 * |input| then Stop(2, out)
    else
      var cl := CodeLengthLens(input, pos, ncode);
      if Verdict(cl) != 0 then Stop(-4, out)
      else
        match ReadLens(cl, input, pos + 3 * ncode, [], nlen + ndist)
        case LensStop(code) => Stop(code, out)
        case Lens(p, lens) =>
          if lens[256] == 0 then Stop(-9, out)
          else if Unusable(lens[..nlen]) then Stop(-7, out)
          else if Unusable(lens[nlen..]) then Stop(-8, out)
          else Codes(lens[..nlen], lens[nlen..], input, p, out, cap)
  }

  /** One block, its three header bits read. */
  ghost function Block(kind: nat, input: seq<Byte>, pos: nat, out: seq<Byte>, cap: nat): (r: Outcome)
    requires pos <= 8 * |input|
    ensures Within(r, input, pos)
  {
    if kind == 0 then Stored(input, pos, out, cap)
    else if kind == 1 then Codes(FixedLens(), FixedDists(), input, pos, out, cap)
    else if kind == 2 then Dynamic(input, pos, out, cap)
    else Stop(-1, out)
  }

  /** Blocks up to the one marked last. */
  ghost function Blocks(input: seq<Byte>, pos: nat, out: seq<Byte>, cap: nat): (r: Outcome)
    requires pos <= 8 * |input|
    ensures Within(r, input, pos)
    decreases 8 * |input| - pos
  {
    if pos + 3 > 8 * |input| then Stop(2, out)
    else
      var r := Block(Take(input, pos + 1, 2), input, pos + 3, out, cap);
      if r.Stop? || Take(input, pos, 1) == 1 then r else Blocks(input, r.pos, r.out, cap)
  }
}
