/** puff: inflate with a bit buffer, Huffman tables and an output routine that skips writing
    zeros, shown equal to plain inflate on every input when the output buffer starts zeroed. */
module Puff {
  import opened Common
  import Arith
  import opened BitStream
  import Huffman
  import Inflate
  import PuffFixed
  import PuffTables

  const MAXBITS: nat := Huffman.MAXBITS

  class PuffState {
    const input: seq<Byte>
    const out: array<Byte>
    var outcnt: nat
    var incnt: nat
    var bitbuf: nat
    var bitcnt: nat

    constructor (dest: array<Byte>, source: seq<Byte>)
      ensures input == source && out == dest
      ensures outcnt == 0 && incnt == 0 && bitbuf == 0 && bitcnt == 0
    {
      input, out := source, dest;
      outcnt, incnt, bitbuf, bitcnt := 0, 0, 0, 0;
    }

    /** The buffer holds fewer than eight bits, those between the position and the next byte. */
    ghost predicate Valid()
      reads this
    {
      incnt <= |input| && bitcnt < 8 && bitcnt <= 8 * incnt && bitbuf == Take(input, 8 * incnt - bitcnt, bitcnt)
    }

    /** The position in the flat bit stream. */
    ghost function Pos(): (p: nat)
      requires Valid()
      reads this
      ensures p <= 8 * |input|
    {
      8 * incnt - bitcnt
    }

    /** o has been written, and the rest of the buffer is still zero. */
    ghost predicate Written(o: seq<Byte>)
      reads this, out
    {
      outcnt == |o| <= out.Length && out[..outcnt] == o && forall i :: outcnt <= i < out.Length ==> out[i] == 0
    }

    /** puff_bits: reads the stream exactly as a flat sequence of bits; fails exactly when fewer
        than need bits are left. */
    method Bits(need: nat) returns (ok: bool, v: nat)
      requires Valid()
      modifies `incnt, `bitbuf, `bitcnt
      ensures ok <==> old(Pos()) + need <= 8 * |input|
      ensures ok ==> Valid() && Pos() == old(Pos()) + need && v == Take(input, old(Pos()), need)
    {
      hide Take, Arith.Pow2;
      ghost var pos := Pos();
      var val := bitbuf;
      while bitcnt < need
        invariant incnt <= |input| && pos == 8 * incnt - bitcnt && bitcnt < need + 8
        invariant val == Take(input, pos, bitcnt)
        decreases |input| - incnt
      {
        if incnt == |input| { return false, 0; }
        TakeSplit(input, pos, bitcnt, 8);
        TakeByte(input, incnt);
        val := val + input[incnt] * Arith.Pow2(bitcnt);
        incnt := incnt + 1;
        bitcnt := bitcnt + 8;
      }
      TakeDrop(input, pos, need, bitcnt - need);
      bitbuf := val / Arith.Pow2(need);
      bitcnt := bitcnt - need;
      return true, val % Arith.Pow2(need);
    }

    /** puff_decode: the symbol whose code comes next, -10 when 15 bits match none. */
    method Decode(t: Huffman.Table, ghost lens: seq<nat>) returns (ok: bool, sym: int)
      requires Valid() && Huffman.TableFor(t, lens) && Huffman.LengthsOk(lens)
      modifies `incnt, `bitbuf, `bitcnt
      ensures match Huffman.Decode(lens, input, old(Pos()))
        case Symbol(s, p) => ok && sym == s && Valid() && Pos() == p
        case NeedInput => !ok
        case BadCode => ok && sym == -10
    {
      hide Huffman.Decode, Huffman.First, Huffman.Offset, Huffman.Count, Huffman.LengthsOk, Huffman.TableFor;
      hide Huffman.NoneUpTo, BitAt, Take, Msb, Reading, Searching;
      ghost var pos := Pos();
      Starts(lens);
      var first: nat, index: nat, code: nat, len: nat := 0, 0, 0, 1;
      var buf: nat, left: nat := bitbuf, bitcnt;
      while true
        invariant 1 <= len <= MAXBITS + 1 && incnt <= |input|
        invariant Reading(input, incnt, pos, len, buf, left) && Searching(input, lens, pos, len, code, first, index)
        invariant pos == 8 * old(incnt) - bitcnt && bitcnt == old(bitcnt)
        decreases |input| - incnt
      {
        ghost var loaded := incnt;
        while left > 0
          invariant incnt == loaded && bitcnt == old(bitcnt)
          invariant 1 <= len <= MAXBITS + 1 && incnt <= |input|
          invariant Reading(input, incnt, pos, len, buf, left) && Searching(input, lens, pos, len, code, first, index)
          decreases left
        {
          NextBit(t, lens, pos, len, buf, left, code, first, index);
          left := left - 1;
          code := code + buf % 2;
          buf := buf / 2;
          var count := t.count[len];
          if code - count < first {
            LeftOver(bitcnt, len, old(incnt), incnt);
            bitbuf := buf;
            bitcnt := (bitcnt - len) % 8;
            return true, t.symbol[index + (code - first)];
          }
          index := index + count;
          first := 2 * (first + count);
          code := 2 * code;
          len := len + 1;
        }
        Drained(lens, pos, len, buf, code, first, index);
        left := MAXBITS + 1 - len;
        if left == 0 { return true, -10; }
        if incnt == |input| { return false, 0; }
        Refilled(input, pos, len, incnt);
        buf := input[incnt];
        incnt := incnt + 1;
        if left > 8 { left := 8; }
      }
    }

    lemma {:induction false} Starts(lens: seq<nat>)
      requires Valid()
      ensures Reading(input, incnt, Pos(), 1, bitbuf, bitcnt) && Searching(input, lens, Pos(), 1, 0, 0, 0)
    {
      hide Take;
      Huffman.Begins(lens, input, Pos());
    }

    /** One more bit: either a code is complete, or the search goes on with the next length. */
    lemma {:induction false} NextBit(t: Huffman.Table, lens: seq<nat>, pos: nat, len: nat, buf: nat, left: nat,
                                     code: nat, first: nat, index: nat)
      requires Huffman.TableFor(t, lens) && 1 <= len <= MAXBITS + 1 && incnt <= |input| && left > 0
      requires Reading(input, incnt, pos, len, buf, left) && Searching(input, lens, pos, len, code, first, index)
      ensures len <= MAXBITS && |t.count| == MAXBITS + 1 && 0 <= 8 * incnt - (pos + len) < 8
      ensures buf / 2 == Take(input, pos + len, 8 * incnt - (pos + len))
      ensures var next, count := code + buf % 2, t.count[len];
        if next - count < first then
          && 0 <= index + (next - first) < |t.symbol|
          && Huffman.Decode(lens, input, pos) == Huffman.Symbol(t.symbol[index + (next - first)], pos + len)
        else
          && Reading(input, incnt, pos, len + 1, buf / 2, left - 1)
          && Searching(input, lens, pos, len + 1, 2 * next, 2 * (first + count), index + count)
    {
      hide Huffman.Decode, Huffman.First, Huffman.Offset, Huffman.Count, Huffman.TableFor;
      hide Huffman.NoneUpTo, BitAt, Take, Msb;
      TakeFirst(pos, len, buf, 8 * incnt - (pos + len - 1));
      Huffman.CountIs(t, lens, len);
      if code + buf % 2 - t.count[len] < first {
        Huffman.FoundAt(t, lens, input, pos, len);
      } else {
        Huffman.GoesOn(t, lens, input, pos, len);
      }
    }

    /** All bits at hand have been looked at. */
    lemma {:induction false} Drained(lens: seq<nat>, pos: nat, len: nat, buf: nat,
                                     code: nat, first: nat, index: nat)
      requires Huffman.LengthsOk(lens) && 1 <= len <= MAXBITS + 1 && incnt <= |input|
      requires Reading(input, incnt, pos, len, buf, 0) && Searching(input, lens, pos, len, code, first, index)
      ensures len == MAXBITS + 1 ==> Huffman.Decode(lens, input, pos) == Huffman.BadCode
      ensures len <= MAXBITS ==> pos + len - 1 == 8 * incnt
      ensures len <= MAXBITS && incnt == |input| ==> Huffman.Decode(lens, input, pos) == Huffman.NeedInput
    {
      hide Huffman.Decode, Huffman.NoneUpTo, Huffman.LengthsOk, Take;
      Huffman.NotFound(lens, input, pos, len - 1);
    }

    /** A byte is loaded. */
    static lemma Refilled(input: seq<Byte>, pos: nat, len: nat, i: nat)
      requires i < |input| && 1 <= len <= MAXBITS && pos + len - 1 == 8 * i
      ensures Reading(input, i + 1, pos, len, input[i], if MAXBITS + 1 - len > 8 then 8 else MAXBITS + 1 - len)
    {
      hide Take;
      TakeByte(input, i);
    }

    /** The bits left in the byte last loaded, after len bits from a buffer of b. */
    static lemma LeftOver(b: nat, len: nat, i: nat, j: nat)
      requires 0 <= 8 * j - (8 * i - b + len) < 8
      ensures (b - len) % 8 == 8 * j - (8 * i - b + len)
    {
    }

    /** The local buffer holds the bits up to the next byte; the loop will use `left` of them. */
    static ghost predicate Reading(input: seq<Byte>, incnt: nat, pos: nat, len: nat, buf: nat, left: nat)
      requires 1 <= len && incnt <= |input|
    {
      var avail := 8 * incnt - (pos + len - 1);
      && 0 <= avail <= 8 && buf == Take(input, pos + len - 1, avail)
      && left == if avail <= MAXBITS + 1 - len then avail else MAXBITS + 1 - len
    }

    static ghost predicate Searching(input: seq<Byte>, lens: seq<nat>, pos: nat, len: nat,
                                     code: nat, first: nat, index: nat)
      requires 1 <= len
    {
      && Huffman.NoneUpTo(lens, input, pos, len - 1)
      && code == 2 * Msb(input, pos, len - 1)
      && first == Huffman.First(lens, len) && index == Huffman.Offset(lens, len)
    }

    lemma {:induction false} TakeFirst(pos: nat, len: nat, buf: nat, n: nat)
      requires 1 <= len && 1 <= n && pos + len - 1 + n <= 8 * |input| && buf == Take(input, pos + len - 1, n)
      ensures buf % 2 == BitAt(input, pos + len - 1) && buf / 2 == Take(input, pos + len, n - 1)
      ensures Msb(input, pos, len) == 2 * Msb(input, pos, len - 1) + buf % 2
    {
      hide BitAt;
    }

    // ----- output -----

    /** What a step with outcome r leaves behind; err is 2 also when the input ran out mid-step. */
    ghost predicate Reports(r: Inflate.Outcome, err: int)
      reads this, out
    {
      && Written(r.out)
      && match r
         case Done(p, _) => err == 0 && Valid() && Pos() == p
         case Stop(code, _) => err == code && err != 0
    }

    /** A byte is appended by moving on, and written only if it is not zero. */
    method Emit(b: Byte, ghost o: seq<Byte>)
      requires Written(o) && outcnt < out.Length
      modifies `outcnt, out
      ensures Written(o + [b])
    {
      if b != 0 { out[outcnt] := b; }
      outcnt := outcnt + 1;
      assert out[..outcnt] == out[..outcnt - 1] + [b];
    }

    /** The copy of a length/distance pair, byte by byte so that it may overlap itself. */
    method Copy(dist: nat, length: nat, ghost o: seq<Byte>)
      requires Written(o) && 1 <= dist <= |o| && |o| + length <= out.Length
      modifies `outcnt, out
      ensures Written(Inflate.CopyBack(o, dist, length))
    {
      var len: nat := length;
      ghost var cur: seq<Byte> := o;
      while len > 0
        invariant len <= length && Written(cur) && dist <= |cur| && |cur| + len <= out.Length
        invariant Inflate.CopyBack(cur, dist, len) == Inflate.CopyBack(o, dist, length)
      {
        len := len - 1;
        var b := out[outcnt - dist];
        assert b == cur[|cur| - dist];
        Emit(b, cur);
        cur := cur + [b];
      }
    }

    /** puff_stored. */
    method Stored(ghost o: seq<Byte>) returns (err: int)
      requires Valid() && Written(o)
      modifies `incnt, `bitbuf, `bitcnt, `outcnt, out
      ensures Reports(Inflate.Stored(input, old(Pos()), o, out.Length), err)
    {
      hide Take, Inflate.Word;
      NextByte(incnt, bitcnt);
      bitbuf, bitcnt := 0, 0;
      if incnt + 4 > |input| { return 2; }
      var len := Inflate.Word(input[incnt], input[incnt + 1]);
      PuffFixed.WordParts(input[incnt], input[incnt + 1]);
      incnt := incnt + 2;
      if input[incnt] != 255 - len % 256 || input[incnt + 1] != 255 - len / 256 { incnt := incnt + 2; return -2; }
      incnt := incnt + 2;
      if incnt + len > |input| { return 2; }
      if outcnt + len > out.Length { return 1; }
      CopyStored(len, o);
      TakeNone(input, 8 * incnt);
      return 0;
    }

    static lemma NextByte(incnt: nat, bitcnt: nat)
      requires bitcnt < 8 && bitcnt <= 8 * incnt
      ensures (8 * incnt - bitcnt + 7) / 8 == incnt
    {
    }

    method CopyStored(length: nat, ghost o: seq<Byte>)
      requires incnt + length <= |input| && Written(o) && |o| + length <= out.Length
      modifies `incnt, `outcnt, out
      ensures incnt == old(incnt) + length && Written(o + input[old(incnt)..incnt])
    {
      var len: nat := length;
      ghost var from, cur: seq<Byte> := incnt, o;
      while len > 0
        invariant len <= length && incnt == from + (length - len)
        invariant cur == o + input[from..incnt] && Written(cur) && |cur| + len <= out.Length
      {
        len := len - 1;
        Emit(input[incnt], cur);
        cur := cur + [input[incnt]];
        assert input[from..incnt + 1] == input[from..incnt] + [input[incnt]];
        incnt := incnt + 1;
      }
    }

    /** The part of puff_codes that handles length code k. */
    method Pair(dt: Huffman.Table, ghost dlens: seq<nat>, k: nat, ghost o: seq<Byte>) returns (err: int)
      requires Valid() && Written(o) && Huffman.TableFor(dt, dlens) && Huffman.LengthsOk(dlens)
      requires |dlens| <= Inflate.MAXDCODES
      modifies `incnt, `bitbuf, `bitcnt, `outcnt, out
      ensures Reports(Inflate.CopyPair(dlens, input, old(Pos()), k, o, out.Length), err)
    {
      hide Huffman.Decode, Take, Inflate.CopyFrom, Huffman.TableFor, Huffman.LengthsOk;
      if k >= 29 { return -10; }
      var ok, extra := Bits(Inflate.LEXT[k]);
      if !ok { return 2; }
      var len := Inflate.LENS[k] + extra;
      var symbol: int;
      ok, symbol := Decode(dt, dlens);
      if !ok { return 2; }
      if symbol < 0 { return symbol; }
      err := Distance(symbol, len, o);
    }

    method Distance(d: nat, len: nat, ghost o: seq<Byte>) returns (err: int)
      requires Valid() && Written(o) && d < Inflate.MAXDCODES
      modifies `incnt, `bitbuf, `bitcnt, `outcnt, out
      ensures Reports(Inflate.CopyFrom(input, old(Pos()), d, len, o, out.Length), err)
    {
      hide Take, Inflate.CopyBack;
      var ok, extra := Bits(Inflate.DEXT[d]);
      if !ok { return 2; }
      var dist := Inflate.DISTS[d] + extra;
      if dist > outcnt { return -11; }
      if outcnt + len > out.Length { return 1; }
      Copy(dist, len, o);
      return 0;
    }

    /** puff_codes: literals and pairs until the end-of-block symbol. */
    method Codes(lt: Huffman.Table, dt: Huffman.Table, ghost llens: seq<nat>, ghost dlens: seq<nat>, ghost o: seq<Byte>)
      returns (err: int)
      requires Valid() && Written(o) && |dlens| <= Inflate.MAXDCODES
      requires Huffman.TableFor(lt, llens) && Huffman.LengthsOk(llens)
      requires Huffman.TableFor(dt, dlens) && Huffman.LengthsOk(dlens)
      modifies `incnt, `bitbuf, `bitcnt, `outcnt, out
      ensures Reports(Inflate.Codes(llens, dlens, input, old(Pos()), o, out.Length), err)
    {
      hide Huffman.Decode, Take, Huffman.TableFor, Huffman.LengthsOk, Inflate.CopyPair;
      ghost var cur: seq<Byte> := o;
      ghost var want := Inflate.Codes(llens, dlens, input, Pos(), o, out.Length);
      while true
        invariant Valid() && Written(cur)
        invariant want == Inflate.Codes(llens, dlens, input, Pos(), cur, out.Length)
        decreases 8 * |input| - Pos()
      {
        ghost var pos := Pos();
        var ok, symbol := Decode(lt, llens);
        if !ok { return 2; }
        if symbol < 0 { return symbol; }
        if symbol < 256 {
          if outcnt == out.Length { return 1; }
          var b: Byte := symbol;
          Emit(b, cur);
          cur := cur + [b];
        } else if symbol > 256 {
          ghost var r := Inflate.CopyPair(dlens, input, Pos(), symbol - 257, cur, out.Length);
          err := Pair(dt, dlens, symbol - 257, cur);
          if err != 0 { return; }
          cur := r.out;
        } else {
          return 0;
        }
      }
    }

    /** puff_fixed, with its tables built afresh. */
    method Fixed(ghost o: seq<Byte>) returns (err: int)
      requires Valid() && Written(o)
      modifies `incnt, `bitbuf, `bitcnt, `outcnt, out
      ensures Reports(Inflate.Codes(Inflate.FixedLens(), Inflate.FixedDists(), input, old(Pos()), o, out.Length), err)
    {
      var lens := FixedLengths();
      var dists := FixedDistances();
      PuffFixed.FixedUsable();
      hide Inflate.Codes, Huffman.TableFor, Huffman.Verdict, Inflate.FixedLens, Inflate.FixedDists, Huffman.LengthsOk;
      hide Take;
      var lt, v := PuffTables.Construct(lens);
      var dt, w := PuffTables.Construct(dists);
      err := Codes(lt, dt, lens, dists, o);
    }

    /** The code length code lengths, in the order they are stored. */
    method ReadCodeLengthLens(ncode: nat) returns (ok: bool, cl: seq<nat>)
      requires Valid() && ncode <= 19
      modifies `incnt, `bitbuf, `bitcnt
      ensures ok <==> old(Pos()) + 3 * ncode <= 8 * |input|
      ensures ok ==> Valid() && Pos() == old(Pos()) + 3 * ncode && Huffman.LengthsOk(cl)
      ensures ok ==> cl == Inflate.CodeLengthLens(input, old(Pos()), ncode)
    {
      hide Take, PuffFixed.AllHold, Inflate.CodeLengthLens, Huffman.LengthsOk;
      ghost var pos := Pos();
      PuffFixed.NonePlaced(input, pos);
      cl := seq(19, _ => 0);
      var index := 0;
      while index < ncode
        invariant index <= ncode && Valid() && Pos() == pos + 3 * index && |cl| == 19
        invariant PuffFixed.AllHold(input, pos, index, cl)
      {
        var v;
        ok, v := Bits(3);
        if !ok { return false, []; }
        PuffFixed.PlacedAll(input, pos, index, cl);
        cl := cl[Inflate.ORDER[index] := v];
        index := index + 1;
      }
      PuffFixed.ClosedForm(input, pos, ncode, cl);
      ok := true;
    }

    /** The repeat count of a repeat instruction. */
    method RepeatCount(s: nat) returns (ok: bool, n: nat)
      requires Valid() && 16 <= s <= 18
      modifies `incnt, `bitbuf, `bitcnt
      ensures ok <==> old(Pos()) + Inflate.RepeatBits(s) <= 8 * |input|
      ensures ok ==> Valid() && Pos() == old(Pos()) + Inflate.RepeatBits(s)
      ensures ok ==> n == Inflate.RepeatBase(s) + Take(input, old(Pos()), Inflate.RepeatBits(s))
    {
      hide Take;
      if s == 16 {
        ok, n := Bits(2);
        n := n + 3;
      } else if s == 17 {
        ok, n := Bits(3);
        n := n + 3;
      } else {
        ok, n := Bits(7);
        n := n + 11;
      }
    }

    /** The lengths of both codes. */
    method ReadLengths(t: Huffman.Table, ghost cl: seq<nat>, total: nat) returns (err: int, lens: seq<nat>)
      requires Valid() && Huffman.TableFor(t, cl) && Huffman.LengthsOk(cl) && |cl| == 19
      modifies `incnt, `bitbuf, `bitcnt
      ensures match Inflate.ReadLens(cl, input, old(Pos()), [], total)
        case Lens(p, l) => err == 0 && lens == l && Valid() && Pos() == p
        case LensStop(code) => err == code && err != 0
    {
      hide Huffman.Decode, Take, Huffman.TableFor, Inflate.RepeatBits, Inflate.RepeatBase;
      lens := [];
      ghost var want := Inflate.ReadLens(cl, input, Pos(), [], total);
      while |lens| < total
        invariant Valid() && |lens| <= total && Huffman.LengthsOk(lens)
        invariant want == Inflate.ReadLens(cl, input, Pos(), lens, total)
        decreases 8 * |input| - Pos()
      {
        var ok, symbol := Decode(t, cl);
        if !ok { return 2, []; }
        if symbol < 0 { return symbol, []; }
        if symbol < 16 {
          lens := lens + [symbol];
        } else {
          if symbol == 16 && lens == [] { return -5, []; }
          var len := if symbol == 16 then lens[|lens| - 1] else 0;
          var n;
          ok, n := RepeatCount(symbol);
          if !ok { return 2, []; }
          if |lens| + n > total { return -6, []; }
          lens := lens + seq(n, _ => len);
        }
      }
      err := 0;
    }

    /** puff_dynamic. */
    method Dynamic(ghost o: seq<Byte>) returns (err: int)
      requires Valid() && Written(o)
      modifies `incnt, `bitbuf, `bitcnt, `outcnt, out
      ensures Reports(Inflate.Dynamic(input, old(Pos()), o, out.Length), err)
    {
      hide Take, Inflate.DynamicCodes;
      var ok, nlen := Bits(5);
      if !ok { return 2; }
      nlen := nlen + 257;
      var ndist;
      ok, ndist := Bits(5);
      if !ok { return 2; }
      ndist := ndist + 1;
      var ncode;
      ok, ncode := Bits(4);
      if !ok { return 2; }
      Inflate.TakeSmall(input, Pos() - 4);
      ncode := ncode + 4;
      if nlen > Inflate.MAXLCODES || ndist > Inflate.MAXDCODES { return -3; }
      err := DynamicCodes(nlen, ndist, ncode, o);
    }

    method DynamicCodes(nlen: nat, ndist: nat, ncode: nat, ghost o: seq<Byte>) returns (err: int)
      requires Valid() && Written(o) && 257 <= nlen && 1 <= ndist <= Inflate.MAXDCODES && ncode <= 19
      modifies `incnt, `bitbuf, `bitcnt, `outcnt, out
      ensures Reports(Inflate.DynamicCodes(input, old(Pos()), nlen, ndist, ncode, o, out.Length), err)
    {
      hide Take, Inflate.CodeLengthLens, Inflate.ReadLens, Inflate.Codes, Huffman.TableFor, Huffman.Verdict;
      hide Huffman.CountIn;
      var ok, cl := ReadCodeLengthLens(ncode);
      if !ok { return 2; }
      var t, v := PuffTables.Construct(cl);
      if v != 0 { return -4; }
      var lens;
      err, lens := ReadLengths(t, cl, nlen + ndist);
      if err != 0 { return; }
      if lens[256] == 0 { return -9; }
      var lt, lv := PuffTables.Construct(lens[..nlen]);
      if lv != 0 && (lv < 0 || nlen != lt.count[0] + lt.count[1]) { return -7; }
      var dt, dv := PuffTables.Construct(lens[nlen..]);
      if dv != 0 && (dv < 0 || ndist != dt.count[0] + dt.count[1]) { return -8; }
      err := Codes(lt, dt, lens[..nlen], lens[nlen..], o);
    }

    /** The block loop of puff. */
    method Run() returns (err: int)
      requires Valid() && Pos() == 0 && Written([])
      modifies `incnt, `bitbuf, `bitcnt, `outcnt, out
      ensures Reports(Inflate.Blocks(input, 0, [], out.Length), err)
    {
      hide Take, Inflate.Codes, Inflate.Dynamic, Inflate.Stored, Inflate.FixedLens, Inflate.FixedDists;
      ghost var cur: seq<Byte> := [];
      ghost var want := Inflate.Blocks(input, 0, [], out.Length);
      while true
        invariant Valid() && Written(cur) && want == Inflate.Blocks(input, Pos(), cur, out.Length)
        decreases 8 * |input| - Pos()
      {
        ghost var pos := Pos();
        var ok, last := Bits(1);
        if !ok { return 2; }
        var kind;
        ok, kind := Bits(2);
        if !ok { return 2; }
        ghost var r := Inflate.Block(kind, input, Pos(), cur, out.Length);
        if kind == 0 { err := Stored(cur); }
        else if kind == 1 { err := Fixed(cur); }
        else if kind == 2 { err := Dynamic(cur); }
        else { err := -1; }
        if err != 0 { return; }
        if last == 1 { return; }
        cur := r.out;
      }
    }
  }

  method FixedLengths() returns (lens: seq<nat>)
    ensures lens == Inflate.FixedLens()
  {
    var lengths := new nat[288];
    var symbol := 0;
    while symbol < 144
      invariant symbol <= 144 && forall s :: 0 <= s < symbol ==> lengths[s] == 8
    {
      lengths[symbol] := 8;
      symbol := symbol + 1;
    }
    while symbol < 256
      invariant 144 <= symbol <= 256
      invariant forall s :: 0 <= s < symbol ==> lengths[s] == if s < 144 then 8 else 9
    {
      lengths[symbol] := 9;
      symbol := symbol + 1;
    }
    while symbol < 280
      invariant 256 <= symbol <= 280
      invariant forall s :: 0 <= s < symbol ==> lengths[s] == if s < 144 then 8 else if s < 256 then 9 else 7
    {
      lengths[symbol] := 7;
      symbol := symbol + 1;
    }
    while symbol < 288
      invariant 280 <= symbol <= 288
      invariant forall s :: 0 <= s < symbol ==>
        lengths[s] == if s < 144 then 8 else if s < 256 then 9 else if s < 280 then 7 else 8
    {
      lengths[symbol] := 8;
      symbol := symbol + 1;
    }
    lens := lengths[..];
  }

  method FixedDistances() returns (lens: seq<nat>)
    ensures lens == Inflate.FixedDists()
  {
    var lengths := new nat[Inflate.MAXDCODES];
    var symbol := 0;
    while symbol < Inflate.MAXDCODES
      invariant symbol <= Inflate.MAXDCODES && forall s :: 0 <= s < symbol ==> lengths[s] == 5
    {
      lengths[symbol] := 5;
      symbol := symbol + 1;
    }
    lens := lengths[..];
  }

  /** puff on a zeroed buffer: the code returned, the length reported and every byte of the buffer
      are those of plain inflate, whatever the input. */
  method Puff(dest: array<Byte>, source: seq<Byte>) returns (err: int, destlen: nat)
    requires forall i :: 0 <= i < dest.Length ==> dest[i] == 0
    modifies dest
    ensures var r := Inflate.Blocks(source, 0, [], dest.Length);
      && err == (if r.Done? then 0 else r.code) && (err == 0 <==> r.Done?)
      && destlen == |r.out| <= dest.Length && dest[..destlen] == r.out
      && forall i :: destlen <= i < dest.Length ==> dest[i] == 0
  {
    var s := new PuffState(dest, source);
    err := s.Run();
    destlen := s.outcnt;
  }
}
