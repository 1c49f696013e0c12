/** A writer of deflate streams (sections 3.2.3 to 3.2.7 of RFC 1951), and the proof that inflate reads
    back whatever it writes: stored blocks, and blocks of literals and copies under the fixed codes or
    under any codes sent along. */
module Deflate {
  import opened Common
  import opened Arith
  import opened BitStream
  import opened Huffman
  import opened BitWriter
  import opened InflateTables
  import PuffFixed
  import Inflate

  // ----- literals and copies -----

  datatype Token = Literal(b: Byte) | Copy(len: nat, dist: nat)

  predicate TokenOk(t: Token, size: nat) { t.Copy? ==> 3 <= t.len <= 258 && 1 <= t.dist <= 32768 && t.dist <= size }

  function Expand(out: seq<Byte>, t: Token): (r: seq<Byte>)
    requires TokenOk(t, |out|)
    ensures |r| > |out|
  {
    match t
    case Literal(b) => out + [b]
    case Copy(len, dist) => CopyLen(out, dist, len); Inflate.CopyBack(out, dist, len)
  }

  /** A copy appends len bytes, each of them what stands dist back. */
  lemma {:induction false} CopyLen(out: seq<Byte>, dist: nat, len: nat)
    requires 1 <= dist <= |out|
    ensures var r := Inflate.CopyBack(out, dist, len);
      && |r| == |out| + len && r[..|out|] == out
      && forall i :: |out| <= i < |r| ==> r[i] == r[i - dist]
    decreases len
  {
    if len > 0 {
      var o := out + [out[|out| - dist]];
      CopyLen(o, dist, len - 1);
      var r := Inflate.CopyBack(o, dist, len - 1);
      assert forall i :: 0 <= i < |o| ==> r[i] == r[..|o|][i] == o[i];
      assert r[..|out|] == out;
    }
  }

  ghost predicate TokensOk(ts: seq<Token>, out: seq<Byte>)
    decreases |ts|
  {
    ts != [] ==> TokenOk(ts[0], |out|) && TokensOk(ts[1..], Expand(out, ts[0]))
  }

  ghost function ExpandAll(ts: seq<Token>, out: seq<Byte>): (r: seq<Byte>)
    requires TokensOk(ts, out)
    ensures |r| >= |out|
    decreases |ts|
  {
    if ts == [] then out else ExpandAll(ts[1..], Expand(out, ts[0]))
  }

  function LengthSymbol(len: nat): nat
    requires 3 <= len <= 258
  {
    if len == 258 then 285 else 257 + Index(8, len - 3)
  }

  function LengthRest(len: nat): Bits
    requires 3 <= len <= 258
  {
    if len == 258 then [] else Lsb(Rest(8, len - 3), Extra(8, len - 3))
  }

  /** The codes have what it takes to write t. */
  predicate Covers(llens: seq<nat>, dlens: seq<nat>, t: Token) {
    match t
    case Literal(b) => Has(llens, b)
    case Copy(len, dist) =>
      3 <= len <= 258 && 1 <= dist && Has(llens, LengthSymbol(len)) && Has(dlens, Index(4, dist - 1))
  }

  function TokenBits(llens: seq<nat>, dlens: seq<nat>, t: Token): Bits
    requires Covers(llens, dlens, t)
  {
    match t
    case Literal(b) => SymbolBits(llens, b)
    case Copy(len, dist) =>
      SymbolBits(llens, LengthSymbol(len)) + (LengthRest(len) +
      (SymbolBits(dlens, Index(4, dist - 1)) + Lsb(Rest(4, dist - 1), Extra(4, dist - 1))))
  }

  predicate CoversAll(llens: seq<nat>, dlens: seq<nat>, ts: seq<Token>) {
    Has(llens, 256) && forall i :: 0 <= i < |ts| ==> Covers(llens, dlens, ts[i])
  }

  function TokensBits(llens: seq<nat>, dlens: seq<nat>, ts: seq<Token>): Bits
    requires CoversAll(llens, dlens, ts)
    decreases |ts|
  {
    if ts == [] then SymbolBits(llens, 256)
    else TokenBits(llens, dlens, ts[0]) + TokensBits(llens, dlens, ts[1..])
  }

  /** The length part of a copy. */
  lemma LengthRead(input: seq<Byte>, pos: nat, len: nat)
    requires 3 <= len <= 258 && Stand(input, pos, LengthRest(len))
    ensures var k := LengthSymbol(len) - 257;
      && 0 <= k < 29 && Inflate.LEXT[k] == |LengthRest(len)| && pos + Inflate.LEXT[k] <= 8 * |input|
      && Inflate.LENS[k] + Take(input, pos, Inflate.LEXT[k]) == len
  {
    hide Stand, Index, Extra, Rest, Take, Lsb;
    StandFits(input, pos, LengthRest(len));
    if len == 258 {
      LengthTable(0);
      TakeNone(input, pos);
    } else {
      LengthParts(len - 3);
      LsbRead(input, pos, Rest(8, len - 3), Extra(8, len - 3));
    }
  }

  lemma DistanceRead(input: seq<Byte>, pos: nat, len: nat, dist: nat, out: seq<Byte>, cap: nat)
    requires 1 <= dist <= 32768 && dist <= |out| && |out| + len <= cap
    requires Stand(input, pos, Lsb(Rest(4, dist - 1), Extra(4, dist - 1)))
    ensures Index(4, dist - 1) < 30
    ensures Inflate.CopyFrom(input, pos, Index(4, dist - 1), len, out, cap) ==
      Inflate.Done(pos + Extra(4, dist - 1), Inflate.CopyBack(out, dist, len))
  {
    hide Stand, Index, Extra, Rest, Take, Lsb, Inflate.CopyBack;
    StandFits(input, pos, Lsb(Rest(4, dist - 1), Extra(4, dist - 1)));
    DistanceParts(dist - 1);
    LsbRead(input, pos, Rest(4, dist - 1), Extra(4, dist - 1));
  }

  /** The four parts of a copy stand one behind the other. */
  lemma CopyParts(llens: seq<nat>, dlens: seq<nat>, input: seq<Byte>, pos: nat, t: Token)
    requires t.Copy? && Covers(llens, dlens, t) && Stand(input, pos, TokenBits(llens, dlens, t))
    ensures var s, d := LengthSymbol(t.len), Index(4, t.dist - 1);
      var p, n := pos + llens[s], |LengthRest(t.len)|;
      && Stand(input, pos, SymbolBits(llens, s)) && Stand(input, p, LengthRest(t.len))
      && Stand(input, p + n, SymbolBits(dlens, d))
      && Stand(input, p + n + dlens[d], Lsb(Rest(4, t.dist - 1), Extra(4, t.dist - 1)))
      && |TokenBits(llens, dlens, t)| == llens[s] + n + dlens[d] + Extra(4, t.dist - 1)
  {
    hide Stand, Index, Extra, Rest, Lsb, SymbolBits, LengthSymbol, LengthRest;
    var s, d := LengthSymbol(t.len), Index(4, t.dist - 1);
    var a, b, c := SymbolBits(llens, s), LengthRest(t.len), SymbolBits(dlens, d);
    var e := Lsb(Rest(4, t.dist - 1), Extra(4, t.dist - 1));
    StandSplit(input, pos, a, b + (c + e));
    StandSplit(input, pos + |a|, b, c + e);
    StandSplit(input, pos + |a| + |b|, c, e);
  }

  lemma CopyRead(llens: seq<nat>, dlens: seq<nat>, input: seq<Byte>, pos: nat, t: Token, out: seq<Byte>, cap: nat)
    requires Usable(llens) && Usable(dlens) && |dlens| <= 30 && t.Copy? && Covers(llens, dlens, t)
    requires TokenOk(t, |out|) && |Expand(out, t)| <= cap && Stand(input, pos, TokenBits(llens, dlens, t))
    ensures var s, p := LengthSymbol(t.len), pos + llens[LengthSymbol(t.len)];
      && 257 <= s && Decode(llens, input, pos) == Symbol(s, p)
      && Inflate.CopyPair(dlens, input, p, s - 257, out, cap) ==
           Inflate.Done(pos + |TokenBits(llens, dlens, t)|, Expand(out, t))
  {
    hide Stand, Usable, Index, Extra, Rest, Take, Lsb, Decode, SymbolBits, LengthSymbol, LengthRest, TokenBits;
    hide Inflate.CopyFrom, Inflate.CopyBack;
    var s, d := LengthSymbol(t.len), Index(4, t.dist - 1);
    var p := pos + llens[s] + |LengthRest(t.len)|;
    CopyParts(llens, dlens, input, pos, t);
    SymbolRead(llens, input, pos, s);
    LengthRead(input, pos + llens[s], t.len);
    SymbolRead(dlens, input, p, d);
    CopyLen(out, t.dist, t.len);
    DistanceRead(input, p + dlens[d], t.len, t.dist, out, cap);
  }

  lemma TokenRead(llens: seq<nat>, dlens: seq<nat>, input: seq<Byte>, pos: nat, t: Token, out: seq<Byte>, cap: nat)
    requires Usable(llens) && Usable(dlens) && |dlens| <= 30 && Covers(llens, dlens, t)
    requires TokenOk(t, |out|) && |Expand(out, t)| <= cap && Stand(input, pos, TokenBits(llens, dlens, t))
    ensures Inflate.Codes(llens, dlens, input, pos, out, cap) ==
      Inflate.Codes(llens, dlens, input, pos + |TokenBits(llens, dlens, t)|, Expand(out, t), cap)
  {
    hide Stand, Usable, Decode, SymbolBits, LengthSymbol, LengthRest, Inflate.CopyPair, Inflate.CopyBack;
    match t
    case Literal(b) => SymbolRead(llens, input, pos, b);
    case Copy(len, dist) => CopyRead(llens, dlens, input, pos, t, out, cap);
  }

  /** Inflate reads back what a block of tokens was written from, under any two usable codes. */
  lemma {:induction false} TokensRead(
      llens: seq<nat>, dlens: seq<nat>, input: seq<Byte>, pos: nat, ts: seq<Token>, out: seq<Byte>, cap: nat)
    requires Usable(llens) && Usable(dlens) && |dlens| <= 30 && CoversAll(llens, dlens, ts)
    requires TokensOk(ts, out) && |ExpandAll(ts, out)| <= cap && Stand(input, pos, TokensBits(llens, dlens, ts))
    ensures Inflate.Codes(llens, dlens, input, pos, out, cap) ==
      Inflate.Done(pos + |TokensBits(llens, dlens, ts)|, ExpandAll(ts, out))
    decreases |ts|
  {
    hide Stand, Usable, Decode, SymbolBits, TokenBits, Expand, Covers;
    if ts == [] {
      SymbolRead(llens, input, pos, 256);
    } else {
      var a, b := TokenBits(llens, dlens, ts[0]), TokensBits(llens, dlens, ts[1..]);
      StandSplit(input, pos, a, b);
      hide Inflate.Codes;
      TokenRead(llens, dlens, input, pos, ts[0], out, cap);
      TokensRead(llens, dlens, input, pos + |a|, ts[1..], Expand(out, ts[0]), cap);
    }
  }

  // ----- code lengths -----

  /** An instruction of the run-length encoding of code lengths. */
  datatype Run = Len(v: nat) | Again(n: nat) | Zeros(n: nat)

  predicate RunOk(r: Run, acc: seq<nat>) {
    match r
    case Len(v) => v < 16
    case Again(n) => 3 <= n <= 6 && acc != []
    case Zeros(n) => 3 <= n <= 138
  }

  function RunSymbol(r: Run): nat {
    match r
    case Len(v) => v
    case Again(_) => 16
    case Zeros(n) => if n <= 10 then 17 else 18
  }

  function RunRest(r: Run): Bits {
    match r
    case Len(_) => []
    case Again(n) => if n < 3 then [] else Lsb(n - 3, 2)
    case Zeros(n) => if n < 3 then [] else if n <= 10 then Lsb(n - 3, 3) else Lsb(n - 11, 7)
  }

  function Unrun(acc: seq<nat>, r: Run): (a: seq<nat>)
    requires RunOk(r, acc)
    ensures |a| > |acc|
  {
    match r
    case Len(v) => acc + [v]
    case Again(n) => acc + seq(n, _ => acc[|acc| - 1])
    case Zeros(n) => acc + seq(n, _ => 0)
  }

  ghost predicate RunsOk(rs: seq<Run>, acc: seq<nat>)
    decreases |rs|
  {
    rs != [] ==> RunOk(rs[0], acc) && RunsOk(rs[1..], Unrun(acc, rs[0]))
  }

  ghost function UnrunAll(rs: seq<Run>, acc: seq<nat>): (r: seq<nat>)
    requires RunsOk(rs, acc)
    ensures |r| >= |acc| && (rs != [] ==> |r| > |acc|)
    decreases |rs|
  {
    if rs == [] then acc else UnrunAll(rs[1..], Unrun(acc, rs[0]))
  }

  predicate CoversRuns(cl: seq<nat>, rs: seq<Run>) { forall i :: 0 <= i < |rs| ==> Has(cl, RunSymbol(rs[i])) }

  function RunsBits(cl: seq<nat>, rs: seq<Run>): Bits
    requires CoversRuns(cl, rs)
    decreases |rs|
  {
    if rs == [] then []
    else SymbolBits(cl, RunSymbol(rs[0])) + (RunRest(rs[0]) + RunsBits(cl, rs[1..]))
  }

  /** The count of a repeat instruction. */
  lemma CountRead(input: seq<Byte>, pos: nat, r: Run, acc: seq<nat>)
    requires RunOk(r, acc) && !r.Len? && Stand(input, pos, RunRest(r))
    ensures var s := RunSymbol(r);
      && 16 <= s <= 18 && Inflate.RepeatBits(s) == |RunRest(r)| && pos + |RunRest(r)| <= 8 * |input|
      && Inflate.RepeatBase(s) + Take(input, pos, Inflate.RepeatBits(s)) == r.n
  {
    hide Stand, Take, Pow2, Lsb;
    var s := RunSymbol(r);
    StandFits(input, pos, RunRest(r));
    RepeatRange(s, r.n - if s == 18 then 11 else 3);
    LsbRead(input, pos, r.n - (if s == 18 then 11 else 3), |RunRest(r)|);
  }

  lemma LensOne(cl: seq<nat>, input: seq<Byte>, pos: nat, acc: seq<nat>, total: nat, s: nat, p: nat)
    requires |cl| == 19 && pos <= p <= 8 * |input| && |acc| < total && LengthsOk(acc) && s < 16
    requires Decode(cl, input, pos) == Symbol(s, p)
    ensures LengthsOk(acc + [s])
    ensures Inflate.ReadLens(cl, input, pos, acc, total) == Inflate.ReadLens(cl, input, p, acc + [s], total)
  {
    hide Decode, Take;
  }

  lemma LensMany(cl: seq<nat>, input: seq<Byte>, pos: nat, acc: seq<nat>, total: nat, s: nat, p: nat, n: nat, v: nat)
    requires |cl| == 19 && pos <= p && |acc| + n <= total && |acc| < total && LengthsOk(acc) && 16 <= s <= 18
    requires Decode(cl, input, pos) == Symbol(s, p) && p + Inflate.RepeatBits(s) <= 8 * |input|
    requires n == Inflate.RepeatBase(s) + Take(input, p, Inflate.RepeatBits(s))
    requires s == 16 ==> acc != [] && v == acc[|acc| - 1]
    requires s != 16 ==> v == 0
    ensures LengthsOk(acc + seq(n, _ => v))
    ensures Inflate.ReadLens(cl, input, pos, acc, total) ==
      Inflate.ReadLens(cl, input, p + Inflate.RepeatBits(s), acc + seq(n, _ => v), total)
  {
    hide Decode, Take, Inflate.RepeatBits, Inflate.RepeatBase;
    assert seq(n, _ => v) == seq(n, _ => if s == 16 then acc[|acc| - 1] else 0);
  }

  lemma RunRead(cl: seq<nat>, input: seq<Byte>, pos: nat, r: Run, acc: seq<nat>, total: nat)
    requires Usable(cl) && |cl| == 19 && Has(cl, RunSymbol(r)) && RunOk(r, acc) && LengthsOk(acc)
    requires |Unrun(acc, r)| <= total
    requires Stand(input, pos, SymbolBits(cl, RunSymbol(r))) && Stand(input, pos + cl[RunSymbol(r)], RunRest(r))
    ensures var p := pos + cl[RunSymbol(r)] + |RunRest(r)|;
      && p <= 8 * |input| && LengthsOk(Unrun(acc, r))
      && Inflate.ReadLens(cl, input, pos, acc, total) == Inflate.ReadLens(cl, input, p, Unrun(acc, r), total)
  {
    hide Stand, Usable, Decode, SymbolBits, Take, LengthsOk, Lsb, Inflate.RepeatBits, Inflate.RepeatBase;
    hide Inflate.ReadLens;
    var s := RunSymbol(r);
    var p := pos + cl[s];
    StandFits(input, p, RunRest(r));
    SymbolRead(cl, input, pos, s);
    match r
    case Len(v) => LensOne(cl, input, pos, acc, total, s, p);
    case Again(n) =>
      CountRead(input, p, r, acc);
      LensMany(cl, input, pos, acc, total, s, p, n, acc[|acc| - 1]);
    case Zeros(n) =>
      CountRead(input, p, r, acc);
      LensMany(cl, input, pos, acc, total, s, p, n, 0);
  }

  lemma RunsHead(cl: seq<nat>, rs: seq<Run>)
    requires CoversRuns(cl, rs) && rs != []
    ensures Has(cl, RunSymbol(rs[0])) && CoversRuns(cl, rs[1..])
  {
    hide Has, RunSymbol;
    forall i | 0 <= i < |rs[1..]| ensures Has(cl, RunSymbol(rs[1..][i])) { assert rs[1..][i] == rs[i + 1]; }
  }

  /** Inflate reads back the lengths, however they were broken up into runs. */
  lemma {:induction false} RunsRead(cl: seq<nat>, input: seq<Byte>, pos: nat, rs: seq<Run>, acc: seq<nat>)
    requires Usable(cl) && |cl| == 19 && CoversRuns(cl, rs) && RunsOk(rs, acc) && LengthsOk(acc)
    requires Stand(input, pos, RunsBits(cl, rs))
    ensures pos + |RunsBits(cl, rs)| <= 8 * |input|
    ensures Inflate.ReadLens(cl, input, pos, acc, |UnrunAll(rs, acc)|) ==
      Inflate.Lens(pos + |RunsBits(cl, rs)|, UnrunAll(rs, acc))
    decreases |rs|
  {
    hide Stand, Usable, SymbolBits, Unrun, RunOk, RunRest, RunSymbol, LengthsOk, CoversRuns, Inflate.ReadLens;
    StandFits(input, pos, RunsBits(cl, rs));
    if rs == [] {
      LensAll(cl, input, pos, acc);
    } else {
      RunsHead(cl, rs);
      var s := RunSymbol(rs[0]);
      var a, b, c := SymbolBits(cl, s), RunRest(rs[0]), RunsBits(cl, rs[1..]);
      StandSplit(input, pos, a, b + c);
      StandSplit(input, pos + |a|, b, c);
      RunRead(cl, input, pos, rs[0], acc, |UnrunAll(rs, acc)|);
      RunsRead(cl, input, pos + |a| + |b|, rs[1..], Unrun(acc, rs[0]));
    }
  }

  lemma LensAll(cl: seq<nat>, input: seq<Byte>, pos: nat, acc: seq<nat>)
    requires |cl| == 19 && pos <= 8 * |input| && LengthsOk(acc)
    ensures Inflate.ReadLens(cl, input, pos, acc, |acc|) == Inflate.Lens(pos, acc)
  {
  }
}
