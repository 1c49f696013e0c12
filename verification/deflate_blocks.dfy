/** Whole deflate streams: any list of blocks, written out and packed into bytes, is inflated to the
    data it stands for. */
module DeflateBlocks {
  import opened Common
  import opened Arith
  import opened BitStream
  import opened Huffman
  import opened BitWriter
  import opened InflateTables
  import opened Deflate
  import PuffFixed
  import Inflate

  // ----- stored blocks -----

  function Padding(pos: nat): (r: Bits)
    ensures (pos + |r|) % 8 == 0 && |r| < 8
  {
    if pos % 8 == 0 then [] else seq(8 - pos % 8, _ => 0)
  }

  /** The length, its complement, and the data. */
  function StoredBytes(data: seq<Byte>): (r: seq<Byte>)
    requires |data| < 65536
    ensures |r| == |data| + 4
  {
    var lo, hi := |data| % 256, |data| / 256;
    [lo, hi, 255 - lo, 255 - hi] + data
  }

  lemma StoredRead(input: seq<Byte>, pos: nat, data: seq<Byte>, out: seq<Byte>, cap: nat)
    requires |data| < 65536 && |out| + |data| <= cap
    requires Stand(input, pos, Padding(pos) + ByteBits(StoredBytes(data)))
    ensures pos <= 8 * |input|
    ensures Inflate.Stored(input, pos, out, cap) == Inflate.Done(pos + |Padding(pos)| + 8 * (|data| + 4), out + data)
  {
    hide Stand, ByteBits;
    var a, b := Padding(pos), StoredBytes(data);
    StandFits(input, pos, a + ByteBits(b));
    StandSplit(input, pos, a, ByteBits(b));
    var i := (pos + |a|) / 8;
    assert pos + |a| == 8 * i && i == (pos + 7) / 8;
    BytesRead(input, i, b);
    forall k | 0 <= k < |b| ensures input[i + k] == b[k] { assert input[i..i + |b|][k] == b[k]; }
    assert input[i + 4..i + 4 + |data|] == data by {
      forall k | 0 <= k < |data| ensures input[i + 4 + k] == data[k] {
        assert input[i + (4 + k)] == b[4 + k];
      }
    }
    assert input[i] == b[0] && input[i + 1] == b[1] && input[i + 2] == b[2] && input[i + 3] == b[3];
  }

  // ----- codes sent along -----

  /** The first n code length code lengths, in their stored order. */
  function ClBits(cl: seq<nat>, n: nat): (r: Bits)
    requires |cl| == 19 && n <= 19
    ensures |r| == 3 * n
    decreases n
  {
    if n == 0 then [] else ClBits(cl, n - 1) + Lsb(cl[OrderOf(n - 1)], 3)
  }

  lemma {:induction false} ClAt(input: seq<Byte>, pos: nat, cl: seq<nat>, n: nat, k: nat)
    requires |cl| == 19 && k < n <= 19 && cl[OrderOf(k)] < 8 && Stand(input, pos, ClBits(cl, n))
    ensures pos + 3 * n <= 8 * |input| && Take(input, pos + 3 * k, 3) == cl[OrderOf(k)]
    decreases n
  {
    hide Stand, Take, Lsb;
    StandFits(input, pos, ClBits(cl, n));
    StandSplit(input, pos, ClBits(cl, n - 1), Lsb(cl[OrderOf(n - 1)], 3));
    if k < n - 1 {
      ClAt(input, pos, cl, n - 1, k);
    } else {
      assert Pow2(3) == 8;
      LsbRead(input, pos + 3 * k, cl[OrderOf(k)], 3);
    }
  }

  /** The lengths of a code for code lengths, of which the first n are sent. */
  ghost predicate ClOk(cl: seq<nat>, n: nat) {
    && |cl| == 19 && 4 <= n <= 19
    && (forall j :: 0 <= j < 19 ==> cl[j] < 8)
    && forall k :: n <= k < 19 ==> cl[OrderOf(k)] == 0
  }

  lemma ClRead(input: seq<Byte>, pos: nat, cl: seq<nat>, n: nat)
    requires ClOk(cl, n) && Stand(input, pos, ClBits(cl, n))
    ensures pos + 3 * n <= 8 * |input| && Inflate.CodeLengthLens(input, pos, n) == cl && LengthsOk(cl)
  {
    hide Stand, Take, Verdict, ClBits;
    StandFits(input, pos, ClBits(cl, n));
    forall k | 0 <= k < 19 ensures PuffFixed.Holds(input, pos, n, k, cl) {
      OrderIs(k);
      if k < n { ClAt(input, pos, cl, n, k); }
    }
    PuffFixed.ClosedForm(input, pos, n, cl);
  }

  /** The two codes of a block, and how they are sent. */
  datatype Head = Head(nlen: nat, ndist: nat, ncode: nat, cl: seq<nat>, runs: seq<Run>)

  /** The header can be written. */
  ghost predicate HeadSent(h: Head) {
    && 257 <= h.nlen <= 286 && 1 <= h.ndist <= 30 && ClOk(h.cl, h.ncode) && Verdict(h.cl) == 0
    && CoversRuns(h.cl, h.runs) && RunsOk(h.runs, []) && |UnrunAll(h.runs, [])| == h.nlen + h.ndist
  }

  /** And what it describes can be used. */
  ghost predicate HeadOk(h: Head) {
    HeadSent(h) && !Inflate.Unusable(LengthCode(h)) && !Inflate.Unusable(DistCode(h))
  }

  ghost function LengthCode(h: Head): seq<nat>
    requires HeadSent(h)
  {
    UnrunAll(h.runs, [])[..h.nlen]
  }

  ghost function DistCode(h: Head): seq<nat>
    requires HeadSent(h)
  {
    UnrunAll(h.runs, [])[h.nlen..]
  }

  function CountBits(h: Head): (r: Bits)
    requires 257 <= h.nlen && 1 <= h.ndist && 4 <= h.ncode
    ensures |r| == 14
  {
    Lsb(h.nlen - 257, 5) + (Lsb(h.ndist - 1, 5) + Lsb(h.ncode - 4, 4))
  }

  lemma CountsRead(input: seq<Byte>, pos: nat, h: Head)
    requires 257 <= h.nlen <= 288 && 1 <= h.ndist <= 32 && 4 <= h.ncode <= 19 && Stand(input, pos, CountBits(h))
    ensures pos + 14 <= 8 * |input| && Take(input, pos, 5) + 257 == h.nlen
    ensures Take(input, pos + 5, 5) + 1 == h.ndist && Take(input, pos + 10, 4) + 4 == h.ncode
  {
    hide Stand, Take, Lsb;
    assert Pow2(4) == 16 && Pow2(5) == 32;
    var a, b, c := Lsb(h.nlen - 257, 5), Lsb(h.ndist - 1, 5), Lsb(h.ncode - 4, 4);
    StandFits(input, pos, a + (b + c));
    StandSplit(input, pos, a, b + c);
    StandSplit(input, pos + 5, b, c);
    LsbRead(input, pos, h.nlen - 257, 5);
    LsbRead(input, pos + 5, h.ndist - 1, 5);
    LsbRead(input, pos + 10, h.ncode - 4, 4);
  }

  lemma {:induction false} RunsSmall(rs: seq<Run>, acc: seq<nat>)
    requires RunsOk(rs, acc) && LengthsOk(acc)
    ensures LengthsOk(UnrunAll(rs, acc))
    decreases |rs|
  {
    if rs != [] { RunsSmall(rs[1..], Unrun(acc, rs[0])); }
  }

  lemma HeadUsable(h: Head)
    requires HeadOk(h)
    ensures Usable(h.cl) && Usable(LengthCode(h)) && Usable(DistCode(h))
  {
    hide Verdict, RunsOk, UnrunAll;
    RunsSmall(h.runs, []);
  }

  ghost function HeadBits(h: Head): Bits
    requires HeadSent(h)
  {
    CountBits(h) + (ClBits(h.cl, h.ncode) + RunsBits(h.cl, h.runs))
  }

  lemma ClUsable(h: Head)
    requires HeadSent(h)
    ensures Usable(h.cl)
  {
    hide Verdict, RunsOk, UnrunAll;
  }

  /** A header is read to the codes it sends, or refused by what is wrong with them: no end of block,
      a bad code for lengths, a bad code for distances. */
  lemma HeadRead(input: seq<Byte>, pos: nat, h: Head, out: seq<Byte>, cap: nat)
    requires HeadSent(h) && Stand(input, pos, HeadBits(h))
    ensures Inflate.Dynamic(input, pos, out, cap) ==
      if LengthCode(h)[256] == 0 then Inflate.Stop(-9, out)
      else if Inflate.Unusable(LengthCode(h)) then Inflate.Stop(-7, out)
      else if Inflate.Unusable(DistCode(h)) then Inflate.Stop(-8, out)
      else Inflate.Codes(LengthCode(h), DistCode(h), input, pos + |HeadBits(h)|, out, cap)
  {
    hide Stand, Take, Verdict, RunsBits, ClBits, CountBits, RunsOk, UnrunAll, Usable;
    hide Inflate.Codes, Inflate.Unusable, Inflate.ReadLens, Inflate.CodeLengthLens;
    var a, b, c := CountBits(h), ClBits(h.cl, h.ncode), RunsBits(h.cl, h.runs);
    StandSplit(input, pos, a, b + c);
    StandSplit(input, pos + 14, b, c);
    CountsRead(input, pos, h);
    ClRead(input, pos + 14, h.cl, h.ncode);
    ClUsable(h);
    RunsRead(h.cl, input, pos + 14 + |b|, h.runs, []);
  }

  /** Too many codes, or a code for code lengths that is not complete. */
  lemma HeadRefused(input: seq<Byte>, pos: nat, h: Head, out: seq<Byte>, cap: nat)
    requires 257 <= h.nlen <= 288 && 1 <= h.ndist <= 32 && ClOk(h.cl, h.ncode)
    requires Stand(input, pos, CountBits(h) + ClBits(h.cl, h.ncode))
    ensures h.nlen > 286 || h.ndist > 30 ==> Inflate.Dynamic(input, pos, out, cap) == Inflate.Stop(-3, out)
    ensures h.nlen <= 286 && h.ndist <= 30 && Verdict(h.cl) != 0 ==>
      Inflate.Dynamic(input, pos, out, cap) == Inflate.Stop(-4, out)
  {
    hide Stand, Take, Verdict, ClBits, CountBits, Inflate.CodeLengthLens;
    StandSplit(input, pos, CountBits(h), ClBits(h.cl, h.ncode));
    CountsRead(input, pos, h);
    ClRead(input, pos + 14, h.cl, h.ncode);
  }

  /** A repeat with nothing to repeat, or past the last length. */
  lemma RunRefused(cl: seq<nat>, input: seq<Byte>, pos: nat, r: Run, acc: seq<nat>, total: nat)
    requires Usable(cl) && |cl| == 19 && Has(cl, RunSymbol(r)) && LengthsOk(acc) && |acc| < total
    requires (r.Again? && 3 <= r.n <= 6) || (r.Zeros? && 3 <= r.n <= 138)
    requires Stand(input, pos, SymbolBits(cl, RunSymbol(r)) + RunRest(r))
    ensures pos <= 8 * |input|
    ensures r.Again? && acc == [] ==> Inflate.ReadLens(cl, input, pos, acc, total) == Inflate.LensStop(-5)
    ensures (r.Zeros? || acc != []) && |acc| + r.n > total ==>
      Inflate.ReadLens(cl, input, pos, acc, total) == Inflate.LensStop(-6)
  {
    hide Stand, Usable, Decode, SymbolBits, Take, LengthsOk, Lsb, Inflate.RepeatBits, Inflate.RepeatBase;
    var s := RunSymbol(r);
    StandFits(input, pos, SymbolBits(cl, s) + RunRest(r));
    StandSplit(input, pos, SymbolBits(cl, s), RunRest(r));
    SymbolRead(cl, input, pos, s);
    if r.Zeros? || acc != [] { CountRead(input, pos + cl[s], r, acc); }
  }

  // ----- blocks -----

  datatype Block = Stored(data: seq<Byte>) | Fixed(tokens: seq<Token>) | Dynamic(head: Head, tokens: seq<Token>)

  /** A block that can be written behind the output out. */
  ghost predicate BlockOk(b: Block, out: seq<Byte>) {
    match b
    case Stored(data) => |data| < 65536
    case Fixed(ts) => TokensOk(ts, out)
    case Dynamic(h, ts) => HeadOk(h) && CoversAll(LengthCode(h), DistCode(h), ts) && TokensOk(ts, out)
  }

  ghost function Output(b: Block, out: seq<Byte>): (r: seq<Byte>)
    requires BlockOk(b, out)
    ensures |r| >= |out|
  {
    match b
    case Stored(data) => out + data
    case Fixed(ts) => ExpandAll(ts, out)
    case Dynamic(_, ts) => ExpandAll(ts, out)
  }

  /** The fixed codes write everything. */
  lemma {:induction false} FixedCovers(ts: seq<Token>, out: seq<Byte>)
    requires TokensOk(ts, out)
    ensures CoversAll(Inflate.FixedLens(), Inflate.FixedDists(), ts)
    decreases |ts|
  {
    FixedCode(256);
    if ts != [] {
      FixedCovers(ts[1..], Expand(out, ts[0]));
      FixedCoversOne(ts[0], |out|);
      forall i | 0 <= i < |ts| ensures Covers(Inflate.FixedLens(), Inflate.FixedDists(), ts[i]) {
        if i > 0 { assert ts[i] == ts[1..][i - 1]; }
      }
    }
  }

  lemma FixedCoversOne(t: Token, size: nat)
    requires TokenOk(t, size)
    ensures Covers(Inflate.FixedLens(), Inflate.FixedDists(), t)
  {
    hide Index, Extra, Rest, Has, Inflate.FixedLens, Inflate.FixedDists;
    match t
    case Literal(b) => FixedHas(b);
    case Copy(len, dist) =>
      if len < 258 { LengthParts(len - 3); }
      FixedHas(LengthSymbol(len));
      DistanceParts(dist - 1);
      FixedHas(Index(4, dist - 1));
  }

  lemma FixedHas(s: nat)
    requires s < 288
    ensures Has(Inflate.FixedLens(), s) && (s < 30 ==> Has(Inflate.FixedDists(), s))
  {
  }

  ghost function BodyBits(b: Block, out: seq<Byte>, pos: nat): Bits
    requires BlockOk(b, out)
  {
    match b
    case Stored(data) => Padding(pos) + ByteBits(StoredBytes(data))
    case Fixed(ts) => FixedCovers(ts, out); TokensBits(Inflate.FixedLens(), Inflate.FixedDists(), ts)
    case Dynamic(h, ts) => HeadBits(h) + TokensBits(LengthCode(h), DistCode(h), ts)
  }

  function Kind(b: Block): nat {
    match b
    case Stored(_) => 0
    case Fixed(_) => 1
    case Dynamic(_, _) => 2
  }

  lemma BodyRead(input: seq<Byte>, pos: nat, b: Block, out: seq<Byte>, cap: nat)
    requires BlockOk(b, out) && |Output(b, out)| <= cap && Stand(input, pos, BodyBits(b, out, pos))
    ensures pos + |BodyBits(b, out, pos)| <= 8 * |input|
    ensures Inflate.Block(Kind(b), input, pos, out, cap) ==
      Inflate.Done(pos + |BodyBits(b, out, pos)|, Output(b, out))
  {
    hide Stand, Usable, Inflate.Codes, Inflate.Dynamic, Inflate.Stored, Inflate.FixedLens, Inflate.FixedDists;
    hide TokensOk, HeadOk, HeadBits, TokensBits, ByteBits, Padding, StoredBytes, ExpandAll, CoversAll, Verdict;
    StandFits(input, pos, BodyBits(b, out, pos));
    match b
    case Stored(data) => StoredRead(input, pos, data, out, cap);
    case Fixed(ts) =>
      FixedCovers(ts, out);
      FixedWrites();
      TokensRead(Inflate.FixedLens(), Inflate.FixedDists(), input, pos, ts, out, cap);
    case Dynamic(h, ts) => DynamicRead(input, pos, h, ts, out, cap);
  }

  lemma FixedWrites()
    ensures Usable(Inflate.FixedLens()) && Usable(Inflate.FixedDists()) && |Inflate.FixedDists()| == 30
  {
    PuffFixed.FixedUsable();
  }

  lemma DynamicRead(input: seq<Byte>, pos: nat, h: Head, ts: seq<Token>, out: seq<Byte>, cap: nat)
    requires BlockOk(Dynamic(h, ts), out) && |ExpandAll(ts, out)| <= cap
    requires Stand(input, pos, HeadBits(h) + TokensBits(LengthCode(h), DistCode(h), ts))
    ensures Inflate.Dynamic(input, pos, out, cap) ==
      Inflate.Done(pos + |HeadBits(h) + TokensBits(LengthCode(h), DistCode(h), ts)|, ExpandAll(ts, out))
  {
    hide Stand, Usable, Inflate.Codes, Inflate.Dynamic, HeadBits, TokensBits, ExpandAll, Verdict, RunsOk, UnrunAll;
    var a, b := HeadBits(h), TokensBits(LengthCode(h), DistCode(h), ts);
    StandSplit(input, pos, a, b);
    HeadUsable(h);
    HeadRead(input, pos, h, out, cap);
    TokensRead(LengthCode(h), DistCode(h), input, pos + |a|, ts, out, cap);
  }

  // ----- streams -----

  ghost predicate StreamOk(bs: seq<Block>, out: seq<Byte>)
    decreases |bs|
  {
    bs != [] && BlockOk(bs[0], out) && (|bs| > 1 ==> StreamOk(bs[1..], Output(bs[0], out)))
  }

  ghost function StreamOutput(bs: seq<Block>, out: seq<Byte>): (r: seq<Byte>)
    requires StreamOk(bs, out)
    ensures |r| >= |Output(bs[0], out)|
    decreases |bs|
  {
    if |bs| == 1 then Output(bs[0], out) else StreamOutput(bs[1..], Output(bs[0], out))
  }

  /** One block with its header: whether it is the last, and its kind. */
  ghost function BlockBits(b: Block, last: bool, out: seq<Byte>, pos: nat): Bits
    requires BlockOk(b, out)
  {
    [if last then 1 else 0] + (Lsb(Kind(b), 2) + BodyBits(b, out, pos + 3))
  }

  ghost function StreamBits(bs: seq<Block>, out: seq<Byte>, pos: nat): Bits
    requires StreamOk(bs, out)
    decreases |bs|
  {
    var b := BlockBits(bs[0], |bs| == 1, out, pos);
    if |bs| == 1 then b else b + StreamBits(bs[1..], Output(bs[0], out), pos + |b|)
  }

  lemma BlockRead(input: seq<Byte>, pos: nat, b: Block, last: bool, out: seq<Byte>, cap: nat)
    requires BlockOk(b, out) && |Output(b, out)| <= cap && Stand(input, pos, BlockBits(b, last, out, pos))
    ensures pos + |BlockBits(b, last, out, pos)| <= 8 * |input|
    ensures Inflate.Blocks(input, pos, out, cap) ==
      if last then Inflate.Done(pos + |BlockBits(b, last, out, pos)|, Output(b, out))
      else Inflate.Blocks(input, pos + |BlockBits(b, last, out, pos)|, Output(b, out), cap)
  {
    hide Stand, Take, BlockOk, Output, BodyBits, Inflate.Block, Lsb;
    var f, k, c := [if last then 1 else 0], Lsb(Kind(b), 2), BodyBits(b, out, pos + 3);
    StandFits(input, pos, f + (k + c));
    StandSplit(input, pos, f, k + c);
    StandSplit(input, pos + 1, k, c);
    assert Pow2(2) == 4;
    LsbRead(input, pos + 1, Kind(b), 2);
    OneBit(input, pos, f[0]);
    TakeNext(input, pos, 1);
    TakeNone(input, pos + 1);
    BodyRead(input, pos + 3, b, out, cap);
  }

  lemma {:induction false} StreamRead(input: seq<Byte>, pos: nat, bs: seq<Block>, out: seq<Byte>, cap: nat)
    requires StreamOk(bs, out) && |StreamOutput(bs, out)| <= cap && Stand(input, pos, StreamBits(bs, out, pos))
    ensures pos + |StreamBits(bs, out, pos)| <= 8 * |input|
    ensures Inflate.Blocks(input, pos, out, cap) ==
      Inflate.Done(pos + |StreamBits(bs, out, pos)|, StreamOutput(bs, out))
    decreases |bs|
  {
    hide Stand, BlockOk, Output, BlockBits, Inflate.Blocks;
    var b := BlockBits(bs[0], |bs| == 1, out, pos);
    StandFits(input, pos, StreamBits(bs, out, pos));
    if |bs| == 1 {
      BlockRead(input, pos, bs[0], true, out, cap);
    } else {
      StandSplit(input, pos, b, StreamBits(bs[1..], Output(bs[0], out), pos + |b|));
      BlockRead(input, pos, bs[0], false, out, cap);
      StreamRead(input, pos + |b|, bs[1..], Output(bs[0], out), cap);
    }
  }

  /** Whatever is written is read back: the bytes of any list of blocks inflate to its output. */
  lemma InflateReads(bs: seq<Block>, cap: nat)
    requires StreamOk(bs, []) && |StreamOutput(bs, [])| <= cap
    ensures Inflate.Blocks(Pack(StreamBits(bs, [], 0)), 0, [], cap) ==
      Inflate.Done(|StreamBits(bs, [], 0)|, StreamOutput(bs, []))
  {
    hide Stand, StreamOk, StreamOutput, StreamBits, Inflate.Blocks, Pack;
    Packed(StreamBits(bs, [], 0));
    StreamRead(Pack(StreamBits(bs, [], 0)), 0, bs, [], cap);
  }

  // ----- every data -----

  function Literals(data: seq<Byte>): seq<Token> {
    if data == [] then [] else [Literal(data[0])] + Literals(data[1..])
  }

  lemma {:induction false} LiteralsExpand(data: seq<Byte>, out: seq<Byte>)
    ensures TokensOk(Literals(data), out) && ExpandAll(Literals(data), out) == out + data
    decreases |data|
  {
    if data != [] {
      LiteralsExpand(data[1..], out + [data[0]]);
      assert out + [data[0]] + data[1..] == out + data;
    } else {
      assert out + data == out;
    }
  }

  function Chunks(data: seq<Byte>): (r: seq<Block>)
    ensures r != []
    decreases |data|
  {
    if |data| < 65536 then [Stored(data)] else [Stored(data[..65535])] + Chunks(data[65535..])
  }

  lemma {:induction false} ChunksStore(data: seq<Byte>, out: seq<Byte>)
    ensures StreamOk(Chunks(data), out) && StreamOutput(Chunks(data), out) == out + data
    decreases |data|
  {
    if |data| >= 65536 {
      ChunksStore(data[65535..], out + data[..65535]);
      assert Chunks(data)[1..] == Chunks(data[65535..]);
      assert out + data[..65535] + data[65535..] == out + data;
    }
  }

  /** Data stored, in as many blocks as it takes, and data as literals of the fixed code. */
  ghost function StoredStream(data: seq<Byte>): seq<Byte> {
    ChunksStore(data, []);
    Pack(StreamBits(Chunks(data), [], 0))
  }

  ghost function LiteralStream(data: seq<Byte>): seq<Byte> {
    LiteralsExpand(data, []);
    Pack(StreamBits([Fixed(Literals(data))], [], 0))
  }

  /** All data can be sent either way, and comes back. */
  lemma StoredReads(data: seq<Byte>, cap: nat)
    requires |data| <= cap
    ensures Inflate.Blocks(StoredStream(data), 0, [], cap).Done?
    ensures Inflate.Blocks(StoredStream(data), 0, [], cap).out == data
  {
    hide StreamOk, StreamOutput, StreamBits, Inflate.Blocks, Pack, Chunks;
    ChunksStore(data, []);
    assert [] + data == data;
    InflateReads(Chunks(data), cap);
  }

  lemma LiteralReads(data: seq<Byte>, cap: nat)
    requires |data| <= cap
    ensures Inflate.Blocks(LiteralStream(data), 0, [], cap).Done?
    ensures Inflate.Blocks(LiteralStream(data), 0, [], cap).out == data
  {
    hide StreamBits, Inflate.Blocks, Pack, TokensOk, ExpandAll, Literals;
    LiteralsExpand(data, []);
    assert [] + data == data;
    InflateReads([Fixed(Literals(data))], cap);
  }

  // ----- what is refused -----

  /** The fourth kind of block does not exist. */
  lemma NoFourthKind(input: seq<Byte>, pos: nat, last: Bit, out: seq<Byte>, cap: nat)
    requires Stand(input, pos, [last] + Lsb(3, 2))
    ensures pos + 3 <= 8 * |input| && Inflate.Blocks(input, pos, out, cap) == Inflate.Stop(-1, out)
  {
    hide Stand, Take, Lsb;
    StandFits(input, pos, [last] + Lsb(3, 2));
    StandSplit(input, pos, [last], Lsb(3, 2));
    assert Pow2(2) == 4;
    LsbRead(input, pos + 1, 3, 2);
  }

  /** A stored block whose length and complement disagree, or that has no room. */
  lemma StoredRefused(input: seq<Byte>, i: nat, lo: Byte, hi: Byte, nlo: Byte, nhi: Byte, out: seq<Byte>, cap: nat)
    requires i + 4 <= |input| && input[i..i + 4] == [lo, hi, nlo, nhi]
    ensures lo + nlo != 255 || hi + nhi != 255 ==> Inflate.Stored(input, 8 * i, out, cap) == Inflate.Stop(-2, out)
    ensures lo + nlo == 255 && hi + nhi == 255 && lo + 256 * hi > |input| - i - 4 ==>
      Inflate.Stored(input, 8 * i, out, cap) == Inflate.Stop(2, out)
    ensures lo + nlo == 255 && hi + nhi == 255 && lo + 256 * hi <= |input| - i - 4 && |out| + lo + 256 * hi > cap ==>
      Inflate.Stored(input, 8 * i, out, cap) == Inflate.Stop(1, out)
  {
    var b := input[i..i + 4];
    assert b[0] == lo && b[1] == hi && b[2] == nlo && b[3] == nhi;
    assert (8 * i + 7) / 8 == i;
  }

  /** A copy from before the start of the output, or past the room for it. */
  lemma CopyRefused(input: seq<Byte>, pos: nat, len: nat, dist: nat, out: seq<Byte>, cap: nat)
    requires 1 <= dist <= 32768 && Stand(input, pos, Lsb(Rest(4, dist - 1), Extra(4, dist - 1)))
    ensures Index(4, dist - 1) < 30
    ensures dist > |out| ==>
      Inflate.CopyFrom(input, pos, Index(4, dist - 1), len, out, cap) == Inflate.Stop(-11, out)
    ensures dist <= |out| && |out| + len > cap ==>
      Inflate.CopyFrom(input, pos, Index(4, dist - 1), len, out, cap) == Inflate.Stop(1, out)
  {
    hide Stand, Index, Extra, Rest, Take, Lsb;
    StandFits(input, pos, Lsb(Rest(4, dist - 1), Extra(4, dist - 1)));
    DistanceParts(dist - 1);
    LsbRead(input, pos, Rest(4, dist - 1), Extra(4, dist - 1));
  }
}
