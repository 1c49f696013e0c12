/** The exec format: what the executor is told, as values, as bytes, and read back from bytes. */
module ExecFormat {
  import opened Common

  type U32 = x: nat | x < 0x1_0000_0000
  type U64 = x: nat | x < 0x1_0000_0000_0000_0000

  const TWO63: nat := 0x8000_0000_0000_0000
  const TWO64: nat := 0x1_0000_0000_0000_0000
  const INSTR_EOF: U64 := 0xFFFF_FFFF_FFFF_FFFF
  const INSTR_COPYIN: U64 := 0xFFFF_FFFF_FFFF_FFFE
  const INSTR_COPYOUT: U64 := 0xFFFF_FFFF_FFFF_FFFD
  const INSTR_SETPROPS: U64 := 0xFFFF_FFFF_FFFF_FFFC
  const NO_COPYOUT: U64 := 0xFFFF_FFFF_FFFF_FFFF
  const ARG_CONST: U64 := 0
  const ARG_RESULT: U64 := 1
  const ARG_DATA: U64 := 2
  const ARG_CSUM: U64 := 3
  const CSUM_INET: U64 := 0

  datatype Chunk = Chunk(kind: U64, value: U64, size: U64)

  datatype ExecArg =
    | EConst(size: Byte, format: Byte, value: U64, bfOffset: Byte, bfLength: Byte, stride: U32)
    | EResult(size: Byte, format: Byte, index: U64, divOp: U64, addOp: U64, deflt: U64)
    | EData(data: seq<Byte>, readable: bool)
    | ECsum(csize: U64, chunks: seq<Chunk>)

  datatype Instr =
    | ICopyin(addr: U64, arg: ExecArg)
    | ICopyout(index: U64, addr: U64, size: U64)
    | IProps(failNth: U64, async: U64, rerun: U64)
    | ICall(id: U64, index: U64, args: seq<ExecArg>)
    | IEof

  /** A number of type int64. */
  predicate IntFits(x: int) { x < TWO63 && 0 <= x + TWO63 }

  // ----- bytes -----

  /** The n low bytes of v, least significant first. */
  function Le(v: nat, n: nat): (s: seq<Byte>)
    ensures |s| == n
    decreases n
  {
    if n == 0 then [] else [v % 256] + Le(v / 256, n - 1)
  }

  function Le8(v: U64): (s: seq<Byte>)
    ensures |s| == 8
  {
    Le(v, 8)
  }

  function FromLe(s: seq<Byte>): (v: nat)
    ensures v < Pow256(|s|)
  {
    if s == [] then 0 else s[0] + 256 * FromLe(s[1..])
  }

  function Pow256(n: nat): nat { if n == 0 then 1 else 256 * Pow256(n - 1) }

  lemma Pow256Of8()
    ensures Pow256(8) == TWO64
  {
    assert Pow256(2) == 0x1_0000;
    assert Pow256(4) == 0x1_0000_0000;
    assert Pow256(6) == 0x1_0000_0000_0000;
  }

  lemma {:induction false} FromLeLe(v: nat, n: nat)
    requires v < Pow256(n)
    ensures FromLe(Le(v, n)) == v
    decreases n
  {
    if n > 0 {
      FromLeLe(v / 256, n - 1);
      assert Le(v, n)[1..] == Le(v / 256, n - 1);
    }
  }

  /** The word at byte i. */
  function U64At(data: seq<Byte>, i: nat): U64
    requires i + 8 <= |data|
  {
    Pow256Of8();
    FromLe(data[i..i + 8])
  }

  /** s stands at position i. */
  ghost predicate At(data: seq<Byte>, i: nat, s: seq<Byte>) {
    i + |s| <= |data| && data[i..i + |s|] == s
  }

  lemma AtSplit(data: seq<Byte>, i: nat, s: seq<Byte>, t: seq<Byte>)
    requires At(data, i, s + t)
    ensures At(data, i, s) && At(data, i + |s|, t)
  {
    var d := data[i..i + |s + t|];
    assert data[i..i + |s|] == d[..|s|];
    assert data[i + |s|..i + |s| + |t|] == d[|s|..];
  }

  lemma WordAt(data: seq<Byte>, i: nat, v: U64)
    requires At(data, i, Le8(v))
    ensures i + 8 <= |data| && U64At(data, i) == v
  {
    hide Le, FromLe, Pow256;
    Pow256Of8();
    FromLeLe(v, 8);
  }

  function Words(ws: seq<U64>): (s: seq<Byte>)
    ensures |s| == 8 * |ws|
  {
    if ws == [] then [] else Words(ws[..|ws| - 1]) + Le8(ws[|ws| - 1])
  }

  lemma {:induction false} WordsAt(data: seq<Byte>, i: nat, ws: seq<U64>, k: nat)
    requires At(data, i, Words(ws)) && k < |ws|
    ensures i + 8 * k + 8 <= |data| && U64At(data, i + 8 * k) == ws[k]
    decreases |ws|
  {
    hide Le8, U64At;
    var n := |ws| - 1;
    AtSplit(data, i, Words(ws[..n]), Le8(ws[n]));
    if k == n { WordAt(data, i + 8 * n, ws[n]); } else { WordsAt(data, i, ws[..n], k); }
  }

  // ----- values as bytes -----

  function Padded(n: nat): (p: nat)
    ensures n <= p < n + 8 && p % 8 == 0
  {
    (n + 7) / 8 * 8
  }

  function Meta(size: Byte, format: Byte, bfOffset: Byte, bfLength: Byte, stride: U32): (m: U64) {
    size + 0x100 * format + 0x1_0000 * bfOffset + 0x100_0000 * bfLength + 0x1_0000_0000 * stride
  }

  function DataFlags(n: nat, readable: bool): U64
    requires n < TWO63
  {
    if readable then n + TWO63 else n
  }

  ghost predicate ArgOk(a: ExecArg) {
    match a
    case EData(data, _) => |data| < TWO63
    case ECsum(_, chunks) => |chunks| < TWO64
    case _ => true
  }

  function ChunksBytes(cs: seq<Chunk>): (s: seq<Byte>)
    ensures |s| == 24 * |cs|
  {
    if cs == [] then []
    else ChunksBytes(cs[..|cs| - 1]) + Words([cs[|cs| - 1].kind, cs[|cs| - 1].value, cs[|cs| - 1].size])
  }

  function ArgBytes(a: ExecArg): (s: seq<Byte>)
    requires ArgOk(a)
  {
    match a
    case EConst(size, format, value, o, l, stride) => Words([ARG_CONST, Meta(size, format, o, l, stride), value])
    case EResult(size, format, index, d, p, deflt) =>
      Words([ARG_RESULT, Meta(size, format, 0, 0, 0), index, d, p, deflt])
    case EData(data, readable) =>
      Words([ARG_DATA, DataFlags(|data|, readable)]) + (data + seq(Padded(|data|) - |data|, _ => 0))
    case ECsum(size, chunks) => Words([ARG_CSUM, size, CSUM_INET, |chunks|]) + ChunksBytes(chunks)
  }

  ghost predicate ArgsOk(args: seq<ExecArg>) { forall a <- args :: ArgOk(a) }

  function ArgsBytes(args: seq<ExecArg>): (s: seq<Byte>)
    requires ArgsOk(args)
  {
    if args == [] then [] else ArgBytes(args[0]) + ArgsBytes(args[1..])
  }

  ghost predicate InstrOk(ins: Instr, nsys: nat) {
    match ins
    case ICopyin(_, arg) => ArgOk(arg)
    case ICall(id, _, args) =>
      id < nsys <= INSTR_SETPROPS && |args| < TWO64 && ArgsOk(args) && forall a <- args :: a.EConst? || a.EResult?
    case _ => true
  }

  function InstrBytes(ins: Instr, ghost nsys: nat): (s: seq<Byte>)
    requires InstrOk(ins, nsys)
  {
    match ins
    case ICopyin(addr, arg) => Words([INSTR_COPYIN, addr]) + ArgBytes(arg)
    case ICopyout(index, addr, size) => Words([INSTR_COPYOUT, index, addr, size])
    case IProps(f, a, r) => Words([INSTR_SETPROPS, f, a, r])
    case ICall(id, index, args) => Words([id, index, |args|]) + ArgsBytes(args)
    case IEof => Words([INSTR_EOF])
  }

  // ----- reading -----

  datatype Parsed<T> = Got(value: T, next: nat) | Bad

  function ParseChunks(data: seq<Byte>, i: nat, n: nat): (cs: seq<Chunk>)
    requires i + 24 * n <= |data|
    ensures |cs| == n
    decreases n
  {
    if n == 0 then []
    else
      var j := i + 24 * (n - 1);
      ParseChunks(data, i, n - 1) + [Chunk(U64At(data, j), U64At(data, j + 8), U64At(data, j + 16))]
  }

  function ConstOf(meta: U64, value: U64): (a: ExecArg)
    ensures a.EConst?
  {
    EConst(meta % 0x100, meta / 0x100 % 0x100, value,
      meta / 0x1_0000 % 0x100, meta / 0x100_0000 % 0x100, meta / 0x1_0000_0000)
  }

  function ParseArg(data: seq<Byte>, i: nat): (r: Parsed<ExecArg>)
    ensures r.Got? ==> i < r.next <= |data|
  {
    if i + 8 > |data| then Bad
    else if U64At(data, i) == ARG_CONST then
      if i + 24 > |data| then Bad else Got(ConstOf(U64At(data, i + 8), U64At(data, i + 16)), i + 24)
    else if U64At(data, i) == ARG_RESULT then
      if i + 48 > |data| then Bad
      else
        var meta := U64At(data, i + 8);
        Got(EResult(meta % 0x100, meta / 0x100 % 0x100,
              U64At(data, i + 16), U64At(data, i + 24), U64At(data, i + 32), U64At(data, i + 40)), i + 48)
    else if U64At(data, i) == ARG_DATA then
      if i + 16 > |data| then Bad
      else
        var size := U64At(data, i + 8) % TWO63;
        if i + 16 + Padded(size) > |data| then Bad
        else Got(EData(data[i + 16..i + 16 + size], U64At(data, i + 8) >= TWO63), i + 16 + Padded(size))
    else if U64At(data, i) == ARG_CSUM then
      if i + 32 > |data| || U64At(data, i + 16) != CSUM_INET || i + 32 + 24 * U64At(data, i + 24) > |data| then Bad
      else
        var n := U64At(data, i + 24);
        Got(ECsum(U64At(data, i + 8), ParseChunks(data, i + 32, n)), i + 32 + 24 * n)
    else Bad
  }

  /** n call arguments; only constants and results will do. */
  function ParseArgs(data: seq<Byte>, i: nat, n: nat): (r: Parsed<seq<ExecArg>>)
    requires i <= |data|
    ensures r.Got? ==> i <= r.next <= |data| && |r.value| == n
    decreases n
  {
    if n == 0 then Got([], i)
    else
      match ParseArg(data, i)
      case Bad => Bad
      case Got(a, j) =>
        if !a.EConst? && !a.EResult? then Bad
        else match ParseArgs(data, j, n - 1)
          case Bad => Bad
          case Got(rest, k) => Got([a] + rest, k)
  }

  function ParseInstr(data: seq<Byte>, i: nat, nsys: nat): (r: Parsed<Instr>)
    ensures r.Got? ==> i < r.next <= |data|
  {
    if i + 8 > |data| then Bad
    else
      var instr := U64At(data, i);
      if instr == INSTR_COPYIN then
        if i + 16 > |data| then Bad
        else match ParseArg(data, i + 16)
          case Bad => Bad
          case Got(a, j) => Got(ICopyin(U64At(data, i + 8), a), j)
      else if instr == INSTR_COPYOUT then
        if i + 32 > |data| then Bad
        else Got(ICopyout(U64At(data, i + 8), U64At(data, i + 16), U64At(data, i + 24)), i + 32)
      else if instr == INSTR_EOF then Got(IEof, i + 8)
      else if instr == INSTR_SETPROPS then
        if i + 32 > |data| then Bad
        else Got(IProps(U64At(data, i + 8), U64At(data, i + 16), U64At(data, i + 24)), i + 32)
      else if instr >= nsys || i + 24 > |data| then Bad
      else match ParseArgs(data, i + 24, U64At(data, i + 16))
        case Bad => Bad
        case Got(args, j) => Got(ICall(instr, U64At(data, i + 8), args), j)
  }

  // ----- reading undoes writing -----

  lemma MetaFields(size: Byte, format: Byte, o: Byte, l: Byte, stride: U32)
    ensures var m := Meta(size, format, o, l, stride);
      && m % 0x100 == size && m / 0x100 % 0x100 == format && m / 0x1_0000 % 0x100 == o
      && m / 0x100_0000 % 0x100 == l && m / 0x1_0000_0000 == stride
  {
    var high3 := l + 0x100 * stride;
    var high2 := o + 0x100 * high3;
    var high1 := format + 0x100 * high2;
    LowByte(size, high1);
    LowByte(format, high2);
    LowByte(o, high3);
    LowByte(l, stride);
    var m := Meta(size, format, o, l, stride);
    assert m == size + 0x100 * high1;
    assert m / 0x100 == high1;
    TwoSteps(m);
  }

  lemma LowByte(low: Byte, high: nat)
    ensures (low + 0x100 * high) % 0x100 == low && (low + 0x100 * high) / 0x100 == high
  {
  }

  lemma TwoSteps(m: nat)
    ensures m / 0x1_0000 == m / 0x100 / 0x100
    ensures m / 0x100_0000 == m / 0x100 / 0x100 / 0x100
    ensures m / 0x1_0000_0000 == m / 0x100 / 0x100 / 0x100 / 0x100
  {
  }

  lemma FlagsFields(n: nat, readable: bool)
    requires n < TWO63
    ensures DataFlags(n, readable) % TWO63 == n && (DataFlags(n, readable) >= TWO63 <==> readable)
  {
  }

  lemma {:induction false} ChunksBack(data: seq<Byte>, i: nat, cs: seq<Chunk>)
    requires At(data, i, ChunksBytes(cs))
    ensures ParseChunks(data, i, |cs|) == cs
    decreases |cs|
  {
    hide U64At, Words;
    if cs != [] {
      var n := |cs| - 1;
      var ws := [cs[n].kind, cs[n].value, cs[n].size];
      AtSplit(data, i, ChunksBytes(cs[..n]), Words(ws));
      ChunksBack(data, i, cs[..n]);
      ChunkAt(data, i + 24 * n, cs[n]);
    }
  }

  lemma ChunkAt(data: seq<Byte>, i: nat, c: Chunk)
    requires At(data, i, Words([c.kind, c.value, c.size]))
    ensures i + 24 <= |data|
    ensures U64At(data, i) == c.kind && U64At(data, i + 8) == c.value && U64At(data, i + 16) == c.size
  {
    hide U64At, Words;
    var ws := [c.kind, c.value, c.size];
    WordsAt(data, i, ws, 0);
    WordsAt(data, i, ws, 1);
    WordsAt(data, i, ws, 2);
  }

  lemma {:induction false} ConstBack(data: seq<Byte>, i: nat, a: ExecArg)
    requires a.EConst? && At(data, i, ArgBytes(a))
    ensures ParseArg(data, i) == Got(a, i + |ArgBytes(a)|)
  {
    hide U64At, Words, Meta;
    var meta := Meta(a.size, a.format, a.bfOffset, a.bfLength, a.stride);
    var ws := [ARG_CONST, meta, a.value];
    MetaFields(a.size, a.format, a.bfOffset, a.bfLength, a.stride);
    WordsAt(data, i, ws, 0);
    WordsAt(data, i, ws, 1);
    WordsAt(data, i, ws, 2);
  }

  lemma {:induction false} ResultBack(data: seq<Byte>, i: nat, a: ExecArg)
    requires a.EResult? && At(data, i, ArgBytes(a))
    ensures ParseArg(data, i) == Got(a, i + |ArgBytes(a)|)
  {
    hide U64At, Words, Meta;
    var ws := [ARG_RESULT, Meta(a.size, a.format, 0, 0, 0), a.index, a.divOp, a.addOp, a.deflt];
    MetaFields(a.size, a.format, 0, 0, 0);
    WordsAt(data, i, ws, 0);
    WordsAt(data, i, ws, 1);
    WordsAt(data, i, ws, 2);
    WordsAt(data, i, ws, 3);
    WordsAt(data, i, ws, 4);
    WordsAt(data, i, ws, 5);
  }

  lemma {:induction false} DataBack(data: seq<Byte>, i: nat, a: ExecArg)
    requires a.EData? && ArgOk(a) && At(data, i, ArgBytes(a))
    ensures ParseArg(data, i) == Got(a, i + |ArgBytes(a)|)
  {
    hide U64At, Words, Padded, DataFlags, At;
    var n := |a.data|;
    FlagsFields(n, a.readable);
    var ws := [ARG_DATA, DataFlags(n, a.readable)];
    var pad: seq<Byte> := seq(Padded(n) - n, _ => 0);
    AtSplit(data, i, Words(ws), a.data + pad);
    AtSplit(data, i + 16, a.data, pad);
    WordsAt(data, i, ws, 0);
    WordsAt(data, i, ws, 1);
    AtSlice(data, i + 16, a.data);
    AtSlice(data, i + 16, a.data + pad);
  }

  lemma AtSlice(data: seq<Byte>, i: nat, t: seq<Byte>)
    requires At(data, i, t)
    ensures i + |t| <= |data| && data[i..i + |t|] == t
  {
  }

  lemma {:induction false} CsumBack(data: seq<Byte>, i: nat, a: ExecArg)
    requires a.ECsum? && ArgOk(a) && At(data, i, ArgBytes(a))
    ensures ParseArg(data, i) == Got(a, i + |ArgBytes(a)|)
  {
    hide U64At, Words, ChunksBytes, ParseChunks;
    var ws := [ARG_CSUM, a.csize, CSUM_INET, |a.chunks|];
    AtSplit(data, i, Words(ws), ChunksBytes(a.chunks));
    WordsAt(data, i, ws, 0);
    WordsAt(data, i, ws, 1);
    WordsAt(data, i, ws, 2);
    WordsAt(data, i, ws, 3);
    ChunksBack(data, i + 32, a.chunks);
  }

  lemma {:induction false} ArgBack(data: seq<Byte>, i: nat, a: ExecArg)
    requires ArgOk(a) && At(data, i, ArgBytes(a))
    ensures ParseArg(data, i) == Got(a, i + |ArgBytes(a)|)
  {
    hide ParseArg, ArgBytes;
    match a
    case EConst(_, _, _, _, _, _) => ConstBack(data, i, a);
    case EResult(_, _, _, _, _, _) => ResultBack(data, i, a);
    case EData(_, _) => DataBack(data, i, a);
    case ECsum(_, _) => CsumBack(data, i, a);
  }

  lemma {:induction false} ArgsBack(data: seq<Byte>, i: nat, args: seq<ExecArg>)
    requires ArgsOk(args) && (forall a <- args :: a.EConst? || a.EResult?) && At(data, i, ArgsBytes(args))
    ensures ParseArgs(data, i, |args|) == Got(args, i + |ArgsBytes(args)|)
    decreases |args|
  {
    hide ParseArg, ArgBytes;
    if args != [] {
      AtSplit(data, i, ArgBytes(args[0]), ArgsBytes(args[1..]));
      ArgBack(data, i, args[0]);
      ArgsBack(data, i + |ArgBytes(args[0])|, args[1..]);
      assert args == [args[0]] + args[1..];
    }
  }

  /** Every instruction is read back as written, and reading stops right behind it. */
  lemma {:induction false} InstrBack(data: seq<Byte>, i: nat, ins: Instr, nsys: nat)
    requires InstrOk(ins, nsys) && At(data, i, InstrBytes(ins, nsys))
    ensures ParseInstr(data, i, nsys) == Got(ins, i + |InstrBytes(ins, nsys)|)
  {
    hide ParseArg, ParseArgs, ArgBytes, ArgsBytes, Words, U64At;
    match ins
    case ICopyin(addr, arg) => CopyinBack(data, i, ins, nsys);
    case ICopyout(index, addr, size) => FourBack(data, i, [INSTR_COPYOUT, index, addr, size]);
    case IProps(f, a, r) => FourBack(data, i, [INSTR_SETPROPS, f, a, r]);
    case ICall(id, index, args) => CallBack(data, i, ins, nsys);
    case IEof => WordsAt(data, i, [INSTR_EOF], 0);
  }

  lemma {:induction false} FourBack(data: seq<Byte>, i: nat, ws: seq<U64>)
    requires |ws| == 4 && At(data, i, Words(ws))
    ensures i + 32 <= |data| && U64At(data, i) == ws[0] && U64At(data, i + 8) == ws[1]
    ensures U64At(data, i + 16) == ws[2] && U64At(data, i + 24) == ws[3]
  {
    hide U64At, Words;
    WordsAt(data, i, ws, 0);
    WordsAt(data, i, ws, 1);
    WordsAt(data, i, ws, 2);
    WordsAt(data, i, ws, 3);
  }

  lemma {:induction false} CopyinBack(data: seq<Byte>, i: nat, ins: Instr, nsys: nat)
    requires ins.ICopyin? && InstrOk(ins, nsys) && At(data, i, InstrBytes(ins, nsys))
    ensures ParseInstr(data, i, nsys) == Got(ins, i + |InstrBytes(ins, nsys)|)
  {
    hide U64At, Words, ParseArg, ArgBytes;
    var ws := [INSTR_COPYIN, ins.addr];
    AtSplit(data, i, Words(ws), ArgBytes(ins.arg));
    WordsAt(data, i, ws, 0);
    WordsAt(data, i, ws, 1);
    ArgBack(data, i + 16, ins.arg);
  }

  lemma {:induction false} CallBack(data: seq<Byte>, i: nat, ins: Instr, nsys: nat)
    requires ins.ICall? && InstrOk(ins, nsys) && At(data, i, InstrBytes(ins, nsys))
    ensures ParseInstr(data, i, nsys) == Got(ins, i + |InstrBytes(ins, nsys)|)
  {
    hide U64At, Words, ParseArgs, ArgsBytes;
    var ws := [ins.id, ins.index, |ins.args|];
    AtSplit(data, i, Words(ws), ArgsBytes(ins.args));
    WordsAt(data, i, ws, 0);
    WordsAt(data, i, ws, 1);
    WordsAt(data, i, ws, 2);
    ArgsBack(data, i + 24, ins.args);
  }
}
