/** The exec encoder: a buffer, an end-of-buffer flag, a map of arguments and a counter. */
module ExecEncoder {
  import opened Common
  import opened ExecFormat
  import opened ExecProg
  import opened ExecValid
  import opened ExecDecode
  import opened ExecRoundTrip

  /** Everything that has been asked for, whether or not it fitted, is in `out`. */
  class ExecContext {
    const buf: array<Byte>
    var pos: nat
    var eof: bool
    var args: map<nat, Info>
    var copyoutSeq: nat
    ghost var out: seq<Byte>

    constructor (buffer: array<Byte>)
      ensures buf == buffer && Valid() && out == [] && View() == Ctx(map[], 0)
    {
      buf, pos, eof, args, copyoutSeq, out := buffer, 0, false, map[], 0, [];
    }

    ghost predicate Valid()
      reads this, buf
    {
      && pos <= buf.Length
      && (eof ==> |out| > buf.Length)
      && (!eof ==> pos == |out| && buf[..pos] == out)
    }

    ghost function View(): Ctx
      reads this
    {
      Ctx(args, copyoutSeq)
    }

    /** Copies data into the buffer at position `at`. */
    method CopyInto(at: nat, data: seq<Byte>)
      requires at + |data| <= buf.Length
      modifies buf
      ensures buf[..at + |data|] == old(buf[..at]) + data
    {
      ghost var head := buf[..at];
      for j := 0 to |data|
        invariant buf[..at + j] == head + data[..j]
      {
        buf[at + j] := data[j];
        assert buf[..at + j + 1] == buf[..at + j] + [data[j]];
      }
    }

    /** What stands in `out` after k of the words ws, o having been there before. */
    static ghost function Upto(o: seq<Byte>, ws: seq<U64>, k: nat): seq<Byte>
      requires k <= |ws|
    {
      o + Words(ws[..k])
    }

    static lemma UptoAll(o: seq<Byte>, ws: seq<U64>)
      ensures Upto(o, ws, 0) == o && Upto(o, ws, |ws|) == o + Words(ws)
    {
      assert ws[..|ws|] == ws;
    }

    /** write: the next of the words ws. */
    method Write(v: U64, ghost o: seq<Byte>, ghost ws: seq<U64>, ghost k: nat)
      requires Valid() && k < |ws| && v == ws[k] && out == Upto(o, ws, k)
      modifies `pos, `eof, `out, buf
      ensures Valid() && out == Upto(o, ws, k + 1)
    {
      hide Le8;
      assert ws[..k + 1][..k] == ws[..k];
      assert Upto(o, ws, k + 1) == out + Le8(v);
      if buf.Length - pos < 8 {
        eof := true;
        out := out + Le8(v);
        return;
      }
      CopyInto(pos, Le8(v));
      out := out + Le8(v);
      pos := pos + 8;
    }

    method WriteConstArg(size: Byte, val: U64, bfOffset: Byte, bfLength: Byte, stride: U32, format: Byte)
      requires Valid()
      modifies `pos, `eof, `out, buf
      ensures Valid() && out == old(out) + ArgBytes(EConst(size, format, val, bfOffset, bfLength, stride))
    {
      hide Words, Upto;
      var meta := Meta(size, format, bfOffset, bfLength, stride);
      ghost var o, ws: seq<U64> := out, [ARG_CONST, meta, val];
      UptoAll(o, ws);
      Write(ARG_CONST, o, ws, 0);
      Write(meta, o, ws, 1);
      Write(val, o, ws, 2);
    }

    method WriteResultArg(size: Byte, format: Byte, index: U64, opDiv: U64, opAdd: U64, deflt: U64)
      requires Valid()
      modifies `pos, `eof, `out, buf
      ensures Valid() && out == old(out) + ArgBytes(EResult(size, format, index, opDiv, opAdd, deflt))
    {
      hide Words, Upto;
      var meta := Meta(size, format, 0, 0, 0);
      ghost var o, ws: seq<U64> := out, [ARG_RESULT, meta, index, opDiv, opAdd, deflt];
      UptoAll(o, ws);
      Write(ARG_RESULT, o, ws, 0);
      Write(meta, o, ws, 1);
      Write(index, o, ws, 2);
      Write(opDiv, o, ws, 3);
      Write(opAdd, o, ws, 4);
      Write(deflt, o, ws, 5);
    }

    /** Copies the data and up to eight zero bytes. */
    method CopyBlob(data: seq<Byte>)
      requires pos + Padded(|data|) <= buf.Length
      modifies buf
      ensures buf[..pos + Padded(|data|)] == old(buf[..pos]) + (data + seq(Padded(|data|) - |data|, _ => 0))
    {
      ghost var head := buf[..pos];
      var n := pos + |data|;
      CopyInto(pos, data);
      var z := if buf.Length - n < 8 then buf.Length - n else 8;
      CopyInto(n, seq(z, _ => 0));
      ghost var k := Padded(|data|) - |data|;
      Padding(head, data, k, buf[..n + z], z);
      assert buf[..n + k] == buf[..n + z][..n + k];
    }

    /** The blob of writeArg: whole words, or nothing if they do not fit. */
    method WriteBlob(data: seq<Byte>)
      requires Valid()
      modifies `pos, `eof, `out, buf
      ensures Valid() && out == old(out) + (data + seq(Padded(|data|) - |data|, _ => 0))
    {
      var padded := Padded(|data|);
      hide Padded;
      ghost var tail: seq<Byte> := data + seq(padded - |data|, _ => 0);
      if buf.Length - pos < padded {
        eof := true;
      } else {
        CopyBlob(data);
        pos := pos + padded;
      }
      out := out + tail;
    }

    static lemma Padding(head: seq<Byte>, data: seq<Byte>, k: nat, s: seq<Byte>, z: nat)
      requires k <= z && s == head + data + seq(z, _ => 0)
      ensures s[..|head| + |data| + k] == head + (data + seq(k, _ => 0))
    {
    }

    method WriteDataArg(data: seq<Byte>, readable: bool)
      requires Valid() && |data| < TWO63
      modifies `pos, `eof, `out, buf
      ensures Valid() && out == old(out) + if data == [] then [] else ArgBytes(EData(data, readable))
    {
      hide Words, Upto, Padded;
      if data == [] { return; }
      var flags := DataFlags(|data|, readable);
      ghost var o, ws: seq<U64> := out, [ARG_DATA, flags];
      UptoAll(o, ws);
      Write(ARG_DATA, o, ws, 0);
      Write(flags, o, ws, 1);
      WriteBlob(data);
    }

    /** writeArg. */
    method WriteArg(a: Arg)
      requires Valid() && !Leaf(a).GroupArg? && (RefOf(a).Some? ==> RefOf(a).value in args)
      requires Leaf(a).DataArg? ==> |Leaf(a).data| < TWO63
      modifies `pos, `eof, `out, buf
      ensures Valid()
      ensures out == old(out) + if Leaf(a).DataArg? && Leaf(a).data == [] then [] else ArgBytes(EncArg(a, args))
      decreases a
    {
      hide Words, ArgBytes;
      match a
      case ConstArg(_, _, unit, value, stride, format, o, l) => WriteConstArg(unit, value, o, l, stride, format);
      case ResultArg(_, size, _, _, res, opDiv, opAdd, val, deflt, format) =>
        if res.None? {
          WriteConstArg(size, val, 0, 0, 0, format);
        } else {
          WriteResultArg(size, format, args[res.value].idx % TWO64, opDiv, opAdd, deflt);
        }
      case PointerArg(_, size, phys, _) => WriteConstArg(size, phys, 0, 0, 0, 0);
      case DataArg(_, data, _, readable) => WriteDataArg(data, readable);
      case UnionArg(_, _, option) => WriteArg(option);
    }

    // ----- instructions -----

    method WriteCopyinInstr(addr: U64, a: Arg, ghost nsys: nat)
      requires Valid() && WritableIn(a, args)
      modifies `pos, `eof, `out, buf
      ensures Valid() && out == old(out) + InstrBytes(ICopyin(addr, EncArg(a, args)), nsys)
    {
      hide Words, Upto, ArgBytes, EncArg;
      ghost var o, ws: seq<U64> := out, [INSTR_COPYIN, addr];
      UptoAll(o, ws);
      Write(INSTR_COPYIN, o, ws, 0);
      Write(addr, o, ws, 1);
      WriteArg(a);
    }

    /** writeCopyin. */
    method WriteCopyin(c: Call, ghost defs: seq<nat>, ghost nsys: nat)
      requires Valid() && CallOk(c, defs, nsys) && Ready(c, defs, View())
      modifies `pos, `eof, `out, `args, buf
      ensures Valid() && View() == old(Ctx(AfterCopyin(CallVisits(c), |CallVisits(c)|, args), copyoutSeq))
      ensures CopyinsOk(old(Copyins(CallVisits(c), |CallVisits(c)|, args)))
      ensures out == old(out) + CopyinBytes(old(Copyins(CallVisits(c), |CallVisits(c)|, args)), nsys)
    {
      hide CallOk, CallVisits, Ready, InstrBytes, EncArg, AfterCopyin, Copyins, CopyinBytes, CopyinsOk, WritableIn;
      hide Copied, NoteAddr;
      var vs := CallVisits(c);
      ghost var m, o, ctx := args, out, View();
      NoCopyinsYet(vs, m, nsys);
      CopyinsFine(c, defs, ctx, nsys, 0);
      for n := 0 to |vs|
        invariant Valid() && args == AfterCopyin(vs, n, m) && copyoutSeq == ctx.next
        invariant CopyinsOk(Copyins(vs, n, m)) && out == o + CopyinBytes(Copyins(vs, n, m), nsys)
      {
        CopyinsFine(c, defs, ctx, nsys, n + 1);
        NextCopyin(vs, n, m);
        if Copied(vs[n]) { VisitWritable(c, defs, ctx, nsys, n); }
        VisitCopyin(vs[n], nsys);
        CopyinsNext(vs, n, m, nsys);
      }
    }

    /** One visit of writeCopyin. */
    method VisitCopyin(v: Visit, ghost nsys: nat)
      requires Valid() && (Copied(v) ==> WritableIn(v.arg, NoteAddr(v, args)))
      modifies `pos, `eof, `out, `args, buf
      ensures Valid() && args == old(NoteAddr(v, args))
      ensures out == old(out) + if Copied(v) then InstrBytes(ICopyin(v.addr.value, EncArg(v.arg, args)), nsys) else []
    {
      hide InstrBytes, EncArg;
      if v.addr.Some? && Used(v) { args := args[v.arg.id := Info(v.addr.value, 0, false)]; }
      if Copied(v) { WriteCopyinInstr(v.addr.value, v.arg, nsys); }
    }

    method WriteChunk(c: Chunk)
      requires Valid()
      modifies `pos, `eof, `out, buf
      ensures Valid() && out == old(out) + Words([c.kind, c.value, c.size])
    {
      hide Words, Upto;
      ghost var o, ws: seq<U64> := out, [c.kind, c.value, c.size];
      UptoAll(o, ws);
      Write(c.kind, o, ws, 0);
      Write(c.value, o, ws, 1);
      Write(c.size, o, ws, 2);
    }

    /** One checksum instruction. */
    method WriteCsum(s: Copyin, ghost nsys: nat)
      requires Valid() && CsumOk(s)
      modifies `pos, `eof, `out, buf
      ensures Valid() && out == old(out) + InstrBytes(ICopyin(s.addr, s.arg), nsys)
    {
      hide Words, Upto, ChunksBytes;
      WriteWords2(INSTR_COPYIN, s.addr);
      ghost var o1 := out;
      var chunks := s.arg.chunks;
      WriteWords4(ARG_CSUM, s.arg.csize, CSUM_INET, |chunks|);
      WriteChunks(chunks);
      assert out == o1 + ArgBytes(s.arg);
    }

    method WriteChunks(chunks: seq<Chunk>)
      requires Valid()
      modifies `pos, `eof, `out, buf
      ensures Valid() && out == old(out) + ChunksBytes(chunks)
    {
      hide Words;
      ghost var o := out;
      for j := 0 to |chunks|
        invariant Valid() && out == o + ChunksBytes(chunks[..j])
      {
        assert chunks[..j + 1][..j] == chunks[..j];
        WriteChunk(chunks[j]);
      }
      assert chunks[..|chunks|] == chunks;
    }

    method WriteWords2(a: U64, b: U64)
      requires Valid()
      modifies `pos, `eof, `out, buf
      ensures Valid() && out == old(out) + Words([a, b])
    {
      hide Words, Upto;
      ghost var o, ws: seq<U64> := out, [a, b];
      UptoAll(o, ws);
      Write(a, o, ws, 0);
      Write(b, o, ws, 1);
    }

    method WriteWords4(a: U64, b: U64, c: U64, d: U64)
      requires Valid()
      modifies `pos, `eof, `out, buf
      ensures Valid() && out == old(out) + Words([a, b, c, d])
    {
      hide Words, Upto;
      ghost var o, ws: seq<U64> := out, [a, b, c, d];
      UptoAll(o, ws);
      Write(a, o, ws, 0);
      Write(b, o, ws, 1);
      Write(c, o, ws, 2);
      Write(d, o, ws, 3);
    }

    /** writeChecksums, cs being the copyins written before. */
    method WriteChecksums(csums: seq<Copyin>, ghost cs: seq<Copyin>, ghost o: seq<Byte>, ghost nsys: nat)
      requires Valid() && CopyinsOk(cs) && out == o + CopyinBytes(cs, nsys)
      requires forall i :: 0 <= i < |csums| ==> CsumOk(csums[i])
      modifies `pos, `eof, `out, buf
      ensures Valid() && CopyinsOk(cs + csums) && out == o + CopyinBytes(cs + csums, nsys)
    {
      hide InstrBytes, CopyinBytes, ArgOk;
      assert cs + csums[..0] == cs;
      for n := 0 to |csums|
        invariant Valid() && CopyinsOk(cs + csums[..n]) && out == o + CopyinBytes(cs + csums[..n], nsys)
      {
        WriteCsum(csums[n], nsys);
        CopyinBytesSnoc(cs + csums[..n], csums[n], nsys);
        assert cs + csums[..n] + [csums[n]] == cs + csums[..n + 1];
      }
      assert csums[..|csums|] == csums;
    }

    /** writeCallProps, for properties other than the default ones. */
    method WriteCallProps(p: Props, ghost nsys: nat)
      requires Valid()
      modifies `pos, `eof, `out, buf
      ensures Valid() && out == old(out) + PropsBytes(p, nsys)
    {
      hide Words;
      if p != NO_PROPS {
        WriteWords4(INSTR_SETPROPS, ToU64(p.failNth), if p.async then 1 else 0, ToU64(p.rerun));
      }
    }

    method WriteTopArgs(top: seq<Arg>)
      requires Valid() && TopsOk(top)
      requires forall i :: 0 <= i < |top| && RefOf(top[i]).Some? ==> RefOf(top[i]).value in args
      modifies `pos, `eof, `out, buf
      ensures Valid() && ArgsOk(EncArgs(top, args)) && out == old(out) + ArgsBytes(EncArgs(top, args))
    {
      hide ArgBytes, EncArg;
      ghost var o := out;
      EncArgsOk(top[..0], args);
      for n := 0 to |top|
        invariant Valid() && ArgsOk(EncArgs(top[..n], args)) && out == o + ArgsBytes(EncArgs(top[..n], args))
      {
        assert TopOk(top[n]);
        WriteArg(top[n]);
        EncArgsOk(top[..n + 1], args);
        EncArgsNext(top, n, args);
      }
      assert top[..|top|] == top;
    }

    /** The words before the arguments; the return value is numbered on the way. */
    method WriteCallHead(c: Call, ghost index: U64)
      requires Valid() && |c.args| < TWO64 && (RetUsed(c) ==> RetId(c) !in args)
      requires index == if RetUsed(c) then copyoutSeq % TWO64 else NO_COPYOUT
      modifies this, buf
      ensures Valid() && View() == AfterRet(c, old(View()))
      ensures out == old(out) + Words([c.id, index, |c.args|])
    {
      hide Words, Upto;
      ghost var o, ws: seq<U64> := out, [c.id, index, |c.args|];
      UptoAll(o, ws);
      Write(c.id, o, ws, 0);
      if RetUsed(c) {
        args := args[RetId(c) := Info(0, copyoutSeq, true)];
        Write(copyoutSeq % TWO64, o, ws, 1);
        copyoutSeq := copyoutSeq + 1;
      } else {
        Write(NO_COPYOUT, o, ws, 1);
      }
      Write(|c.args|, o, ws, 2);
    }

    /** The call instruction itself. */
    method WriteCall(c: Call, ghost defs: seq<nat>, ghost nsys: nat, ghost ctx: Ctx)
      requires Valid() && CallOk(c, defs, nsys) && Ready(c, defs, ctx)
      requires View() == Ctx(AfterCopyin(CallVisits(c), |CallVisits(c)|, ctx.args), ctx.next)
      modifies this, buf
      ensures Valid() && View() == CtxBeforeArgs(c, ctx) && TopsOk(c.args)
      ensures InstrOk(CallInstr(c, ctx), nsys) && out == old(out) + InstrBytes(CallInstr(c, ctx), nsys)
    {
      hide Words, CallOk, CallVisits, AfterCopyin, Ready, ArgsBytes, EncArgs, TopsOk, TopRefsOk, VisitsOk, InstrOk;
      hide InstrBytes, AfterRet, RetUsed, CallInstr, ArgsOk;
      ValidCallParts(c, defs, nsys);
      TopsWritable(c, defs, ctx);
      CallInstrOk(c, defs, nsys, ctx);
      RetUnseen(c, defs, ctx);
      CallInstrParts(c, ctx, nsys);
      WriteCallHead(c, CallInstr(c, ctx).index);
      WriteTopArgs(c.args);
    }

    /** One visit of writeCopyout. */
    method VisitCopyout(v: Visit, ghost now: Ctx, ghost nsys: nat)
      requires Valid() && View() == now
      modifies this, buf
      ensures Valid() && View() == NoteIndex(v, now)
      ensures out == old(out) + CopyoutOfVisit(v, now, nsys)
    {
      hide Words;
      if Used(v) {
        var info := Lookup(args, v.arg.id);
        if info.ret { return; }
        info := info.(idx := copyoutSeq);
        copyoutSeq := copyoutSeq + 1;
        args := args[v.arg.id := info];
        WriteWords4(INSTR_COPYOUT, info.idx % TWO64, info.addr, v.arg.size);
      }
    }

    /** writeCopyout, for the visits of a call. */
    method WriteCopyout(vs: seq<Visit>, ghost ctx: Ctx, ghost nsys: nat)
      requires Valid() && View() == ctx
      modifies this, buf
      ensures Valid() && View() == AfterCopyout(vs, |vs|, ctx)
      ensures out == old(out) + CopyoutBytes(Copyouts(vs, |vs|, ctx), nsys)
    {
      ghost var o := out;
      hide NoteIndex, CopyoutOfVisit, CopyoutBytes, Copyouts;
      NoCopyouts(vs, ctx, nsys);
      for n := 0 to |vs|
        invariant Valid() && View() == AfterCopyout(vs, n, ctx)
        invariant out == o + CopyoutBytes(Copyouts(vs, n, ctx), nsys)
      {
        ghost var now := View();
        VisitCopyout(vs[n], now, nsys);
        CopyoutsNext(vs, n, ctx, nsys);
      }
    }

    static lemma Join(o: seq<Byte>, a: seq<Byte>, b: seq<Byte>, c: seq<Byte>, d: seq<Byte>)
      ensures o + a + b + c + d == o + (a + b + c + d)
    {
    }

    /** serializeCall. */
    method SerializeCall(c: Call, ghost defs: seq<nat>, ghost nsys: nat, ghost ctx: Ctx)
      requires Valid() && View() == ctx && CallOk(c, defs, nsys) && Ready(c, defs, ctx)
      modifies this, buf
      ensures Valid() && View() == AfterCall(c, ctx)
      ensures Coded(c, ctx, nsys) && out == old(out) + CallBytes(c, ctx, nsys)
    {
      hide CallOk, CallVisits, AfterCopyin, AfterCopyout, Copyins, Copyouts, Ready, InstrOk, InstrBytes;
      hide CopyinBytes, CopyoutBytes, PropsBytes, CtxBeforeArgs, CopyinsOk, CallInstr, CallBytes, Coded, CsumOk;
      ghost var o := out;
      SerialisedCall(c, defs, ctx, nsys);
      CallCsums(c, defs, nsys);
      var vs := CallVisits(c);
      WriteCopyin(c, defs, nsys);
      WriteChecksums(c.csums, Copyins(vs, |vs|, ctx.args), o, nsys);
      WriteCallProps(c.props, nsys);
      WriteCall(c, defs, nsys, ctx);
      WriteCopyout(vs, CtxBeforeArgs(c, ctx), nsys);
      Join(o, CopyinBytes(Copyins(vs, |vs|, ctx.args) + c.csums, nsys), PropsBytes(c.props, nsys),
        InstrBytes(CallInstr(c, ctx), nsys), CopyoutBytes(Copyouts(vs, |vs|, CtxBeforeArgs(c, ctx)), nsys));
    }
  }

  /** SerializeForExec: fails exactly when the program does not fit the buffer or has too many
      results; otherwise the buffer starts with the bytes of the program. */
  method SerializeForExec(p: seq<Call>, buffer: array<Byte>, ghost nsys: nat) returns (ok: bool, n: nat)
    requires Valid(p, nsys)
    modifies buffer
    ensures CallsOk(p) && InstrsOk(CodeAt(p, |p|), nsys)
    ensures ok <==> |ProgBytes(p, nsys)| <= buffer.Length && |Defined(p, |p|)| <= 1000
    ensures ok ==> n == |ProgBytes(p, nsys)| && buffer[..n] == ProgBytes(p, nsys)
  {
    hide Valid, CallOk, Ready, Coded, CallBytes, AfterCall, CodeAt, CtxAt, InstrsOk, InstrsBytes, Words, ProgBytes;
    hide CallsOk, ExecContext.Upto;
    CodeOk(p, nsys, |p|);
    CodeOk(p, nsys, 0);
    NoCode(p, nsys);
    var w := new ExecContext(buffer);
    for k := 0 to |p|
      invariant w.Valid() && w.buf == buffer && w.View() == CtxAt(p, k)
      invariant InstrsOk(CodeAt(p, k), nsys) && w.out == InstrsBytes(CodeAt(p, k), nsys)
    {
      ValidCall(p, nsys, k);
      ProgramNumbers(p, nsys, k);
      w.SerializeCall(p[k], Defined(p, k), nsys, CtxAt(p, k));
      CodeNext(p, k, nsys);
    }
    ghost var o, ws: seq<U64> := w.out, [INSTR_EOF];
    ExecContext.UptoAll(o, ws);
    w.Write(INSTR_EOF, o, ws, 0);
    ProgBytesIs(p, nsys);
    Counted(p, nsys);
    if w.eof || w.copyoutSeq > MAX_COMMANDS { return false, 0; }
    return true, w.pos;
  }

  // ----- bytes of the parts of a call -----

  /** No group, no empty data, and a reference only to a known result. */
  ghost predicate WritableIn(a: Arg, args: map<nat, Info>) {
    && !Leaf(a).GroupArg? && (RefOf(a).Some? ==> RefOf(a).value in args)
    && (Leaf(a).DataArg? ==> |Leaf(a).data| < TWO63 && Leaf(a).data != [])
  }

  ghost predicate CopyinsOk(cs: seq<Copyin>) { forall i :: 0 <= i < |cs| ==> ArgOk(cs[i].arg) }

  ghost function CopyinBytes(cs: seq<Copyin>, nsys: nat): seq<Byte>
    requires CopyinsOk(cs)
  {
    if cs == [] then []
    else CopyinBytes(cs[..|cs| - 1], nsys) + InstrBytes(ICopyin(cs[|cs| - 1].addr, cs[|cs| - 1].arg), nsys)
  }

  lemma CopyinBytesSnoc(cs: seq<Copyin>, s: Copyin, nsys: nat)
    requires CopyinsOk(cs) && ArgOk(s.arg)
    ensures CopyinsOk(cs + [s])
    ensures CopyinBytes(cs + [s], nsys) == CopyinBytes(cs, nsys) + InstrBytes(ICopyin(s.addr, s.arg), nsys)
  {
    assert (cs + [s])[..|cs|] == cs;
  }

  lemma NoCopyinsYet(vs: seq<Visit>, m: map<nat, Info>, nsys: nat)
    ensures AfterCopyin(vs, 0, m) == m && CopyinsOk(Copyins(vs, 0, m)) && CopyinBytes(Copyins(vs, 0, m), nsys) == []
  {
  }

  lemma NextCopyin(vs: seq<Visit>, n: nat, m: map<nat, Info>)
    requires n < |vs|
    ensures AfterCopyin(vs, n + 1, m) == NoteAddr(vs[n], AfterCopyin(vs, n, m)) && (Copied(vs[n]) ==> vs[n].addr.Some?)
  {
    hide NoteAddr;
  }

  lemma CopyinsNext(vs: seq<Visit>, n: nat, m: map<nat, Info>, nsys: nat)
    requires n < |vs| && CopyinsOk(Copyins(vs, n, m)) && CopyinsOk(Copyins(vs, n + 1, m))
    ensures Copied(vs[n]) ==> ArgOk(EncArg(vs[n].arg, AfterCopyin(vs, n + 1, m)))
    ensures CopyinBytes(Copyins(vs, n + 1, m), nsys) == CopyinBytes(Copyins(vs, n, m), nsys) +
      if Copied(vs[n]) then InstrBytes(ICopyin(vs[n].addr.value, EncArg(vs[n].arg, AfterCopyin(vs, n + 1, m))), nsys)
      else []
  {
    hide InstrBytes, EncArg, AfterCopyin;
    var cs := Copyins(vs, n, m);
    if Copied(vs[n]) {
      var s := Copyin(vs[n].addr.value, EncArg(vs[n].arg, AfterCopyin(vs, n + 1, m)));
      assert Copyins(vs, n + 1, m) == cs + [s];
      assert Copyins(vs, n + 1, m)[|cs|] == s;
      CopyinBytesSnoc(cs, s, nsys);
    } else {
      assert Copyins(vs, n + 1, m) == cs;
    }
  }

  lemma {:induction false} CopyinsFine(c: Call, defs: seq<nat>, ctx: Ctx, nsys: nat, n: nat)
    requires CallOk(c, defs, nsys) && Ready(c, defs, ctx) && n <= |CallVisits(c)|
    ensures CopyinsOk(Copyins(CallVisits(c), n, ctx.args))
  {
    ValidCallParts(c, defs, nsys);
    hide CallOk, CallVisits, Ready, Copyins;
    CopyinsArePlain(c, defs, ctx, n);
    PlainCopyinsOk(CallVisits(c), n, defs);
  }

  lemma {:induction false} VisitWritable(c: Call, defs: seq<nat>, ctx: Ctx, nsys: nat, n: nat)
    requires CallOk(c, defs, nsys) && Ready(c, defs, ctx) && n < |CallVisits(c)| && Copied(CallVisits(c)[n])
    ensures WritableIn(CallVisits(c)[n].arg, AfterCopyin(CallVisits(c), n + 1, ctx.args))
  {
    ValidCallParts(c, defs, nsys);
    var v := CallVisits(c)[n];
    assert VisitOk(CallVisits(c), n, defs);
    hide CallOk, CallVisits, Ready, AfterCopyin, VisitsOk;
    if RefOf(v.arg).Some? { KnownIndex(c, defs, ctx, n + 1, RefOf(v.arg).value); }
  }

  ghost function PropsBytes(p: Props, nsys: nat): seq<Byte> {
    if p == NO_PROPS then [] else InstrBytes(IProps(ToU64(p.failNth), if p.async then 1 else 0, ToU64(p.rerun)), nsys)
  }

  ghost function CallInstr(c: Call, ctx: Ctx): Instr
    requires TopsOk(c.args)
  {
    ICall(c.id, if RetUsed(c) then ctx.next % TWO64 else NO_COPYOUT, EncArgs(c.args, CtxBeforeArgs(c, ctx).args))
  }

  function RetId(c: Call): nat
    requires RetUsed(c)
  {
    c.ret.value.id
  }

  ghost function CopyoutOfVisit(v: Visit, ctx: Ctx, nsys: nat): seq<Byte> {
    if !NeedsCopyout(v, ctx) then []
    else InstrBytes(ICopyout(ctx.next % TWO64, Lookup(ctx.args, v.arg.id).addr, v.arg.size), nsys)
  }

  ghost function CopyoutBytes(cs: seq<Copyout>, nsys: nat): seq<Byte> {
    if cs == [] then []
    else
      var s := cs[|cs| - 1];
      CopyoutBytes(cs[..|cs| - 1], nsys) + InstrBytes(ICopyout(s.index, s.addr, s.size), nsys)
  }

  lemma CopyoutsNext(vs: seq<Visit>, n: nat, ctx: Ctx, nsys: nat)
    requires n < |vs|
    ensures CopyoutBytes(Copyouts(vs, n + 1, ctx), nsys) ==
      CopyoutBytes(Copyouts(vs, n, ctx), nsys) + CopyoutOfVisit(vs[n], AfterCopyout(vs, n, ctx), nsys)
  {
    hide InstrBytes, AfterCopyout;
    var cs, now := Copyouts(vs, n, ctx), AfterCopyout(vs, n, ctx);
    if NeedsCopyout(vs[n], now) {
      var s := Copyout(now.next % TWO64, Lookup(now.args, vs[n].arg.id).addr, vs[n].arg.size);
      assert Copyouts(vs, n + 1, ctx) == cs + [s];
      assert (cs + [s])[..|cs|] == cs;
    } else {
      assert Copyouts(vs, n + 1, ctx) == cs;
    }
  }

  lemma NoCopyouts(vs: seq<Visit>, ctx: Ctx, nsys: nat)
    ensures CopyoutBytes(Copyouts(vs, 0, ctx), nsys) == []
  {
  }

  // ----- arguments of the call -----

  lemma {:induction false} EncArgsOk(args: seq<Arg>, m: map<nat, Info>)
    requires TopsOk(args)
    ensures |EncArgs(args, m)| == |args|
    ensures forall i :: 0 <= i < |args| ==> EncArgs(args, m)[i].EConst? || EncArgs(args, m)[i].EResult?
    ensures ArgsOk(EncArgs(args, m))
    decreases |args|
  {
    if args != [] {
      EncArgsOk(args[..|args| - 1], m);
      assert TopOk(args[|args| - 1]);
    }
  }

  lemma {:induction false} ArgsBytesSnoc(s: seq<ExecArg>, a: ExecArg)
    requires ArgsOk(s) && ArgOk(a)
    ensures ArgsOk(s + [a]) && ArgsBytes(s + [a]) == ArgsBytes(s) + ArgBytes(a)
    decreases |s|
  {
    hide ArgBytes, ArgOk;
    if s == [] {
      assert s + [a] == [a];
      assert ArgsBytes([]) == [];
    } else {
      ArgsBytesSnoc(s[1..], a);
      assert (s + [a])[1..] == s[1..] + [a];
    }
  }

  lemma {:induction false} EncArgsNext(args: seq<Arg>, n: nat, m: map<nat, Info>)
    requires n < |args| && TopsOk(args) && ArgsOk(EncArgs(args[..n], m)) && ArgsOk(EncArgs(args[..n + 1], m))
    ensures TopOk(args[n]) && ArgOk(EncArg(args[n], m))
    ensures ArgsBytes(EncArgs(args[..n + 1], m)) == ArgsBytes(EncArgs(args[..n], m)) + ArgBytes(EncArg(args[n], m))
  {
    hide ArgBytes, ArgOk;
    assert args[..n + 1][..n] == args[..n];
    var es, e := EncArgs(args[..n], m), EncArg(args[n], m);
    assert EncArgs(args[..n + 1], m) == es + [e];
    assert e in EncArgs(args[..n + 1], m);
    ArgsBytesSnoc(es, e);
  }

  lemma {:induction false} TopsWritable(c: Call, defs: seq<nat>, ctx: Ctx)
    requires Ready(c, defs, ctx) && TopRefsOk(c.args, CallVisits(c), defs)
    ensures forall i :: 0 <= i < |c.args| && RefOf(c.args[i]).Some? ==>
      RefOf(c.args[i]).value in CtxBeforeArgs(c, ctx).args
  {
    hide CtxBeforeArgs, Ready, RefOf, CallVisits;
    forall i | 0 <= i < |c.args| && RefOf(c.args[i]).Some?
      ensures RefOf(c.args[i]).value in CtxBeforeArgs(c, ctx).args
    {
      assert RefOk(c.args[i], CallVisits(c), |CallVisits(c)|, defs);
      KnownBeforeArgs(c, defs, ctx, RefOf(c.args[i]).value);
    }
  }

  lemma {:induction false} CallInstrOk(c: Call, defs: seq<nat>, nsys: nat, ctx: Ctx)
    requires CallOk(c, defs, nsys)
    ensures InstrOk(CallInstr(c, ctx), nsys)
  {
    hide EncArgs, CtxBeforeArgs, VisitsOk, TopsOk;
    EncArgsOk(c.args, CtxBeforeArgs(c, ctx).args);
  }

  lemma CallInstrParts(c: Call, ctx: Ctx, nsys: nat)
    requires TopsOk(c.args) && InstrOk(CallInstr(c, ctx), nsys)
    ensures var ins := CallInstr(c, ctx);
      && ins.ICall? && ins.index == (if RetUsed(c) then ctx.next % TWO64 else NO_COPYOUT) && |c.args| == |ins.args|
      && ins.args == EncArgs(c.args, CtxBeforeArgs(c, ctx).args)
      && InstrBytes(ins, nsys) == Words([c.id, ins.index, |c.args|]) + ArgsBytes(ins.args)
    ensures CtxBeforeArgs(c, ctx) == AfterRet(c, Ctx(AfterCopyin(CallVisits(c), |CallVisits(c)|, ctx.args), ctx.next))
  {
    hide Words, ArgsBytes, AfterCopyin;
    EncArgsOk(c.args, CtxBeforeArgs(c, ctx).args);
  }

  /** The copyin pass does not enter the return value in the map. */
  lemma {:induction false} RetUnseen(c: Call, defs: seq<nat>, ctx: Ctx)
    requires Ready(c, defs, ctx)
    ensures RetUsed(c) ==> RetId(c) !in AfterCopyin(CallVisits(c), |CallVisits(c)|, ctx.args)
  {
    if RetUsed(c) {
      var vs := CallVisits(c);
      NoDupParts(defs, CallIds(c));
      FirstUsed(vs);
      UsedPrefix(vs, 0, |vs|);
      assert CallIds(c)[0] == RetId(c);
      FirstUnseen(vs, |vs|, ctx.args);
    }
  }

  lemma {:induction false} FirstUnseen(vs: seq<Visit>, n: nat, args: map<nat, Info>)
    requires n <= |vs| && vs != [] && Used(vs[0]) && vs[0].addr.None? && vs[0].arg.id !in args && NoDup(UsedIds(vs, n))
    ensures vs[0].arg.id !in AfterCopyin(vs, n, args)
    decreases n
  {
    hide UsedIds, Used;
    if n > 0 {
      UsedPrefix(vs, n - 1, n);
      NoDupPrefix(UsedIds(vs, n - 1), UsedIds(vs, n));
      FirstUnseen(vs, n - 1, args);
      if n > 1 && Used(vs[n - 1]) {
        UsedPrefix(vs, 0, n);
        UsedPrefix(vs, 1, n - 1);
        FirstUsed(vs);
        assert UsedIds(vs, n)[0] != UsedIds(vs, n)[|UsedIds(vs, n - 1)|];
      }
    }
  }

  // ----- the whole call -----

  lemma {:induction false} InstrsBytesConcat(s: seq<Instr>, t: seq<Instr>, nsys: nat)
    requires InstrsOk(s, nsys) && InstrsOk(t, nsys)
    ensures InstrsOk(s + t, nsys) && InstrsBytes(s + t, nsys) == InstrsBytes(s, nsys) + InstrsBytes(t, nsys)
    decreases |t|
  {
    hide InstrBytes, InstrOk;
    if t == [] {
      assert s + t == s;
    } else {
      var n := |t| - 1;
      assert (s + t)[..|s + t| - 1] == s + t[..n];
      InstrsBytesConcat(s, t[..n], nsys);
    }
  }

  lemma {:induction false} CopyinCode(cs: seq<Copyin>, nsys: nat)
    requires CopyinsOk(cs)
    ensures InstrsOk(CopyinInstrs(cs), nsys) && InstrsBytes(CopyinInstrs(cs), nsys) == CopyinBytes(cs, nsys)
    decreases |cs|
  {
    hide InstrBytes;
    if cs != [] {
      var n := |cs| - 1;
      CopyinCode(cs[..n], nsys);
      var code := CopyinInstrs(cs);
      assert code[..|code| - 1] == CopyinInstrs(cs[..n]);
    }
  }

  lemma {:induction false} CopyoutCode(cs: seq<Copyout>, nsys: nat)
    ensures InstrsOk(CopyoutInstrs(cs), nsys) && InstrsBytes(CopyoutInstrs(cs), nsys) == CopyoutBytes(cs, nsys)
    decreases |cs|
  {
    hide InstrBytes;
    if cs != [] {
      var n := |cs| - 1;
      CopyoutCode(cs[..n], nsys);
      var code := CopyoutInstrs(cs);
      assert code[..|code| - 1] == CopyoutInstrs(cs[..n]);
    }
  }

  lemma {:induction false} OneInstr(ins: Instr, nsys: nat)
    requires InstrOk(ins, nsys) && !ins.IEof?
    ensures InstrsOk([ins], nsys) && InstrsBytes([ins], nsys) == InstrBytes(ins, nsys)
  {
    hide InstrBytes, InstrOk;
    assert InstrsBytes([], nsys) == [];
  }

  lemma {:induction false} PropsCode(p: Props, nsys: nat)
    ensures InstrsOk(PropsInstrs(p), nsys) && InstrsBytes(PropsInstrs(p), nsys) == PropsBytes(p, nsys)
  {
    hide InstrBytes;
    if p != NO_PROPS { OneInstr(PropsInstrs(p)[0], nsys); }
  }

  /** The bytes of a call are those of its parts. */
  lemma {:induction false} CallCode(e: ExecCall, nsys: nat)
    requires e.meta.Some? && CopyinsOk(e.copyin) && InstrOk(ICall(e.meta.value, e.index, e.args), nsys)
    ensures InstrsOk(Flatten(e), nsys)
    ensures InstrsBytes(Flatten(e), nsys) ==
      CopyinBytes(e.copyin, nsys) + PropsBytes(e.props, nsys) +
      InstrBytes(ICall(e.meta.value, e.index, e.args), nsys) + CopyoutBytes(e.copyout, nsys)
  {
    hide InstrBytes, InstrOk, CopyinInstrs, CopyoutInstrs, PropsInstrs, CopyinBytes, CopyoutBytes, PropsBytes;
    hide InstrsBytes, InstrsOk, CopyinsOk;
    var s, t, ins := CopyinInstrs(e.copyin), PropsInstrs(e.props), ICall(e.meta.value, e.index, e.args);
    CopyinCode(e.copyin, nsys);
    PropsCode(e.props, nsys);
    OneInstr(ins, nsys);
    CopyoutCode(e.copyout, nsys);
    InstrsBytesConcat(s, t, nsys);
    InstrsBytesConcat(s + t, [ins], nsys);
    InstrsBytesConcat(s + t + [ins], CopyoutInstrs(e.copyout), nsys);
  }

  lemma CallCsums(c: Call, defs: seq<nat>, nsys: nat)
    requires CallOk(c, defs, nsys)
    ensures forall i :: 0 <= i < |c.csums| ==> CsumOk(c.csums[i])
  {
  }

  ghost predicate Coded(c: Call, ctx: Ctx, nsys: nat) { TopsOk(c.args) && InstrsOk(Flatten(EncCall(c, ctx)), nsys) }

  ghost function CallBytes(c: Call, ctx: Ctx, nsys: nat): seq<Byte>
    requires Coded(c, ctx, nsys)
  {
    InstrsBytes(Flatten(EncCall(c, ctx)), nsys)
  }

  lemma {:induction false} SerialisedCall(c: Call, defs: seq<nat>, ctx: Ctx, nsys: nat)
    requires CallOk(c, defs, nsys) && Ready(c, defs, ctx)
    ensures Coded(c, ctx, nsys) && InstrOk(CallInstr(c, ctx), nsys)
    ensures CopyinsOk(Copyins(CallVisits(c), |CallVisits(c)|, ctx.args) + c.csums)
    ensures CallBytes(c, ctx, nsys) ==
      CopyinBytes(Copyins(CallVisits(c), |CallVisits(c)|, ctx.args) + c.csums, nsys) + PropsBytes(c.props, nsys) +
      InstrBytes(CallInstr(c, ctx), nsys) +
      CopyoutBytes(Copyouts(CallVisits(c), |CallVisits(c)|, CtxBeforeArgs(c, ctx)), nsys)
  {
    CallCsums(c, defs, nsys);
    ValidCallParts(c, defs, nsys);
    CallInstrOk(c, defs, nsys, ctx);
    CopyinsFine(c, defs, ctx, nsys, |CallVisits(c)|);
    hide CallOk, CallVisits, Ready, Copyins, Copyouts, InstrBytes, InstrsBytes, InstrOk;
    hide InstrsOk, CopyinBytes, CopyoutBytes, PropsBytes, EncArgs, CtxBeforeArgs, Flatten, TopsOk;
    CallCode(EncCall(c, ctx), nsys);
  }

  lemma NoCode(p: seq<Call>, nsys: nat)
    requires CallsOk(p)
    ensures InstrsOk(CodeAt(p, 0), nsys) && InstrsBytes(CodeAt(p, 0), nsys) == [] && CtxAt(p, 0) == Ctx(map[], 0)
  {
  }

  lemma {:induction false} CodeNext(p: seq<Call>, k: nat, nsys: nat)
    requires k < |p| && CallsOk(p) && InstrsOk(CodeAt(p, k), nsys) && Coded(p[k], CtxAt(p, k), nsys)
    ensures InstrsOk(CodeAt(p, k + 1), nsys)
    ensures InstrsBytes(CodeAt(p, k + 1), nsys) == InstrsBytes(CodeAt(p, k), nsys) + CallBytes(p[k], CtxAt(p, k), nsys)
    ensures CtxAt(p, k + 1) == AfterCall(p[k], CtxAt(p, k))
  {
    hide EncArgs, Copyins, Copyouts, AfterCall, Flatten, InstrsBytes, InstrsOk;
    InstrsBytesConcat(CodeAt(p, k), Flatten(EncCall(p[k], CtxAt(p, k))), nsys);
  }

  lemma ProgBytesIs(p: seq<Call>, nsys: nat)
    requires CallsOk(p) && InstrsOk(CodeAt(p, |p|), nsys)
    ensures ProgBytes(p, nsys) == InstrsBytes(CodeAt(p, |p|), nsys) + Words([INSTR_EOF])
  {
    hide InstrsBytes, InstrsOk, CodeAt, Words;
  }

  lemma Counted(p: seq<Call>, nsys: nat)
    requires Valid(p, nsys)
    ensures CtxAt(p, |p|).next == |Defined(p, |p|)|
  {
    hide Valid, Defined, CtxAt;
    NumberedAt(p, nsys, |p|);
  }
}
