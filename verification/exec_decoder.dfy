/** The exec decoder: a cursor, a sticky error, and the call and variables being collected. */
module ExecDecoder {
  import opened Common
  import opened ExecFormat
  import opened ExecProg
  import opened ExecDecode

  class Decoder {
    const data: seq<Byte>
    const nsys: nat
    var pos: nat
    var err: bool
    var numVars: U64
    var vars: seq<U64>
    var call: ExecCall
    var calls: seq<ExecCall>

    constructor (exec: seq<Byte>, n: nat)
      ensures data == exec && nsys == n && pos == 0 && !err && View() == START
    {
      data, nsys, pos, err := exec, n, 0, false;
      numVars, vars, call, calls := 0, [], EMPTY, [];
    }

    ghost function View(): DecState
      reads this
    {
      DecState(call, calls, vars, numVars)
    }

    /** read: zero once there has been an error. */
    method Read() returns (v: U64)
      requires pos <= |data|
      modifies `pos, `err
      ensures pos <= |data|
      ensures if !old(err) && old(pos) + 8 <= |data| then !err && pos == old(pos) + 8 && v == U64At(data, old(pos))
              else err && v == 0
    {
      if pos + 8 > |data| { err := true; }
      if err { return 0; }
      v := U64At(data, pos);
      pos := pos + 8;
    }

    method ReadBlob(size: nat) returns (b: seq<Byte>)
      requires pos <= |data|
      modifies `pos, `err
      ensures pos <= |data|
      ensures if !old(err) && old(pos) + Padded(size) <= |data|
        then !err && pos == old(pos) + Padded(size) && b == data[old(pos)..old(pos) + size] else err
    {
      var padded := Padded(size);
      if pos + padded > |data| { err := true; }
      if err { return []; }
      b := data[pos..pos + size];
      pos := pos + padded;
    }

    method ReadChunks(n: nat) returns (chunks: seq<Chunk>)
      requires pos <= |data|
      modifies `pos, `err
      ensures pos <= |data|
      ensures if !old(err) && old(pos) + 24 * n <= |data|
        then !err && pos == old(pos) + 24 * n && chunks == ParseChunks(data, old(pos), n) else err
    {
      hide U64At;
      ghost var p, bad := pos, err;
      chunks := [];
      for i := 0 to n
        invariant pos <= |data|
        invariant if !bad && p + 24 * i <= |data| then !err && pos == p + 24 * i && chunks == ParseChunks(data, p, i)
                  else err
      {
        var kind := Read();
        var value := Read();
        var size := Read();
        chunks := chunks + [Chunk(kind, value, size)];
      }
    }

    /** Makes room for the variable and sets it. */
    method NoteVar(a: ExecArg)
      requires a.EResult?
      modifies `vars
      ensures vars == NoteRef(old(vars), a)
    {
      ghost var v := vars;
      while |vars| <= a.index
        invariant |vars| <= a.index + 1 || vars == v
        invariant |v| <= |vars| && vars == v + seq(|vars| - |v|, _ => 0)
        decreases a.index + 1 - |vars|
      {
        vars := vars + [0];
      }
      vars := vars[a.index := a.deflt];
    }

    method ReadConst() returns (a: ExecArg)
      requires pos <= |data| && !err
      modifies `pos, `err
      ensures pos <= |data|
      ensures if old(pos) + 16 <= |data|
        then !err && pos == old(pos) + 16 && a == ConstOf(U64At(data, old(pos)), U64At(data, old(pos) + 8)) else err
    {
      hide U64At;
      var meta := Read();
      var value := Read();
      a := EConst(meta % 0x100, meta / 0x100 % 0x100, value,
        meta / 0x1_0000 % 0x100, meta / 0x100_0000 % 0x100, meta / 0x1_0000_0000);
    }

    method ReadResult() returns (a: ExecArg)
      requires pos <= |data| && !err
      modifies `pos, `err, `vars
      ensures pos <= |data| && a.EResult?
      ensures if old(pos) + 40 <= |data| then !err && pos == old(pos) + 40 && vars == NoteRef(old(vars), a)
        && a.size == U64At(data, old(pos)) % 0x100 && a.format == U64At(data, old(pos)) / 0x100 % 0x100
        && a.index == U64At(data, old(pos) + 8) && a.divOp == U64At(data, old(pos) + 16)
        && a.addOp == U64At(data, old(pos) + 24) && a.deflt == U64At(data, old(pos) + 32) else err
    {
      hide U64At, NoteRef;
      var meta := Read();
      var index := Read();
      var div := Read();
      var add := Read();
      var deflt := Read();
      a := EResult(meta % 0x100, meta / 0x100 % 0x100, index, div, add, deflt);
      NoteVar(a);
    }

    /** readArg; nothing is returned for an argument that makes no sense. */
    method ReadArg() returns (a: Option<ExecArg>)
      requires pos <= |data| && !err
      modifies `pos, `err, `vars
      ensures pos <= |data|
      ensures match ParseArg(data, old(pos))
        case Bad => err
        case Got(b, j) => !err && a == Some(b) && pos == j && vars == NoteRef(old(vars), b)
    {
      hide U64At, Padded, ParseChunks, ConstOf;
      ghost var p, v := pos, vars;
      var typ := Read();
      if err { return None; }
      if typ == ARG_CONST {
        var c := ReadConst();
        a := Some(c);
      } else if typ == ARG_RESULT {
        var r := ReadResult();
        a := Some(r);
      } else if typ == ARG_DATA {
        var flags := Read();
        var b := ReadBlob(flags % TWO63);
        a := Some(EData(b, flags >= TWO63));
      } else if typ == ARG_CSUM {
        var size := Read();
        var kind := Read();
        if kind == CSUM_INET {
          var n := Read();
          var chunks := ReadChunks(n);
          a := Some(ECsum(size, chunks));
        } else {
          err := true;
          a := None;
        }
      } else {
        err := true;
        a := None;
      }
    }

    method BumpVars(index: U64)
      modifies `numVars
      ensures numVars == Bump(old(numVars), index)
    {
      var past := (index + 1) % TWO64;
      if numVars < past { numVars := past; }
    }

    method CountOuts(outs: seq<Copyout>)
      modifies `numVars
      ensures numVars == BumpAll(old(numVars), outs)
    {
      hide Bump;
      ghost var n := numVars;
      for i := 0 to |outs|
        invariant numVars == BumpAll(n, outs[..i])
      {
        assert outs[..i + 1][..i] == outs[..i];
        BumpVars(outs[i].index);
      }
      assert outs[..|outs|] == outs;
    }

    /** commitCall. */
    method CommitCall()
      modifies `numVars, `call, `calls
      ensures View() == Commit(old(View()))
    {
      if call.meta.None? { return; }
      if call.index != NO_COPYOUT { BumpVars(call.index); }
      CountOuts(call.copyout);
      calls := calls + [call];
      call := EMPTY;
    }

    static ghost function Prepend(got: seq<ExecArg>, r: Parsed<seq<ExecArg>>): Parsed<seq<ExecArg>> {
      match r
      case Bad => Bad
      case Got(rest, k) => Got(got + rest, k)
    }

    static lemma PrependNext(bytes: seq<Byte>, i: nat, n: nat, got: seq<ExecArg>, a: ExecArg, j: nat)
      requires i <= |bytes| && n > 0 && ParseArg(bytes, i) == Got(a, j) && (a.EConst? || a.EResult?)
      ensures Prepend(got, ParseArgs(bytes, i, n)) == Prepend(got + [a], ParseArgs(bytes, j, n - 1))
    {
      hide ParseArg;
      match ParseArgs(bytes, j, n - 1)
      case Bad =>
      case Got(rest, k) => assert got + ([a] + rest) == got + [a] + rest;
    }

    /** The arguments of a call are added to it one by one. */
    method ReadArgs(n: nat)
      requires pos <= |data| && !err
      modifies `pos, `err, `vars, `call
      ensures pos <= |data|
      ensures match ParseArgs(data, old(pos), n)
        case Bad => err
        case Got(got, j) =>
          !err && pos == j && call == old(call).(args := old(call).args + got) && vars == NoteRefs(old(vars), got)
    {
      hide ParseArg, NoteRef;
      ghost var want, v, c := ParseArgs(data, pos, n), vars, call;
      ghost var got: seq<ExecArg> := [];
      var i: nat := n;
      assert want == Prepend(got, want) by { if want.Got? { assert got + want.value == want.value; } }
      while i > 0
        invariant i <= n && pos <= |data| && !err
        invariant want == Prepend(got, ParseArgs(data, pos, i)) && vars == NoteRefs(v, got)
        invariant call == c.(args := c.args + got)
      {
        ghost var here := pos;
        var a := ReadArg();
        if err { return; }
        if !a.value.EConst? && !a.value.EResult? {
          err := true;
          return;
        }
        PrependNext(data, here, i, got, a.value, pos);
        call := call.(args := call.args + [a.value]);
        assert (got + [a.value])[..|got|] == got;
        got := got + [a.value];
        i := i - 1;
      }
      assert got + [] == got;
    }

    // ----- instructions -----

    method ReadCopyin()
      requires pos <= |data| && !err
      modifies `pos, `err, `vars, `call
      ensures pos <= |data|
      ensures if old(pos) + 8 > |data| || ParseArg(data, old(pos) + 8).Bad? then err
        else var b := ParseArg(data, old(pos) + 8);
          && !err && pos == b.next && vars == NoteRef(old(vars), b.value)
          && call == old(call).(copyin := old(call).copyin + [Copyin(U64At(data, old(pos)), b.value)])
    {
      hide ParseArg, U64At, NoteRef;
      var addr := Read();
      if err { return; }
      var a := ReadArg();
      if err { return; }
      call := call.(copyin := call.copyin + [Copyin(addr, a.value)]);
    }

    method ReadCopyout()
      requires pos <= |data| && !err
      modifies `pos, `err, `call
      ensures pos <= |data|
      ensures if old(pos) + 24 > |data| then err
        else !err && pos == old(pos) + 24 && call == old(call).(copyout := old(call).copyout +
          [Copyout(U64At(data, old(pos)), U64At(data, old(pos) + 8), U64At(data, old(pos) + 16))])
    {
      hide U64At;
      var index := Read();
      var addr := Read();
      var size := Read();
      call := call.(copyout := call.copyout + [Copyout(index, addr, size)]);
    }

    /** readCallProps. */
    method ReadCallProps()
      requires pos <= |data| && !err
      modifies `pos, `err, `call
      ensures pos <= |data|
      ensures if old(pos) + 24 > |data| then err
        else !err && pos == old(pos) + 24 && call == old(call).(props :=
          SetProps(old(call).props, U64At(data, old(pos)), U64At(data, old(pos) + 8), U64At(data, old(pos) + 16)))
    {
      hide U64At;
      var failNth := Read();
      var async := Read();
      var rerun := Read();
      call := call.(props := call.props.(failNth := ToInt(failNth)));
      if async == 1 { call := call.(props := call.props.(async := true)); }
      call := call.(props := call.props.(rerun := ToInt(rerun)));
    }

    method ReadCall(instr: U64)
      requires pos <= |data| && !err
      modifies `pos, `err, `vars, `call
      ensures pos <= |data|
      ensures if instr >= nsys || old(pos) + 16 > |data| ||
                 ParseArgs(data, old(pos) + 16, U64At(data, old(pos) + 8)).Bad? then err
        else var got := ParseArgs(data, old(pos) + 16, U64At(data, old(pos) + 8));
          && !err && pos == got.next && vars == NoteRefs(old(vars), got.value)
          && call == old(call).(meta := Some(instr), index := U64At(data, old(pos)), args := old(call).args + got.value)
    {
      hide ParseArgs, U64At, NoteRefs;
      if instr >= nsys {
        err := true;
        return;
      }
      call := call.(meta := Some(instr));
      var index := Read();
      call := call.(index := index);
      var n := Read();
      if err { return; }
      ReadArgs(n);
    }

    /** One turn of the loop of parse. */
    method Step() returns (done: bool)
      requires pos <= |data| && !err
      modifies this
      ensures pos <= |data|
      ensures match ParseInstr(data, old(pos), nsys)
        case Bad => err
        case Got(ins, j) => !err && done == ins.IEof? && pos == j && View() == Apply(ins, old(View()))
    {
      hide U64At, ParseArg, ParseArgs, NoteRef, NoteRefs, SetProps, Commit;
      done := false;
      var instr := Read();
      if err { return; }
      if instr == INSTR_COPYIN {
        CommitCall();
        ReadCopyin();
      } else if instr == INSTR_COPYOUT {
        ReadCopyout();
      } else if instr == INSTR_EOF {
        CommitCall();
        done := true;
      } else if instr == INSTR_SETPROPS {
        CommitCall();
        ReadCallProps();
      } else {
        CommitCall();
        ReadCall(instr);
      }
    }

    /** parse. */
    method Parse()
      requires pos == 0 && !err && View() == START
      modifies this
      ensures match Decode(data, 0, nsys, START)
        case None => err
        case Some(d) => !err && View() == d
    {
      hide ParseInstr, Apply;
      ghost var want := Decode(data, 0, nsys, START);
      while !err
        invariant pos <= |data|
        invariant if err then want.None? else want == Decode(data, pos, nsys, View())
        decreases !err, |data| - pos
      {
        ghost var here, d := pos, View();
        var done := Step();
        if !err && done { ApplyEof(data, here, nsys, d); return; }
      }
    }

    static lemma ApplyEof(bytes: seq<Byte>, i: nat, n: nat, d: DecState)
      requires i <= |bytes| && ParseInstr(bytes, i, n).Got? && ParseInstr(bytes, i, n).value.IEof?
      ensures Decode(bytes, i, n, d) == Some(Apply(IEof, d))
    {
    }
  }

  /** DeserializeExec: the calls and the variables, or an error, for every input. */
  method DeserializeExec(exec: seq<Byte>, nsys: nat) returns (r: Result)
    ensures r == ExecDecode.DeserializeExec(exec, nsys)
  {
    hide Decode;
    var dec := new Decoder(exec, nsys);
    dec.Parse();
    if dec.err { return Err; }
    if |dec.vars| != dec.numVars { return Err; }
    return Ok(dec.calls, dec.vars);
  }
}
