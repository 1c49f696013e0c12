/** What the exec decoder makes of a stream of instructions. */
module ExecDecode {
  import opened Common
  import opened ExecFormat
  import opened ExecProg

  const EMPTY := ExecCall(None, NO_PROPS, 0, [], [], [])

  datatype DecState = DecState(call: ExecCall, calls: seq<ExecCall>, vars: seq<U64>, numVars: U64)
  datatype Result = Ok(calls: seq<ExecCall>, vars: seq<U64>) | Err

  /** A signed number as the executor gets it, and back. */
  function ToU64(x: int): U64 { x % TWO64 }
  function ToInt(u: U64): int { if u >= TWO63 then u - TWO64 else u }

  function Bump(n: U64, index: U64): U64 {
    var past := (index + 1) % TWO64;
    if n < past then past else n
  }

  function BumpAll(n: U64, outs: seq<Copyout>): U64 {
    if outs == [] then n else Bump(BumpAll(n, outs[..|outs| - 1]), outs[|outs| - 1].index)
  }

  function CallVars(n: U64,
                    c: ExecCall): U64 { BumpAll(if c.index != NO_COPYOUT then Bump(n, c.index) else n, c.copyout) }

  /** commitCall. */
  function Commit(d: DecState): DecState {
    if d.call.meta.None? then d else DecState(EMPTY, d.calls + [d.call], d.vars, CallVars(d.numVars, d.call))
  }

  /** A reference leaves its default in the variable it names. */
  function NoteRef(vars: seq<U64>, a: ExecArg): (r: seq<U64>)
    ensures |r| >= |vars|
  {
    if !a.EResult? then vars
    else
      var grown: seq<U64> := if |vars| <= a.index then vars + seq(a.index + 1 - |vars|, _ => 0) else vars;
      grown[a.index := a.deflt]
  }

  function NoteRefs(vars: seq<U64>, args: seq<ExecArg>): (r: seq<U64>)
    ensures |r| >= |vars|
  {
    if args == [] then vars else NoteRef(NoteRefs(vars, args[..|args| - 1]), args[|args| - 1])
  }

  function SetProps(p: Props, f: U64, a: U64, r: U64): Props { Props(ToInt(f), p.async || a == 1, ToInt(r)) }

  function Apply(ins: Instr, d: DecState): DecState {
    match ins
    case ICopyin(addr, arg) =>
      var e := Commit(d);
      e.(call := e.call.(copyin := e.call.copyin + [Copyin(addr, arg)]), vars := NoteRef(e.vars, arg))
    case ICopyout(index, addr, size) => d.(call := d.call.(copyout := d.call.copyout + [Copyout(index, addr, size)]))
    case IProps(f, a, r) =>
      var e := Commit(d);
      e.(call := e.call.(props := SetProps(e.call.props, f, a, r)))
    case ICall(id, index, args) =>
      var e := Commit(d);
      e.(call := e.call.(meta := Some(id), index := index, args := e.call.args + args), vars := NoteRefs(e.vars, args))
    case IEof => Commit(d)
  }

  /** The decoder's loop. */
  function Decode(data: seq<Byte>, i: nat, nsys: nat, d: DecState): Option<DecState>
    requires i <= |data|
    decreases |data| - i
  {
    match ParseInstr(data, i, nsys)
    case Bad => None
    case Got(ins, j) => if ins.IEof? then Some(Commit(d)) else Decode(data, j, nsys, Apply(ins, d))
  }

  const START := DecState(EMPTY, [], [], 0)

  function DeserializeExec(data: seq<Byte>, nsys: nat): Result {
    match Decode(data, 0, nsys, START)
    case None => Err
    case Some(d) => if |d.vars| != d.numVars then Err else Ok(d.calls, d.vars)
  }

  // ----- instructions of a call -----

  function CopyinInstrs(cs: seq<Copyin>): seq<Instr> {
    if cs == [] then [] else CopyinInstrs(cs[..|cs| - 1]) + [ICopyin(cs[|cs| - 1].addr, cs[|cs| - 1].arg)]
  }

  function CopyoutInstrs(cs: seq<Copyout>): seq<Instr> {
    if cs == [] then []
    else CopyoutInstrs(cs[..|cs| - 1]) + [ICopyout(cs[|cs| - 1].index, cs[|cs| - 1].addr, cs[|cs| - 1].size)]
  }

  function PropsInstrs(p: Props): seq<Instr> {
    if p == NO_PROPS then [] else [IProps(ToU64(p.failNth), if p.async then 1 else 0, ToU64(p.rerun))]
  }

  function Flatten(c: ExecCall): seq<Instr>
    requires c.meta.Some?
  {
    CopyinInstrs(c.copyin) + PropsInstrs(c.props) + [ICall(c.meta.value, c.index, c.args)] + CopyoutInstrs(c.copyout)
  }

  ghost predicate InstrsOk(code: seq<Instr>,
                           nsys: nat) { forall i :: 0 <= i < |code| ==> InstrOk(code[i], nsys) && !code[i].IEof? }

  function InstrsBytes(code: seq<Instr>, ghost nsys: nat): (s: seq<Byte>)
    requires InstrsOk(code, nsys)
  {
    if code == [] then [] else InstrsBytes(code[..|code| - 1], nsys) + InstrBytes(code[|code| - 1], nsys)
  }

  function ApplyAll(code: seq<Instr>, d: DecState): DecState {
    if code == [] then d else Apply(code[|code| - 1], ApplyAll(code[..|code| - 1], d))
  }

  // ----- the decoder runs through what was written -----

  lemma {:induction false} DecodeRun(data: seq<Byte>, i: nat, code: seq<Instr>, nsys: nat, d: DecState)
    requires InstrsOk(code, nsys) && i <= |data| && At(data, i, InstrsBytes(code, nsys))
    ensures Decode(data, i, nsys, d) == Decode(data, i + |InstrsBytes(code, nsys)|, nsys, ApplyAll(code, d))
    decreases |code|
  {
    hide InstrBytes, ParseInstr, Apply, InstrOk;
    if code != [] {
      var n := |code| - 1;
      var head := InstrsBytes(code[..n], nsys);
      AtSplit(data, i, head, InstrBytes(code[n], nsys));
      DecodeRun(data, i, code[..n], nsys, d);
      InstrBack(data, i + |head|, code[n], nsys);
    }
  }

  lemma {:induction false} ApplyAllConcat(s: seq<Instr>, t: seq<Instr>, d: DecState)
    ensures ApplyAll(s + t, d) == ApplyAll(t, ApplyAll(s, d))
    decreases |t|
  {
    hide Apply;
    if t == [] {
      assert s + t == s;
    } else {
      var n := |t| - 1;
      assert (s + t)[..|s + t| - 1] == s + t[..n];
      ApplyAllConcat(s, t[..n], d);
    }
  }

  lemma {:induction false} NoteRefsConcat(vars: seq<U64>, s: seq<ExecArg>, t: seq<ExecArg>)
    ensures NoteRefs(vars, s + t) == NoteRefs(NoteRefs(vars, s), t)
    decreases |t|
  {
    hide NoteRef;
    if t == [] {
      assert s + t == s;
    } else {
      var n := |t| - 1;
      assert (s + t)[..|s + t| - 1] == s + t[..n];
      NoteRefsConcat(vars, s, t[..n]);
    }
  }

  /** The arguments of the copyins. */
  function CopyinArgs(cs: seq<Copyin>): (args: seq<ExecArg>)
    ensures |args| == |cs| && forall i :: 0 <= i < |cs| ==> args[i] == cs[i].arg
  {
    if cs == [] then [] else CopyinArgs(cs[..|cs| - 1]) + [cs[|cs| - 1].arg]
  }

  /** All arguments of a call in the order they are written. */
  function ArgsOf(c: ExecCall): seq<ExecArg> { CopyinArgs(c.copyin) + c.args }

  lemma {:induction false} AfterCopyins(cs: seq<Copyin>, d: DecState)
    requires d.call == EMPTY
    ensures ApplyAll(CopyinInstrs(cs), d) == d.(call := EMPTY.(copyin := cs), vars := NoteRefs(d.vars, CopyinArgs(cs)))
    decreases |cs|
  {
    hide Apply, ApplyAll, NoteRefs, NoteRef, CopyinInstrs, CopyinArgs;
    if cs == [] {
      NoCopyins(d);
    } else {
      var n := |cs| - 1;
      AfterCopyins(cs[..n], d);
      CopyinSnoc(cs);
      ApplySnoc(CopyinInstrs(cs[..n]), ICopyin(cs[n].addr, cs[n].arg), d);
      CopyinStep(cs[n].addr, cs[n].arg, ApplyAll(CopyinInstrs(cs[..n]), d));
      NoteSnoc(d.vars, CopyinArgs(cs[..n]), cs[n].arg);
      assert cs == cs[..n] + [cs[n]];
    }
  }

  lemma NoCopyins(d: DecState)
    ensures ApplyAll(CopyinInstrs([]), d) == d && NoteRefs(d.vars, CopyinArgs([])) == d.vars
  {
  }

  lemma CopyinSnoc(cs: seq<Copyin>)
    requires cs != []
    ensures var n := |cs| - 1;
      && CopyinInstrs(cs) == CopyinInstrs(cs[..n]) + [ICopyin(cs[n].addr, cs[n].arg)]
      && CopyinArgs(cs) == CopyinArgs(cs[..n]) + [cs[n].arg]
  {
  }

  lemma ApplySnoc(code: seq<Instr>, ins: Instr, d: DecState)
    ensures ApplyAll(code + [ins], d) == Apply(ins, ApplyAll(code, d))
  {
    hide Apply;
    assert (code + [ins])[..|code|] == code;
  }

  lemma NoteSnoc(vars: seq<U64>, args: seq<ExecArg>, a: ExecArg)
    ensures NoteRefs(vars, args + [a]) == NoteRef(NoteRefs(vars, args), a)
  {
    hide NoteRef;
    assert (args + [a])[..|args|] == args;
  }

  lemma CopyinStep(addr: U64, arg: ExecArg, d: DecState)
    requires d.call.meta.None?
    ensures Apply(ICopyin(addr, arg), d) ==
      d.(call := d.call.(copyin := d.call.copyin + [Copyin(addr, arg)]), vars := NoteRef(d.vars, arg))
  {
    hide NoteRef;
  }

  lemma {:induction false} CopyinCount(cs: seq<Copyin>)
    ensures |CopyinInstrs(cs)| == |cs|
    decreases |cs|
  {
    if cs != [] { CopyinCount(cs[..|cs| - 1]); }
  }

  lemma {:induction false} CopyoutCount(cs: seq<Copyout>)
    ensures |CopyoutInstrs(cs)| == |cs|
    decreases |cs|
  {
    if cs != [] { CopyoutCount(cs[..|cs| - 1]); }
  }

  lemma {:induction false} AfterCopyouts(cs: seq<Copyout>, d: DecState)
    requires d.call.copyout == []
    ensures ApplyAll(CopyoutInstrs(cs), d) == d.(call := d.call.(copyout := cs))
    decreases |cs|
  {
    if cs != [] {
      var n := |cs| - 1;
      AfterCopyouts(cs[..n], d);
      assert cs == cs[..n] + [cs[n]];
      assert CopyoutInstrs(cs)[..n] == CopyoutInstrs(cs[..n]) by { CopyoutCount(cs[..n]); }
      CopyoutCount(cs);
    }
  }

  lemma {:induction false} AfterProps(p: Props, d: DecState)
    requires d.call.meta.None? && d.call.props == NO_PROPS && IntFits(p.failNth) && IntFits(p.rerun)
    ensures ApplyAll(PropsInstrs(p), d) == d.(call := d.call.(props := p))
  {
    if p != NO_PROPS {
      SignedBack(p.failNth);
      SignedBack(p.rerun);
      var ins := PropsInstrs(p)[0];
      assert ApplyAll([], d) == d;
      assert ApplyAll([ins], d) == Apply(ins, d);
    }
  }

  lemma SignedBack(x: int)
    requires IntFits(x)
    ensures ToInt(ToU64(x)) == x
  {
  }

  /** The decoder rebuilds a call from its instructions, and leaves its variables noted. */
  lemma {:induction false} CallApplied(c: ExecCall, d: DecState)
    requires c.meta.Some? && IntFits(c.props.failNth) && IntFits(c.props.rerun) && d.call == EMPTY
    ensures ApplyAll(Flatten(c), d) == d.(call := c, vars := NoteRefs(d.vars, ArgsOf(c)))
  {
    hide NoteRefs, CopyinArgs, CopyinInstrs, CopyoutInstrs, PropsInstrs, ApplyAll;
    var ins := ICall(c.meta.value, c.index, c.args);
    var s := CopyinInstrs(c.copyin);
    var t := PropsInstrs(c.props);
    ApplyAllConcat(s + t + [ins], CopyoutInstrs(c.copyout), d);
    ApplyAllConcat(s + t, [ins], d);
    ApplyAllConcat(s, t, d);
    AfterCopyins(c.copyin, d);
    var d1 := ApplyAll(s, d);
    AfterProps(c.props, d1);
    var d2 := ApplyAll(t, d1);
    ApplyOne(ins, d2);
    NoteRefsConcat(d.vars, CopyinArgs(c.copyin), c.args);
    AfterCopyouts(c.copyout, Apply(ins, d2));
  }

  lemma {:induction false} ApplyOne(ins: Instr, d: DecState)
    ensures ApplyAll([ins], d) == Apply(ins, d)
  {
    hide Apply;
    assert ApplyAll([], d) == d;
  }

  /** The first instruction of a call commits the one before it. */
  lemma {:induction false} CommitsFirst(c: ExecCall, d: DecState)
    requires c.meta.Some?
    ensures ApplyAll(Flatten(c), d) == ApplyAll(Flatten(c), Commit(d))
  {
    hide CopyinInstrs, CopyoutInstrs, PropsInstrs, ApplyAll, CallVars;
    var code := Flatten(c);
    assert code[0].ICopyin? || code[0].IProps? || code[0].ICall? by { FirstCommits(c); }
    ApplyAllConcat([code[0]], code[1..], d);
    ApplyAllConcat([code[0]], code[1..], Commit(d));
    ApplyOne(code[0], d);
    ApplyOne(code[0], Commit(d));
    assert code == [code[0]] + code[1..];
  }

  lemma {:induction false} FirstCommits(c: ExecCall)
    requires c.meta.Some?
    ensures Flatten(c)[0].ICopyin? || Flatten(c)[0].IProps? || Flatten(c)[0].ICall?
  {
    hide CopyoutInstrs;
    CopyinCount(c.copyin);
    if c.copyin != [] { CopyinAt(c.copyin, 0); }
  }

  lemma {:induction false} CopyinAt(cs: seq<Copyin>, i: nat)
    requires i < |cs|
    ensures |CopyinInstrs(cs)| == |cs| && CopyinInstrs(cs)[i] == ICopyin(cs[i].addr, cs[i].arg)
    decreases |cs|
  {
    CopyinCount(cs);
    CopyinCount(cs[..|cs| - 1]);
    if i < |cs| - 1 { CopyinAt(cs[..|cs| - 1], i); }
  }

  lemma {:induction false} CopyoutAt(cs: seq<Copyout>, i: nat)
    requires i < |cs|
    ensures |CopyoutInstrs(cs)| == |cs| && CopyoutInstrs(cs)[i] == ICopyout(cs[i].index, cs[i].addr, cs[i].size)
    decreases |cs|
  {
    CopyoutCount(cs);
    CopyoutCount(cs[..|cs| - 1]);
    if i < |cs| - 1 { CopyoutAt(cs[..|cs| - 1], i); }
  }
}
