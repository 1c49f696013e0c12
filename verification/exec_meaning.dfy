/** The executor does what the program says: each copy into memory, each call and each copy out of
    memory, with the values the arguments stand for. */
module ExecMeaning {
  import opened Common
  import opened ExecFormat
  import opened ExecProg
  import opened ExecValid
  import opened ExecDecode
  import opened ExecRoundTrip
  import opened Executor

  // ----- what the program says -----

  /** The value of a reference: of the result at its producer's place, divided and added to. */
  function RefValue(a: Arg, ids: seq<nat>, env: Env): Option<U64>
    requires a.ResultArg? && a.res.Some?
  {
    var place := PlaceOf(ids, a.res.value);
    if place >= 1000 then None
    else if place in env.results then
      var v := env.results[place];
      Some(((if a.opDiv == 0 then v else v / a.opDiv) + a.opAdd) % TWO64)
    else Some(a.deflt)
  }

  /** An argument put into memory. */
  function MeantPoke(a: Arg, addr: U64, ids: seq<nat>, env: Env): Option<Action>
    requires !a.GroupArg? && !a.UnionArg?
  {
    match a
    case ConstArg(_, _, unit, value, stride, format, o, l) =>
      Some(Poke(addr, ConstValue(value, stride, env), unit, format, o, l))
    case ResultArg(_, size, _, _, res, _, _, val, _, format) =>
      if res.None? then Some(Poke(addr, val, size, format, 0, 0))
      else
        var v := RefValue(a, ids, env);
        if v.None? then None else Some(Poke(addr, v.value, size, format, 0, 0))
    case PointerArg(_, size, phys, _) => Some(Poke(addr, phys, size, 0, 0, 0))
    case DataArg(_, data, _, readable) =>
      if |data| >= TWO63 then None else Some(PokeData(addr, |data| + (if readable then TWO63 else 0), data))
  }

  /** An argument of a call. */
  function MeantArg(a: Arg, ids: seq<nat>, env: Env): Option<U64>
    requires TopOk(a)
  {
    match Leaf(a)
    case ConstArg(_, _, unit, value, stride, format, o, l) =>
      ConstArgument(ConstValue(value, stride, env), unit, format, o, l)
    case ResultArg(_, size, _, _, res, _, _, val, _, format) =>
      if res.None? then ConstArgument(val, size, format, 0, 0)
      else if format != 0 then None
      else RefValue(Leaf(a), ids, env)
    case PointerArg(_, _, phys, _) => Some(phys)
  }

  function MeantArgs(args: seq<Arg>, ids: seq<nat>, env: Env): Option<seq<U64>>
    requires TopsOk(args)
  {
    if args == [] then Some([])
    else
      var a, rest := MeantArg(args[0], ids, env), MeantArgs(args[1..], ids, env);
      if a.None? || rest.None? then None else Some([a.value] + rest.value)
  }

  function MeantInvoke(c: Call, ids: seq<nat>, base: nat, env: Env): Option<Action>
    requires TopsOk(c.args)
  {
    var args := MeantArgs(c.args, ids, env);
    if |c.args| > 9 || args.None? then None
    else Some(Invoke(c.id, if RetUsed(c) then base % TWO64 else TWO64 - 1, args.value))
  }

  type Plan = seq<Option<Action>>

  function PokePlan(vs: seq<Visit>, n: nat, ids: seq<nat>, env: Env): Plan
    requires n <= |vs|
    decreases n
  {
    if n == 0 then []
    else
      var v := vs[n - 1];
      PokePlan(vs, n - 1, ids, env) + if Copied(v) then [MeantPoke(v.arg, v.addr.value, ids, env)] else []
  }

  function MeantSum(s: Copyin): Option<Action>
    requires s.arg.ECsum?
  {
    if SumOk(s.arg.csize, s.arg.chunks) then Some(PokeSum(s.addr, s.arg.chunks)) else None
  }

  function SumPlan(cs: seq<Copyin>): Plan
    requires forall i :: 0 <= i < |cs| ==> cs[i].arg.ECsum?
  {
    seq(|cs|, i requires 0 <= i < |cs| => MeantSum(cs[i]))
  }

  function PropsPlan(p: Props): Plan {
    if p == NO_PROPS then [] else [Some(UseProps(p.failNth % TWO64, if p.async then 1 else 0, p.rerun % TWO64))]
  }

  /** Used results, other than the first `from` visits, are fetched in order, numbered from base. */
  function FetchPlan(vs: seq<Visit>, from: nat, n: nat, base: nat): Plan
    requires n <= |vs|
    decreases n
  {
    if n <= from then []
    else
      var v := vs[n - 1];
      var addr := if v.addr.Some? then v.addr.value else 0;
      FetchPlan(vs, from, n - 1, base) +
      if Used(v) then [Some(Fetch((base + |UsedIds(vs, n - 1)|) % TWO64, addr, v.arg.size))] else []
  }

  ghost predicate CallShape(c: Call) { TopsOk(c.args) && forall i :: 0 <= i < |c.csums| ==> c.csums[i].arg.ECsum? }

  ghost predicate Shapes(p: seq<Call>) { forall j :: 0 <= j < |p| ==> CallShape(p[j]) }

  function CallPlan(c: Call, ids: seq<nat>, base: nat, env: Env): Plan
    requires CallShape(c)
  {
    var vs := CallVisits(c);
    PokePlan(vs, |vs|, ids, env) + SumPlan(c.csums) + PropsPlan(c.props) + [MeantInvoke(c, ids, base, env)] +
    FetchPlan(vs, if RetUsed(c) then 1 else 0, |vs|, base)
  }

  ghost function ProgPlan(p: seq<Call>, k: nat, env: Env): Plan
    requires k <= |p| && Shapes(p)
    decreases k
  {
    if k == 0 then [] else ProgPlan(p, k - 1, env) + CallPlan(p[k - 1], Defined(p, k - 1), |Defined(p, k - 1)|, env)
  }

  /** A plan is carried out up to what cannot be done. */
  function Onto(plan: Plan, end: (seq<Action>, bool)): (seq<Action>, bool) {
    if plan == [] then end
    else if plan[0].None? then ([], false)
    else
      var (rest, ok) := Onto(plan[1..], end);
      ([plan[0].value] + rest, ok)
  }

  // ----- what an instruction does -----

  function CopyinAction(addr: U64, a: ExecArg, env: Env): Option<Action> {
    match a
    case EConst(size, format, value, o, l, stride) =>
      Some(Poke(addr, ConstValue(value, stride, env), size, format, o, l))
    case EResult(size, format, index, d, p, deflt) =>
      var v := ResultValue(index, d, p, deflt, env);
      if v.None? then None else Some(Poke(addr, v.value, size, format, 0, 0))
    case EData(data, readable) =>
      if |data| >= TWO63 then None else Some(PokeData(addr, DataFlags(|data|, readable), data))
    case ECsum(size, chunks) => if SumOk(size, chunks) then Some(PokeSum(addr, chunks)) else None
  }

  function ArgValue(a: ExecArg, env: Env): Option<U64> {
    match a
    case EConst(size, format, value, o, l, stride) => ConstArgument(ConstValue(value, stride, env), size, format, o, l)
    case EResult(_, format, index, d, p, deflt) => if format != 0 then None else ResultValue(index, d, p, deflt, env)
    case EData(_, _) => None
    case ECsum(_, _) => None
  }

  function ArgValues(args: seq<ExecArg>, env: Env): Option<seq<U64>> {
    if args == [] then Some([])
    else
      var a, rest := ArgValue(args[0], env), ArgValues(args[1..], env);
      if a.None? || rest.None? then None else Some([a.value] + rest.value)
  }

  function ActionOf(ins: Instr, env: Env): Option<Action> {
    match ins
    case ICopyin(addr, arg) => CopyinAction(addr, arg, env)
    case ICopyout(index, addr, size) => Some(Fetch(index, addr, size))
    case IProps(f, a, r) => Some(UseProps(f, a, r))
    case ICall(id, index, args) =>
      var vs := ArgValues(args, env);
      if |args| > 9 || vs.None? then None else Some(Invoke(id, index, vs.value))
    case IEof => None
  }

  function AsStep(a: Option<Action>, next: nat): Step { if a.None? then Failed else Did(a.value, next) }

  // ----- the executor reads what was written -----

  lemma ConstWords(data: seq<Byte>, i: nat, a: ExecArg)
    requires a.EConst? && At(data, i, ArgBytes(a))
    ensures i + 24 <= |data| && |ArgBytes(a)| == 24 && U64At(data, i) == 0 && U64At(data, i + 16) == a.value
    ensures var m := U64At(data, i + 8);
      && m % 0x100 == a.size && m / 0x100 % 0x100 == a.format && m / 0x1_0000 % 0x100 == a.bfOffset
      && m / 0x100_0000 % 0x100 == a.bfLength && m / 0x1_0000_0000 == a.stride
  {
    hide U64At, Words, Meta, At;
    var ws := [ARG_CONST, Meta(a.size, a.format, a.bfOffset, a.bfLength, a.stride), a.value];
    MetaFields(a.size, a.format, a.bfOffset, a.bfLength, a.stride);
    WordsAt(data, i, ws, 0);
    WordsAt(data, i, ws, 1);
    WordsAt(data, i, ws, 2);
  }

  lemma ResultWords(data: seq<Byte>, i: nat, a: ExecArg)
    requires a.EResult? && At(data, i, ArgBytes(a))
    ensures i + 48 <= |data| && |ArgBytes(a)| == 48 && U64At(data, i) == 1
    ensures U64At(data, i + 8) % 0x100 == a.size && U64At(data, i + 8) / 0x100 == a.format
    ensures U64At(data, i + 16) == a.index && U64At(data, i + 24) == a.divOp
    ensures U64At(data, i + 32) == a.addOp && U64At(data, i + 40) == a.deflt
  {
    hide U64At, Words, At;
    var ws := [ARG_RESULT, Meta(a.size, a.format, 0, 0, 0), a.index, a.divOp, a.addOp, a.deflt];
    WordsAt(data, i, ws, 0);
    WordsAt(data, i, ws, 1);
    WordsAt(data, i, ws, 2);
    WordsAt(data, i, ws, 3);
    WordsAt(data, i, ws, 4);
    WordsAt(data, i, ws, 5);
  }

  lemma DataWords(data: seq<Byte>, i: nat, a: ExecArg)
    requires a.EData? && ArgOk(a) && At(data, i, ArgBytes(a))
    ensures var n := |a.data|;
      && |ArgBytes(a)| == 16 + (n + 7) / 8 * 8 && i + |ArgBytes(a)| <= |data| && U64At(data, i) == 2
      && U64At(data, i + 8) == n + (if a.readable then TWO63 else 0) && data[i + 16..i + 16 + n] == a.data
  {
    hide U64At, Words, At;
    var n := |a.data|;
    var ws := [ARG_DATA, DataFlags(n, a.readable)];
    var pad: seq<Byte> := seq(Padded(n) - n, _ => 0);
    AtSplit(data, i, Words(ws), a.data + pad);
    AtSplit(data, i + 16, a.data, pad);
    WordsAt(data, i, ws, 0);
    WordsAt(data, i, ws, 1);
    AtSlice(data, i + 16, a.data);
    AtSlice(data, i + 16, a.data + pad);
  }

  lemma SumWords(data: seq<Byte>, i: nat, a: ExecArg)
    requires a.ECsum? && ArgOk(a) && At(data, i, ArgBytes(a))
    ensures var n := |a.chunks|;
      && |ArgBytes(a)| == 32 + 24 * n && i + |ArgBytes(a)| <= |data|
      && U64At(data, i) == 3 && U64At(data, i + 8) == a.csize && U64At(data, i + 16) == 0 && U64At(data, i + 24) == n
      && ReadChunks(data, i + 32, n) == a.chunks
  {
    hide U64At, Words, At, ReadChunks, ChunksBytes, ParseChunks;
    var ws := [ARG_CSUM, a.csize, CSUM_INET, |a.chunks|];
    AtSplit(data, i, Words(ws), ChunksBytes(a.chunks));
    WordsAt(data, i, ws, 0);
    WordsAt(data, i, ws, 1);
    WordsAt(data, i, ws, 2);
    WordsAt(data, i, ws, 3);
    AtSlice(data, i + 32, ChunksBytes(a.chunks));
    ChunksBack(data, i + 32, a.chunks);
    SameChunks(data, i + 32, |a.chunks|);
  }

  lemma {:induction false} SameChunks(data: seq<Byte>, i: nat, n: nat)
    requires i + 24 * n <= |data|
    ensures ReadChunks(data, i, n) == ParseChunks(data, i, n)
    decreases n
  {
    if n > 0 { SameChunks(data, i, n - 1); }
  }

  lemma CopyinRead(data: seq<Byte>, i: nat, addr: U64, a: ExecArg, env: Env)
    requires ArgOk(a) && i + 8 <= |data| && U64At(data, i) == addr && At(data, i + 8, ArgBytes(a))
    ensures ReadCopyin(data, i, env) == AsStep(CopyinAction(addr, a, env), i + 8 + |ArgBytes(a)|)
  {
    hide U64At, ArgBytes, At, ResultValue, ConstValue, ReadChunks, SumOk;
    match a
    case EConst(_, _, _, _, _, _) => ConstWords(data, i + 8, a);
    case EResult(_, _, _, _, _, _) => ResultWords(data, i + 8, a);
    case EData(_, _) =>
      DataWords(data, i + 8, a);
      FlagsFields(|a.data|, a.readable);
    case ECsum(_, _) => SumWords(data, i + 8, a);
  }

  lemma ArgRead(data: seq<Byte>, i: nat, a: ExecArg, env: Env)
    requires (a.EConst? || a.EResult?) && At(data, i, ArgBytes(a))
    ensures ReadArg(data, i, env) ==
      if ArgValue(a, env).None? then Bad else Got(ArgValue(a, env).value, i + |ArgBytes(a)|)
  {
    hide U64At, ArgBytes, At, ResultValue, ConstValue, ConstArgument;
    if a.EConst? { ConstWords(data, i, a); } else { ResultWords(data, i, a); }
  }

  lemma {:induction false} ArgsRead(data: seq<Byte>, i: nat, args: seq<ExecArg>, env: Env)
    requires ArgsOk(args) && (forall a <- args :: a.EConst? || a.EResult?) && At(data, i, ArgsBytes(args))
    ensures i <= |data|
    ensures ReadArgs(data, i, |args|, env) ==
      if ArgValues(args, env).None? then Bad else Got(ArgValues(args, env).value, i + |ArgsBytes(args)|)
    decreases |args|
  {
    hide ReadArg, ArgValue, ArgBytes;
    if args != [] {
      AtSplit(data, i, ArgBytes(args[0]), ArgsBytes(args[1..]));
      hide At;
      ArgRead(data, i, args[0], env);
      ArgsRead(data, i + |ArgBytes(args[0])|, args[1..], env);
    }
  }

  lemma CallRead(data: seq<Byte>, i: nat, ins: Instr, nsys: nat, env: Env)
    requires ins.ICall? && InstrOk(ins, nsys) && At(data, i, InstrBytes(ins, nsys))
    ensures i + 24 <= |data| && U64At(data, i) == ins.id
    ensures ReadCall(data, i, env) == AsStep(ActionOf(ins, env), i + |InstrBytes(ins, nsys)|)
  {
    hide U64At, Words, ReadArgs, ArgsBytes, At, ArgValues;
    var ws := [ins.id, ins.index, |ins.args|];
    AtSplit(data, i, Words(ws), ArgsBytes(ins.args));
    WordsAt(data, i, ws, 0);
    WordsAt(data, i, ws, 1);
    WordsAt(data, i, ws, 2);
    ArgsRead(data, i + 24, ins.args, env);
  }

  lemma CopyinStep(data: seq<Byte>, i: nat, ins: Instr, nsys: nat, env: Env)
    requires ins.ICopyin? && InstrOk(ins, nsys) && At(data, i, InstrBytes(ins, nsys))
    ensures StepAt(data, i, nsys, env) == AsStep(ActionOf(ins, env), i + |InstrBytes(ins, nsys)|)
  {
    hide U64At, Words, ReadCopyin, ReadCall, ArgBytes, At, CopyinAction;
    var ws := [INSTR_COPYIN, ins.addr];
    AtSplit(data, i, Words(ws), ArgBytes(ins.arg));
    WordsAt(data, i, ws, 0);
    WordsAt(data, i, ws, 1);
    CopyinRead(data, i + 8, ins.addr, ins.arg, env);
  }

  /** One instruction as it was written makes for one turn of the loop. */
  lemma StepReads(data: seq<Byte>, i: nat, ins: Instr, nsys: nat, env: Env)
    requires InstrOk(ins, nsys) && At(data, i, InstrBytes(ins, nsys))
    ensures StepAt(data, i, nsys, env) ==
      if ins.IEof? then Finished else AsStep(ActionOf(ins, env), i + |InstrBytes(ins, nsys)|)
  {
    hide U64At, Words, ReadCopyin, ReadCall, ArgBytes, ArgsBytes, At, CopyinAction, ArgValues;
    match ins
    case ICopyin(_, _) => CopyinStep(data, i, ins, nsys, env);
    case ICopyout(index, addr, size) => FourBack(data, i, [INSTR_COPYOUT, index, addr, size]);
    case IProps(f, a, r) => FourBack(data, i, [INSTR_SETPROPS, f, a, r]);
    case ICall(_, _, _) => CallRead(data, i, ins, nsys, env);
    case IEof => WordsAt(data, i, [INSTR_EOF], 0);
  }

  function Raw(code: seq<Instr>, env: Env): (r: Plan)
    ensures |r| == |code|
  {
    seq(|code|, i requires 0 <= i < |code| => ActionOf(code[i], env))
  }

  lemma {:induction false} OntoSnoc(plan: Plan, x: Option<Action>, end: (seq<Action>, bool))
    ensures Onto(plan + [x], end) == Onto(plan, Onto([x], end))
    decreases |plan|
  {
    if plan == [] {
      assert plan + [x] == [x];
    } else {
      assert (plan + [x])[1..] == plan[1..] + [x];
      OntoSnoc(plan[1..], x, end);
    }
  }

  lemma OntoOne(x: Option<Action>, end: (seq<Action>, bool))
    ensures Onto([x], end) == if x.None? then ([], false) else ([x.value] + end.0, end.1)
  {
    assert [x][1..] == [];
  }

  lemma {:induction false} ExecuteRun(data: seq<Byte>, i: nat, code: seq<Instr>, nsys: nat, env: Env)
    requires InstrsOk(code, nsys) && i <= |data| && At(data, i, InstrsBytes(code, nsys))
    ensures i + |InstrsBytes(code, nsys)| <= |data|
    ensures Execute(data, i, nsys, env) ==
      Onto(Raw(code, env), Execute(data, i + |InstrsBytes(code, nsys)|, nsys, env))
    decreases |code|
  {
    hide InstrBytes, StepAt, ActionOf, Onto;
    if code == [] {
      OntoNone(Execute(data, i, nsys, env));
    } else {
      var n := |code| - 1;
      var head := InstrsBytes(code[..n], nsys);
      AtSplit(data, i, head, InstrBytes(code[n], nsys));
      ExecuteRun(data, i, code[..n], nsys, env);
      var j := i + |head|;
      StepReads(data, j, code[n], nsys, env);
      var end := Execute(data, j + |InstrBytes(code[n], nsys)|, nsys, env);
      var x := ActionOf(code[n], env);
      assert Raw(code, env) == Raw(code[..n], env) + [x];
      OntoSnoc(Raw(code[..n], env), x, end);
      OntoOne(x, end);
    }
  }

  lemma OntoNone(end: (seq<Action>, bool))
    ensures Onto([], end) == end
  {
  }

  // ----- what was written is what the program says -----

  lemma PlaceSmall(ids: seq<nat>, id: nat)
    ensures PlaceOf(ids, id) <= |ids|
  {
  }

  lemma PokeMeans(v: Visit, ids: seq<nat>, env: Env)
    requires Copied(v) && |ids| < TWO64
    ensures CopyinAction(v.addr.value, Resolve(v.arg, ids), env) == MeantPoke(v.arg, v.addr.value, ids, env)
  {
    hide PlaceOf;
    if RefOf(v.arg).Some? { PlaceSmall(ids, RefOf(v.arg).value); }
  }

  lemma NoStride(v: U64, env: Env)
    ensures ConstValue(v, 0, env) == v
  {
  }

  lemma NativeArgument(v: U64, size: nat)
    ensures ConstArgument(v, size, 0, 0, 0) == Some(v)
  {
  }

  lemma RefMeans(a: Arg, ids: seq<nat>, env: Env)
    requires a.ResultArg? && a.res.Some? && |ids| < TWO64
    ensures ResultValue(PlaceOf(ids, a.res.value) % TWO64, a.opDiv, a.opAdd, a.deflt, env) == RefValue(a, ids, env)
  {
    hide PlaceOf;
    PlaceSmall(ids, a.res.value);
  }

  lemma ArgMeans(a: Arg, ids: seq<nat>, env: Env)
    requires TopOk(a) && |ids| < TWO64
    ensures ArgValue(Resolve(a, ids), env) == MeantArg(a, ids, env)
  {
    hide PlaceOf, ConstValue, ConstArgument, ResultValue, RefValue;
    match Leaf(a)
    case ConstArg(_, _, _, _, _, _, _, _) =>
    case ResultArg(_, _, _, _, res, _, _, val, _, _) =>
      if res.None? { NoStride(val, env); } else { RefMeans(Leaf(a), ids, env); }
    case PointerArg(_, size, phys, _) =>
      NoStride(phys, env);
      NativeArgument(phys, size);
  }

  lemma {:induction false} ArgsMean(args: seq<Arg>, ids: seq<nat>, env: Env)
    requires TopsOk(args) && |ids| < TWO64
    ensures ArgValues(ResolveAll(args, ids), env) == MeantArgs(args, ids, env)
    decreases |args|
  {
    hide Resolve, MeantArg, ArgValue, TopOk;
    if args != [] {
      ArgMeans(args[0], ids, env);
      ArgsMean(args[1..], ids, env);
      assert ResolveAll(args, ids)[1..] == ResolveAll(args[1..], ids);
    }
  }

  lemma RawConcat(s: seq<Instr>, t: seq<Instr>, env: Env)
    ensures Raw(s + t, env) == Raw(s, env) + Raw(t, env)
  {
  }

  lemma RawOne(ins: Instr, env: Env)
    ensures Raw([ins], env) == [ActionOf(ins, env)]
  {
  }

  lemma {:induction false} PokesMean(vs: seq<Visit>, n: nat, ids: seq<nat>, env: Env)
    requires n <= |vs| && |ids| < TWO64
    ensures Raw(CopyinInstrs(PlainCopyins(vs, n, ids)), env) == PokePlan(vs, n, ids, env)
    decreases n
  {
    hide Resolve, MeantPoke, CopyinAction, Copied, Raw;
    if n == 0 {
      RawNone(env);
    } else {
      PokesMean(vs, n - 1, ids, env);
      var v := vs[n - 1];
      if Copied(v) {
        CopiedLeaf(v);
        PokeMeans(v, ids, env);
        var s, c := PlainCopyins(vs, n - 1, ids), Copyin(v.addr.value, Resolve(v.arg, ids));
        assert (s + [c])[..|s|] == s;
        RawConcat(CopyinInstrs(s), [ICopyin(c.addr, c.arg)], env);
        RawOne(ICopyin(c.addr, c.arg), env);
      } else {
        assert PlainCopyins(vs, n, ids) == PlainCopyins(vs, n - 1, ids);
      }
    }
  }

  lemma RawNone(env: Env)
    ensures Raw([], env) == []
  {
  }

  lemma {:induction false} CopyinsConcat(s: seq<Copyin>, t: seq<Copyin>)
    ensures CopyinInstrs(s + t) == CopyinInstrs(s) + CopyinInstrs(t)
    decreases |t|
  {
    if t == [] {
      assert s + t == s;
    } else {
      var n := |t| - 1;
      assert (s + t)[..|s + t| - 1] == s + t[..n];
      CopyinsConcat(s, t[..n]);
    }
  }

  lemma {:induction false} SumsMean(cs: seq<Copyin>, env: Env)
    requires forall i :: 0 <= i < |cs| ==> cs[i].arg.ECsum?
    ensures Raw(CopyinInstrs(cs), env) == SumPlan(cs)
    decreases |cs|
  {
    hide SumOk, Raw;
    if cs == [] {
      RawNone(env);
    } else {
      var n := |cs| - 1;
      SumsMean(cs[..n], env);
      RawConcat(CopyinInstrs(cs[..n]), [ICopyin(cs[n].addr, cs[n].arg)], env);
      RawOne(ICopyin(cs[n].addr, cs[n].arg), env);
      assert SumPlan(cs) == SumPlan(cs[..n]) + [MeantSum(cs[n])];
    }
  }

  lemma {:induction false} FetchesMean(vs: seq<Visit>, from: nat, n: nat, base: nat, env: Env)
    requires n <= |vs|
    ensures Raw(CopyoutInstrs(PlainCopyouts(vs, from, n, base)), env) == FetchPlan(vs, from, n, base)
    decreases n
  {
    hide Raw, UsedIds;
    if n <= from {
      RawNone(env);
    } else {
      FetchesMean(vs, from, n - 1, base, env);
      var v := vs[n - 1];
      if Used(v) {
        var s, o := PlainCopyouts(vs, from, n - 1, base), PlainCopyouts(vs, from, n, base);
        var c := o[|o| - 1];
        assert o[..|o| - 1] == s;
        RawConcat(CopyoutInstrs(s), [ICopyout(c.index, c.addr, c.size)], env);
        RawOne(ICopyout(c.index, c.addr, c.size), env);
      } else {
        assert PlainCopyouts(vs, from, n, base) == PlainCopyouts(vs, from, n - 1, base);
      }
    }
  }

  lemma PropsMean(p: Props, env: Env)
    ensures Raw(PropsInstrs(p), env) == PropsPlan(p)
  {
  }

  lemma InvokeMeans(c: Call, ids: seq<nat>, base: nat, env: Env)
    requires TopsOk(c.args) && |ids| < TWO64
    ensures var e := PlainCall(c, ids, base);
      Raw([ICall(c.id, e.index, e.args)], env) == [MeantInvoke(c, ids, base, env)]
  {
    hide PlainCopyins, PlainCopyouts, ArgValues, MeantArgs;
    ArgsMean(c.args, ids, env);
  }

  /** The instructions of a call carry out its plan. */
  lemma CallMeans(c: Call, ids: seq<nat>, base: nat, env: Env)
    requires CallShape(c) && |ids| < TWO64
    ensures Raw(Flatten(PlainCall(c, ids, base)), env) == CallPlan(c, ids, base, env)
  {
    hide CallVisits, PlainCopyins, PlainCopyouts, PokePlan, SumPlan, FetchPlan, PropsPlan, MeantInvoke, Raw;
    hide CopyinInstrs, CopyoutInstrs, PropsInstrs, ResolveAll;
    var vs, e := CallVisits(c), PlainCall(c, ids, base);
    var pokes := PlainCopyins(vs, |vs|, ids);
    var a, b := CopyinInstrs(pokes), CopyinInstrs(c.csums);
    var q, i, o := PropsInstrs(c.props), [ICall(c.id, e.index, e.args)], CopyoutInstrs(e.copyout);
    CopyinsConcat(pokes, c.csums);
    assert Flatten(e) == a + b + q + i + o;
    PokesMean(vs, |vs|, ids, env);
    SumsMean(c.csums, env);
    PropsMean(c.props, env);
    InvokeMeans(c, ids, base, env);
    FetchesMean(vs, if RetUsed(c) then 1 else 0, |vs|, base, env);
    RawConcat(a, b, env);
    RawConcat(a + b, q, env);
    RawConcat(a + b + q, i, env);
    RawConcat(a + b + q + i, o, env);
  }

  lemma ValidShapes(p: seq<Call>, nsys: nat)
    requires Valid(p, nsys)
    ensures Shapes(p)
  {
    forall j | 0 <= j < |p| ensures CallShape(p[j]) {
      ValidCall(p, nsys, j);
      ShapeOf(p[j], Defined(p, j), nsys);
    }
  }

  lemma ShapeOf(c: Call, defs: seq<nat>, nsys: nat)
    requires CallOk(c, defs, nsys)
    ensures CallShape(c)
  {
    hide TopsOk, CallVisits;
    forall i | 0 <= i < |c.csums| ensures c.csums[i].arg.ECsum? { assert CsumOk(c.csums[i]); }
  }

  lemma {:induction false} ProgMeans(p: seq<Call>, nsys: nat, k: nat, env: Env)
    requires Valid(p, nsys) && k <= |p| && |Defined(p, |p|)| <= MAX_COMMANDS
    ensures CallsOk(p) && Shapes(p) && Raw(CodeAt(p, k), env) == ProgPlan(p, k, env)
    decreases k
  {
    hide Valid, Defined, EncCall, PlainCall, Flatten, CtxAt, CallPlan, TopsOk, Raw, CallShape;
    ValidCallsOk(p, nsys);
    ValidShapes(p, nsys);
    if k == 0 {
      RawNone(env);
    } else {
      ProgMeans(p, nsys, k - 1, env);
      ProgramNumbers(p, nsys, k - 1);
      DefinedPrefix(p, k - 1, |p|);
      CallMeans(p[k - 1], Defined(p, k - 1), |Defined(p, k - 1)|, env);
      EncMeta(p[k - 1], CtxAt(p, k - 1));
      RawConcat(CodeAt(p, k - 1), Flatten(EncCall(p[k - 1], CtxAt(p, k - 1))), env);
    }
  }

  lemma EncMeta(c: Call, ctx: Ctx)
    requires TopsOk(c.args)
    ensures EncCall(c, ctx).meta.Some?
  {
  }

  /** Given the bytes of a valid program, the executor does what the program says, from its first
      instruction to its last or to the first that cannot be carried out. */
  lemma ExecutorDoes(p: seq<Call>, nsys: nat, env: Env)
    requires Valid(p, nsys) && |Defined(p, |p|)| <= MAX_COMMANDS
    ensures CallsOk(p) && InstrsOk(CodeAt(p, |p|), nsys) && Shapes(p)
    ensures Execute(ProgBytes(p, nsys), 0, nsys, env) == Onto(ProgPlan(p, |p|, env), ([], true))
  {
    hide InstrBytes, InstrsBytes, InstrsOk, CodeAt, Valid, Defined, Execute, Onto, Raw, ProgPlan, StepAt;
    CodeOk(p, nsys, |p|);
    ProgMeans(p, nsys, |p|, env);
    var code, data := CodeAt(p, |p|), ProgBytes(p, nsys);
    AtSplit(data, 0, InstrsBytes(code, nsys), InstrBytes(IEof, nsys)) by { assert data[0..|data|] == data; }
    ExecuteRun(data, 0, code, nsys, env);
    Ends(data, |InstrsBytes(code, nsys)|, nsys, env);
  }

  lemma Ends(data: seq<Byte>, i: nat, nsys: nat, env: Env)
    requires At(data, i, InstrBytes(IEof, nsys))
    ensures i <= |data| && Execute(data, i, nsys, env) == ([], true)
  {
    hide InstrBytes, StepAt;
    StepReads(data, i, IEof, nsys, env);
  }
}
