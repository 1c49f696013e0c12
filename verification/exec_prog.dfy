/** Programs as the exec encoder sees them, and the calls it makes of them: once with the map and
    counter of the encoder, once in closed form. */
module ExecProg {
  import opened Common
  import opened ExecFormat

  datatype Dir = In | Out | InOut
  datatype Attr = Attr(dir: Dir, pad: bool, bitfield: bool, unitOffset: U64)

  /** An argument tree. A result argument is known by its id; `res` is the id of the result it
      refers to, and `used` says that its own set of uses is not empty. `phys` is the physical
      address of a pointer. */
  datatype Arg =
    | ConstArg(at: Attr, size: Byte, unit: Byte, value: U64, stride: U32, format: Byte, bfOffset: Byte, bfLength: Byte)
    | ResultArg(at: Attr, size: Byte, id: nat, used: bool, res: Option<nat>,
                opDiv: U64, opAdd: U64, val: U64, deflt: U64, format: Byte)
    | PointerArg(at: Attr, size: Byte, phys: U64, pointee: Option<Arg>)
    | DataArg(at: Attr, data: seq<Byte>, outSize: U64, readable: bool)
    | GroupArg(at: Attr, total: U64, inner: seq<Arg>, overlay: nat)
    | UnionArg(at: Attr, total: U64, option: Arg)

  datatype Props = Props(failNth: int, async: bool, rerun: int)
  datatype Copyin = Copyin(addr: U64, arg: ExecArg)
  datatype Copyout = Copyout(index: U64, addr: U64, size: U64)

  /** `csums` are the checksum instructions of the call, in the order they are written. */
  datatype Call = Call(id: U64, props: Props, ret: Option<Arg>, args: seq<Arg>, csums: seq<Copyin>)

  datatype ExecCall = ExecCall(
    meta: Option<U64>, props: Props, index: U64, args: seq<ExecArg>, copyin: seq<Copyin>, copyout: seq<Copyout>)

  const NO_PROPS := Props(0, false, 0)

  function Size(a: Arg): nat {
    match a
    case ConstArg(_, size, _, _, _, _, _, _) => size
    case ResultArg(_, size, _, _, _, _, _, _, _, _) => size
    case PointerArg(_, size, _, _) => size
    case DataArg(_, data, outSize, _) => if data != [] then |data| else outSize
    case GroupArg(_, total, _, _) => total
    case UnionArg(_, total, _) => total
  }

  // ----- ForeachArg -----

  datatype Visit = Visit(arg: Arg, addr: Option<U64>)

  function AddrOf(a: Arg, base: Option<U64>, offset: nat): Option<U64> {
    if base.None? then None else Some((base.value + offset - a.at.unitOffset) % TWO64)
  }

  function Visits(a: Arg, base: Option<U64>, offset: nat): seq<Visit> {
    [Visit(a, AddrOf(a, base, offset))] +
    match a
    case GroupArg(_, _, inner, overlay) => InnerVisits(inner, 0, overlay, base, offset, offset)
    case PointerArg(_, _, phys, Some(p)) => Visits(p, Some(phys), 0)
    case UnionArg(_, _, option) => Visits(option, base, offset)
    case _ => []
  }

  /** The fields from i on; the overlay field goes back to the start of the group. */
  function InnerVisits(inner: seq<Arg>, i: nat, overlay: nat, base: Option<U64>, start: nat, offset: nat): seq<Visit>
    requires i <= |inner|
    decreases inner, |inner| - i
  {
    if i == |inner| then []
    else
      var here := if i == overlay then start else offset;
      Visits(inner[i], base, here) + InnerVisits(inner, i + 1, overlay, base, start, here + Size(inner[i]))
  }

  function ArgsVisits(args: seq<Arg>): seq<Visit> {
    if args == [] then [] else ArgsVisits(args[..|args| - 1]) + Visits(args[|args| - 1], None, 0)
  }

  /** The return value comes first. */
  function CallVisits(c: Call): seq<Visit> {
    (if c.ret.Some? then [Visit(c.ret.value, None)] else []) + ArgsVisits(c.args)
  }

  // ----- one argument -----

  function Leaf(a: Arg): (l: Arg)
    ensures !l.UnionArg?
  {
    if a.UnionArg? then Leaf(a.option) else a
  }

  /** The result an argument refers to. */
  function RefOf(a: Arg): Option<nat> {
    var l := Leaf(a);
    if l.ResultArg? then l.res else None
  }

  /** The encoding, given the index of the result referred to. */
  function EncWith(a: Arg, index: nat): ExecArg
    requires !Leaf(a).GroupArg?
  {
    match Leaf(a)
    case ConstArg(_, _, unit, value, stride, format, o, l) => EConst(unit, format, value, o, l, stride)
    case ResultArg(_, size, _, _, res, d, p, val, deflt, format) =>
      if res.None? then EConst(size, format, val, 0, 0, 0) else EResult(size, format, index % TWO64, d, p, deflt)
    case PointerArg(_, size, phys, _) => EConst(size, 0, phys, 0, 0, 0)
    case DataArg(_, data, _, readable) => EData(data, readable)
  }

  predicate Used(v: Visit) { v.arg.ResultArg? && v.arg.used }

  /** A visited argument that gets a copyin instruction. */
  predicate Copied(v: Visit) {
    && v.addr.Some? && !v.arg.GroupArg? && !v.arg.UnionArg?
    && v.arg.at.dir != Out && !v.arg.at.pad && (Size(v.arg) != 0 || v.arg.at.bitfield)
  }

  // ----- the encoder's way -----

  datatype Info = Info(addr: U64, idx: nat, ret: bool)
  datatype Ctx = Ctx(args: map<nat, Info>, next: nat)

  function Lookup(args: map<nat, Info>, id: nat): Info { if id in args then args[id] else Info(0, 0, false) }

  function EncArg(a: Arg, args: map<nat, Info>): ExecArg
    requires !Leaf(a).GroupArg?
  {
    EncWith(a, if RefOf(a).Some? then Lookup(args, RefOf(a).value).idx else 0)
  }

  function NoteAddr(v: Visit, args: map<nat, Info>): map<nat, Info> {
    if v.addr.Some? && Used(v) then args[v.arg.id := Info(v.addr.value, 0, false)] else args
  }

  function AfterCopyin(vs: seq<Visit>, n: nat, args: map<nat, Info>): map<nat, Info>
    requires n <= |vs|
    decreases n
  {
    if n == 0 then args else NoteAddr(vs[n - 1], AfterCopyin(vs, n - 1, args))
  }

  function Copyins(vs: seq<Visit>, n: nat, args: map<nat, Info>): seq<Copyin>
    requires n <= |vs|
    decreases n
  {
    if n == 0 then []
    else
      var v := vs[n - 1];
      Copyins(vs, n - 1, args) +
      (if Copied(v) then [Copyin(v.addr.value, EncArg(v.arg, AfterCopyin(vs, n, args)))] else [])
  }

  predicate NeedsCopyout(v: Visit, ctx: Ctx) { Used(v) && !Lookup(ctx.args, v.arg.id).ret }

  function NoteIndex(v: Visit, ctx: Ctx): Ctx {
    if NeedsCopyout(v, ctx) then Ctx(ctx.args[v.arg.id := Lookup(ctx.args, v.arg.id).(idx := ctx.next)], ctx.next + 1)
    else ctx
  }

  function AfterCopyout(vs: seq<Visit>, n: nat, ctx: Ctx): Ctx
    requires n <= |vs|
    decreases n
  {
    if n == 0 then ctx else NoteIndex(vs[n - 1], AfterCopyout(vs, n - 1, ctx))
  }

  function Copyouts(vs: seq<Visit>, n: nat, ctx: Ctx): seq<Copyout>
    requires n <= |vs|
    decreases n
  {
    if n == 0 then []
    else
      var before := AfterCopyout(vs, n - 1, ctx);
      var v := vs[n - 1];
      Copyouts(vs, n - 1, ctx) +
      (if !NeedsCopyout(v, before) then []
       else [Copyout(before.next % TWO64, Lookup(before.args, v.arg.id).addr, v.arg.size)])
  }

  predicate RetUsed(c: Call) { c.ret.Some? && c.ret.value.ResultArg? && c.ret.value.used }

  function AfterRet(c: Call, ctx: Ctx): Ctx {
    if RetUsed(c) then Ctx(ctx.args[c.ret.value.id := Info(0, ctx.next, true)], ctx.next + 1) else ctx
  }

  /** Arguments that may stand in a call. */
  predicate TopOk(a: Arg) { Leaf(a).ConstArg? || Leaf(a).ResultArg? || Leaf(a).PointerArg? }

  predicate TopsOk(args: seq<Arg>) { forall i :: 0 <= i < |args| ==> TopOk(args[i]) }

  function EncArgs(args: seq<Arg>, m: map<nat, Info>): seq<ExecArg>
    requires TopsOk(args)
  {
    if args == [] then [] else EncArgs(args[..|args| - 1], m) + [EncArg(args[|args| - 1], m)]
  }

  function CtxBeforeArgs(c: Call, ctx: Ctx): Ctx {
    AfterRet(c, Ctx(AfterCopyin(CallVisits(c), |CallVisits(c)|, ctx.args), ctx.next))
  }

  /** serializeCall. */
  function EncCall(c: Call, ctx: Ctx): ExecCall
    requires TopsOk(c.args)
  {
    var vs := CallVisits(c);
    var mid := CtxBeforeArgs(c, ctx);
    ExecCall(Some(c.id), c.props, if RetUsed(c) then ctx.next % TWO64 else NO_COPYOUT, EncArgs(c.args, mid.args),
      Copyins(vs, |vs|, ctx.args) + c.csums, Copyouts(vs, |vs|, mid))
  }

  function AfterCall(c: Call, ctx: Ctx): Ctx {
    AfterCopyout(CallVisits(c), |CallVisits(c)|, CtxBeforeArgs(c, ctx))
  }

  function CtxAt(p: seq<Call>, k: nat): Ctx
    requires k <= |p|
    decreases k
  {
    if k == 0 then Ctx(map[], 0) else AfterCall(p[k - 1], CtxAt(p, k - 1))
  }

  // ----- in closed form -----

  /** The ids of the used results among the first n visits. */
  function UsedIds(vs: seq<Visit>, n: nat): (ids: seq<nat>)
    requires n <= |vs|
    decreases n
  {
    if n == 0 then [] else UsedIds(vs, n - 1) + if Used(vs[n - 1]) then [vs[n - 1].arg.id] else []
  }

  function CallIds(c: Call): seq<nat> { UsedIds(CallVisits(c), |CallVisits(c)|) }

  /** The used results of the first k calls, in program order. A result's index is its place here. */
  function Defined(p: seq<Call>, k: nat): (ids: seq<nat>)
    requires k <= |p|
    decreases k
  {
    if k == 0 then [] else Defined(p, k - 1) + CallIds(p[k - 1])
  }

  function PosOf(ids: seq<nat>, id: nat): (i: nat)
    ensures id in ids ==> i < |ids| && ids[i] == id
  {
    if ids == [] || ids[0] == id then 0 else 1 + PosOf(ids[1..], id)
  }

  /** The place of a result among the ids, 0 if it has none there. */
  function PlaceOf(ids: seq<nat>, id: nat): nat { if id in ids then PosOf(ids, id) else 0 }

  /** The encoding with a reference resolved among the results ids. */
  function Resolve(a: Arg, ids: seq<nat>): ExecArg
    requires !Leaf(a).GroupArg?
  {
    EncWith(a, if RefOf(a).Some? then PlaceOf(ids, RefOf(a).value) else 0)
  }

  function ResolveAll(args: seq<Arg>, ids: seq<nat>): (es: seq<ExecArg>)
    requires TopsOk(args)
    ensures |es| == |args|
  {
    seq(|args|, i requires 0 <= i < |args| => Resolve(args[i], ids))
  }

  function PlainCopyins(vs: seq<Visit>, n: nat, ids: seq<nat>): seq<Copyin>
    requires n <= |vs|
    decreases n
  {
    if n == 0 then []
    else
      var v := vs[n - 1];
      PlainCopyins(vs, n - 1, ids) + (if Copied(v) then [Copyin(v.addr.value, Resolve(v.arg, ids))] else [])
  }

  /** Every used result other than the return value is copied out, at its address if it has one. */
  function PlainCopyouts(vs: seq<Visit>, from: nat, n: nat, base: nat): seq<Copyout>
    requires n <= |vs|
    decreases n
  {
    if n <= from then []
    else
      var v := vs[n - 1];
      var addr := if v.addr.Some? then v.addr.value else 0;
      PlainCopyouts(vs, from, n - 1, base) +
      (if Used(v) then [Copyout((base + |UsedIds(vs, n - 1)|) % TWO64, addr, v.arg.size)] else [])
  }

  /** A call with its references resolved among the results ids, its own results counted from base. */
  function PlainCall(c: Call, ids: seq<nat>, base: nat): ExecCall
    requires TopsOk(c.args)
  {
    var vs := CallVisits(c);
    ExecCall(Some(c.id), c.props, if RetUsed(c) then base % TWO64 else NO_COPYOUT,
      ResolveAll(c.args, ids),
      PlainCopyins(vs, |vs|, ids) + c.csums,
      PlainCopyouts(vs, if RetUsed(c) then 1 else 0, |vs|, base))
  }
}
