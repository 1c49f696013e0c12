/** Valid programs, and the numbering of results: the encoder's map and counter give every used
    result its place in program order, so that each call comes out in closed form. */
module ExecValid {
  import opened Common
  import opened ExecFormat
  import opened ExecProg

  /** One of the first n visits is of the used result id, and in memory. */
  ghost predicate InMemory(vs: seq<Visit>, n: nat, id: nat)
    requires n <= |vs|
  {
    exists j :: 0 <= j < n && Used(vs[j]) && vs[j].addr.Some? && vs[j].arg.id == id
  }

  /** The referred result is defined by an earlier call, or by one of the first n visits of this one. */
  ghost predicate RefOk(a: Arg, vs: seq<Visit>, n: nat, defs: seq<nat>)
    requires n <= |vs|
  {
    RefOf(a).Some? ==> RefOf(a).value in defs || InMemory(vs, n, RefOf(a).value)
  }

  /** An input buffer's size is the length of its data. */
  predicate DataOk(a: Arg) {
    a.DataArg? && a.at.dir != Out ==> |a.data| < TWO63 && (a.data == [] ==> a.outSize == 0 && !a.at.bitfield)
  }

  ghost predicate VisitOk(vs: seq<Visit>, j: nat, defs: seq<nat>)
    requires j < |vs|
  {
    DataOk(vs[j].arg) && (Copied(vs[j]) ==> RefOk(vs[j].arg, vs, j + 1, defs))
  }

  ghost predicate VisitsOk(vs: seq<Visit>, defs: seq<nat>) { forall j :: 0 <= j < |vs| ==> VisitOk(vs, j, defs) }

  ghost predicate TopRefsOk(args: seq<Arg>, vs: seq<Visit>, defs: seq<nat>) {
    forall i :: 0 <= i < |args| ==> RefOk(args[i], vs, |vs|, defs)
  }

  ghost predicate CsumOk(s: Copyin) { s.arg.ECsum? && ArgOk(s.arg) }

  /** What is demanded of a call apart from its references and data. */
  ghost predicate Shape(c: Call, nsys: nat) {
    && c.id < nsys <= INSTR_SETPROPS && |c.args| < TWO64 && IntFits(c.props.failNth) && IntFits(c.props.rerun)
    && TopsOk(c.args) && (c.ret.Some? ==> c.ret.value.ResultArg?)
    && forall i :: 0 <= i < |c.csums| ==> CsumOk(c.csums[i])
  }

  ghost predicate CallOk(c: Call, defs: seq<nat>, nsys: nat) {
    Shape(c, nsys) && TopRefsOk(c.args, CallVisits(c), defs) && VisitsOk(CallVisits(c), defs)
  }

  /** An argument that is encoded with the call. */
  ghost predicate Encoded(c: Call, a: Arg) {
    (exists i :: 0 <= i < |c.args| && c.args[i] == a) || (exists v <- CallVisits(c) :: Copied(v) && v.arg == a)
  }

  ghost predicate Valid(p: seq<Call>, nsys: nat) {
    (forall k :: 0 <= k < |p| ==> CallOk(p[k], Defined(p, k), nsys)) && NoDup(Defined(p, |p|))
  }

  lemma ValidCall(p: seq<Call>, nsys: nat, k: nat)
    requires Valid(p, nsys) && k < |p|
    ensures CallOk(p[k], Defined(p, k), nsys)
  {
  }

  lemma ValidCallParts(c: Call, defs: seq<nat>, nsys: nat)
    requires CallOk(c, defs, nsys)
    ensures TopsOk(c.args) && TopRefsOk(c.args, CallVisits(c), defs) && VisitsOk(CallVisits(c), defs)
    ensures (c.ret.Some? ==> c.ret.value.ResultArg?)
    ensures |c.args| < TWO64
  {
  }

  lemma ValidNoDup(p: seq<Call>, nsys: nat)
    requires Valid(p, nsys)
    ensures NoDup(Defined(p, |p|))
  {
  }

  // ----- places -----

  lemma {:induction false} PosUnique(ids: seq<nat>, i: nat)
    requires NoDup(ids) && i < |ids|
    ensures PosOf(ids, ids[i]) == i
  {
    if i > 0 {
      assert ids[1..][i - 1] == ids[i];
      PosUnique(ids[1..], i - 1);
    }
  }

  lemma {:induction false} UsedPrefix(vs: seq<Visit>, j: nat, n: nat)
    requires j <= n <= |vs|
    ensures UsedIds(vs, j) <= UsedIds(vs, n)
    ensures j < n && Used(vs[j]) ==>
      |UsedIds(vs, j)| < |UsedIds(vs, n)| && UsedIds(vs, n)[|UsedIds(vs, j)|] == vs[j].arg.id
    decreases n - j
  {
    if j < n {
      UsedPrefix(vs, j + 1, n);
      assert Used(vs[j]) ==> UsedIds(vs, j + 1)[|UsedIds(vs, j)|] == vs[j].arg.id;
    }
  }

  lemma {:induction false} DefinedPrefix(p: seq<Call>, k: nat, m: nat)
    requires k <= m <= |p|
    ensures Defined(p, k) <= Defined(p, m)
    decreases m
  {
    hide CallIds;
    if k < m { DefinedPrefix(p, k, m - 1); }
  }

  lemma NoDupPrefix(ids: seq<nat>, more: seq<nat>)
    requires ids <= more && NoDup(more)
    ensures NoDup(ids)
  {
  }

  /** An id of the tail is not one of the head. */
  lemma NoDupParts(defs: seq<nat>, ids: seq<nat>)
    requires NoDup(defs + ids)
    ensures NoDup(defs) && NoDup(ids) && forall x :: x in ids ==> x !in defs
  {
    var all := defs + ids;
    forall i, j | 0 <= i < j < |ids| ensures ids[i] != ids[j] {
      assert all[|defs| + i] == ids[i] && all[|defs| + j] == ids[j];
    }
    forall i, j | 0 <= i < j < |defs| ensures defs[i] != defs[j] { assert all[i] == defs[i] && all[j] == defs[j]; }
    forall j | 0 <= j < |ids| ensures ids[j] !in defs {
      assert all[|defs| + j] == ids[j];
      forall i | 0 <= i < |defs| ensures defs[i] != ids[j] { assert all[i] == defs[i]; }
    }
  }

  // ----- copyin -----

  lemma {:induction false} CopyinKeeps(vs: seq<Visit>, n: nat, args: map<nat, Info>, id: nat)
    requires n <= |vs| && id !in UsedIds(vs, n)
    ensures id in AfterCopyin(vs, n, args) <==> id in args
    ensures id in args ==> AfterCopyin(vs, n, args)[id] == args[id]
    decreases n
  {
    if n > 0 {
      assert id !in UsedIds(vs, n - 1);
      assert Used(vs[n - 1]) ==> vs[n - 1].arg.id in UsedIds(vs, n);
      CopyinKeeps(vs, n - 1, args, id);
    }
  }

  function AddrOr0(v: Visit): U64 { if v.addr.Some? then v.addr.value else 0 }

  /** After copyin a used result that is new has its address, and no index yet. */
  ghost predicate Noted(v: Visit, args: map<nat, Info>) {
    Used(v) ==> Lookup(args, v.arg.id) == Info(AddrOr0(v), 0, false) && (v.addr.Some? ==> v.arg.id in args)
  }

  lemma {:induction false} CopyinNotes(vs: seq<Visit>, n: nat, args: map<nat, Info>, j: nat)
    requires j < n <= |vs| && NoDup(UsedIds(vs, n)) && (Used(vs[j]) ==> vs[j].arg.id !in args)
    ensures Noted(vs[j], AfterCopyin(vs, n, args))
    decreases n
  {
    if Used(vs[j]) {
      var id := vs[j].arg.id;
      UsedPrefix(vs, j, n);
      UsedPrefix(vs, n - 1, n);
      if j == n - 1 {
        NextIsNew(UsedIds(vs, j), UsedIds(vs, n));
        CopyinKeeps(vs, j, args, id);
      } else {
        CopyinNotes(vs, n - 1, args, j);
        UsedPrefix(vs, j, n - 1);
        if Used(vs[n - 1]) { assert UsedIds(vs, n)[|UsedIds(vs, j)|] != UsedIds(vs, n)[|UsedIds(vs, n - 1)|]; }
      }
    }
  }

  lemma NextIsNew(ids: seq<nat>, more: seq<nat>)
    requires ids <= more && |ids| < |more| && NoDup(more)
    ensures more[|ids|] !in ids
  {
    forall i | 0 <= i < |ids| ensures ids[i] != more[|ids|] { assert more[i] == ids[i]; }
  }

  // ----- copyout -----

  /** Where the copyout pass starts: the return value, if used, is numbered already. */
  ghost predicate Started(vs: seq<Visit>, from: nat, base: nat, ctx: Ctx) {
    && from <= 1 && from <= |vs| && ctx.next == base + from
    && (from == 1 ==> Used(vs[0]) && Lookup(ctx.args, vs[0].arg.id) == Info(0, base, true))
    && forall j :: from <= j < |vs| ==> Noted(vs[j], ctx.args)
  }

  /** After n visits of the copyout pass. */
  ghost predicate Indexed(vs: seq<Visit>, n: nat, base: nat, ctx: Ctx, now: Ctx)
    requires n <= |vs|
  {
    var ids := UsedIds(vs, n);
    && now.next == base + |ids|
    && (forall i :: 0 <= i < |ids| ==> ids[i] in now.args && now.args[ids[i]].idx == base + i)
    && forall id :: id !in ids ==>
         (id in now.args <==> id in ctx.args) && (id in ctx.args ==> now.args[id] == ctx.args[id])
  }

  lemma {:induction false} RetIndexed(vs: seq<Visit>, base: nat, ctx: Ctx)
    requires Started(vs, 1, base, ctx)
    ensures Indexed(vs, 1, base, ctx, AfterCopyout(vs, 1, ctx)) && Copyouts(vs, 1, ctx) == []
  {
    assert AfterCopyout(vs, 0, ctx) == ctx;
    assert UsedIds(vs, 1) == [vs[0].arg.id];
  }

  lemma {:induction false} IndexStep(vs: seq<Visit>, n: nat, base: nat, ctx: Ctx, now: Ctx)
    requires 0 < n <= |vs| && NoDup(UsedIds(vs, n)) && Noted(vs[n - 1], ctx.args) && Indexed(vs, n - 1, base, ctx, now)
    ensures Indexed(vs, n, base, ctx, NoteIndex(vs[n - 1], now))
    ensures Used(vs[n - 1]) ==>
      NeedsCopyout(vs[n - 1], now) && Lookup(now.args, vs[n - 1].arg.id).addr == AddrOr0(vs[n - 1])
  {
    var v := vs[n - 1];
    if Used(v) {
      var id := v.arg.id;
      var ids := UsedIds(vs, n - 1);
      assert UsedIds(vs, n) == ids + [id];
      NextIsNew(ids, UsedIds(vs, n));
      assert Lookup(now.args, id) == Lookup(ctx.args, id);
    }
  }

  lemma {:induction false} CopyoutIndexes(vs: seq<Visit>, from: nat, n: nat, base: nat, ctx: Ctx)
    requires from <= n <= |vs| && NoDup(UsedIds(vs, n)) && Started(vs, from, base, ctx)
    ensures Indexed(vs, n, base, ctx, AfterCopyout(vs, n, ctx))
    ensures Copyouts(vs, n, ctx) == PlainCopyouts(vs, from, n, base)
    decreases n
  {
    hide Indexed, NoteIndex;
    if n == from {
      if from == 1 { RetIndexed(vs, base, ctx); } else { NothingIndexed(vs, base, ctx); }
    } else {
      UsedPrefix(vs, n - 1, n);
      NoDupPrefix(UsedIds(vs, n - 1), UsedIds(vs, n));
      CopyoutIndexes(vs, from, n - 1, base, ctx);
      var now := AfterCopyout(vs, n - 1, ctx);
      IndexStep(vs, n, base, ctx, now);
      assert now.next == base + |UsedIds(vs, n - 1)| by { IndexedNext(vs, n - 1, base, ctx, now); }
    }
  }

  lemma IndexedNext(vs: seq<Visit>, n: nat, base: nat, ctx: Ctx, now: Ctx)
    requires n <= |vs| && Indexed(vs, n, base, ctx, now)
    ensures now.next == base + |UsedIds(vs, n)|
  {
  }

  lemma NothingIndexed(vs: seq<Visit>, base: nat, ctx: Ctx)
    requires ctx.next == base
    ensures Indexed(vs, 0, base, ctx, AfterCopyout(vs, 0, ctx))
  {
  }

  // ----- a whole call -----

  /** The map holds exactly the results defined so far, each with its place as its index. */
  ghost predicate Numbered(ctx: Ctx, defs: seq<nat>) {
    && ctx.next == |defs|
    && (forall i :: 0 <= i < |defs| ==> defs[i] in ctx.args && ctx.args[defs[i]].idx == i)
    && forall id :: id in ctx.args ==> id in defs
  }

  ghost predicate Ready(c: Call, defs: seq<nat>, ctx: Ctx) {
    Numbered(ctx, defs) && NoDup(defs + CallIds(c)) && (c.ret.Some? ==> c.ret.value.ResultArg?)
  }

  lemma {:induction false} CallStarts(c: Call, defs: seq<nat>, ctx: Ctx)
    requires Ready(c, defs, ctx)
    ensures Started(CallVisits(c), if RetUsed(c) then 1 else 0, |defs|, CtxBeforeArgs(c, ctx))
  {
    hide AfterCopyin, UsedIds;
    var vs := CallVisits(c);
    var args := AfterCopyin(vs, |vs|, ctx.args);
    var from := if RetUsed(c) then 1 else 0;
    NoDupParts(defs, CallIds(c));
    forall j | from <= j < |vs| ensures Noted(vs[j], CtxBeforeArgs(c, ctx).args) {
      VisitStarts(c, defs, ctx, j);
    }
  }

  lemma {:induction false} VisitStarts(c: Call, defs: seq<nat>, ctx: Ctx, j: nat)
    requires Ready(c, defs, ctx) && j < |CallVisits(c)| && (RetUsed(c) ==> j > 0)
    ensures Noted(CallVisits(c)[j], CtxBeforeArgs(c, ctx).args)
  {
    hide AfterCopyin, UsedIds;
    var vs := CallVisits(c);
    NoDupParts(defs, CallIds(c));
    UsedPrefix(vs, j, |vs|);
    CopyinNotes(vs, |vs|, ctx.args, j);
    if RetUsed(c) && Used(vs[j]) {
      UsedPrefix(vs, 0, |vs|);
      UsedPrefix(vs, 1, j);
      FirstUsed(vs);
      assert CallIds(c)[0] != CallIds(c)[|UsedIds(vs, j)|];
    }
  }

  lemma FirstUsed(vs: seq<Visit>)
    requires vs != [] && Used(vs[0])
    ensures |UsedIds(vs, 0)| == 0 && UsedIds(vs, 1) == [vs[0].arg.id]
  {
  }

  /** A result defined earlier keeps its index throughout the call. */
  lemma {:induction false} OldIdsKept(c: Call, defs: seq<nat>, ctx: Ctx, n: nat, id: nat)
    requires Ready(c, defs, ctx) && id in defs && n <= |CallVisits(c)|
    ensures id in AfterCopyin(CallVisits(c), n, ctx.args) && AfterCopyin(CallVisits(c), n, ctx.args)[id] == ctx.args[id]
    ensures id in CtxBeforeArgs(c, ctx).args && CtxBeforeArgs(c, ctx).args[id] == ctx.args[id]
    ensures id in ctx.args && ctx.args[id].idx == PosOf(defs, id)
  {
    hide AfterCopyin, UsedIds;
    var vs := CallVisits(c);
    NoDupParts(defs, CallIds(c));
    UsedPrefix(vs, n, |vs|);
    CopyinKeeps(vs, n, ctx.args, id);
    CopyinKeeps(vs, |vs|, ctx.args, id);
    if RetUsed(c) {
      FirstUsed(vs);
      UsedPrefix(vs, 0, |vs|);
      assert CallIds(c)[0] == c.ret.value.id;
    }
    PosUnique(defs, PosOf(defs, id));
  }

  lemma {:induction false} CallNumbers(c: Call, defs: seq<nat>, ctx: Ctx)
    requires Ready(c, defs, ctx)
    ensures Numbered(AfterCall(c, ctx), defs + CallIds(c))
  {
    hide AfterCopyin, AfterCopyout, UsedIds, PosOf;
    var vs := CallVisits(c);
    var mid, now, ids := CtxBeforeArgs(c, ctx), AfterCall(c, ctx), CallIds(c);
    NoDupParts(defs, ids);
    CallStarts(c, defs, ctx);
    CopyoutIndexes(vs, if RetUsed(c) then 1 else 0, |vs|, |defs|, mid);
    var all := defs + ids;
    forall i | 0 <= i < |all| ensures all[i] in now.args && now.args[all[i]].idx == i {
      if i < |defs| {
        OldIdsKept(c, defs, ctx, 0, defs[i]);
      } else {
        assert all[i] == ids[i - |defs|];
      }
    }
    forall id | id in now.args ensures id in all {
      if id !in ids { OnlyNew(c, ctx, id); }
    }
  }

  lemma {:induction false} OnlyNew(c: Call, ctx: Ctx, id: nat)
    requires id !in CallIds(c) && id in CtxBeforeArgs(c, ctx).args && (c.ret.Some? ==> c.ret.value.ResultArg?)
    ensures id in ctx.args
  {
    hide AfterCopyin, UsedIds;
    var vs := CallVisits(c);
    CopyinKeeps(vs, |vs|, ctx.args, id);
    if RetUsed(c) {
      FirstUsed(vs);
      UsedPrefix(vs, 0, |vs|);
    }
  }

  // ----- references -----

  /** What the map holds for a result that may be referred to after n visits of the copyin pass: its
      place if an earlier call defines it, and 0 if this one does. */
  lemma {:induction false} KnownIndex(c: Call, defs: seq<nat>, ctx: Ctx, n: nat, id: nat)
    requires Ready(c, defs, ctx) && n <= |CallVisits(c)| && (id in defs || InMemory(CallVisits(c), n, id))
    ensures var m := AfterCopyin(CallVisits(c), n, ctx.args); id in m && m[id].idx == PlaceOf(defs, id)
    ensures id in defs <==> id !in CallIds(c)
  {
    hide AfterCopyin, UsedIds, PosOf, CtxBeforeArgs;
    var vs := CallVisits(c);
    NoDupParts(defs, CallIds(c));
    if id in defs {
      OldIdsKept(c, defs, ctx, n, id);
    } else {
      var j :| 0 <= j < n && Used(vs[j]) && vs[j].addr.Some? && vs[j].arg.id == id;
      UsedPrefix(vs, j, |vs|);
      UsedPrefix(vs, n, |vs|);
      NoDupPrefix(UsedIds(vs, n), UsedIds(vs, |vs|));
      CopyinNotes(vs, n, ctx.args, j);
    }
  }

  /** The same when the arguments of the call itself are written. */
  lemma {:induction false} KnownBeforeArgs(c: Call, defs: seq<nat>, ctx: Ctx, id: nat)
    requires Ready(c, defs, ctx) && (id in defs || InMemory(CallVisits(c), |CallVisits(c)|, id))
    ensures var m := CtxBeforeArgs(c, ctx).args; id in m && m[id].idx == PlaceOf(defs, id)
    ensures id in defs <==> id !in CallIds(c)
  {
    hide AfterCopyin, UsedIds, PosOf, CtxBeforeArgs, Ready;
    var vs := CallVisits(c);
    KnownIndex(c, defs, ctx, |vs|, id);
    if id in defs {
      OldIdsKept(c, defs, ctx, 0, id);
    } else {
      var j :| 0 <= j < |vs| && Used(vs[j]) && vs[j].addr.Some? && vs[j].arg.id == id;
      VisitStarts(c, defs, ctx, j);
    }
  }

  /** The place among the results so far is the place among all if and only if the result is one of
      those so far, or the very first. */
  lemma {:induction false} PlaceIff(defs: seq<nat>, all: seq<nat>, id: nat)
    requires defs <= all && NoDup(all) && id in all
    ensures PlaceOf(defs, id) == PosOf(all, id) <==> id in defs || PosOf(all, id) == 0
  {
    hide PosOf;
    if id in defs {
      assert all[PosOf(defs, id)] == id;
      PosUnique(all, PosOf(defs, id));
    }
  }

  /** A reference carries its producer's place if and only if the producer is in an earlier call, or
      is the very first result: within a call the index is still unset and 0 is written. */
  lemma {:induction false} RefIndexIff(c: Call, defs: seq<nat>, ctx: Ctx, n: nat, id: nat)
    requires Ready(c, defs, ctx) && |defs + CallIds(c)| < TWO64 && n < |CallVisits(c)| && Copied(CallVisits(c)[n])
    requires RefOf(CallVisits(c)[n].arg) == Some(id) && RefOk(CallVisits(c)[n].arg, CallVisits(c), n + 1, defs)
    ensures var e := EncArg(CallVisits(c)[n].arg, AfterCopyin(CallVisits(c), n + 1, ctx.args));
      e.EResult? && (e.index == PosOf(defs + CallIds(c), id) <==> id in defs || PosOf(defs + CallIds(c), id) == 0)
  {
    hide AfterCopyin, UsedIds, PosOf, CtxBeforeArgs, CallVisits;
    KnownIndex(c, defs, ctx, n + 1, id);
    PlaceIff(defs, defs + CallIds(c), id);
  }

  /** The same holds of the arguments of the call itself. */
  lemma {:induction false} TopRefIndexIff(c: Call, defs: seq<nat>, ctx: Ctx, i: nat, id: nat)
    requires Ready(c, defs, ctx) && |defs + CallIds(c)| < TWO64 && i < |c.args| && TopOk(c.args[i])
    requires RefOf(c.args[i]) == Some(id) && RefOk(c.args[i], CallVisits(c), |CallVisits(c)|, defs)
    ensures var e := EncArg(c.args[i], CtxBeforeArgs(c, ctx).args);
      e.EResult? && (e.index == PosOf(defs + CallIds(c), id) <==> id in defs || PosOf(defs + CallIds(c), id) == 0)
  {
    hide AfterCopyin, UsedIds, PosOf, CtxBeforeArgs, CallVisits;
    KnownBeforeArgs(c, defs, ctx, id);
    PlaceIff(defs, defs + CallIds(c), id);
  }

  // ----- the call in closed form -----

  lemma {:induction false} CopyinsArePlain(c: Call, defs: seq<nat>, ctx: Ctx, n: nat)
    requires Ready(c, defs, ctx) && VisitsOk(CallVisits(c), defs) && n <= |CallVisits(c)|
    ensures Copyins(CallVisits(c), n, ctx.args) == PlainCopyins(CallVisits(c), n, defs)
    decreases n
  {
    hide AfterCopyin, UsedIds, EncWith, CallVisits, Ready, PosOf, CtxBeforeArgs;
    if n > 0 {
      CopyinsArePlain(c, defs, ctx, n - 1);
      var v := CallVisits(c)[n - 1];
      assert VisitOk(CallVisits(c), n - 1, defs);
      if Copied(v) && RefOf(v.arg).Some? { KnownIndex(c, defs, ctx, n, RefOf(v.arg).value); }
    }
  }

  lemma {:induction false} ArgsArePlain(c: Call, defs: seq<nat>, ctx: Ctx, args: seq<Arg>)
    requires Ready(c, defs, ctx) && TopsOk(args) && TopRefsOk(args, CallVisits(c), defs)
    ensures EncArgs(args, CtxBeforeArgs(c, ctx).args) == ResolveAll(args, defs)
    decreases |args|
  {
    hide AfterCopyin, UsedIds, EncWith, CallVisits, Ready, PosOf, CtxBeforeArgs;
    if args != [] {
      var n := |args| - 1;
      ArgsArePlain(c, defs, ctx, args[..n]);
      if RefOf(args[n]).Some? { KnownBeforeArgs(c, defs, ctx, RefOf(args[n]).value); }
      assert ResolveAll(args, defs) == ResolveAll(args[..n], defs) + [Resolve(args[n], defs)];
    }
  }

  /** The encoder's map and counter compute the closed form: references are resolved among the
      results of earlier calls. */
  lemma {:induction false} CallIsPlain(c: Call, defs: seq<nat>, ctx: Ctx)
    requires Ready(c, defs, ctx) && TopsOk(c.args) && TopRefsOk(c.args, CallVisits(c), defs)
    requires VisitsOk(CallVisits(c), defs)
    ensures EncCall(c, ctx) == PlainCall(c, defs, |defs|)
  {
    hide AfterCopyin, AfterCopyout, UsedIds, Copyins, Copyouts, PlainCopyins, PlainCopyouts, EncArgs, ResolveAll;
    hide NoDup, CallVisits, CtxBeforeArgs, Noted;
    var vs := CallVisits(c);
    NoDupParts(defs, CallIds(c));
    CopyinsArePlain(c, defs, ctx, |vs|);
    ArgsArePlain(c, defs, ctx, c.args);
    CallStarts(c, defs, ctx);
    CopyoutIndexes(vs, if RetUsed(c) then 1 else 0, |vs|, |defs|, CtxBeforeArgs(c, ctx));
  }

  lemma {:induction false} CallReady(p: seq<Call>, nsys: nat, k: nat, ctx: Ctx)
    requires Valid(p, nsys) && k < |p| && Numbered(ctx, Defined(p, k))
    ensures Ready(p[k], Defined(p, k), ctx)
  {
    ValidCall(p, nsys, k);
    ValidCallParts(p[k], Defined(p, k), nsys);
    ValidNoDup(p, nsys);
    hide CallIds, NoDup, Valid, CallOk, Numbered;
    DefinedPrefix(p, k + 1, |p|);
    NoDupPrefix(Defined(p, k + 1), Defined(p, |p|));
  }

  lemma NothingNumbered()
    ensures Numbered(Ctx(map[], 0), [])
  {
  }

  /** The map and counter behind the first k calls. */
  lemma {:induction false} NumberedAt(p: seq<Call>, nsys: nat, k: nat)
    requires Valid(p, nsys) && k <= |p|
    ensures Numbered(CtxAt(p, k), Defined(p, k))
    decreases k
  {
    hide AfterCall, CallIds, Valid, Numbered, Ready;
    if k == 0 {
      NothingNumbered();
    } else {
      NumberedAt(p, nsys, k - 1);
      CallReady(p, nsys, k - 1, CtxAt(p, k - 1));
      CallNumbers(p[k - 1], Defined(p, k - 1), CtxAt(p, k - 1));
    }
  }

  /** Every call of the program comes out in closed form. */
  lemma {:induction false} ProgramNumbers(p: seq<Call>, nsys: nat, k: nat)
    requires Valid(p, nsys) && k < |p|
    ensures Ready(p[k], Defined(p, k), CtxAt(p, k)) && TopsOk(p[k].args)
    ensures EncCall(p[k], CtxAt(p, k)) == PlainCall(p[k], Defined(p, k), |Defined(p, k)|)
  {
    hide AfterCall, EncCall, PlainCall, CallIds, CallVisits, NoDup, Valid, CallOk, TopsOk, TopRefsOk, VisitsOk, Ready;
    hide CtxAt, Defined;
    ValidCall(p, nsys, k);
    ValidCallParts(p[k], Defined(p, k), nsys);
    NumberedAt(p, nsys, k);
    CallReady(p, nsys, k, CtxAt(p, k));
    CallIsPlain(p[k], Defined(p, k), CtxAt(p, k));
  }
}
