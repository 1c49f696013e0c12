/** Decoding an encoded program gives back its calls as they were encoded, and says when that is with
    every reference at its producer's place. */
module ExecRoundTrip {
  import opened Common
  import opened ExecFormat
  import opened ExecProg
  import opened ExecValid
  import opened ExecDecode

  const MAX_COMMANDS: nat := 1000

  ghost predicate CallsOk(p: seq<Call>) { forall k :: 0 <= k < |p| ==> TopsOk(p[k].args) }

  /** Call k as it is written: references to results of earlier calls carry their place, others 0. */
  ghost function Written(p: seq<Call>, k: nat): ExecCall
    requires k < |p| && CallsOk(p)
  {
    PlainCall(p[k], Defined(p, k), |Defined(p, k)|)
  }

  /** Call k as it is meant: each reference carries its producer's place in program order. */
  ghost function Meant(p: seq<Call>, k: nat): ExecCall
    requires k < |p| && CallsOk(p)
  {
    PlainCall(p[k], Defined(p, |p|), |Defined(p, k)|)
  }

  ghost function WrittenCalls(p: seq<Call>, k: nat): (cs: seq<ExecCall>)
    requires k <= |p| && CallsOk(p)
    ensures |cs| == k
    decreases k
  {
    if k == 0 then [] else WrittenCalls(p, k - 1) + [Written(p, k - 1)]
  }

  /** The program in closed form. */
  ghost function PlainCalls(p: seq<Call>, k: nat): (cs: seq<ExecCall>)
    requires k <= |p| && CallsOk(p)
    ensures |cs| == k
    decreases k
  {
    if k == 0 then [] else PlainCalls(p, k - 1) + [Meant(p, k - 1)]
  }

  /** All encoded arguments, in order. */
  ghost function WrittenArgs(p: seq<Call>, k: nat): seq<ExecArg>
    requires k <= |p| && CallsOk(p)
    decreases k
  {
    if k == 0 then [] else WrittenArgs(p, k - 1) + ArgsOf(Written(p, k - 1))
  }

  /** The instructions the encoder writes for the first k calls. */
  ghost function CodeAt(p: seq<Call>, k: nat): seq<Instr>
    requires k <= |p| && CallsOk(p)
    decreases k
  {
    if k == 0 then [] else CodeAt(p, k - 1) + Flatten(EncCall(p[k - 1], CtxAt(p, k - 1)))
  }

  ghost function ProgBytes(p: seq<Call>, nsys: nat): seq<Byte>
    requires CallsOk(p) && InstrsOk(CodeAt(p, |p|), nsys)
  {
    InstrsBytes(CodeAt(p, |p|), nsys) + InstrBytes(IEof, nsys)
  }

  lemma ValidCallsOk(p: seq<Call>, nsys: nat)
    requires Valid(p, nsys)
    ensures CallsOk(p)
  {
    forall k | 0 <= k < |p| ensures TopsOk(p[k].args) { assert CallOk(p[k], Defined(p, k), nsys); }
  }

  // ----- what is written can be written -----

  lemma {:induction false} PlainCopyinsOk(vs: seq<Visit>, n: nat, defs: seq<nat>)
    requires n <= |vs| && VisitsOk(vs, defs)
    ensures forall i :: 0 <= i < |PlainCopyins(vs, n, defs)| ==> ArgOk(PlainCopyins(vs, n, defs)[i].arg)
    decreases n
  {
    hide PosOf, RefOf, PlaceOf, RefOk;
    if n > 0 {
      PlainCopyinsOk(vs, n - 1, defs);
      assert VisitOk(vs, n - 1, defs);
    }
  }

  lemma {:induction false} CallCodeOk(c: Call, defs: seq<nat>, nsys: nat)
    requires CallOk(c, defs, nsys)
    ensures InstrsOk(Flatten(PlainCall(c, defs, |defs|)), nsys)
  {
    var e := PlainCall(c, defs, |defs|);
    assert CallArgsOk(e) by { PlainCallOk(c, defs, nsys); }
    hide PlainCall, PlainCopyins, PlainCopyouts, CopyinInstrs, CopyoutInstrs, PropsInstrs, ResolveAll, CallOk;
    var code := Flatten(e);
    CopyinCount(e.copyin);
    CopyoutCount(e.copyout);
    forall i | 0 <= i < |code| ensures InstrOk(code[i], nsys) && !code[i].IEof? {
      InstrAt(e, i);
    }
  }

  ghost predicate CallArgsOk(e: ExecCall) {
    && (forall i :: 0 <= i < |e.copyin| ==> ArgOk(e.copyin[i].arg))
    && (forall i :: 0 <= i < |e.args| ==> e.args[i].EConst? || e.args[i].EResult?)
  }

  lemma {:induction false} PlainCallOk(c: Call, defs: seq<nat>, nsys: nat)
    requires CallOk(c, defs, nsys)
    ensures CallArgsOk(PlainCall(c, defs, |defs|))
  {
    hide PosOf, RefOf, PlainCopyins, PlainCopyouts;
    var vs := CallVisits(c);
    PlainCopyinsOk(vs, |vs|, defs);
    var s := PlainCopyins(vs, |vs|, defs);
    forall i | 0 <= i < |s + c.csums| ensures ArgOk((s + c.csums)[i].arg) {
      if i >= |s| { assert CsumOk(c.csums[i - |s|]); }
    }
  }

  /** Every instruction of a call is of one of four kinds. */
  lemma {:induction false} InstrAt(e: ExecCall, i: nat)
    requires e.meta.Some? && i < |Flatten(e)|
    ensures var ins := Flatten(e)[i];
      || (ins.ICopyin? && exists j :: 0 <= j < |e.copyin| && ins.arg == e.copyin[j].arg)
      || ins.IProps? || ins == ICall(e.meta.value, e.index, e.args) || ins.ICopyout?
  {
    hide CopyinInstrs, CopyoutInstrs;
    CopyinCount(e.copyin);
    CopyoutCount(e.copyout);
    if i < |e.copyin| {
      CopyinAt(e.copyin, i);
      assert Flatten(e)[i] == CopyinInstrs(e.copyin)[i];
    } else {
      var n := |e.copyin| + |PropsInstrs(e.props)|;
      if i > n {
        CopyoutAt(e.copyout, i - n - 1);
        assert Flatten(e)[i] == CopyoutInstrs(e.copyout)[i - n - 1];
      }
    }
  }

  lemma {:induction false} CodeOk(p: seq<Call>, nsys: nat, k: nat)
    requires Valid(p, nsys) && k <= |p|
    ensures CallsOk(p) && InstrsOk(CodeAt(p, k), nsys)
    decreases k
  {
    hide InstrOk, EncCall, PlainCall, Flatten, CtxAt, Valid, CallOk, TopsOk, Ready, Numbered;
    ValidCallsOk(p, nsys);
    if k > 0 {
      CodeOk(p, nsys, k - 1);
      ProgramNumbers(p, nsys, k - 1);
      ValidCall(p, nsys, k - 1);
      CallCodeOk(p[k - 1], Defined(p, k - 1), nsys);
    }
  }

  // ----- the number of variables -----

  lemma {:induction false} CopyoutsBump(vs: seq<Visit>, from: nat, n: nat, base: nat)
    requires from <= n <= |vs| && from == |UsedIds(vs, from)| && base + |UsedIds(vs, n)| < TWO64
    ensures base + from < TWO64
    ensures BumpAll(base + from, PlainCopyouts(vs, from, n, base)) == base + |UsedIds(vs, n)|
    decreases n
  {
    hide Bump, BumpAll, UsedIds, PlainCopyouts;
    UsedPrefix(vs, from, n);
    PlainNext(vs, from, n, base);
    if n > from {
      UsedPrefix(vs, n - 1, n);
      CopyoutsBump(vs, from, n - 1, base);
      if Used(vs[n - 1]) {
        var at := base + |UsedIds(vs, n - 1)|;
        var o := Copyout(at, AddrOr0(vs[n - 1]), vs[n - 1].arg.size);
        BumpSnoc(base + from, PlainCopyouts(vs, from, n - 1, base), o);
        BumpNext(at, at);
      }
    } else {
      BumpNone(base + from);
    }
  }

  lemma PlainNext(vs: seq<Visit>, from: nat, n: nat, base: nat)
    requires from <= n <= |vs|
    ensures n == from ==> PlainCopyouts(vs, from, n, base) == []
    ensures n > from && Used(vs[n - 1]) ==>
      && |UsedIds(vs, n)| == |UsedIds(vs, n - 1)| + 1
      && PlainCopyouts(vs, from, n, base) == PlainCopyouts(vs, from, n - 1, base) +
           [Copyout((base + |UsedIds(vs, n - 1)|) % TWO64, AddrOr0(vs[n - 1]), vs[n - 1].arg.size)]
    ensures n > from && !Used(vs[n - 1]) ==>
      UsedIds(vs, n) == UsedIds(vs, n - 1) && PlainCopyouts(vs, from, n, base) == PlainCopyouts(vs, from, n - 1, base)
  {
  }

  lemma BumpSnoc(n: U64, outs: seq<Copyout>, o: Copyout)
    ensures BumpAll(n, outs + [o]) == Bump(BumpAll(n, outs), o.index)
  {
    hide Bump;
    assert (outs + [o])[..|outs|] == outs;
  }

  lemma BumpNone(n: U64)
    ensures BumpAll(n, []) == n
  {
  }

  lemma BumpNext(n: U64, index: U64)
    requires n + 1 < TWO64 && index == n
    ensures Bump(n, index) == n + 1
  {
  }

  lemma {:induction false} CallBumps(c: Call, defs: seq<nat>)
    requires TopsOk(c.args) && |defs + CallIds(c)| < NO_COPYOUT
    ensures CallVars(|defs|, PlainCall(c, defs, |defs|)) == |defs + CallIds(c)|
  {
    hide PlainCopyouts, BumpAll, ResolveAll, PlainCopyins, UsedIds;
    var vs := CallVisits(c);
    var from := if RetUsed(c) then 1 else 0;
    FirstIds(c);
    UsedPrefix(vs, from, |vs|);
    CopyoutsBump(vs, from, |vs|, |defs|);
  }

  lemma FirstIds(c: Call)
    ensures RetUsed(c) ==> |CallVisits(c)| >= 1 && |UsedIds(CallVisits(c), 1)| == 1
    ensures |UsedIds(CallVisits(c), 0)| == 0
  {
    if RetUsed(c) { FirstUsed(CallVisits(c)); }
  }

  /** The decoder's state behind the first k calls. */
  lemma {:induction false} StateAt(p: seq<Call>, nsys: nat, k: nat)
    requires Valid(p, nsys) && k <= |p| && |Defined(p, |p|)| < NO_COPYOUT
    ensures CallsOk(p) && |Defined(p, k)| < NO_COPYOUT
    ensures Commit(ApplyAll(CodeAt(p, k), START)) ==
      DecState(EMPTY, WrittenCalls(p, k), NoteRefs([], WrittenArgs(p, k)), |Defined(p, k)|)
    decreases k
  {
    hide EncCall, PlainCall, Flatten, CtxAt, CallIds, ArgsOf, CallVars, Apply, NoteRef, Valid, TopsOk, CallOk;
    ValidCallsOk(p, nsys);
    DefinedPrefix(p, k, |p|);
    if k > 0 {
      var c, defs := p[k - 1], Defined(p, k - 1);
      StateAt(p, nsys, k - 1);
      ProgramNumbers(p, nsys, k - 1);
      PropsFit(p, nsys, k - 1);
      StateStep(CodeAt(p, k - 1), Written(p, k - 1), WrittenArgs(p, k - 1));
      CallBumps(c, defs);
    }
  }

  lemma PropsFit(p: seq<Call>, nsys: nat, k: nat)
    requires Valid(p, nsys) && k < |p| && CallsOk(p)
    ensures var e := Written(p, k); e.meta.Some? && IntFits(e.props.failNth) && IntFits(e.props.rerun)
  {
    assert CallOk(p[k], Defined(p, k), nsys);
  }

  lemma {:induction false} StateStep(code: seq<Instr>, e: ExecCall, args: seq<ExecArg>)
    requires e.meta.Some? && IntFits(e.props.failNth) && IntFits(e.props.rerun)
    requires var d := Commit(ApplyAll(code, START)); d.call == EMPTY && d.vars == NoteRefs([], args)
    ensures var d := Commit(ApplyAll(code, START));
      Commit(ApplyAll(code + Flatten(e), START)) ==
      DecState(EMPTY, d.calls + [e], NoteRefs([], args + ArgsOf(e)), CallVars(d.numVars, e))
  {
    hide Flatten, ArgsOf, CallVars, NoteRefs, ApplyAll;
    ApplyAllConcat(code, Flatten(e), START);
    CommitsFirst(e, ApplyAll(code, START));
    CallApplied(e, Commit(ApplyAll(code, START)));
    NoteRefsConcat([], args, ArgsOf(e));
  }

  // ----- the variables -----

  lemma {:induction false} NoteBound(args: seq<ExecArg>, n: nat)
    requires forall j :: 0 <= j < |args| && args[j].EResult? ==> args[j].index < n
    ensures |NoteRefs([], args)| <= n
    decreases |args|
  {
    if args != [] { NoteBound(args[..|args| - 1], n); }
  }

  lemma {:induction false} NoteReach(args: seq<ExecArg>, j: nat)
    requires j < |args| && args[j].EResult?
    ensures args[j].index < |NoteRefs([], args)|
    decreases |args|
  {
    if j < |args| - 1 { NoteReach(args[..|args| - 1], j); }
  }

  /** A variable starts as the default of the last reference to it. */
  lemma {:induction false} LastDefault(args: seq<ExecArg>, j: nat)
    requires j < |args| && args[j].EResult?
    requires forall m :: j < m < |args| && args[m].EResult? ==> args[m].index != args[j].index
    ensures args[j].index < |NoteRefs([], args)| && NoteRefs([], args)[args[j].index] == args[j].deflt
    decreases |args|
  {
    NoteReach(args, j);
    if j < |args| - 1 {
      NoteReach(args[..|args| - 1], j);
      LastDefault(args[..|args| - 1], j);
    }
  }

  /** The index of a written reference: the place among the results of earlier calls, or 0. */
  lemma {:induction false} ResolvedIndex(a: Arg, vs: seq<Visit>, n: nat, defs: seq<nat>)
    requires !Leaf(a).GroupArg? && n <= |vs| && RefOk(a, vs, n, defs) && |defs| < TWO64
    ensures var e := Resolve(a, defs);
      && (e.EResult? <==> RefOf(a).Some?)
      && (e.EResult? ==> e.index == PlaceOf(defs, RefOf(a).value) < |defs| + |UsedIds(vs, |vs|)|)
  {
    hide UsedIds, PosOf;
    if RefOf(a).Some? && RefOf(a).value !in defs {
      var j :| 0 <= j < n && Used(vs[j]) && vs[j].addr.Some? && vs[j].arg.id == RefOf(a).value;
      UsedPrefix(vs, j, |vs|);
    }
  }

  ghost predicate RefsBelow(args: seq<ExecArg>,
                            n: nat) { forall j :: 0 <= j < |args| && args[j].EResult? ==> args[j].index < n }

  lemma {:induction false} CopyinRefs(vs: seq<Visit>, n: nat, defs: seq<nat>)
    requires n <= |vs| && VisitsOk(vs, defs) && |defs| < TWO64
    ensures RefsBelow(CopyinArgs(PlainCopyins(vs, n, defs)), |defs| + |UsedIds(vs, |vs|)|)
    decreases n
  {
    hide PosOf, RefOf, EncWith, UsedIds, RefOk;
    if n > 0 {
      CopyinRefs(vs, n - 1, defs);
      assert VisitOk(vs, n - 1, defs);
      if Copied(vs[n - 1]) {
        ResolvedIndex(vs[n - 1].arg, vs, n, defs);
        var s := PlainCopyins(vs, n, defs);
        assert s[..|s| - 1] == PlainCopyins(vs, n - 1, defs);
      }
    }
  }

  lemma {:induction false} CallRefs(c: Call, defs: seq<nat>, nsys: nat)
    requires CallOk(c, defs, nsys) && |defs| < TWO64
    ensures RefsBelow(ArgsOf(PlainCall(c, defs, |defs|)), |defs + CallIds(c)|)
  {
    hide PosOf, RefOf, EncWith, PlainCopyins, PlainCopyouts, Resolve, CallVisits, InstrOk, UsedIds, RefOk;
    var e := PlainCall(c, defs, |defs|);
    var vs := CallVisits(c);
    CopyinRefs(vs, |vs|, defs);
    var s := PlainCopyins(vs, |vs|, defs);
    forall j | 0 <= j < |ArgsOf(e)| ensures ArgsOf(e)[j].EResult? ==> ArgsOf(e)[j].index < |defs + CallIds(c)| {
      if j < |s| {
        assert ArgsOf(e)[j] == CopyinArgs(s)[j];
      } else if j < |s| + |c.csums| {
        assert CsumOk(c.csums[j - |s|]);
      } else {
        ResolvedIndex(c.args[j - |s| - |c.csums|], vs, |vs|, defs);
      }
    }
  }

  lemma {:induction false} WrittenRefs(p: seq<Call>, nsys: nat, k: nat)
    requires Valid(p, nsys) && CallsOk(p) && k <= |p| && |Defined(p, |p|)| < TWO64
    ensures RefsBelow(WrittenArgs(p, k), |Defined(p, k)|)
    decreases k
  {
    hide PlainCall, ArgsOf, CallIds, Valid, CallOk, TopsOk;
    if k > 0 {
      WrittenRefs(p, nsys, k - 1);
      DefinedPrefix(p, k - 1, |p|);
      DefinedPrefix(p, k - 1, k);
      ValidCall(p, nsys, k - 1);
      CallRefs(p[k - 1], Defined(p, k - 1), nsys);
    }
  }

  lemma {:induction false} CopyinHas(vs: seq<Visit>, n: nat, defs: seq<nat>, j: nat)
    requires j < n <= |vs| && Copied(vs[j])
    ensures Resolve(vs[j].arg, defs) in CopyinArgs(PlainCopyins(vs, n, defs))
    decreases n
  {
    hide PosOf, RefOf, EncWith, PlaceOf;
    var s := PlainCopyins(vs, n, defs);
    if j == n - 1 {
      assert s[|s| - 1].arg == Resolve(vs[j].arg, defs);
      assert CopyinArgs(s)[|s| - 1] == s[|s| - 1].arg;
    } else {
      CopyinHas(vs, n - 1, defs, j);
      var t := PlainCopyins(vs, n - 1, defs);
      var i :| 0 <= i < |t| && CopyinArgs(t)[i] == Resolve(vs[j].arg, defs);
      assert s[i] == t[i] && CopyinArgs(s)[i] == s[i].arg;
    }
  }

  lemma {:induction false} EncodedHas(c: Call, defs: seq<nat>, a: Arg)
    requires TopsOk(c.args) && Encoded(c, a)
    ensures !Leaf(a).GroupArg? && Resolve(a, defs) in ArgsOf(PlainCall(c, defs, |defs|))
  {
    hide PosOf, RefOf, EncWith, PlainCopyouts, PlainCopyins, Resolve, CallVisits;
    var vs := CallVisits(c);
    var e := PlainCall(c, defs, |defs|);
    var s := PlainCopyins(vs, |vs|, defs);
    if i :| 0 <= i < |c.args| && c.args[i] == a {
      assert e.args[i] == Resolve(a, defs);
    } else {
      var v :| v in vs && Copied(v) && v.arg == a;
      var j :| 0 <= j < |vs| && vs[j] == v;
      CopyinHas(vs, |vs|, defs, j);
      var i :| 0 <= i < |s| && CopyinArgs(s)[i] == Resolve(a, defs);
      assert CopyinArgs(e.copyin)[i] == e.copyin[i].arg == s[i].arg;
    }
  }

  lemma {:induction false} WrittenArgsHave(p: seq<Call>, k: nat, m: nat, x: ExecArg)
    requires CallsOk(p) && k < m <= |p| && x in ArgsOf(Written(p, k))
    ensures x in WrittenArgs(p, m)
    decreases m
  {
    hide Written, ArgsOf, TopsOk;
    var last := ArgsOf(Written(p, m - 1));
    if k < m - 1 { WrittenArgsHave(p, k, m - 1, x); }
    assert x in WrittenArgs(p, m - 1) || x in last;
    assert WrittenArgs(p, m) == WrittenArgs(p, m - 1) + last;
  }

  lemma RefEncoded(a: Arg, ids: seq<nat>)
    requires !Leaf(a).GroupArg? && RefOf(a).Some? && |ids| < TWO64
    ensures Resolve(a, ids).EResult? && Resolve(a, ids).index == PlaceOf(ids, RefOf(a).value)
  {
    hide PosOf;
  }

  // ----- every encoded reference is known -----

  lemma {:induction false} EncodedRefOk(c: Call, defs: seq<nat>, nsys: nat, a: Arg)
    requires CallOk(c, defs, nsys) && Encoded(c, a)
    ensures RefOk(a, CallVisits(c), |CallVisits(c)|, defs) && !Leaf(a).GroupArg?
  {
    hide RefOf, CallVisits, InstrOk, ArgOk;
    var vs := CallVisits(c);
    if i :| 0 <= i < |c.args| && c.args[i] == a {
      assert TopOk(a);
    } else {
      var v :| v in vs && Copied(v) && v.arg == a;
      var j :| 0 <= j < |vs| && vs[j] == v;
      assert VisitOk(vs, j, defs);
    }
  }

  /** The producer of an encoded reference is a result of the same or an earlier call. */
  lemma {:induction false} RefKnown(p: seq<Call>, nsys: nat, k: nat, a: Arg)
    requires Valid(p, nsys) && k < |p| && Encoded(p[k], a) && RefOf(a).Some?
    ensures RefOf(a).value in Defined(p, k + 1) && RefOf(a).value in Defined(p, |p|) && !Leaf(a).GroupArg?
    ensures Defined(p, k) <= Defined(p, |p|) && NoDup(Defined(p, |p|))
  {
    hide RefOf, Valid, CallOk, Encoded, NoDup, CallIds;
    ValidCall(p, nsys, k);
    ValidNoDup(p, nsys);
    RefInCall(p[k], Defined(p, k), nsys, a);
    DefinedPrefix(p, k, |p|);
    DefinedPrefix(p, k + 1, |p|);
    InPrefix(Defined(p, k + 1), Defined(p, |p|), RefOf(a).value);
  }

  lemma {:induction false} RefInCall(c: Call, defs: seq<nat>, nsys: nat, a: Arg)
    requires CallOk(c, defs, nsys) && Encoded(c, a) && RefOf(a).Some?
    ensures RefOf(a).value in defs + CallIds(c) && !Leaf(a).GroupArg?
  {
    hide UsedIds, RefOf, CallVisits, CallOk, Encoded, Leaf;
    var vs, id := CallVisits(c), RefOf(a).value;
    EncodedRefOk(c, defs, nsys, a);
    if id !in defs {
      var j :| 0 <= j < |vs| && Used(vs[j]) && vs[j].addr.Some? && vs[j].arg.id == id;
      UsedPrefix(vs, j, |vs|);
    }
  }

  lemma InPrefix(ids: seq<nat>, more: seq<nat>, id: nat)
    requires ids <= more && id in ids
    ensures id in more
  {
    var i :| 0 <= i < |ids| && ids[i] == id;
    assert more[i] == id;
  }

  /** A written reference carries the place of its producer among all results of the program if and
      only if that is in an earlier call, or is the very first result. */
  lemma {:induction false} RefPlaceIff(p: seq<Call>, nsys: nat, k: nat, a: Arg)
    requires Valid(p, nsys) && k < |p| && Encoded(p[k], a) && RefOf(a).Some? && |Defined(p, |p|)| < TWO64
    ensures CallsOk(p) && !Leaf(a).GroupArg? && RefOf(a).value in Defined(p, k + 1)
    ensures var e, id, all := Resolve(a, Defined(p, k)), RefOf(a).value, Defined(p, |p|);
      && e.EResult? && e in ArgsOf(Written(p, k))
      && (e.index == PosOf(all, id) <==> id in Defined(p, k) || PosOf(all, id) == 0)
  {
    hide PosOf, PlaceOf, PlainCall, Valid, Encoded, Leaf, ArgsOf, NoDup, Resolve, RefOf, Defined, TopsOk;
    ValidCallsOk(p, nsys);
    RefKnown(p, nsys, k, a);
    RefEncoded(a, Defined(p, k));
    EncodedHas(p[k], Defined(p, k), a);
    PlaceIff(Defined(p, k), Defined(p, |p|), RefOf(a).value);
  }

  // ----- the number of variables the decoder finds -----

  /** Some encoded reference carries index m. */
  ghost predicate IndexWritten(p: seq<Call>, m: nat) {
    exists k, a :: 0 <= k < |p| && Encoded(p[k], a) && RefOf(a).Some? && PlaceOf(Defined(p, k), RefOf(a).value) == m
  }

  /** There is no result, or some encoded reference carries the place of the last one. */
  ghost predicate LastWritten(p: seq<Call>) {
    var ids := Defined(p, |p|);
    ids == [] || IndexWritten(p, |ids| - 1)
  }

  /** Call k refers to the last result, which is in an earlier call or the only result. */
  ghost predicate RefersToLast(p: seq<Call>, k: nat, a: Arg)
    requires k < |p|
  {
    var ids := Defined(p, |p|);
    ids != [] && RefOf(a) == Some(ids[|ids| - 1]) && (ids[|ids| - 1] in Defined(p, k) || |ids| == 1)
  }

  ghost predicate LastReferenced(p: seq<Call>) {
    Defined(p, |p|) == [] || exists k, a :: 0 <= k < |p| && Encoded(p[k], a) && RefersToLast(p, k, a)
  }

  lemma {:induction false} LastPlace(defs: seq<nat>, ids: seq<nat>, id: nat)
    requires defs <= ids && NoDup(ids) && id in ids
    ensures PlaceOf(defs, id) == |ids| - 1 <==> id == ids[|ids| - 1] && (id in defs || |ids| == 1)
  {
    hide PosOf;
    var m := |ids| - 1;
    if id in defs {
      assert defs[PosOf(defs, id)] == id;
      PosUnique(ids, PosOf(defs, id));
      PosUnique(ids, m);
    }
  }

  lemma {:induction false} LastWrittenIff(p: seq<Call>, nsys: nat)
    requires Valid(p, nsys)
    ensures LastWritten(p) <==> LastReferenced(p)
  {
    hide Valid, Encoded, RefOf, Defined, PlaceOf, NoDup;
    forall k, a | 0 <= k < |p| && Encoded(p[k], a) && RefOf(a).Some?
      ensures PlaceOf(Defined(p, k), RefOf(a).value) == |Defined(p, |p|)| - 1 <==> RefersToLast(p, k, a)
    {
      RefKnown(p, nsys, k, a);
      LastPlace(Defined(p, k), Defined(p, |p|), RefOf(a).value);
    }
  }

  /** If it is written, the variables reach exactly as far as the results. */
  lemma {:induction false} VarsMatch(p: seq<Call>, nsys: nat)
    requires Valid(p, nsys) && CallsOk(p) && |Defined(p, |p|)| < TWO64 && LastWritten(p)
    ensures |NoteRefs([], WrittenArgs(p, |p|))| == |Defined(p, |p|)|
  {
    hide NoteRefs, PosOf, PlaceOf, PlainCall, Encoded, CallOk, ArgsOf, Leaf, Valid, TopsOk, Resolve, RefOf, CallIds;
    var ids, args := Defined(p, |p|), WrittenArgs(p, |p|);
    WrittenRefs(p, nsys, |p|);
    NoteBound(args, |ids|);
    if ids != [] {
      var k, a :| 0 <= k < |p| && Encoded(p[k], a) && RefOf(a).Some? &&
        PlaceOf(Defined(p, k), RefOf(a).value) == |ids| - 1;
      EncodedHas(p[k], Defined(p, k), a);
      DefinedPrefix(p, k, |p|);
      RefEncoded(a, Defined(p, k));
      var e := Resolve(a, Defined(p, k));
      WrittenArgsHave(p, k, |p|, e);
      var j :| 0 <= j < |args| && args[j] == e;
      NoteReach(args, j);
    }
  }

  ghost predicate RefsAvoid(args: seq<ExecArg>,
                            m: nat) { forall j :: 0 <= j < |args| && args[j].EResult? ==> args[j].index != m }

  /** A reference does not carry index m. */
  ghost predicate Elsewhere(a: Arg, defs: seq<nat>, m: nat) { RefOf(a).Some? ==> PlaceOf(defs, RefOf(a).value) != m }

  lemma {:induction false} CopyinAvoids(vs: seq<Visit>, n: nat, defs: seq<nat>, m: nat)
    requires n <= |vs| && VisitsOk(vs, defs) && |defs| < TWO64
    requires forall j :: 0 <= j < |vs| && Copied(vs[j]) ==> Elsewhere(vs[j].arg, defs, m)
    ensures RefsAvoid(CopyinArgs(PlainCopyins(vs, n, defs)), m)
    decreases n
  {
    hide PosOf, RefOf, EncWith, PlaceOf, RefOk;
    if n > 0 {
      CopyinAvoids(vs, n - 1, defs, m);
      assert VisitOk(vs, n - 1, defs);
      if Copied(vs[n - 1]) {
        ResolvedIndex(vs[n - 1].arg, vs, n, defs);
        var s := PlainCopyins(vs, n, defs);
        assert s[..|s| - 1] == PlainCopyins(vs, n - 1, defs);
      }
    }
  }

  lemma {:induction false} CallAvoids(c: Call, defs: seq<nat>, nsys: nat, m: nat)
    requires CallOk(c, defs, nsys) && |defs| < TWO64 && forall a :: Encoded(c, a) ==> Elsewhere(a, defs, m)
    ensures RefsAvoid(ArgsOf(PlainCall(c, defs, |defs|)), m)
  {
    hide PosOf, RefOf, EncWith, PlainCopyins, PlainCopyouts, Resolve, CallVisits, InstrOk, Elsewhere, RefOk;
    var e := PlainCall(c, defs, |defs|);
    var vs := CallVisits(c);
    forall j | 0 <= j < |vs| && Copied(vs[j]) ensures Elsewhere(vs[j].arg, defs, m) { assert Encoded(c, vs[j].arg); }
    CopyinAvoids(vs, |vs|, defs, m);
    var s := PlainCopyins(vs, |vs|, defs);
    forall j | 0 <= j < |ArgsOf(e)| ensures ArgsOf(e)[j].EResult? ==> ArgsOf(e)[j].index != m {
      if j < |s| {
        assert ArgsOf(e)[j] == CopyinArgs(s)[j];
      } else if j < |s| + |c.csums| {
        assert CsumOk(c.csums[j - |s|]);
      } else {
        TopAvoids(c, defs, j - |s| - |c.csums|, m);
      }
    }
  }

  lemma {:induction false} TopAvoids(c: Call, defs: seq<nat>, i: nat, m: nat)
    requires i < |c.args| && TopOk(c.args[i]) && RefOk(c.args[i], CallVisits(c), |CallVisits(c)|, defs)
    requires |defs| < TWO64 && forall a :: Encoded(c, a) ==> Elsewhere(a, defs, m)
    ensures Resolve(c.args[i], defs).EResult? ==> Resolve(c.args[i], defs).index != m
  {
    hide PosOf, PlaceOf, RefOf, EncWith, CallVisits, RefOk;
    assert Encoded(c, c.args[i]);
    ResolvedIndex(c.args[i], CallVisits(c), |CallVisits(c)|, defs);
  }

  lemma {:induction false} WrittenAvoids(p: seq<Call>, nsys: nat, k: nat, m: nat)
    requires Valid(p, nsys) && CallsOk(p) && k <= |p| && |Defined(p, |p|)| < TWO64 && !IndexWritten(p, m)
    ensures RefsAvoid(WrittenArgs(p, k), m)
    decreases k
  {
    hide PlainCall, ArgsOf, CallIds, Valid, CallOk, TopsOk, Encoded, RefOf, PosOf, PlaceOf;
    if k > 0 {
      WrittenAvoids(p, nsys, k - 1, m);
      var c, defs := p[k - 1], Defined(p, k - 1);
      DefinedPrefix(p, k - 1, |p|);
      ValidCall(p, nsys, k - 1);
      forall a | Encoded(c, a) ensures Elsewhere(a, defs, m) { assert Encoded(p[k - 1], a); }
      CallAvoids(c, defs, nsys, m);
    }
  }

  /** If it is not, they do not. */
  lemma {:induction false} VarsMissing(p: seq<Call>, nsys: nat)
    requires Valid(p, nsys) && CallsOk(p) && |Defined(p, |p|)| < TWO64 && !LastWritten(p)
    ensures |NoteRefs([], WrittenArgs(p, |p|))| < |Defined(p, |p|)|
  {
    hide NoteRefs, PlainCall, CallOk, ArgsOf, Valid, WrittenArgs, IndexWritten;
    var n, args := |Defined(p, |p|)|, WrittenArgs(p, |p|);
    WrittenRefs(p, nsys, |p|);
    WrittenAvoids(p, nsys, |p|, n - 1);
    NoteBound(args, n - 1);
  }

  // ----- when what is written is what is meant -----

  /** Every encoded reference is to a result of an earlier call, or to the very first result. */
  ghost predicate InPlace(p: seq<Call>) { forall k, a :: 0 <= k < |p| && Encoded(p[k], a) ==> RefInPlace(p, k, a) }

  ghost predicate RefInPlace(p: seq<Call>, k: nat, a: Arg)
    requires k < |p|
  {
    RefOf(a).Some? ==> RefOf(a).value in Defined(p, k) || PosOf(Defined(p, |p|), RefOf(a).value) == 0
  }

  /** A reference has the same place among both. */
  ghost predicate Agrees(a: Arg, defs: seq<nat>, all: seq<nat>) {
    RefOf(a).Some? ==> PlaceOf(defs, RefOf(a).value) == PlaceOf(all, RefOf(a).value)
  }

  lemma {:induction false} AgreesIff(a: Arg, defs: seq<nat>, all: seq<nat>)
    requires !Leaf(a).GroupArg? && defs <= all && |all| < TWO64
    ensures Agrees(a, defs, all) <==> Resolve(a, defs) == Resolve(a, all)
  {
    hide PosOf;
  }

  lemma {:induction false} CopyinsAgreeIff(vs: seq<Visit>, n: nat, defs: seq<nat>, all: seq<nat>)
    requires n <= |vs| && defs <= all && |all| < TWO64
    ensures |PlainCopyins(vs, n, defs)| == |PlainCopyins(vs, n, all)|
    ensures PlainCopyins(vs, n, defs) == PlainCopyins(vs, n, all) <==>
      forall j :: 0 <= j < n && Copied(vs[j]) ==> Agrees(vs[j].arg, defs, all)
    decreases n
  {
    hide Resolve, Agrees, Copied;
    if n > 0 {
      CopyinsAgreeIff(vs, n - 1, defs, all);
      if Copied(vs[n - 1]) {
        assert !Leaf(vs[n - 1].arg).GroupArg? by { CopiedLeaf(vs[n - 1]); }
        AgreesIff(vs[n - 1].arg, defs, all);
        SnocsEqual(PlainCopyins(vs, n - 1, defs), PlainCopyins(vs, n - 1, all), vs[n - 1], defs, all);
      } else {
        assert PlainCopyins(vs, n, defs) == PlainCopyins(vs, n - 1, defs);
        assert PlainCopyins(vs, n, all) == PlainCopyins(vs, n - 1, all);
      }
    }
  }

  lemma CopiedLeaf(v: Visit)
    requires Copied(v)
    ensures v.addr.Some? && Leaf(v.arg) == v.arg && !v.arg.GroupArg?
  {
  }

  lemma SnocsEqual(s: seq<Copyin>, t: seq<Copyin>, v: Visit, defs: seq<nat>, all: seq<nat>)
    requires |s| == |t| && Copied(v)
    ensures var e, f := Resolve(v.arg, defs), Resolve(v.arg, all);
      s + [Copyin(v.addr.value, e)] == t + [Copyin(v.addr.value, f)] <==> s == t && e == f
  {
    hide Resolve;
    var e, f := Resolve(v.arg, defs), Resolve(v.arg, all);
    var s1, t1 := s + [Copyin(v.addr.value, e)], t + [Copyin(v.addr.value, f)];
    if s1 == t1 {
      assert s1[|s|] == t1[|s|] && s == s1[..|s|] && t == t1[..|s|];
    }
  }

  lemma {:induction false} CallAgreesIff(c: Call, defs: seq<nat>, all: seq<nat>, base: nat)
    requires TopsOk(c.args) && defs <= all && |all| < TWO64
    ensures PlainCall(c, defs, base) == PlainCall(c, all, base) <==> forall a :: Encoded(c, a) ==> Agrees(a, defs, all)
  {
    hide Resolve, Agrees, Copied, PlainCopyins, PlainCopyouts, CallVisits;
    var vs := CallVisits(c);
    var s, t := PlainCopyins(vs, |vs|, defs), PlainCopyins(vs, |vs|, all);
    CopyinsAgreeIff(vs, |vs|, defs, all);
    assert s + c.csums == t + c.csums <==> s == t by {
      if s + c.csums == t + c.csums { assert s == (s + c.csums)[..|s|] && t == (t + c.csums)[..|s|]; }
    }
    forall i | 0 <= i < |c.args|
      ensures ResolveAll(c.args, defs)[i] == ResolveAll(c.args, all)[i] <==> Agrees(c.args[i], defs, all)
    {
      assert TopOk(c.args[i]);
      AgreesIff(c.args[i], defs, all);
    }
    forall i | 0 <= i < |c.args| ensures Encoded(c, c.args[i]) {}
    forall j | 0 <= j < |vs| && Copied(vs[j]) ensures Encoded(c, vs[j].arg) {}
  }

  lemma {:induction false} CallAt(p: seq<Call>, m: nat, k: nat)
    requires CallsOk(p) && k < m <= |p|
    ensures WrittenCalls(p, m)[k] == Written(p, k) && PlainCalls(p, m)[k] == Meant(p, k)
    decreases m
  {
    hide Written, Meant, TopsOk;
    if k < m - 1 { CallAt(p, m - 1, k); }
  }

  lemma {:induction false} SameCallsIff(p: seq<Call>)
    requires CallsOk(p)
    ensures WrittenCalls(p, |p|) == PlainCalls(p, |p|) <==> forall k :: 0 <= k < |p| ==> Written(p, k) == Meant(p, k)
  {
    hide Written, Meant, TopsOk, WrittenCalls, PlainCalls;
    forall k | 0 <= k < |p| ensures WrittenCalls(p, |p|)[k] == Written(p, k) && PlainCalls(p, |p|)[k] == Meant(p, k) {
      CallAt(p, |p|, k);
    }
  }

  /** What is written is what is meant if and only if every encoded reference is to an earlier call or
      to the very first result. */
  lemma {:induction false} WrittenIsMeantIff(p: seq<Call>, nsys: nat)
    requires Valid(p, nsys) && |Defined(p, |p|)| < TWO64
    ensures CallsOk(p) && (WrittenCalls(p, |p|) == PlainCalls(p, |p|) <==> InPlace(p))
  {
    hide Valid, PlainCall, Encoded, Agrees, RefInPlace, Defined, TopsOk, WrittenCalls, PlainCalls;
    ValidCallsOk(p, nsys);
    SameCallsIff(p);
    forall k | 0 <= k < |p|
      ensures Written(p, k) == Meant(p, k) <==> forall a :: Encoded(p[k], a) ==> RefInPlace(p, k, a)
    {
      DefinedPrefix(p, k, |p|);
      CallAgreesIff(p[k], Defined(p, k), Defined(p, |p|), |Defined(p, k)|);
      forall a | Encoded(p[k], a) ensures Agrees(a, Defined(p, k), Defined(p, |p|)) <==> RefInPlace(p, k, a) {
        PlaceAgrees(p, nsys, k, a);
      }
    }
  }

  lemma {:induction false} PlaceAgrees(p: seq<Call>, nsys: nat, k: nat, a: Arg)
    requires Valid(p, nsys) && k < |p| && Encoded(p[k], a)
    ensures Agrees(a, Defined(p, k), Defined(p, |p|)) <==> RefInPlace(p, k, a)
  {
    hide Valid, Encoded, RefOf, Defined, PosOf, NoDup;
    if RefOf(a).Some? {
      RefKnown(p, nsys, k, a);
      PlaceIff(Defined(p, k), Defined(p, |p|), RefOf(a).value);
    }
  }

  // ----- the round trip -----

  /** Decoding what was encoded gives the calls as they were written, and succeeds exactly when some
      reference carries the place of the last result. They are the calls as they were meant if and
      only if every encoded reference is to an earlier call or to the very first result. */
  lemma {:induction false} RoundTrip(p: seq<Call>, nsys: nat)
    requires Valid(p, nsys) && |Defined(p, |p|)| <= MAX_COMMANDS
    ensures CallsOk(p) && InstrsOk(CodeAt(p, |p|), nsys)
    ensures DeserializeExec(ProgBytes(p, nsys), nsys) ==
      if LastWritten(p) then Ok(WrittenCalls(p, |p|), NoteRefs([], WrittenArgs(p, |p|))) else Err
    ensures LastWritten(p) ==> |NoteRefs([], WrittenArgs(p, |p|))| == |Defined(p, |p|)|
    ensures WrittenCalls(p, |p|) == PlainCalls(p, |p|) <==> InPlace(p)
  {
    hide InstrBytes, InstrsBytes, ParseInstr, ApplyAll, NoteRefs, InstrsOk, CodeAt, WrittenCalls, PlainCalls;
    hide WrittenArgs, Valid, Defined;
    hide LastWritten, InPlace;
    CodeOk(p, nsys, |p|);
    var code := CodeAt(p, |p|);
    var data := ProgBytes(p, nsys);
    AtSplit(data, 0, InstrsBytes(code, nsys), InstrBytes(IEof, nsys)) by { assert data[0..|data|] == data; }
    DecodeRun(data, 0, code, nsys, START);
    InstrBack(data, |InstrsBytes(code, nsys)|, IEof, nsys);
    StateAt(p, nsys, |p|);
    if LastWritten(p) { VarsMatch(p, nsys); } else { VarsMissing(p, nsys); }
    WrittenIsMeantIff(p, nsys);
  }

  // ----- definitions are unique -----

  /** The indices a call defines, in the order of its instructions. */
  function DefsOf(e: ExecCall): seq<nat> {
    (if e.index != NO_COPYOUT then [e.index] else []) +
    seq(|e.copyout|, i requires 0 <= i < |e.copyout| => e.copyout[i].index)
  }

  /** Visit j is of a used result: a copyout other than of the return value, at its address. */
  lemma {:induction false} CopyoutOf(vs: seq<Visit>, from: nat, n: nat, base: nat, j: nat)
    requires from <= j < n <= |vs| && from == |UsedIds(vs, from)| && Used(vs[j]) && base + |UsedIds(vs, n)| < TWO64
    ensures |UsedIds(vs, j)| >= from && base + |UsedIds(vs, j)| < TWO64
    ensures |UsedIds(vs, j)| - from < |PlainCopyouts(vs, from, n, base)|
    ensures PlainCopyouts(vs, from, n, base)[|UsedIds(vs, j)| - from] ==
      Copyout(base + |UsedIds(vs, j)|, AddrOr0(vs[j]), vs[j].arg.size)
    ensures |PlainCopyouts(vs, from, n, base)| == |UsedIds(vs, n)| - from
    decreases n
  {
    UsedPrefix(vs, j, n);
    CopyoutCounts(vs, from, n, base);
    CopyoutCounts(vs, from, n - 1, base);
    UsedPrefix(vs, from, j);
    if j < n - 1 {
      UsedPrefix(vs, n - 1, n);
      CopyoutOf(vs, from, n - 1, base, j);
    }
  }

  lemma {:induction false} CopyoutCounts(vs: seq<Visit>, from: nat, n: nat, base: nat)
    requires from <= n <= |vs| && from == |UsedIds(vs, from)|
    ensures |PlainCopyouts(vs, from, n, base)| == |UsedIds(vs, n)| - from
    decreases n
  {
    if n > from { CopyoutCounts(vs, from, n - 1, base); }
  }

  /** Call after call the definitions count up, so every index is defined once in a program. */
  lemma {:induction false} DefsCount(c: Call, defs: seq<nat>)
    requires TopsOk(c.args) && |defs + CallIds(c)| < NO_COPYOUT
    ensures DefsOf(PlainCall(c, defs, |defs|)) == seq(|CallIds(c)|, i => |defs| + i)
  {
    hide PlainCopyouts, PlainCopyins, ResolveAll, UsedIds, CallVisits;
    var vs := CallVisits(c);
    var from := if RetUsed(c) then 1 else 0;
    FirstIds(c);
    UsedPrefix(vs, from, |vs|);
    CopyoutCounts(vs, from, |vs|, |defs|);
    var e := PlainCall(c, defs, |defs|);
    forall i | 0 <= i < |e.copyout| ensures e.copyout[i].index == |defs| + from + i {
      CopyoutIndex(vs, from, |vs|, |defs|, i);
    }
  }

  lemma {:induction false} CopyoutIndex(vs: seq<Visit>, from: nat, n: nat, base: nat, i: nat)
    requires from <= n <= |vs| && from == |UsedIds(vs, from)| && base + |UsedIds(vs, n)| < TWO64
    requires i < |PlainCopyouts(vs, from, n, base)|
    ensures PlainCopyouts(vs, from, n, base)[i].index == base + from + i
    decreases n
  {
    if n > from {
      CopyoutCounts(vs, from, n - 1, base);
      if i < |PlainCopyouts(vs, from, n - 1, base)| { CopyoutIndex(vs, from, n - 1, base, i); }
    }
  }
}
