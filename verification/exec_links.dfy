/** Sound programs can be encoded: what the encoder demands of references follows from the links. */
module ExecLinks {
  import opened Common
  import L = Links
  import P = Progs
  import opened ExecFormat
  import opened ExecProg
  import opened ExecValid

  type Ids = map<L.ResultArg, nat>

  ghost predicate Injective(ids: Ids) { forall a, b :: a in ids && b in ids && ids[a] == ids[b] ==> a == b }

  /** The visits of result arguments among the first n. */
  function Results(vs: seq<Visit>, n: nat): (rs: seq<Visit>)
    requires n <= |vs|
    ensures forall i :: 0 <= i < |rs| ==> rs[i].arg.ResultArg?
    decreases n
  {
    if n == 0 then [] else Results(vs, n - 1) + if vs[n - 1].arg.ResultArg? then [vs[n - 1]] else []
  }

  /** The visit is what the encoder sees of a: its links, and whether it is in memory. */
  ghost predicate Mirrors(v: Visit, a: L.ResultArg, memory: bool, ids: Ids)
    reads ids.Keys
  {
    && v.arg.ResultArg? && a in ids && v.arg.id == ids[a]
    && (v.arg.used <==> a.uses != {}) && (v.addr.Some? <==> memory)
    && (a.res != null ==> a.res in ids) && v.arg.res == if a.res == null then None else Some(ids[a.res])
  }

  ghost predicate MirrorsAll(rs: seq<Visit>, s: seq<L.ResultArg>, memory: seq<bool>, ids: Ids)
    reads ids.Keys
  {
    |rs| == |s| == |memory| && forall i :: 0 <= i < |s| ==> Mirrors(rs[i], s[i], memory[i], ids)
  }

  ghost predicate SeenCall(e: Call, c: P.Call, ids: Ids)
    reads ids.Keys
  {
    && (e.ret.Some? <==> c.ret != null)
    && MirrorsAll(Results(CallVisits(e), |CallVisits(e)|), c.All(), c.AllMemory(), ids)
  }

  /** p is what the encoder sees of the calls. */
  ghost predicate Seen(p: seq<Call>, calls: seq<P.Call>, ids: Ids)
    reads ids.Keys
  {
    Injective(ids) && |p| == |calls| && forall k :: 0 <= k < |p| ==> SeenCall(p[k], calls[k], ids)
  }

  // ----- visits and arguments -----

  lemma {:induction false} ResultAt(vs: seq<Visit>, n: nat, j: nat)
    requires j < n <= |vs|
    ensures Results(vs, j) <= Results(vs, n)
    ensures vs[j].arg.ResultArg? ==>
      |Results(vs, j)| < |Results(vs, n)| && Results(vs, n)[|Results(vs, j)|] == vs[j]
    decreases n
  {
    if j < n - 1 { ResultAt(vs, n - 1, j); }
  }

  lemma {:induction false} VisitOf(vs: seq<Visit>, n: nat, i: nat) returns (j: nat)
    requires n <= |vs| && i < |Results(vs, n)|
    ensures j < n && vs[j] == Results(vs, n)[i] && |Results(vs, j)| == i
    decreases n
  {
    if i < |Results(vs, n - 1)| { j := VisitOf(vs, n - 1, i); } else { j := n - 1; }
  }

  /** A used result of call k is among its ids. */
  lemma {:induction false} UsedHere(p: seq<Call>, calls: seq<P.Call>, ids: Ids, k: nat, i: nat) returns (j: nat)
    requires Seen(p, calls, ids) && k < |p| && i < |calls[k].All()| && calls[k].All()[i].uses != {}
    ensures var vs := CallVisits(p[k]); var a := calls[k].All()[i];
      j < |vs| && Used(vs[j]) && a in ids && vs[j].arg.id == ids[a] && |Results(vs, j)| == i && ids[a] in CallIds(p[k])
  {
    hide CallVisits, Results, UsedIds;
    var vs := CallVisits(p[k]);
    assert SeenCall(p[k], calls[k], ids);
    assert Mirrors(Results(vs, |vs|)[i], calls[k].All()[i], calls[k].AllMemory()[i], ids);
    j := VisitOf(vs, |vs|, i);
    UsedPrefix(vs, j, |vs|);
  }

  lemma {:induction false} DefinedHas(p: seq<Call>, l: nat, k: nat, id: nat)
    requires l < k <= |p| && id in CallIds(p[l])
    ensures id in Defined(p, k)
    decreases k
  {
    hide CallIds;
    if l < k - 1 { DefinedHas(p, l, k - 1, id); }
  }

  // ----- references -----

  /** Every reference of a sound program names an argument visited earlier, which has users. */
  lemma {:induction false} SoundRef(calls: seq<P.Call>, S: set<L.ResultArg>, k: nat, i: nat)
    requires P.Sound(calls, S) && k < |calls| && i < |calls[k].All()|
    ensures var a := calls[k].All()[i]; a.res != null ==> a.res in P.Before(calls, k, i) && a.res.uses != {}
  {
    hide P.Distinct, P.OrderedAfter, P.Tree;
    P.BeforeWithin(calls, k, i);
    P.OrderedAt(P.ProducersOf(S), calls, k, i);
    var a := calls[k].All()[i];
    assert L.LinkOk(a, S);
    if a.res != null { assert a in a.res.uses; }
  }

  /** The id is of a result of an earlier call, or of one of the first j visits. */
  ghost predicate Earlier(vs: seq<Visit>, j: nat, defs: seq<nat>, id: nat)
    requires j <= |vs|
  {
    id in defs || exists i :: 0 <= i < j && Used(vs[i]) && vs[i].arg.id == id
  }

  /** So does every reference the encoder sees. */
  lemma {:induction false} SeenRef(p: seq<Call>, calls: seq<P.Call>, S: set<L.ResultArg>, ids: Ids, k: nat, j: nat)
    requires P.Sound(calls, S) && Seen(p, calls, ids) && k < |p| && j < |CallVisits(p[k])|
    ensures var a := CallVisits(p[k])[j].arg;
      a.ResultArg? && a.res.Some? ==> Earlier(CallVisits(p[k]), j, Defined(p, k), a.res.value)
  {
    hide P.Sound, Results, CallVisits, Seen, Defined, CallIds;
    var vs := CallVisits(p[k]);
    if vs[j].arg.ResultArg? && vs[j].arg.res.Some? {
      ResultAt(vs, |vs|, j);
      var i := |Results(vs, j)|;
      SeenAt(p, calls, ids, k, i);
      SoundRef(calls, S, k, i);
      var r := calls[k].All()[i].res;
      if r in P.Tree(calls[..k]) {
        EarlierCall(p, calls, ids, k, r);
      } else {
        var m :| 0 <= m < i && calls[k].All()[m] == r;
        var jj := UsedHere(p, calls, ids, k, m);
        if jj >= j { if jj > j { ResultAt(vs, jj, j); } }
      }
    }
  }

  lemma SeenAt(p: seq<Call>, calls: seq<P.Call>, ids: Ids, k: nat, i: nat)
    requires Seen(p, calls, ids) && k < |p| && i < |Results(CallVisits(p[k]), |CallVisits(p[k])|)|
    ensures |p| == |calls| && i < |calls[k].All()| == |calls[k].AllMemory()|
    ensures Mirrors(Results(CallVisits(p[k]), |CallVisits(p[k])|)[i], calls[k].All()[i], calls[k].AllMemory()[i], ids)
  {
    hide Results, CallVisits;
    assert SeenCall(p[k], calls[k], ids);
  }

  lemma {:induction false} EarlierCall(p: seq<Call>, calls: seq<P.Call>, ids: Ids, k: nat, r: L.ResultArg)
    requires Seen(p, calls, ids) && k < |p| && r in P.Tree(calls[..k]) && r.uses != {}
    ensures r in ids && ids[r] in Defined(p, k)
  {
    hide P.Tree, CallVisits, Results, CallIds;
    var l, m := P.HasPlace(calls[..k], r);
    var j := UsedHere(p, calls, ids, l, m);
    DefinedHas(p, l, k, ids[r]);
  }

  // ----- no result is defined twice -----

  ghost predicate IdOf(x: nat, A: set<L.ResultArg>, ids: Ids) { exists a :: a in A && a in ids && ids[a] == x }

  /** The numbers are ids of arguments in A. */
  ghost predicate IdsOf(xs: seq<nat>, A: set<L.ResultArg>, ids: Ids) {
    forall i :: 0 <= i < |xs| ==> IdOf(xs[i], A, ids)
  }

  lemma {:induction false} CallIdsUnique(vs: seq<Visit>, n: nat, s: seq<L.ResultArg>, memory: seq<bool>, ids: Ids)
    requires n <= |vs| && Injective(ids) && NoDup(s) && MirrorsAll(Results(vs, |vs|), s, memory, ids)
    ensures |Results(vs, n)| <= |s| && IdsOf(UsedIds(vs, n), P.ArgSet(s[..|Results(vs, n)|]), ids)
    ensures NoDup(UsedIds(vs, n))
    decreases n
  {
    hide NoDup, IdsOf, Injective;
    if n < |vs| { ResultAt(vs, |vs|, n); }
    if n == 0 {
      NothingDefined(ids, P.ArgSet(s[..|Results(vs, n)|]));
    } else {
      CallIdsUnique(vs, n - 1, s, memory, ids);
      ResultAt(vs, n, n - 1);
      ResultAt(vs, |vs|, n - 1);
      var before, now := s[..|Results(vs, n - 1)|], s[..|Results(vs, n)|];
      if Used(vs[n - 1]) {
        var i := |Results(vs, n - 1)|;
        assert Mirrors(Results(vs, |vs|)[i], s[i], memory[i], ids);
        assert now == before + [s[i]];
        NotInFront(s, i);
        NewId(UsedIds(vs, n - 1), before, s[i], ids);
      } else {
        assert UsedIds(vs, n) == UsedIds(vs, n - 1);
        IdsGrow(UsedIds(vs, n), P.ArgSet(before), P.ArgSet(now), ids);
      }
    }
  }

  lemma NotInFront(s: seq<L.ResultArg>, i: nat)
    requires NoDup(s) && i < |s|
    ensures s[i] !in s[..i]
  {
  }

  lemma NewId(xs: seq<nat>, s: seq<L.ResultArg>, a: L.ResultArg, ids: Ids)
    requires IdsOf(xs, P.ArgSet(s), ids) && NoDup(xs) && Injective(ids) && a in ids && a !in s
    ensures IdsOf(xs + [ids[a]], P.ArgSet(s + [a]), ids) && NoDup(xs + [ids[a]])
  {
    assert P.ArgSet(s + [a]) == P.ArgSet(s) + {a};
    IdsGrow(xs, P.ArgSet(s), P.ArgSet(s + [a]), ids);
    forall i | 0 <= i < |xs| ensures xs[i] != ids[a] { assert IdOf(xs[i], P.ArgSet(s), ids); }
  }

  lemma IdsGrow(xs: seq<nat>, A: set<L.ResultArg>, B: set<L.ResultArg>, ids: Ids)
    requires IdsOf(xs, A, ids) && A <= B
    ensures IdsOf(xs, B, ids)
  {
    forall i | 0 <= i < |xs| ensures IdOf(xs[i], B, ids) { assert IdOf(xs[i], A, ids); }
  }

  lemma Joined(xs: seq<nat>, A: set<L.ResultArg>, ys: seq<nat>, B: set<L.ResultArg>, ids: Ids)
    requires IdsOf(xs, A, ids) && IdsOf(ys, B, ids) && A !! B && Injective(ids) && NoDup(xs) && NoDup(ys)
    ensures IdsOf(xs + ys, A + B, ids) && NoDup(xs + ys)
  {
    IdsGrow(xs, A, A + B, ids);
    IdsGrow(ys, B, A + B, ids);
    forall i, j | 0 <= i < |xs| && 0 <= j < |ys| ensures xs[i] != ys[j] {
      assert IdOf(xs[i], A, ids) && IdOf(ys[j], B, ids);
    }
  }

  lemma {:induction false} DefinedUnique(p: seq<Call>, calls: seq<P.Call>, ids: Ids, k: nat)
    requires Seen(p, calls, ids) && P.Distinct(calls) && k <= |p|
    ensures IdsOf(Defined(p, k), P.Tree(calls[..k]), ids) && NoDup(Defined(p, k))
    decreases k
  {
    hide P.Tree, P.Distinct, CallVisits, UsedIds, Results, IdsOf, NoDup;
    if k == 0 {
      NothingDefined(ids, P.Tree(calls[..k]));
    } else {
      DefinedUnique(p, calls, ids, k - 1);
      DistinctAt(calls, k - 1);
      var vs, s := CallVisits(p[k - 1]), calls[k - 1].All();
      assert SeenCall(p[k - 1], calls[k - 1], ids);
      CallIdsUnique(vs, |vs|, s, calls[k - 1].AllMemory(), ids);
      assert s[..|s|] == s;
      Joined(Defined(p, k - 1), P.Tree(calls[..k - 1]), CallIds(p[k - 1]), P.ArgSet(s), ids);
    }
  }

  lemma NothingDefined(ids: Ids, A: set<L.ResultArg>)
    ensures IdsOf([], A, ids) && NoDup<nat>([])
  {
  }

  lemma DistinctAt(calls: seq<P.Call>, k: nat)
    requires P.Distinct(calls) && k < |calls|
    ensures NoDup(calls[k].All()) && P.Tree(calls[..k]) !! P.ArgSet(calls[k].All())
    ensures P.Tree(calls[..k + 1]) == P.Tree(calls[..k]) + P.ArgSet(calls[k].All())
  {
    hide NoDup;
    var s := calls[..k + 1];
    assert calls == s + calls[k + 1..] && s[..k] == calls[..k];
    P.DistinctConcat(s, calls[k + 1..]);
  }

  // ----- what the encoder demands -----

  /** A result that is not in memory is not referred to within its own call. */
  ghost predicate OwnRefsInMemory(vs: seq<Visit>) {
    forall i, j :: 0 <= i < |vs| && 0 <= j < |vs| && Used(vs[i]) && vs[i].addr.None? && vs[j].arg.ResultArg? ==>
      vs[j].arg.res != Some(vs[i].arg.id)
  }

  /** Nothing in a call refers to an argument of it that is not in memory: that is the return value or
      an input. */
  lemma LegalRef(c: P.Call, body: P.Bodies, i: nat, j: nat)
    requires P.CallLegal(c, body) && i < |c.All()| && j < |c.All()| && !c.AllMemory()[i]
    ensures c.All()[j] in body && body[c.All()[j]].res != c.All()[i]
  {
    if c.ret == null || j > 0 {
      var m := if c.ret == null then j else j - 1;
      assert P.ArgLegal(c, m, body) && c.All()[j] == c.args[m];
    }
    if c.ret == null || i > 0 {
      var m := if c.ret == null then i else i - 1;
      assert P.ArgLegal(c, m, body) && c.All()[i] == c.args[m] && c.AllMemory()[i] == c.memory[m];
    }
  }

  lemma {:induction false} RefsInMemory(p: seq<Call>, calls: seq<P.Call>, S: set<L.ResultArg>, ids: Ids, k: nat)
    requires P.Sound(calls, S) && P.Legal(calls, P.BodiesOf(S)) && Seen(p, calls, ids) && k < |p|
    ensures OwnRefsInMemory(CallVisits(p[k]))
  {
    hide P.Sound, Results, CallVisits, Seen, P.CallLegal;
    SeenIds(p, calls, ids);
    var vs, c := CallVisits(p[k]), calls[k];
    forall i, j | 0 <= i < |vs| && 0 <= j < |vs| && Used(vs[i]) && vs[i].addr.None? && vs[j].arg.ResultArg?
      ensures vs[j].arg.res != Some(vs[i].arg.id)
    {
      ResultAt(vs, |vs|, i);
      ResultAt(vs, |vs|, j);
      var x, y := |Results(vs, i)|, |Results(vs, j)|;
      SeenAt(p, calls, ids, k, x);
      SeenAt(p, calls, ids, k, y);
      LegalRef(c, P.BodiesOf(S), x, y);
    }
  }

  lemma SeenIds(p: seq<Call>, calls: seq<P.Call>, ids: Ids)
    requires Seen(p, calls, ids)
    ensures Injective(ids) && |p| == |calls|
  {
  }

  /** What is demanded of a call apart from its references. */
  ghost predicate Writable(c: Call, nsys: nat) {
    Shape(c, nsys) && forall j :: 0 <= j < |CallVisits(c)| ==> DataOk(CallVisits(c)[j].arg)
  }

  lemma RefFromEarlier(vs: seq<Visit>, j: nat, defs: seq<nat>, a: Arg)
    requires OwnRefsInMemory(vs) && j < |vs| && vs[j].arg == Leaf(a)
    requires vs[j].arg.ResultArg? && vs[j].arg.res.Some? ==> Earlier(vs, j, defs, vs[j].arg.res.value)
    ensures RefOk(a, vs, j + 1, defs) && RefOk(a, vs, |vs|, defs)
  {
    hide Leaf;
  }

  /** An argument of a call is visited, and so is the option chosen in a union. */
  lemma {:induction false} LeafVisited(a: Arg, base: Option<U64>, offset: nat) returns (j: nat)
    ensures j < |Visits(a, base, offset)| && Visits(a, base, offset)[j].arg == Leaf(a)
    decreases a
  {
    if a.UnionArg? {
      var i := LeafVisited(a.option, base, offset);
      j := i + 1;
    } else {
      j := 0;
    }
  }

  lemma {:induction false} TopVisited(args: seq<Arg>, i: nat) returns (j: nat)
    requires i < |args|
    ensures j < |ArgsVisits(args)| && ArgsVisits(args)[j].arg == Leaf(args[i])
    decreases |args|
  {
    hide Visits, Leaf;
    var n := |args| - 1;
    if i < n {
      j := TopVisited(args[..n], i);
    } else {
      j := LeafVisited(args[n], None, 0);
      j := j + |ArgsVisits(args[..n])|;
    }
  }

  lemma {:induction false} CallFromSound(p: seq<Call>, calls: seq<P.Call>, S: set<L.ResultArg>, ids: Ids, nsys: nat,
                                         k: nat)
    requires P.Sound(calls, S) && P.Legal(calls, P.BodiesOf(S)) && Seen(p, calls, ids) && k < |p|
    requires Writable(p[k], nsys)
    ensures CallOk(p[k], Defined(p, k), nsys)
  {
    hide P.Sound, P.Legal, Seen, OwnRefsInMemory, Defined, RefOk, Leaf, ArgsVisits, Shape;
    RefsInMemory(p, calls, S, ids, k);
    var c, defs := p[k], Defined(p, k);
    var vs := CallVisits(c);
    forall j | 0 <= j < |vs| ensures VisitOk(vs, j, defs) {
      if Copied(vs[j]) {
        SeenRef(p, calls, S, ids, k, j);
        assert Leaf(vs[j].arg) == vs[j].arg by { NoUnion(vs[j].arg); }
        RefFromEarlier(vs, j, defs, vs[j].arg);
      }
    }
    forall i | 0 <= i < |c.args| ensures RefOk(c.args[i], vs, |vs|, defs) {
      var j := TopVisited(c.args, i);
      var m := if c.ret.Some? then j + 1 else j;
      assert vs[m] == ArgsVisits(c.args)[j];
      SeenRef(p, calls, S, ids, k, m);
      RefFromEarlier(vs, m, defs, c.args[i]);
    }
  }

  lemma NoUnion(a: Arg)
    requires !a.UnionArg?
    ensures Leaf(a) == a
  {
  }

  /** A sound program that is as validation demands is one the encoder takes: no reference is without an
      index, and no result is defined twice. */
  lemma {:induction false} SoundIsValid(p: seq<Call>, calls: seq<P.Call>, S: set<L.ResultArg>, ids: Ids, nsys: nat)
    requires P.Sound(calls, S) && P.Legal(calls, P.BodiesOf(S)) && Seen(p, calls, ids)
    requires forall k :: 0 <= k < |p| ==> Writable(p[k], nsys)
    ensures Valid(p, nsys)
  {
    hide Writable, P.Legal, CallVisits, Defined, CallOk, P.Tree, L.Linked, P.Distinct, P.OrderedAfter, Seen;
    hide IdsOf, NoDup;
    forall k | 0 <= k < |p| ensures CallOk(p[k], Defined(p, k), nsys) { CallFromSound(p, calls, S, ids, nsys, k); }
    DefinedUnique(p, calls, ids, |p|);
  }
}
