/** DoubleExecCollide: a copy of the program, followed by asynchronous duplicates of its calls that
    refer to the results of the first half. */
module DoubleExec {
  import opened Common
  import opened Links
  import opened Progs
  import opened Clones
  import opened Collide

  /** d duplicates a: same fields, the same producer, and no users. */
  ghost predicate DupOf(d: ResultArg, a: ResultArg)
    reads a, d
  {
    SameFields(a, d) && d.res == a.res && d.uses == {}
  }

  ghost predicate DupSeq(ds: seq<ResultArg>, s: seq<ResultArg>)
    reads ds, s
  {
    |ds| == |s| && forall i :: 0 <= i < |s| ==> DupOf(ds[i], s[i])
  }

  /** clone of a result argument, without a map: the duplicate becomes another user of a's producer. */
  method CloneShared(a: ResultArg, ghost T: set<ResultArg>) returns (a1: ResultArg)
    requires Linked(T) && a in T
    modifies Of(a.res)`uses
    ensures fresh(a1) && DupOf(a1, a) && Linked(T + {a1})
    ensures a.res != null ==> a.res.uses == old(a.res.uses) + {a1}
  {
    assert LinkOk(a, T);
    a1 := MakeResultArg(a.dir, a.res, a.val, a.deflt, T);
    a1.opDiv, a1.opAdd := a.opDiv, a.opAdd;
  }

  /** The arguments s and their producers are in S. */
  ghost predicate Within(s: seq<ResultArg>, S: set<ResultArg>)
    reads s
  {
    forall i :: 0 <= i < |s| ==> s[i] in S && Of(s[i].res) <= S
  }

  /** A sequence of arguments of S is duplicated; the duplicates are new and distinct. */
  method DupArgs(args: seq<ResultArg>, ghost S: set<ResultArg>, ghost T: set<ResultArg>) returns (ds: seq<ResultArg>)
    requires Linked(T) && S <= T && Within(args, S)
    modifies S`uses
    ensures Linked(T + ArgSet(ds)) && DupSeq(ds, args) && NoDup(ds) && fresh(ArgSet(ds)) && ArgSet(ds) !! T
  {
    hide Linked;
    ds := [];
    assert T + ArgSet(ds) == T;
    for i := 0 to |args|
      invariant Linked(T + ArgSet(ds)) && NoDup(ds) && fresh(ArgSet(ds))
      invariant |ds| == i && forall j :: 0 <= j < i ==> DupOf(ds[j], args[j])
    {
      ghost var now := T + ArgSet(ds);
      var d := CloneShared(args[i], now);
      assert now + {d} == T + ArgSet(ds + [d]);
      ds := ds + [d];
    }
  }

  /** cloneCall, without a map. */
  method DupCall(c: Call, ghost S: set<ResultArg>, ghost T: set<ResultArg>) returns (d: Call)
    requires Linked(T) && S <= T && Within(c.All(), S)
    modifies S`uses
    ensures Linked(T + ArgSet(d.All())) && DupSeq(d.All(), c.All()) && NoDup(d.All()) && fresh(ArgSet(d.All()))
    ensures fresh(d) && LikeCall(d, c) && ArgSet(d.All()) !! T
  {
    hide Linked, DupSeq, NoDup, Within;
    var all := DupArgs(c.All(), S, T);
    assert |all| == |c.All()| by { DupLength(all, c.All()); }
    if c.ret == null {
      d := new Call(null, all, c.memory, c.async);
      assert d.All() == all;
    } else {
      d := new Call(all[0], all[1..], c.memory, c.async);
      assert d.All() == all;
    }
  }

  lemma DupLength(ds: seq<ResultArg>, s: seq<ResultArg>)
    requires DupSeq(ds, s)
    ensures |ds| == |s|
  {
  }

  /** cloneCalls, without a map, for a sound program over S. */
  method CloneCallsShared(calls: seq<Call>, ghost S: set<ResultArg>) returns (ds: seq<Call>)
    requires Sound(calls, S)
    modifies S`uses
    ensures |ds| == |calls| && Linked(S + Tree(ds)) && Distinct(ds) && fresh(Tree(ds)) && Apart(ds)
    ensures forall k :: 0 <= k < |ds| ==>
      fresh(ds[k]) && LikeCall(ds[k], calls[k]) && DupSeq(ds[k].All(), calls[k].All())
  {
    hide Linked, Distinct, OrderedAfter, Tree, LikeCall;
    forall k | 0 <= k < |calls| ensures Within(calls[k].All(), S) { CallWithin(calls, k, S); }
    ds := [];
    NoCalls(S);
    for k := 0 to |calls|
      invariant |ds| == k && Linked(S + Tree(ds)) && Distinct(ds) && fresh(Tree(ds)) && Apart(ds)
      invariant forall j :: 0 <= j < k ==> fresh(ds[j]) && LikeCall(ds[j], calls[j])
      invariant forall j :: 0 <= j < k ==> ArgSet(ds[j].All()) !! S && DupSeq(ds[j].All(), calls[j].All())
    {
      var d := DupNext(ds, calls, k, S, Tree(ds));
      ds := ds + [d];
    }
  }

  /** Duplicating call k leaves the duplicates of the earlier calls alone. */
  method DupNext(ds: seq<Call>, calls: seq<Call>,
                 k: nat, ghost S: set<ResultArg>, ghost D: set<ResultArg>) returns (d: Call)
    requires |ds| == k < |calls| && D == Tree(ds) && Distinct(ds) && Linked(S + D) && Within(calls[k].All(), S)
    requires forall j :: 0 <= j < k ==> ArgSet(ds[j].All()) !! S && DupSeq(ds[j].All(), calls[j].All())
    modifies S`uses
    ensures fresh(d) && fresh(ArgSet(d.All())) && LikeCall(d, calls[k]) && DupSeq(d.All(), calls[k].All())
    ensures Distinct(ds + [d]) && Tree(ds + [d]) == D + ArgSet(d.All()) && Linked(S + Tree(ds + [d]))
    ensures forall j :: 0 <= j < k ==> DupSeq(ds[j].All(), calls[j].All())
  {
    hide Linked, Distinct, Tree, Within;
    d := DupCall(calls[k], S, S + D);
    OneMore(ds, d, S);
    forall j | 0 <= j < k ensures DupSeq(ds[j].All(), calls[j].All()) {
      var t, s := ds[j].All(), calls[j].All();
      assert old(DupSeq(t, s));
      forall i | 0 <= i < |s| ensures DupOf(t[i], s[i]) {
        assert t[i] in ArgSet(t);
        assert old(DupOf(t[i], s[i]));
      }
    }
  }

  lemma NoCalls(S: set<ResultArg>)
    requires Linked(S)
    ensures Tree([]) == {} && Linked(S + Tree([])) && Distinct([])
  {
    assert S + Tree([]) == S;
  }

  lemma OneMore(ds: seq<Call>, d: Call, S: set<ResultArg>)
    requires Distinct(ds) && NoDup(d.All()) && Tree(ds) !! ArgSet(d.All())
    ensures Distinct(ds + [d]) && Tree(ds + [d]) == Tree(ds) + ArgSet(d.All())
    ensures S + Tree(ds + [d]) == S + Tree(ds) + ArgSet(d.All())
  {
    assert (ds + [d])[..|ds|] == ds;
  }

  /** The arguments of a call of a sound program, and their producers, belong to the program. */
  lemma CallWithin(calls: seq<Call>, k: nat, S: set<ResultArg>)
    requires Sound(calls, S) && k < |calls|
    ensures Within(calls[k].All(), S)
  {
    InTree(calls, k);
    forall i | 0 <= i < |calls[k].All()| ensures calls[k].All()[i] in S && Of(calls[k].All()[i].res) <= S {
      assert LinkOk(calls[k].All()[i], S);
    }
  }

  /** Duplicates come after the whole program, so the joined program is in order. */
  lemma {:induction false} DupsOrdered(res: Producers, S: set<ResultArg>, ds: seq<Call>)
    requires forall d :: d in Tree(ds) ==> d in res && Of(res[d]) <= S
    ensures OrderedAfter(res, S, ds)
    decreases |ds|
  {
    if ds != [] {
      var n := |ds| - 1;
      DupsOrdered(res, S, ds[..n]);
      var s := ds[n].All();
      forall i | 0 <= i < |s| ensures From(s[i], res, S + Tree(ds[..n]) + ArgSet(s[..i])) { assert s[i] in ArgSet(s); }
      OrderedArgsFrom(res, S + Tree(ds[..n]), s);
    }
  }

  lemma {:induction false} JoinedSound(calls: seq<Call>, ds: seq<Call>, S: set<ResultArg>, was: Producers,
                                       res: Producers)
    requires Distinct(calls) && Distinct(ds) && Tree(calls) == S && S !! Tree(ds)
    requires OrderedAfter(was, {}, calls) && forall a :: a in was ==> a in res && res[a] == was[a]
    requires forall d :: d in Tree(ds) ==> d in res && Of(res[d]) <= S
    ensures Distinct(calls + ds) && Tree(calls + ds) == S + Tree(ds) && OrderedAfter(res, {}, calls + ds)
  {
    DistinctConcat(calls, ds);
    TreeConcat(calls, ds);
    OrderedConcat(res, {}, calls, ds);
    OrderedStays(was, {}, res, {}, calls);
    assert {} + Tree(calls) == S;
    DupsOrdered(res, S, ds);
  }

  /** In a sequence of duplicates every argument has a producer in S or none, and no users. */
  lemma {:induction false} DupTree(ds: seq<Call>, calls: seq<Call>, S: set<ResultArg>, d: ResultArg)
    requires |ds| == |calls| && d in Tree(ds)
    requires forall k :: 0 <= k < |ds| ==> DupSeq(ds[k].All(), calls[k].All()) && Within(calls[k].All(), S)
    ensures Of(d.res) <= S && d.uses == {}
    decreases |ds|
  {
    var n := |ds| - 1;
    if d in ds[n].All() {
      var i :| 0 <= i < |ds[n].All()| && ds[n].All()[i] == d;
      assert DupOf(d, calls[n].All()[i]);
    } else {
      DupTree(ds[..n], calls[..n], S, d);
    }
  }

  /** As many of the calls as allowed are made async. */
  method MarkFirst(ds: seq<Call>)
    requires Apart(ds)
    modifies ds
    ensures forall k :: 0 <= k < |ds| ==> ds[k].async == (k < 24 || old(ds[k].async))
  {
    var leftAsync := MAX_ASYNC;
    for k := 0 to |ds|
      invariant leftAsync == MAX_ASYNC - k
      invariant forall j :: 0 <= j < |ds| ==> ds[j].async == (j < k || old(ds[j].async))
    {
      if leftAsync == 0 { break; }
      ds[k].async := true;
      leftAsync := leftAsync - 1;
    }
  }

  /** The second half of a program: duplicates of the first half's arguments, whose producers are in
      the first half and which nothing uses. */
  ghost predicate SecondHalf(calls: seq<Call>, n: nat, S: set<ResultArg>, D: set<ResultArg>)
    requires |calls| == 2 * n
    reads D
  {
    Tree(calls[..n]) == S && Tree(calls[n..]) == D && forall d :: d in D ==> Of(d.res) <= S && d.uses == {}
  }

  /** Duplicates of all calls of q, referring to q's own results. */
  method Duplicates(calls: seq<Call>, ghost S: set<ResultArg>) returns (ds: seq<Call>, ghost D: set<ResultArg>)
    requires Sound(calls, S)
    modifies S`uses
    ensures |ds| == |calls| && D == Tree(ds) && fresh(D) && Apart(ds) && Sound(calls + ds, S + D)
    ensures forall d :: d in D ==> Of(d.res) <= S && d.uses == {}
    ensures forall k :: 0 <= k < |ds| ==>
      fresh(ds[k]) && LikeCall(ds[k], calls[k]) && DupSeq(ds[k].All(), calls[k].All())
  {
    hide Linked, Distinct, OrderedAfter, Tree, DupSeq, Within;
    ghost var was := ProducersOf(S);
    ds := CloneCallsShared(calls, S);
    D := Tree(ds);
    forall k | 0 <= k < |calls| ensures Within(calls[k].All(), S) { StillWithin(calls, k, S, was); }
    forall d | d in D ensures Of(d.res) <= S && d.uses == {} { DupTree(ds, calls, S, d); }
    JoinedSound(calls, ds, S, was, ProducersOf(S + D));
  }

  lemma StillWithin(calls: seq<Call>, k: nat, S: set<ResultArg>, was: Producers)
    requires k < |calls| && Tree(calls) == S && was == ProducersOf(S) && OrderedAfter(was, {}, calls)
    ensures Within(calls[k].All(), S)
  {
    forall i | 0 <= i < |calls[k].All()| ensures calls[k].All()[i] in S && Of(calls[k].All()[i].res) <= S {
      BeforeWithin(calls, k, i);
      OrderedAt(was, calls, k, i);
    }
  }

  /** Duplicates of calls that are as validation demands are so too. */
  lemma {:induction false} DupCallLegal(c: Call, d: Call, body: Bodies, now: Bodies)
    requires CallLegal(c, body) && d.memory == c.memory && (d.ret == null <==> c.ret == null)
    requires |d.All()| == |c.All()| && (d.ret != null ==> d.ret !in body)
    requires forall a :: a in body ==> a in now && now[a] == body[a]
    requires forall j :: 0 <= j < |c.All()| && c.All()[j] in body ==>
      d.All()[j] in now && now[d.All()[j]] == body[c.All()[j]]
    ensures CallLegal(d, now)
  {
    if c.ret != null { assert c.All()[0] == c.ret && d.All()[0] == d.ret; }
    forall i | 0 <= i < |d.args| ensures ArgLegal(d, i, now) {
      ArgPlace(c, i);
      ArgPlace(d, i);
      assert ArgLegal(c, i, body);
    }
  }

  lemma {:induction false} DoubledLegal(calls: seq<Call>, ds: seq<Call>, S: set<ResultArg>, D: set<ResultArg>)
    requires Legal(calls, BodiesOf(S)) && |ds| == |calls| && Tree(calls) == S && Tree(ds) == D && S !! D
    requires forall k :: 0 <= k < |ds| ==> DupSeq(ds[k].All(), calls[k].All())
    requires forall k :: 0 <= k < |ds| ==>
      ds[k].memory == calls[k].memory && (ds[k].ret == null <==> calls[k].ret == null)
    ensures Legal(calls + ds, BodiesOf(S + D))
  {
    hide CallLegal, Tree;
    var all, body, now := calls + ds, BodiesOf(S), BodiesOf(S + D);
    forall l | 0 <= l < |all| ensures CallLegal(all[l], now) {
      if l < |calls| {
        GrownLegal(calls[l], body, now);
      } else {
        var k := l - |calls|;
        assert DupSeq(ds[k].All(), calls[k].All());
        forall j | 0 <= j < |ds[k].All()| ensures ds[k].All()[j] in D && DupOf(ds[k].All()[j], calls[k].All()[j]) {
          InCall(ds, k, j);
        }
        if ds[k].ret != null { assert ds[k].All()[0] == ds[k].ret; }
        DupCallLegal(calls[k], ds[k], body, now);
      }
    }
  }

  /** Call n + k is an async duplicate of call k. */
  ghost predicate DupAt(calls: seq<Call>, n: nat, k: nat)
    requires k < n && |calls| == 2 * n
    reads calls, calls[n + k].All(), calls[k].All()
  {
    DupSeq(calls[n + k].All(), calls[k].All()) && calls[n + k].async
  }

  /** The fields of the copies and their producers. */
  ghost predicate FieldsCopied(m: NewArgs)
    reads m.Keys, m.Values
  {
    Injective(m) && forall a :: a in m ==> SameFields(a, m[a]) && ProducerCopied(m, a.res, m[a].res)
  }

  /** The users of the copy of a are the copies of its users and the duplicates that refer to it. */
  ghost predicate UsersDoubled(m: NewArgs, D: set<ResultArg>, a: ResultArg)
    requires a in m
    reads m.Keys, m.Values, D
  {
    && m[a].uses <= m.Values + D && (forall u :: u in m ==> (m[u] in m[a].uses <==> u in a.uses))
    && forall d :: d in D ==> (d in m[a].uses <==> d.res == m[a])
  }

  /** The first half is the program again, but that the second half uses it too. */
  ghost predicate FirstHalf(m: NewArgs, D: set<ResultArg>)
    reads m.Keys, m.Values, D
  {
    FieldsCopied(m) && forall a :: a in m ==> UsersDoubled(m, D, a)
  }

  lemma {:induction false} FirstHalfUsers(m: NewArgs, D: set<ResultArg>, S: set<ResultArg>, a: ResultArg)
    requires Linked(S) && m.Keys == S && FieldsCopied(m) && Linked(m.Values + D) && a in m
    ensures UsersDoubled(m, D, a)
  {
    var V := m.Values + D;
    assert m[a] in V && LinkOk(m[a], V) && LinkOk(a, S);
    forall u | u in m ensures m[u] in m[a].uses <==> u in a.uses {
      assert m[u] in V && LinkOk(m[u], V) && LinkOk(u, S);
    }
    forall d | d in D ensures d in m[a].uses <==> d.res == m[a] { assert LinkOk(d, V); }
  }

  lemma CopiedFields(m: NewArgs)
    requires Cloned(m)
    ensures FieldsCopied(m)
  {
    forall a | a in m ensures SameFields(a, m[a]) && ProducerCopied(m, a.res, m[a].res) { assert CopyOf(m, a); }
  }

  /** The second half; the first keeps the fields it copied. */
  method AddDuplicates(calls: seq<Call>, ghost m: NewArgs, ghost S: set<ResultArg>)
    returns (ds: seq<Call>, ghost D: set<ResultArg>)
    requires Sound(calls, m.Values) && FieldsCopied(m) && m.Keys == S && S !! m.Values && Linked(S)
    modifies m.Values`uses
    ensures |ds| == |calls| && D == Tree(ds) && fresh(D) && Sound(calls + ds, m.Values + D)
    ensures FirstHalf(m, D) && forall d :: d in D ==> Of(d.res) <= m.Values && d.uses == {}
    ensures forall k :: 0 <= k < |ds| ==> DupSeq(ds[k].All(), calls[k].All())
    ensures forall k :: 0 <= k < |ds| ==> fresh(ds[k]) && ds[k].async == (k < 24 || calls[k].async)
    ensures old(Legal(calls, BodiesOf(m.Values))) ==> Legal(calls + ds, BodiesOf(m.Values + D))
  {
    hide Tree, DupSeq, Linked, Distinct, OrderedAfter, Legal, UsersDoubled;
    ds, D := AsyncDuplicates(calls, m.Values);
    forall a | a in m ensures SameFields(a, m[a]) && ProducerCopied(m, a.res, m[a].res) {
      assert old(SameFields(a, m[a]) && ProducerCopied(m, a.res, m[a].res));
    }
    forall a | a in m ensures UsersDoubled(m, D, a) { FirstHalfUsers(m, D, S, a); }
  }

  /** What the doubled program is: the original again, and duplicates of its calls, all of them async. */
  ghost predicate Doubled(orig: seq<Call>, calls: seq<Call>, m: NewArgs, D: set<ResultArg>)
    reads calls, orig, m.Keys, m.Values, D
  {
    var n := |orig|;
    && |calls| == 2 * n && FirstHalf(m, D) && Images(m, orig, calls[..n]) && SecondHalf(calls, n, m.Values, D)
    && (forall k :: 0 <= k < n ==> LikeCall(calls[k], orig[k]))
    && (forall k :: 0 <= k < n ==> (HalfArgs(calls, n, m.Values, D, k); DupAt(calls, n, k)))
  }

  lemma HalfArgs(calls: seq<Call>, n: nat, S: set<ResultArg>, D: set<ResultArg>, k: nat)
    requires |calls| == 2 * n && k < n && SecondHalf(calls, n, S, D)
    ensures (forall a :: a in calls[k].All() ==> a in S) && forall a :: a in calls[n + k].All() ==> a in D
  {
    hide Tree;
    InTree(calls[..n], k);
    InTree(calls[n..], k);
  }

  /** The copy and the duplicates. */
  method CopyTwice(p: Prog, ghost S: set<ResultArg>)
    returns (q: Prog, ds: seq<Call>, ghost m: NewArgs, ghost D: set<ResultArg>)
    requires Sound(p.calls, S) && |p.calls| <= 24
    ensures fresh(q) && m.Keys == S && fresh(m.Values) && fresh(D) && Sound(q.calls + ds, m.Values + D)
    ensures Doubled(p.calls, q.calls + ds, m, D)
    ensures Legal(p.calls, BodiesOf(S)) ==> Legal(q.calls + ds, BodiesOf(m.Values + D))
  {
    hide Sound, Tree, Images, Cloned, FirstHalf, FieldsCopied, DupSeq, Legal, SecondHalf, DupAt;
    var m1;
    q, m1 := CloneSound(p, S);
    m := m1;
    CopiedFields(m);
    SameLength(m, p.calls, q.calls);
    SoundLinked(p.calls, S);
    SoundTree(q.calls, m.Values);
    ds, D := AddDuplicates(q.calls, m, S);
    Halves(q.calls, ds, m.Values, D);
    assert (q.calls + ds)[..|p.calls|] == q.calls;
  }

  /** DoubleExecCollide; no program if the original is too small or too big. Every duplicate is
      async: a program small enough has fewer calls than may be async. */
  method DoubleExecCollide(p: Prog, ghost S: set<ResultArg>)
    returns (q: Prog?, ghost m: NewArgs, ghost D: set<ResultArg>)
    requires Sound(p.calls, S)
    ensures q == null <==> |p.calls| < 2 || 2 * |p.calls| > 40
    ensures q != null ==> fresh(q) && m.Keys == S && fresh(m.Values + D) && Sound(q.calls, m.Values + D)
    ensures q != null ==> Doubled(p.calls, q.calls, m, D)
    ensures q != null && Legal(p.calls, BodiesOf(S)) ==> Legal(q.calls, BodiesOf(m.Values + D))
  {
    hide Sound, Doubled, Legal;
    m, D := map[], {};
    if 2 * |p.calls| > MAX_CALLS || |p.calls| < 2 { return null, m, D; }
    var q1, ds;
    q1, ds, m, D := CopyTwice(p, S);
    q1.calls := q1.calls + ds;
    q := q1;
  }

  /** The two halves put together. */
  lemma Halves(first: seq<Call>, ds: seq<Call>, S: set<ResultArg>, D: set<ResultArg>)
    requires |ds| == |first| && Tree(first) == S && Tree(ds) == D
    requires forall d :: d in D ==> Of(d.res) <= S && d.uses == {}
    requires forall k :: 0 <= k < |ds| ==> DupSeq(ds[k].All(), first[k].All()) && ds[k].async
    ensures SecondHalf(first + ds, |first|, S, D) && forall k :: 0 <= k < |first| ==> DupAt(first + ds, |first|, k)
  {
    hide Tree, DupSeq;
    var n, calls := |first|, first + ds;
    assert calls[..n] == first && calls[n..] == ds;
    forall k | 0 <= k < n ensures DupAt(calls, n, k) {
      assert calls[n + k] == ds[k] && calls[k] == first[k];
    }
  }

  lemma SoundLinked(calls: seq<Call>, S: set<ResultArg>)
    requires Sound(calls, S)
    ensures Linked(S)
  {
  }

  method AsyncDuplicates(calls: seq<Call>, ghost S: set<ResultArg>) returns (ds: seq<Call>, ghost D: set<ResultArg>)
    requires Sound(calls, S)
    modifies S`uses
    ensures |ds| == |calls| && D == Tree(ds) && fresh(D) && Sound(calls + ds, S + D)
    ensures forall d :: d in D ==> Of(d.res) <= S && d.uses == {}
    ensures forall k :: 0 <= k < |ds| ==> DupSeq(ds[k].All(), calls[k].All())
    ensures forall k :: 0 <= k < |ds| ==> fresh(ds[k]) && ds[k].async == (k < 24 || calls[k].async)
    ensures old(Legal(calls, BodiesOf(S))) ==> Legal(calls + ds, BodiesOf(S + D))
  {
    hide Sound, Tree, DupSeq, Legal;
    ghost var body := BodiesOf(S);
    SoundTree(calls, S);
    ds, D := Duplicates(calls, S);
    assert BodiesOf(S) == body;
    if Legal(calls, body) { DoubledLegal(calls, ds, S, D); }
    MarkFirst(ds);
  }
}
