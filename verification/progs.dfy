/** Programs as sequences of calls over linked result arguments. */
module Progs {
  import opened Common
  import opened Links

  /** A call with its result arguments in the order they are visited, the return value apart;
      `memory` says which of the arguments are behind a pointer. */
  class Call {
    const ret: ResultArg?
    const args: seq<ResultArg>
    const memory: seq<bool>
    var async: bool

    constructor (ret: ResultArg?, args: seq<ResultArg>, memory: seq<bool>, async: bool)
      ensures this.ret == ret && this.args == args && this.memory == memory && this.async == async
    {
      this.ret, this.args, this.memory, this.async := ret, args, memory, async;
    }

    /** ForeachArg: the return value comes first. */
    function All(): seq<ResultArg> { (if ret == null then [] else [ret]) + args }

    function AllMemory(): seq<bool> { (if ret == null then [] else [false]) + memory }
  }

  function ArgSet(s: seq<ResultArg>): set<ResultArg> { set a | a in s }

  /** The arguments of a program. */
  function Tree(calls: seq<Call>): set<ResultArg> {
    if calls == [] then {} else Tree(calls[..|calls| - 1]) + ArgSet(calls[|calls| - 1].All())
  }

  /** No argument occurs twice. */
  ghost predicate Distinct(calls: seq<Call>) {
    calls != [] ==>
      var n := |calls| - 1;
      Distinct(calls[..n]) && NoDup(calls[n].All()) && Tree(calls[..n]) !! ArgSet(calls[n].All())
  }

  type Producers = map<ResultArg, ResultArg?>

  function ProducersOf(S: set<ResultArg>): Producers
    reads S
  {
    map a | a in S :: a.res
  }

  /** The producer of a, if it has one, is in S. */
  predicate From(a: ResultArg, res: Producers, S: set<ResultArg>) { a in res && (res[a] == null || res[a] in S) }

  /** After the arguments S, the arguments s have their producers in S or earlier in s. */
  ghost predicate OrderedArgs(res: Producers, S: set<ResultArg>, s: seq<ResultArg>) {
    s != [] ==>
      var n := |s| - 1;
      OrderedArgs(res, S, s[..n]) && From(s[n], res, S + ArgSet(s[..n]))
  }

  /** After the arguments S, the calls t have their producers in S, in earlier calls, or earlier in
      the same call. */
  ghost predicate OrderedAfter(res: Producers, S: set<ResultArg>, t: seq<Call>) {
    t != [] ==>
      var n := |t| - 1;
      OrderedAfter(res, S, t[..n]) && OrderedArgs(res, S + Tree(t[..n]), t[n].All())
  }

  /** The links of a program over the arguments S: mutual inverses, producers visited before their
      users, no argument in two places. */
  ghost predicate Sound(calls: seq<Call>, S: set<ResultArg>)
    reads S
  {
    S == Tree(calls) && Distinct(calls) && Linked(S) && OrderedAfter(ProducersOf(S), {}, calls)
  }

  type Bodies = map<ResultArg, Body>

  function BodiesOf(S: set<ResultArg>): Bodies
    reads S
  {
    map a | a in S :: BodyOf(a)
  }

  /** The producer, if there is one, is neither an input nor the return value of the call itself,
      which is validated after its arguments. */
  predicate RefLegal(c: Call, r: ResultArg?, body: Bodies) {
    r != null ==> r != c.ret && r in body && body[r].dir != In
  }

  /** An output has no value of its own. */
  predicate OutLegal(b: Body) { b.dir == Out ==> b.val == 0 || b.val == b.deflt }

  /** A return value is an output, refers to nothing and has no value. */
  predicate RetLegal(b: Body) { b.dir == Out && b.res == null && b.opDiv == 0 && b.opAdd == 0 && b.val == 0 }

  /** What validation demands of argument i of a call besides its links and their order: what is not in
      memory is an input. */
  predicate ArgLegal(c: Call, i: nat, body: Bodies)
    requires i < |c.args|
  {
    && c.args[i] in body && RefLegal(c, body[c.args[i]].res, body) && OutLegal(body[c.args[i]])
    && i < |c.memory| && (!c.memory[i] ==> body[c.args[i]].dir == In)
  }

  predicate CallLegal(c: Call, body: Bodies) {
    && |c.memory| == |c.args| && (c.ret != null ==> c.ret in body && RetLegal(body[c.ret]))
    && forall i :: 0 <= i < |c.args| ==> ArgLegal(c, i, body)
  }

  /** What validation demands of the calls besides the links and their order. */
  ghost predicate Legal(calls: seq<Call>, body: Bodies) { forall k :: 0 <= k < |calls| ==> CallLegal(calls[k], body) }

  // ----- trees -----

  lemma {:induction false} TreeConcat(s: seq<Call>, t: seq<Call>)
    ensures Tree(s + t) == Tree(s) + Tree(t)
    decreases |t|
  {
    if t == [] {
      assert s + t == s;
    } else {
      var n := |t| - 1;
      assert (s + t)[..|s + t| - 1] == s + t[..n];
      TreeConcat(s, t[..n]);
    }
  }

  lemma TreePrefix(s: seq<Call>, k: nat)
    requires k <= |s|
    ensures Tree(s[..k]) <= Tree(s)
  {
    assert s == s[..k] + s[k..];
    TreeConcat(s[..k], s[k..]);
  }

  /** Distinct programs over disjoint arguments can be joined. */
  lemma {:induction false} DistinctConcat(s: seq<Call>, t: seq<Call>)
    ensures Distinct(s + t) <==> Distinct(s) && Distinct(t) && Tree(s) !! Tree(t)
    decreases |t|
  {
    hide NoDup;
    if t == [] {
      assert s + t == s;
    } else {
      var n := |t| - 1;
      assert (s + t)[..|s + t| - 1] == s + t[..n];
      DistinctConcat(s, t[..n]);
      TreeConcat(s, t[..n]);
    }
  }

  // ----- order -----

  lemma {:induction false} OrderedConcat(res: Producers, S: set<ResultArg>, s: seq<Call>, t: seq<Call>)
    ensures OrderedAfter(res, S, s + t) <==> OrderedAfter(res, S, s) && OrderedAfter(res, S + Tree(s), t)
    decreases |t|
  {
    if t == [] {
      assert s + t == s;
    } else {
      var n := |t| - 1;
      assert (s + t)[..|s + t| - 1] == s + t[..n];
      OrderedConcat(res, S, s, t[..n]);
      TreeConcat(s, t[..n]);
      assert S + Tree(s + t[..n]) == S + Tree(s) + Tree(t[..n]);
    }
  }

  /** A producer that is the same or gone, with no fewer arguments before. */
  predicate Stays(a: ResultArg, res: Producers, S: set<ResultArg>, now: Producers, T: set<ResultArg>) {
    a in res ==> a in now && (now[a] == null || (now[a] == res[a] && (res[a] in S ==> res[a] in T)))
  }

  lemma {:induction false} OrderedArgsStay(res: Producers, S: set<ResultArg>, now: Producers, T: set<ResultArg>,
                                           s: seq<ResultArg>)
    requires OrderedArgs(res, S, s) && forall a :: a in s ==> Stays(a, res, S, now, T)
    ensures OrderedArgs(now, T, s)
    decreases |s|
  {
    if s != [] {
      var n := |s| - 1;
      OrderedArgsStay(res, S, now, T, s[..n]);
      assert Stays(s[n], res, S, now, T) && From(s[n], res, S + ArgSet(s[..n]));
    }
  }

  lemma {:induction false} OrderedStays(res: Producers, S: set<ResultArg>, now: Producers, T: set<ResultArg>,
                                        t: seq<Call>)
    requires OrderedAfter(res, S, t) && forall a :: a in Tree(t) ==> Stays(a, res, S, now, T)
    ensures OrderedAfter(now, T, t)
    decreases |t|
  {
    if t != [] {
      var n := |t| - 1;
      OrderedStays(res, S, now, T, t[..n]);
      var S1, T1 := S + Tree(t[..n]), T + Tree(t[..n]);
      forall a | a in t[n].All() ensures Stays(a, res, S1, now, T1) {
        assert a in ArgSet(t[n].All());
        assert Stays(a, res, S, now, T);
      }
      OrderedArgsStay(res, S1, now, T1, t[n].All());
    }
  }

  /** The arguments visited before argument i of call k. */
  ghost function Before(calls: seq<Call>, k: nat, i: nat): set<ResultArg>
    requires k < |calls| && i <= |calls[k].All()|
  {
    Tree(calls[..k]) + ArgSet(calls[k].All()[..i])
  }

  lemma {:induction false} OrderedArgAt(res: Producers, S: set<ResultArg>, s: seq<ResultArg>, i: nat)
    requires OrderedArgs(res, S, s) && i < |s|
    ensures From(s[i], res, S + ArgSet(s[..i]))
    decreases |s|
  {
    var n := |s| - 1;
    if i < n {
      assert s[..n][..i] == s[..i];
      OrderedArgAt(res, S, s[..n], i);
    }
  }

  /** In an ordered program every producer is visited before. */
  lemma {:induction false} OrderedAt(res: Producers, calls: seq<Call>, k: nat, i: nat)
    requires OrderedAfter(res, {}, calls) && k < |calls| && i < |calls[k].All()|
    ensures From(calls[k].All()[i], res, Before(calls, k, i))
    decreases |calls|
  {
    hide Tree, OrderedArgs;
    var n := |calls| - 1;
    if k < n {
      assert calls[..n][..k] == calls[..k];
      OrderedAt(res, calls[..n], k, i);
    } else {
      OrderedArgAt(res, {} + Tree(calls[..n]), calls[n].All(), i);
      assert {} + Tree(calls[..n]) == Tree(calls[..n]);
    }
  }

  lemma {:induction false} OrderedArgsFrom(res: Producers, S: set<ResultArg>, s: seq<ResultArg>)
    requires forall i :: 0 <= i < |s| ==> From(s[i], res, S + ArgSet(s[..i]))
    ensures OrderedArgs(res, S, s)
    decreases |s|
  {
    if s != [] {
      var n := |s| - 1;
      var t := s[..n];
      forall i | 0 <= i < |t| ensures From(t[i], res, S + ArgSet(t[..i])) {
        assert t[..i] == s[..i];
        assert From(s[i], res, S + ArgSet(s[..i]));
      }
      OrderedArgsFrom(res, S, t);
    }
  }

  /** And a program is ordered if every producer is. */
  lemma {:induction false} OrderedFrom(res: Producers, calls: seq<Call>)
    requires forall k, i :: 0 <= k < |calls| && 0 <= i < |calls[k].All()| ==>
      From(calls[k].All()[i], res, Before(calls, k, i))
    ensures OrderedAfter(res, {}, calls)
    decreases |calls|
  {
    if calls != [] {
      var n := |calls| - 1;
      var t := calls[..n];
      forall k, i | 0 <= k < |t| && 0 <= i < |t[k].All()| ensures From(t[k].All()[i], res, Before(t, k, i)) {
        assert t[..k] == calls[..k] && t[k] == calls[k];
        assert From(calls[k].All()[i], res, Before(calls, k, i));
      }
      OrderedFrom(res, t);
      var s := calls[n].All();
      assert {} + Tree(t) == Tree(t);
      forall i | 0 <= i < |s| ensures From(s[i], res, Tree(t) + ArgSet(s[..i])) {
        assert From(calls[n].All()[i], res, Before(calls, n, i));
      }
      OrderedArgsFrom(res, Tree(t), s);
    }
  }

  /** Each argument has one place. */
  lemma {:induction false} OnePlace(calls: seq<Call>, k: nat, i: nat, l: nat, j: nat)
    requires Distinct(calls) && k < |calls| && i < |calls[k].All()| && l < |calls| && j < |calls[l].All()|
    requires calls[k].All()[i] == calls[l].All()[j]
    ensures k == l && i == j
    decreases |calls|
  {
    var n := |calls| - 1;
    assert calls[k].All()[i] in ArgSet(calls[k].All()) && calls[l].All()[j] in ArgSet(calls[l].All());
    if k < n && l < n {
      OnePlace(calls[..n], k, i, l, j);
    } else if k < n {
      InCall(calls[..n], k, i);
    } else if l < n {
      InCall(calls[..n], l, j);
    }
  }

  lemma {:induction false} InCall(calls: seq<Call>, k: nat, i: nat)
    requires k < |calls| && i < |calls[k].All()|
    ensures calls[k].All()[i] in Tree(calls)
    decreases |calls|
  {
    var n := |calls| - 1;
    if k < n { InCall(calls[..n], k, i); } else { assert calls[n].All()[i] in ArgSet(calls[n].All()); }
  }

  lemma {:induction false} HasPlace(calls: seq<Call>, a: ResultArg) returns (k: nat, i: nat)
    requires a in Tree(calls)
    ensures k < |calls| && i < |calls[k].All()| && calls[k].All()[i] == a
    decreases |calls|
  {
    var n := |calls| - 1;
    if a in calls[n].All() {
      k := n;
      i :| 0 <= i < |calls[n].All()| && calls[n].All()[i] == a;
    } else {
      k, i := HasPlace(calls[..n], a);
    }
  }

  /** An argument is not among those visited before it. */
  lemma {:induction false} NotBefore(calls: seq<Call>, k: nat, i: nat)
    requires Distinct(calls) && k < |calls| && i < |calls[k].All()|
    ensures calls[k].All()[i] !in Before(calls, k, i)
  {
    var a := calls[k].All()[i];
    if a in Before(calls, k, i) {
      if a in Tree(calls[..k]) {
        var l, j := HasPlace(calls[..k], a);
        OnePlace(calls, k, i, l, j);
      } else {
        var j :| 0 <= j < i && calls[k].All()[j] == a;
        OnePlace(calls, k, i, k, j);
      }
    }
  }

  /** No argument of a sound program is its own producer. */
  lemma {:induction false} NotOwnProducer(res: Producers, calls: seq<Call>, a: ResultArg)
    requires Distinct(calls) && OrderedAfter(res, {}, calls) && a in Tree(calls)
    ensures a in res && res[a] != a
  {
    var k, i := HasPlace(calls, a);
    OrderedAt(res, calls, k, i);
    NotBefore(calls, k, i);
  }

  // ----- removing and inserting calls -----

  /** What removing the arguments R leaves of S. */
  twostate predicate OnlyRemoved(S: set<ResultArg>, R: set<ResultArg>)
    reads S
  {
    forall b :: b in S - R ==> BodyOf(b) == Without(old(BodyOf(b)), R) && b.uses == old(b.uses) - R
  }

  /** R has been removed from S, where the bodies and users were as given. */
  ghost predicate Pruned(S: set<ResultArg>, R: set<ResultArg>, body: map<ResultArg, Body>,
                         uses: map<ResultArg, set<ResultArg>>)
    reads S
  {
    && Linked(S - R) && body.Keys == S && uses.Keys == S
    && forall b :: b in S - R ==> BodyOf(b) == Without(body[b], R) && b.uses == uses[b] - R
  }

  method RemoveNext(a: ResultArg, ghost S: set<ResultArg>, ghost R: set<ResultArg>,
                    ghost body: map<ResultArg, Body>, ghost uses: map<ResultArg, set<ResultArg>>)
    requires Pruned(S, R, body, uses) && a in S - R && body[a].res != a
    modifies S - R
    ensures Pruned(S, R + {a}, body, uses)
  {
    hide LinkOk, Without;
    ghost var T := S - R;
    WithoutRes(body[a], R);
    RemoveArg(a, T);
    assert T - {a} == S - (R + {a});
    forall b | b in T - {a} ensures BodyOf(b) == Without(body[b], R + {a}) && b.uses == uses[b] - (R + {a}) {
      WithoutMore(body[b], R, a);
    }
  }

  /** removeArg for each of the arguments in turn. */
  method RemoveArgs(args: seq<ResultArg>, ghost S: set<ResultArg>,
                    ghost body: map<ResultArg, Body>, ghost uses: map<ResultArg, set<ResultArg>>)
    requires Pruned(S, {}, body, uses) && NoDup(args) && ArgSet(args) <= S && forall a :: a in S ==> body[a].res != a
    modifies S
    ensures Pruned(S, ArgSet(args), body, uses)
  {
    hide Pruned;
    assert ArgSet(args[..0]) == {};
    for i := 0 to |args|
      invariant Pruned(S, ArgSet(args[..i]), body, uses)
    {
      assert args[i] in ArgSet(args) && args[i] !in ArgSet(args[..i]);
      RemoveNext(args[i], S, ArgSet(args[..i]), body, uses);
      assert ArgSet(args[..i + 1]) == ArgSet(args[..i]) + {args[i]};
    }
    assert args[..|args|] == args;
  }

  lemma NothingPruned(S: set<ResultArg>)
    requires Linked(S)
    ensures Pruned(S, {}, map a | a in S :: BodyOf(a), map a | a in S :: a.uses)
  {
    assert S - {} == S;
  }

  class Prog {
    var calls: seq<Call>

    constructor (calls: seq<Call>)
      ensures this.calls == calls
    {
      this.calls := calls;
    }

    /** RemoveCall: the links stay sound, and only the users of the removed results change. */
    method RemoveCall(idx: nat, ghost S: set<ResultArg>)
      requires idx < |calls| && Sound(calls, S)
      modifies this, S
      ensures calls == old(calls)[..idx] + old(calls)[idx + 1..]
      ensures Sound(calls, S - ArgSet(old(calls)[idx].All())) && OnlyRemoved(S, ArgSet(old(calls)[idx].All()))
      ensures old(Legal(calls, BodiesOf(S))) ==> Legal(calls, BodiesOf(S - ArgSet(old(calls)[idx].All())))
    {
      hide Tree, Distinct, OrderedAfter, Linked, Legal, Without;
      var c := calls[idx];
      ghost var before, after, body := calls[..idx], calls[idx + 1..], BodiesOf(S);
      assert calls == before + [c] + after;
      RemoveFrom(before, c, after, S);
      calls := calls[..idx] + calls[idx + 1..];
      if Legal(before + [c] + after, body) { RemovedLegal(before, c, after, body, BodiesOf(S - ArgSet(c.All()))); }
    }

    /** insertBefore: the calls go before the first occurrence of c, or to the end. */
    method InsertBefore(c: Call?, more: seq<Call>, ghost S: set<ResultArg>, ghost M: set<ResultArg>)
      requires S == Tree(calls) && Distinct(calls) && OrderedAfter(ProducersOf(S), {}, calls)
      requires M == Tree(more) && Distinct(more)
      requires OrderedAfter(ProducersOf(S + M), Tree(calls[..Find(calls, c)]), more)
      requires S !! M && Linked(S + M)
      modifies this
      ensures calls == old(calls)[..Find(old(calls), c)] + more + old(calls)[Find(old(calls), c)..]
      ensures Sound(calls, S + M)
    {
      hide Tree, Distinct, OrderedAfter, Linked;
      ghost var k := Find(calls, c);
      var idx := 0;
      while idx < |calls|
        invariant idx <= |calls| && k == idx + Find(calls[idx..], c)
      {
        if calls[idx] == c { break; }
        assert calls[idx..][1..] == calls[idx + 1..];
        idx := idx + 1;
      }
      var newCalls := calls[..idx] + more;
      if idx < |calls| { newCalls := newCalls + [calls[idx]] + calls[idx + 1..]; }
      assert newCalls == calls[..k] + more + calls[k..];
      InsertedSound(calls, k, more, ProducersOf(S + M), ProducersOf(S));
      calls := newCalls;
    }
  }

  /** The arguments of one of the calls are removed. */
  method RemoveFrom(ghost before: seq<Call>, c: Call, ghost after: seq<Call>, ghost S: set<ResultArg>)
    requires Sound(before + [c] + after, S)
    modifies S
    ensures Sound(before + after, S - ArgSet(c.All())) && OnlyRemoved(S, ArgSet(c.All()))
  {
    hide Tree, Distinct, OrderedAfter, LinkOk, Without;
    ghost var all, was, body := before + [c] + after, ProducersOf(S), BodiesOf(S);
    CallApart(before, c, after);
    forall a | a in S ensures a.res != a { NotOwnProducer(was, all, a); }
    RemoveAll(c, S);
    ghost var rest := S - ArgSet(c.All());
    forall a | a in rest ensures a.res == if was[a] in ArgSet(c.All()) then null else was[a] {
      WithoutRes(body[a], ArgSet(c.All()));
    }
    RemovedOrdered(was, before, c, after, ProducersOf(rest));
  }

  /** The arguments of a call are removed, the return value last. */
  method RemoveAll(c: Call, ghost S: set<ResultArg>)
    requires Linked(S) && NoDup(c.args) && ArgSet(c.All()) <= S && (c.ret != null ==> c.ret !in c.args)
    requires forall a :: a in S ==> a.res != a
    modifies S
    ensures Linked(S - ArgSet(c.All())) && OnlyRemoved(S, ArgSet(c.All()))
  {
    hide Linked, Without;
    ghost var body, uses := map a | a in S :: BodyOf(a), map a | a in S :: a.uses;
    NothingPruned(S);
    assert ArgSet(c.All()) == ArgSet(c.args) + Of(c.ret);
    RemoveArgs(c.args, S, body, uses);
    if c.ret == null {
      assert ArgSet(c.All()) == ArgSet(c.args);
    } else {
      RemoveNext(c.ret, S, ArgSet(c.args), body, uses);
      assert ArgSet(c.All()) == ArgSet(c.args) + {c.ret};
    }
    assert Pruned(S, ArgSet(c.All()), body, uses);
  }

  /** Where c stands first. */
  function Find(calls: seq<Call>, c: Call?): (k: nat)
    ensures k <= |calls| && (k < |calls| ==> calls[k] == c) && forall j :: 0 <= j < k ==> calls[j] != c
  {
    if calls == [] || calls[0] == c then 0 else 1 + Find(calls[1..], c)
  }

  /** A call's arguments are apart from those of the other calls. */
  lemma CallApart(before: seq<Call>, c: Call, after: seq<Call>)
    requires Distinct(before + [c] + after)
    ensures Tree(before + [c] + after) == Tree(before) + ArgSet(c.All()) + Tree(after)
    ensures NoDup(c.All()) && NoDup(c.args) && (c.ret != null ==> c.ret !in c.args)
    ensures Tree(before + after) == Tree(before + [c] + after) - ArgSet(c.All()) && Distinct(before + after)
  {
    DistinctConcat(before + [c], after);
    DistinctConcat(before, [c]);
    DistinctConcat(before, after);
    TreeConcat(before + [c], after);
    TreeConcat(before, [c]);
    TreeConcat(before, after);
    assert [c][..0] == [] && Tree([]) == {};
    forall i, j | 0 <= i < j < |c.args| ensures c.args[i] != c.args[j] { ArgPlace(c, i); ArgPlace(c, j); }
    if c.ret != null {
      forall i | 0 <= i < |c.args| ensures c.args[i] != c.ret { ArgPlace(c, i); }
    }
  }

  lemma ArgPlace(c: Call, i: nat)
    requires i < |c.args|
    ensures var off := if c.ret == null then 0 else 1; off + i < |c.All()| && c.All()[off + i] == c.args[i]
    ensures c.ret != null ==> c.All()[0] == c.ret
  {
  }

  lemma RemovedOrdered(was: Producers, before: seq<Call>, c: Call, after: seq<Call>, now: Producers)
    requires OrderedAfter(was, {}, before + [c] + after)
    requires forall a :: a in Tree(before + after) && a in was ==>
      a in now && now[a] == if was[a] in ArgSet(c.All()) then null else was[a]
    ensures OrderedAfter(now, {}, before + after)
  {
    OrderedConcat(was, {}, before + [c], after);
    OrderedConcat(was, {}, before, [c]);
    OrderedConcat(now, {}, before, after);
    TreeConcat(before, [c]);
    TreeConcat(before, after);
    assert [c][..0] == [] && Tree([c]) == ArgSet(c.All());
    OrderedStays(was, {}, now, {}, before);
    OrderedStays(was, {} + Tree(before + [c]), now, {} + Tree(before), after);
  }

  lemma InsertedSound(calls: seq<Call>, k: nat, more: seq<Call>, res: Producers, was: Producers)
    requires k <= |calls| && Distinct(calls) && Distinct(more) && Tree(calls) !! Tree(more)
    requires OrderedAfter(was, {}, calls) && OrderedAfter(res, Tree(calls[..k]), more)
    requires forall a :: a in was ==> a in res && res[a] == was[a]
    ensures var all := calls[..k] + more + calls[k..];
      Distinct(all) && Tree(all) == Tree(calls) + Tree(more) && OrderedAfter(res, {}, all)
  {
    hide Distinct, Tree, OrderedAfter;
    var before, after := calls[..k], calls[k..];
    assert calls == before + after;
    DistinctConcat(before, after);
    DistinctConcat(before, more);
    DistinctConcat(before + more, after);
    TreeConcat(before, after);
    TreeConcat(before, more);
    TreeConcat(before + more, after);
    OrderedConcat(was, {}, before, after);
    OrderedConcat(res, {}, before, more);
    OrderedConcat(res, {}, before + more, after);
    OrderedStays(was, {}, res, {}, before);
    OrderedStays(was, {} + Tree(before), res, {} + Tree(before + more), after);
    assert {} + Tree(before) == Tree(before);
  }

  // ----- replacing an argument -----

  /** Giving one argument a producer visited before it keeps the order. */
  lemma {:induction false} ReplacedOrdered(was: Producers, calls: seq<Call>, k: nat, i: nat, r: ResultArg?)
    requires Distinct(calls) && OrderedAfter(was, {}, calls) && k < |calls| && i < |calls[k].All()|
    requires Of(r) <= Before(calls, k, i)
    ensures OrderedAfter(was[calls[k].All()[i] := r], {}, calls)
  {
    hide Distinct, OrderedAfter, Before;
    var arg := calls[k].All()[i];
    var now := was[arg := r];
    forall l, j | 0 <= l < |calls| && 0 <= j < |calls[l].All()|
      ensures From(calls[l].All()[j], now, Before(calls, l, j))
    {
      OrderedAt(was, calls, l, j);
      if calls[l].All()[j] == arg { OnePlace(calls, l, j, k, i); }
    }
    OrderedFrom(now, calls);
  }

  /** replaceResultArg in a program, by a new argument whose producer is visited before. */
  method ReplaceIn(p: Prog, k: nat, i: nat, dir: Dir, r: ResultArg?, v: int, ghost S: set<ResultArg>)
    requires Sound(p.calls, S) && k < |p.calls| && i < |p.calls[k].All()| && Of(r) <= Before(p.calls, k, i)
    modifies S
    ensures Sound(p.calls, S) && p.calls[k].All()[i] in S && p.calls[k].All()[i].uses == old(p.calls[k].All()[i].uses)
    ensures var arg := p.calls[k].All()[i];
      var next := Body(dir, r, 0, 0, v, old(arg.deflt));
      && BodiesOf(S) == old(BodiesOf(S))[arg := next]
      && (old(Legal(p.calls, BodiesOf(S))) && Fits(p.calls[k], i, next, old(BodiesOf(S))) ==>
            Legal(p.calls, BodiesOf(S)))
  {
    hide Tree, Distinct, OrderedAfter, Linked, Legal, Fits, Before;
    var arg := p.calls[k].All()[i];
    ghost var body, next := BodiesOf(S), Body(dir, r, 0, 0, v, arg.deflt);
    NotBefore(p.calls, k, i);
    ReplaceSound(p, k, i, dir, r, v, S);
    if Legal(p.calls, body) && Fits(p.calls[k], i, next, body) { ReplacedLegal(p.calls, body, k, i, next); }
  }

  method ReplaceSound(p: Prog, k: nat, i: nat, dir: Dir, r: ResultArg?, v: int, ghost S: set<ResultArg>)
    requires Sound(p.calls, S) && k < |p.calls| && i < |p.calls[k].All()| && Of(r) <= Before(p.calls, k, i)
    modifies S
    ensures Sound(p.calls, S) && p.calls[k].All()[i] in S && p.calls[k].All()[i].uses == old(p.calls[k].All()[i].uses)
    ensures var arg := p.calls[k].All()[i];
      BodiesOf(S) == old(BodiesOf(S))[arg := Body(dir, r, 0, 0, v, old(arg.deflt))]
  {
    hide Tree, Distinct, OrderedAfter, LinkOk;
    var arg := p.calls[k].All()[i];
    ghost var was := ProducersOf(S);
    BeforeWithin(p.calls, k, i);
    NotBefore(p.calls, k, i);
    NotOwnProducer(was, p.calls, arg);
    ReplacedOrdered(was, p.calls, k, i, r);
    ProducerIn(arg, S);
    var arg1 := MakeResultArg(dir, r, v, arg.deflt, S);
    ReplaceLinked(arg, arg1, S + {arg1});
    assert S + {arg1} - {arg1} == S;
    assert ProducersOf(S) == was[arg := r];
  }

  lemma {:induction false} BeforeWithin(calls: seq<Call>, k: nat, i: nat)
    requires k < |calls| && i < |calls[k].All()|
    ensures Before(calls, k, i) <= Tree(calls) && calls[k].All()[i] in Tree(calls)
  {
    InCall(calls, k, i);
    TreePrefix(calls, k);
    forall j | 0 <= j < i ensures calls[k].All()[j] in Tree(calls) { InCall(calls, k, j); }
  }

  // ----- what validation demands stays -----

  /** Nothing refers to a. */
  predicate Unused(a: ResultArg, body: Bodies) { forall b :: b in body ==> body[b].res != a }

  /** What must hold of a new body for argument i of a call. */
  predicate Fits(c: Call, i: nat, next: Body, body: Bodies)
    requires i < |c.All()|
  {
    && RefLegal(c, next.res, body) && OutLegal(next) && (c.All()[i] == c.ret ==> RetLegal(next))
    && (next.dir == In ==> Unused(c.All()[i], body))
    && (c.All()[i] != c.ret ==> i < |c.AllMemory()| && (!c.AllMemory()[i] ==> next.dir == In))
  }

  lemma {:induction false} ReplacedLegal(calls: seq<Call>, body: Bodies, k: nat, i: nat, next: Body)
    requires Distinct(calls) && Legal(calls, body) && k < |calls| && i < |calls[k].All()|
    requires Fits(calls[k], i, next, body) && next.res != calls[k].All()[i]
    ensures Legal(calls, body[calls[k].All()[i] := next])
  {
    hide Distinct;
    var arg := calls[k].All()[i];
    var now := body[arg := next];
    forall l | 0 <= l < |calls| ensures CallLegal(calls[l], now) {
      assert CallLegal(calls[l], body);
      if calls[l].ret == arg {
        assert calls[l].All()[0] == arg;
        OnePlace(calls, l, 0, k, i);
      }
      forall j | 0 <= j < |calls[l].args| ensures ArgLegal(calls[l], j, now) {
        assert ArgLegal(calls[l], j, body);
        ArgPlace(calls[l], j);
        var off := if calls[l].ret == null then 0 else 1;
        if calls[l].args[j] == arg { OnePlace(calls, l, off + j, k, i); }
      }
    }
  }

  lemma {:induction false} RemovedLegal(before: seq<Call>, c: Call, after: seq<Call>, body: Bodies, now: Bodies)
    requires Distinct(before + [c] + after) && Legal(before + [c] + after, body)
    requires now.Keys == body.Keys - ArgSet(c.All())
    requires forall a :: a in now ==> now[a] == Without(body[a], ArgSet(c.All()))
    ensures Legal(before + after, now)
  {
    hide Distinct, Tree;
    CallApart(before, c, after);
    var all, rest := before + [c] + after, before + after;
    forall l | 0 <= l < |rest| ensures CallLegal(rest[l], now) {
      assert CallLegal(all[if l < |before| then l else l + 1], body);
      forall j | 0 <= j < |rest[l].All()| ensures rest[l].All()[j] !in ArgSet(c.All()) { InCall(rest, l, j); }
      if rest[l].ret != null { assert rest[l].All()[0] == rest[l].ret; }
      forall j | 0 <= j < |rest[l].args| ensures ArgLegal(rest[l], j, now) {
        assert ArgLegal(rest[l], j, body);
        ArgPlace(rest[l], j);
      }
    }
  }

  /** More arguments change nothing. */
  lemma GrownLegal(c: Call, body: Bodies, now: Bodies)
    requires CallLegal(c, body) && forall a :: a in body ==> a in now && now[a] == body[a]
    ensures CallLegal(c, now)
  {
    forall j | 0 <= j < |c.args| ensures ArgLegal(c, j, now) { assert ArgLegal(c, j, body); }
  }

  lemma InsertedLegal(calls: seq<Call>, k: nat, c: Call, body: Bodies, now: Bodies)
    requires k <= |calls| && Legal(calls, body) && CallLegal(c, now)
    requires forall a :: a in body ==> a in now && now[a] == body[a]
    ensures Legal(calls[..k] + [c] + calls[k..], now)
  {
    hide CallLegal;
    var all := calls[..k] + [c] + calls[k..];
    forall l | 0 <= l < |all| ensures CallLegal(all[l], now) {
      if l != k { GrownLegal(calls[if l < k then l else l - 1], body, now); }
    }
  }
}
