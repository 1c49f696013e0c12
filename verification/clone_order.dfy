/** What validation lets through and Clone does not: an argument that refers to itself. */
module CloneOrder {
  import opened Common
  import opened Links
  import opened Progs
  import opened Clones

  /** validateCall: an argument is entered before its producer is looked up, the return value comes last
      and refers to nothing. */
  ghost predicate CallChecked(res: Producers, S: set<ResultArg>, c: Call) {
    && (forall i :: 0 <= i < |c.args| ==> From(c.args[i], res, S + ArgSet(c.args[..i + 1])))
    && (c.ret != null ==> c.ret in res && res[c.ret] == null)
  }

  ghost predicate Checked(res: Producers, calls: seq<Call>) {
    forall k :: 0 <= k < |calls| ==> CallChecked(res, Tree(calls[..k]), calls[k])
  }

  ghost predicate NoSelf(res: Producers) { forall a :: a in res ==> res[a] != a }

  /** The return value of a call refers to nothing, and its arguments do not refer to it. */
  ghost predicate RetApart(res: Producers, c: Call) {
    c.ret != null ==>
      && c.ret in res && res[c.ret] == null
      && forall i :: 0 <= i < |c.args| && c.args[i] in res ==> res[c.args[i]] != c.ret
  }

  /** The arguments in front of argument i of a call. */
  lemma InFront(c: Call, i: nat)
    requires i < |c.args|
    ensures var j := (if c.ret == null then 0 else 1) + i;
      && j < |c.All()| && c.All()[j] == c.args[i]
      && ArgSet(c.All()[..j]) == Of(c.ret) + ArgSet(c.args[..i])
    ensures ArgSet(c.args[..i + 1]) == ArgSet(c.args[..i]) + {c.args[i]}
  {
    var off := if c.ret == null then 0 else 1;
    var j := off + i;
    assert c.All()[..j] == c.All()[..off] + c.args[..i];
    assert c.args[..i + 1] == c.args[..i] + [c.args[i]];
  }

  /** In one call: checked, with no argument its own producer, is ordered, with the return value apart. */
  lemma {:induction false} CallCheckedIff(res: Producers, S: set<ResultArg>, c: Call)
    requires NoDup(c.All()) && S !! ArgSet(c.All()) && ArgSet(c.All()) <= res.Keys
    ensures CallChecked(res, S, c) && (forall a :: a in c.All() ==> res[a] != a) <==>
      OrderedArgs(res, S, c.All()) && RetApart(res, c)
  {
    if CallChecked(res, S, c) && forall a :: a in c.All() ==> res[a] != a { CheckedOrdered(res, S, c); }
    if OrderedArgs(res, S, c.All()) && RetApart(res, c) { OrderedChecked(res, S, c); }
  }

  lemma RetNotArg(c: Call, i: nat)
    requires NoDup(c.All()) && i < |c.args|
    ensures c.args[i] != c.ret && c.args[i] in ArgSet(c.All()) && Of(c.ret) <= ArgSet(c.All())
  {
    InFront(c, i);
    if c.ret != null { assert c.All()[0] == c.ret; }
  }

  lemma {:induction false} CheckedOrdered(res: Producers, S: set<ResultArg>, c: Call)
    requires NoDup(c.All()) && S !! ArgSet(c.All()) && ArgSet(c.All()) <= res.Keys
    requires CallChecked(res, S, c) && forall a :: a in c.All() ==> res[a] != a
    ensures OrderedArgs(res, S, c.All()) && RetApart(res, c)
  {
    var s, off := c.All(), if c.ret == null then 0 else 1;
    forall j | 0 <= j < |s| ensures From(s[j], res, S + ArgSet(s[..j])) {
      if j >= off {
        InFront(c, j - off);
        assert From(c.args[j - off], res, S + ArgSet(c.args[..j - off + 1]));
        assert c.args[j - off] in c.All();
      }
    }
    OrderedArgsFrom(res, S, s);
    forall i | 0 <= i < |c.args| ensures c.ret != null ==> res[c.args[i]] != c.ret {
      RetNotArg(c, i);
      assert From(c.args[i], res, S + ArgSet(c.args[..i + 1]));
      forall l | 0 <= l <= i ensures c.args[l] != c.ret { RetNotArg(c, l); }
    }
  }

  lemma {:induction false} OrderedChecked(res: Producers, S: set<ResultArg>, c: Call)
    requires NoDup(c.All()) && S !! ArgSet(c.All()) && ArgSet(c.All()) <= res.Keys
    requires OrderedArgs(res, S, c.All()) && RetApart(res, c)
    ensures CallChecked(res, S, c) && forall a :: a in c.All() ==> res[a] != a
  {
    var s, off := c.All(), if c.ret == null then 0 else 1;
    forall i | 0 <= i < |c.args| ensures From(c.args[i], res, S + ArgSet(c.args[..i + 1])) {
      InFront(c, i);
      OrderedArgAt(res, S, s, off + i);
    }
    forall j | 0 <= j < |s| ensures res[s[j]] != s[j] {
      OrderedArgAt(res, S, s, j);
      assert s[j] in ArgSet(s);
    }
  }

  /** Validation's order, with no argument its own producer, is the order in which producers are visited
      before their users, with return values apart. */
  lemma {:induction false} CheckedIff(res: Producers, calls: seq<Call>)
    requires Distinct(calls) && res.Keys == Tree(calls)
    ensures Checked(res, calls) && NoSelf(res) <==>
      OrderedAfter(res, {}, calls) && forall k :: 0 <= k < |calls| ==> RetApart(res, calls[k])
  {
    hide Distinct, OrderedAfter, Tree, OrderedArgs, CallChecked, RetApart;
    SelfFree(res, calls);
    OrderedIff(res, calls);
    forall k | 0 <= k < |calls|
      ensures CallChecked(res, Tree(calls[..k]), calls[k]) && (forall a :: a in calls[k].All() ==> res[a] != a) <==>
        OrderedArgs(res, Tree(calls[..k]), calls[k].All()) && RetApart(res, calls[k])
    {
      CallReady(calls, res, k);
      CallCheckedIff(res, Tree(calls[..k]), calls[k]);
    }
  }

  /** No argument is its own producer if none is in any call. */
  lemma {:induction false} SelfFree(res: Producers, calls: seq<Call>)
    requires res.Keys == Tree(calls)
    ensures forall k, i :: 0 <= k < |calls| && 0 <= i < |calls[k].All()| ==> calls[k].All()[i] in res
    ensures NoSelf(res) <==>
      forall k :: 0 <= k < |calls| ==> forall a :: a in calls[k].All() ==> a in res && res[a] != a
  {
    hide Tree;
    forall k, i | 0 <= k < |calls| && 0 <= i < |calls[k].All()| ensures calls[k].All()[i] in res {
      InCall(calls, k, i);
    }
    if forall k :: 0 <= k < |calls| ==> forall a :: a in calls[k].All() ==> a in res && res[a] != a {
      forall a | a in res ensures res[a] != a {
        var k, i := HasPlace(calls, a);
        assert calls[k].All()[i] in calls[k].All();
      }
    }
  }

  /** A program is in order if each of its calls is. */
  lemma {:induction false} OrderedIff(res: Producers, calls: seq<Call>)
    ensures OrderedAfter(res, {}, calls) <==>
      forall k :: 0 <= k < |calls| ==> OrderedArgs(res, Tree(calls[..k]), calls[k].All())
    decreases |calls|
  {
    hide Tree, OrderedArgs;
    if calls != [] {
      var n := |calls| - 1;
      var t := calls[..n];
      OrderedIff(res, t);
      assert {} + Tree(t) == Tree(t);
      forall k | 0 <= k < n ensures t[..k] == calls[..k] && t[k] == calls[k] {}
    }
  }

  /** So of the programs that pass validation exactly those without an argument that refers to itself
      have every producer cloned when it is looked up. */
  lemma {:induction false} CheckedClones(res: Producers, calls: seq<Call>)
    requires Distinct(calls) && res.Keys == Tree(calls) && Checked(res, calls)
    ensures OrderedAfter(res, {}, calls) <==> NoSelf(res)
  {
    hide Distinct, OrderedAfter, Tree, Checked, RetApart;
    CheckedIff(res, calls);
    if OrderedAfter(res, {}, calls) {
      forall a | a in res ensures res[a] != a { NotOwnProducer(res, calls, a); }
    }
  }

  /** A program of one call whose one argument refers to itself. */
  method MakeSelf() returns (p: Prog, a: ResultArg)
    ensures |p.calls| == 1 && p.calls[0].All() == [a] && a.res == a && a.uses == {a}
    ensures Linked({a}) && Tree(p.calls) == {a} && Distinct(p.calls)
    ensures Checked(ProducersOf({a}), p.calls) && Legal(p.calls, BodiesOf({a}))
  {
    hide Tree, Distinct, Checked;
    a := new ResultArg(InOut, null, 0, 0);
    a.res, a.uses := a, {a};
    var c := new Call(null, [a], [true], false);
    p := new Prog([c]);
    OneArg(c, a, ProducersOf({a}));
    assert ArgLegal(c, 0, BodiesOf({a}));
  }

  /** It passes validation, and Clone fails. */
  method SelfReference() returns (p: Prog, a: ResultArg, p1: Prog?)
    ensures |p.calls| == 1 && p.calls[0].All() == [a] && a.res == a
    ensures Linked({a}) && Tree(p.calls) == {a} && Distinct(p.calls)
    ensures Checked(ProducersOf({a}), p.calls) && Legal(p.calls, BodiesOf({a}))
    ensures p1 == null
  {
    hide Tree, Distinct, OrderedAfter, Checked, Linked, Legal, Cloned, Images, Sound, Apart, LikeCall;
    p, a := MakeSelf();
    CheckedClones(ProducersOf({a}), p.calls);
    assert !NoSelf(ProducersOf({a}));
    var m;
    p1, m := Clone(p, {a});
  }

  lemma OneArg(c: Call, a: ResultArg, res: Producers)
    requires c.ret == null && c.args == [a] && a in res && res[a] == a
    ensures Tree([c]) == {a} && Distinct([c]) && Checked(res, [c])
  {
    assert c.All() == [a] && ArgSet([a]) == {a} && [c][..0] == [] && Tree([]) == {} && [a][..1] == [a];
    assert CallChecked(res, Tree([c][..0]), c);
  }
}
