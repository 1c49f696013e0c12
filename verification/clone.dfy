/** Clone: a copy of a program whose links mirror the original's. */
module Clones {
  import opened Common
  import opened Links
  import opened Progs

  type NewArgs = map<ResultArg, ResultArg>

  ghost predicate Injective(m: NewArgs) { forall a, b :: a in m && b in m && m[a] == m[b] ==> a == b }

  /** `copy` is the copy of the producer r, if there is one. */
  ghost predicate ProducerCopied(m: NewArgs, r: ResultArg?, copy: ResultArg?) {
    if r == null then copy == null else r in m && copy == m[r]
  }

  /** The copies of users, among those copied so far, are the users of the copy. */
  ghost predicate UsersCopied(m: NewArgs, users: set<ResultArg>, copies: set<ResultArg>) {
    copies <= m.Values && forall u :: u in m ==> (m[u] in copies <==> u in users)
  }

  ghost predicate SameFields(a: ResultArg, b: ResultArg)
    reads a, b
  {
    b.dir == a.dir && b.opDiv == a.opDiv && b.opAdd == a.opAdd && b.val == a.val && b.deflt == a.deflt
  }

  /** The copy of a: same fields, and links to the copies of what a is linked to. */
  ghost predicate CopyOf(m: NewArgs, a: ResultArg)
    requires a in m
    reads a, m[a]
  {
    SameFields(a, m[a]) && ProducerCopied(m, a.res, m[a].res) && UsersCopied(m, a.uses, m[a].uses)
  }

  ghost predicate Cloned(m: NewArgs)
    reads m.Keys, m.Values
  {
    Injective(m) && forall a :: a in m ==> CopyOf(m, a)
  }

  /** clone of a result argument, with a map: its producer has been cloned, it and its users have not. */
  method CloneResult(a: ResultArg, m: NewArgs, ghost S: set<ResultArg>) returns (a1: ResultArg, m1: NewArgs)
    requires Linked(S) && a in S && m.Keys <= S && S !! m.Values && Cloned(m)
    requires a !in m && (a.res != null ==> a.res in m)
    modifies m.Values
    ensures fresh(a1) && m1 == m[a := a1] && Cloned(m1)
  {
    hide Linked, ProducerCopied, UsersCopied, Injective;
    NotYetUsed(a, m, S);
    a1 := new ResultArg(a.dir, a.res, a.val, a.deflt);
    a1.opDiv, a1.opAdd := a.opDiv, a.opAdd;
    m1 := m[a := a1];
    if a1.res != null {
      var r := m[a1.res];
      a1.res := r;
      r.uses := r.uses + {a1};
    }
    StillInjective(m, a, a1);
    forall b | b in m1 ensures CopyOf(m1, b) {
      if b == a {
        FirstCopy(m, a, a1, a.res, a1.res, a.uses);
      } else {
        assert old(CopyOf(m, b));
        CopyGrows(m, a, a1, b.res, m[b].res, b.uses, old(m[b].uses), m[b].uses);
      }
    }
  }

  lemma StillInjective(m: NewArgs, a: ResultArg, a1: ResultArg)
    requires Injective(m) && a1 !in m.Values
    ensures Injective(m[a := a1])
  {
    forall u | u in m ensures m[u] != a1 { assert m[u] in m.Values; }
  }

  lemma FirstCopy(m: NewArgs, a: ResultArg, a1: ResultArg, r: ResultArg?, copy: ResultArg?, users: set<ResultArg>)
    requires a !in m && (if r == null then copy == null else r in m && copy == m[r]) && a !in users
    requires forall u :: u in m ==> u !in users
    ensures ProducerCopied(m[a := a1], r, copy) && UsersCopied(m[a := a1], users, {})
  {
  }

  lemma CopyGrows(m: NewArgs, a: ResultArg, a1: ResultArg, r: ResultArg?, copy: ResultArg?,
                  users: set<ResultArg>, was: set<ResultArg>, now: set<ResultArg>)
    requires a !in m && a1 !in m.Values && ProducerCopied(m, r, copy) && UsersCopied(m, users, was)
    requires now == was + if a in users then {a1} else {}
    ensures ProducerCopied(m[a := a1], r, copy) && UsersCopied(m[a := a1], users, now)
  {
    ValuesGrow(m, a, a1);
    forall u | u in m ensures m[u] != a1 { assert m[u] in m.Values; }
  }

  lemma ValuesGrow(m: NewArgs, a: ResultArg, a1: ResultArg)
    requires a !in m
    ensures m[a := a1].Values == m.Values + {a1}
  {
    forall v | v in m.Values ensures v in m[a := a1].Values {
      var k :| k in m && m[k] == v;
      assert m[a := a1][k] == v;
    }
    assert m[a := a1][a] == a1;
  }

  /** Before a is cloned: none of its users has been, and of the cloned only its producer has it as a user. */
  lemma NotYetUsed(a: ResultArg, m: NewArgs, S: set<ResultArg>)
    requires Linked(S) && a in S && m.Keys <= S && a !in m && (a.res != null ==> a.res in m) && Cloned(m)
    ensures a !in a.uses && forall u :: u in m ==> u !in a.uses
    ensures forall b :: b in m ==> (a in b.uses <==> b == a.res) && (a.res != null && m[b] == m[a.res] ==> b == a.res)
  {
    assert LinkOk(a, S);
    forall u | u in m ensures u !in a.uses { assert CopyOf(m, u); }
    forall b | b in m ensures a in b.uses <==> b == a.res { assert LinkOk(b, S); }
  }

  // ----- calls -----

  ghost predicate Covers(m: NewArgs, s: seq<ResultArg>) { forall i :: 0 <= i < |s| ==> s[i] in m }

  function MapSeq(m: NewArgs, s: seq<ResultArg>): (t: seq<ResultArg>)
    requires Covers(m, s)
    ensures |t| == |s|
  {
    seq(|s|, i requires 0 <= i < |s| => m[s[i]])
  }

  /** m1 is m with the arguments s added. */
  ghost predicate Extends(m: NewArgs, m1: NewArgs, s: seq<ResultArg>) {
    m1.Keys == m.Keys + ArgSet(s) && m.Values <= m1.Values && forall a :: a in m ==> m1[a] == m[a]
  }

  /** The arguments in turn; the lookup of a producer that has no copy yet is the end of it. */
  method CloneArgs(args: seq<ResultArg>, m: NewArgs, ghost S: set<ResultArg>)
    returns (ok: bool, args1: seq<ResultArg>, m1: NewArgs)
    requires Linked(S) && m.Keys <= S && S !! m.Values && Cloned(m)
    requires NoDup(args) && ArgSet(args) <= S && ArgSet(args) !! m.Keys
    modifies m.Values
    ensures ok <==> OrderedArgs(ProducersOf(S), m.Keys, args)
    ensures ok ==> Extends(m, m1, args) && fresh(m1.Values - m.Values) && S !! m1.Values && Cloned(m1)
    ensures ok ==> Covers(m1, args) && args1 == MapSeq(m1, args)
  {
    hide Linked, CopyOf, Injective, Extends, Covers, MapSeq, Cloned, OrderedArgs;
    ghost var res := ProducersOf(S);
    args1, m1 := [], m;
    NothingAdded(m, res);
    assert args[..0] == [];
    for i := 0 to |args|
      invariant Extends(m, m1, args[..i]) && fresh(m1.Values - m.Values) && S !! m1.Values && Cloned(m1)
      invariant Covers(m1, args[..i]) && args1 == MapSeq(m1, args[..i]) && OrderedArgs(res, m.Keys, args[..i])
    {
      ghost var m0 := m1;
      NextArg(args, i, m, m1, S, res);
      if args[i].res != null && args[i].res !in m1 { return false, args1, m1; }
      var a1;
      a1, m1 := CloneResult(args[i], m1, S);
      OneAdded(m, m0, args[..i], args[i], a1);
      assert args[..i] + [args[i]] == args[..i + 1];
      args1 := args1 + [a1];
    }
    assert args[..|args|] == args;
    ok := true;
  }

  lemma NothingAdded(m: NewArgs, res: Producers)
    ensures Extends(m, m, []) && Covers(m, []) && MapSeq(m, []) == [] && OrderedArgs(res, m.Keys, [])
  {
  }

  /** The arguments are in order if and only if the producer of each next one has been cloned. */
  lemma NextArg(args: seq<ResultArg>, i: nat, m: NewArgs, m1: NewArgs, S: set<ResultArg>, res: Producers)
    requires i < |args| && NoDup(args) && ArgSet(args) <= S && ArgSet(args) !! m.Keys && m.Keys <= S && res.Keys == S
    requires Extends(m, m1, args[..i]) && OrderedArgs(res, m.Keys, args[..i])
    ensures args[i] in S && args[i] !in m1 && m1.Keys <= S
    ensures OrderedArgs(res, m.Keys, args[..i + 1]) <==> From(args[i], res, m1.Keys)
    ensures OrderedArgs(res, m.Keys, args) ==> From(args[i], res, m1.Keys)
  {
    assert args[i] in ArgSet(args) && args[i] !in args[..i];
    assert args[..i + 1][..i] == args[..i];
    if OrderedArgs(res, m.Keys, args) { OrderedArgAt(res, m.Keys, args, i); }
  }

  lemma OneAdded(m: NewArgs, m1: NewArgs, s: seq<ResultArg>, a: ResultArg, a1: ResultArg)
    requires Extends(m, m1, s) && Covers(m1, s) && a !in m1
    ensures Extends(m, m1[a := a1], s + [a]) && m1[a := a1].Values == m1.Values + {a1}
    ensures Covers(m1[a := a1], s + [a]) && MapSeq(m1[a := a1], s + [a]) == MapSeq(m1, s) + [a1]
  {
    ValuesGrow(m1, a, a1);
    assert ArgSet(s + [a]) == ArgSet(s) + {a};
  }

  /** What a copied call has in common with the original besides its arguments. */
  ghost predicate LikeCall(c1: Call, c: Call)
    reads c1, c
  {
    c1.async == c.async && c1.memory == c.memory && (c1.ret == null <==> c.ret == null)
  }

  /** cloneCall, with a map; no call if a producer has no copy. */
  method CloneCall(c: Call, m: NewArgs, ghost S: set<ResultArg>) returns (c1: Call?, m1: NewArgs)
    requires Linked(S) && m.Keys <= S && S !! m.Values && Cloned(m)
    requires NoDup(c.All()) && ArgSet(c.All()) <= S && ArgSet(c.All()) !! m.Keys
    modifies m.Values
    ensures c1 != null <==> OrderedArgs(ProducersOf(S), m.Keys, c.All())
    ensures c1 != null ==> Extends(m, m1, c.All()) && fresh(m1.Values - m.Values) && S !! m1.Values && Cloned(m1)
    ensures c1 != null ==> fresh(c1) && Covers(m1, c.All()) && c1.All() == MapSeq(m1, c.All()) && LikeCall(c1, c)
  {
    hide Linked, Cloned, Extends, OrderedArgs;
    var ok, all;
    ok, all, m1 := CloneArgs(c.All(), m, S);
    if !ok { return null, m1; }
    if c.ret == null {
      c1 := new Call(null, all, c.memory, c.async);
    } else {
      c1 := new Call(all[0], all[1..], c.memory, c.async);
      assert all == [all[0]] + all[1..];
    }
  }

  /** Call by call, the arguments are the images under m. */
  ghost predicate Images(m: NewArgs, orig: seq<Call>, calls: seq<Call>) {
    && |orig| == |calls|
    && forall k :: 0 <= k < |orig| ==> Covers(m, orig[k].All()) && calls[k].All() == MapSeq(m, orig[k].All())
  }

  lemma ImagesGrow(m: NewArgs, m1: NewArgs, s: seq<ResultArg>, orig: seq<Call>, calls: seq<Call>)
    requires Images(m, orig, calls) && Extends(m, m1, s)
    ensures Images(m1, orig, calls)
  {
    forall k | 0 <= k < |orig| ensures Covers(m1, orig[k].All()) && calls[k].All() == MapSeq(m1, orig[k].All()) {
      var t := orig[k].All();
      assert Covers(m, t) && calls[k].All() == MapSeq(m, t);
    }
  }

  /** What a call of a program offers when the calls before it are done. */
  lemma CallReady(orig: seq<Call>, res: Producers, k: nat)
    requires k < |orig| && Distinct(orig)
    ensures NoDup(orig[k].All()) && ArgSet(orig[k].All()) !! Tree(orig[..k]) && ArgSet(orig[k].All()) <= Tree(orig)
    ensures Tree(orig[..k + 1]) == Tree(orig[..k]) + ArgSet(orig[k].All())
    ensures OrderedAfter(res, {}, orig[..k + 1]) <==>
      OrderedAfter(res, {}, orig[..k]) && OrderedArgs(res, Tree(orig[..k]), orig[k].All())
    ensures OrderedAfter(res, {}, orig) ==> OrderedAfter(res, {}, orig[..k + 1])
  {
    hide NoDup, OrderedArgs;
    var s, t := orig[..k + 1], orig[k + 1..];
    assert orig == s + t;
    DistinctConcat(s, t);
    OrderedConcat(res, {}, s, t);
    TreeConcat(s, t);
    assert s[..k] == orig[..k] && {} + Tree(s[..k]) == Tree(s[..k]);
  }

  /** No call object occurs twice. */
  ghost predicate Apart(calls: seq<Call>) { forall i, j :: 0 <= i < j < |calls| ==> calls[i] != calls[j] }

  /** cloneCalls, with a map: nothing that existed before changes. */
  method CloneCalls(orig: seq<Call>, ghost S: set<ResultArg>) returns (ok: bool, calls: seq<Call>, m: NewArgs)
    requires S == Tree(orig) && Distinct(orig) && Linked(S)
    ensures ok <==> OrderedAfter(ProducersOf(S), {}, orig)
    ensures ok ==> m.Keys == S && fresh(m.Values) && Cloned(m) && Images(m, orig, calls) && Apart(calls)
    ensures ok ==> forall k :: 0 <= k < |calls| ==> fresh(calls[k]) && LikeCall(calls[k], orig[k])
  {
    hide Linked, CopyOf, Injective, Tree, Distinct, OrderedAfter, OrderedArgs, Images, MapSeq;
    calls, m := [], map[];
    ghost var res := ProducersOf(S);
    NothingCloned(orig, res);
    for k := 0 to |orig|
      invariant m.Keys == Tree(orig[..k]) && fresh(m.Values) && Cloned(m) && |calls| == k && Images(m, orig[..k], calls)
      invariant Apart(calls) && OrderedAfter(res, {}, orig[..k])
      invariant forall j :: 0 <= j < k ==> fresh(calls[j]) && LikeCall(calls[j], orig[j])
    {
      CallReady(orig, res, k);
      TreePrefix(orig, k);
      ghost var m0 := m;
      var c1;
      c1, m := CloneCall(orig[k], m, S);
      if c1 == null { return false, calls, m; }
      ImagesGrow(m0, m, orig[k].All(), orig[..k], calls);
      ImagesSnoc(m, orig[..k], calls, orig[k], c1);
      calls := calls + [c1];
      assert orig[..k] + [orig[k]] == orig[..k + 1];
    }
    assert orig[..|orig|] == orig;
    ok := true;
  }

  lemma NothingCloned(orig: seq<Call>, res: Producers)
    ensures Tree(orig[..0]) == {} && Images(map[], orig[..0], []) && Injective(map[])
    ensures OrderedAfter(res, {}, orig[..0])
  {
  }

  lemma ImagesSnoc(m: NewArgs, orig: seq<Call>, calls: seq<Call>, c: Call, c1: Call)
    requires Images(m, orig, calls) && Covers(m, c.All()) && c1.All() == MapSeq(m, c.All())
    ensures Images(m, orig + [c], calls + [c1])
  {
  }

  lemma SameLength(m: NewArgs, orig: seq<Call>, calls: seq<Call>)
    requires Images(m, orig, calls)
    ensures |calls| == |orig|
  {
  }

  // ----- the copy is sound -----

  lemma {:induction false} ImageTree(m: NewArgs, orig: seq<Call>, calls: seq<Call>, a: ResultArg)
    requires Images(m, orig, calls) && a in Tree(orig)
    ensures a in m && m[a] in Tree(calls)
    decreases |orig|
  {
    var n := |orig| - 1;
    if a in orig[n].All() {
      var i :| 0 <= i < |orig[n].All()| && orig[n].All()[i] == a;
      assert Covers(m, orig[n].All()) && calls[n].All()[i] == m[a];
    } else {
      ImageTree(m, orig[..n], calls[..n], a);
    }
  }

  lemma {:induction false} TreeImage(m: NewArgs, orig: seq<Call>, calls: seq<Call>, b: ResultArg) returns (a: ResultArg)
    requires Images(m, orig, calls) && b in Tree(calls)
    ensures a in Tree(orig) && a in m && m[a] == b
    decreases |orig|
  {
    var n := |orig| - 1;
    if b in calls[n].All() {
      var i :| 0 <= i < |calls[n].All()| && calls[n].All()[i] == b;
      assert Covers(m, orig[n].All()) && calls[n].All() == MapSeq(m, orig[n].All());
      a := orig[n].All()[i];
    } else {
      a := TreeImage(m, orig[..n], calls[..n], b);
    }
  }

  lemma NotImage(m: NewArgs, orig: seq<Call>, calls: seq<Call>, a: ResultArg)
    requires Images(m, orig, calls) && Injective(m) && a in m && a !in Tree(orig)
    ensures m[a] !in Tree(calls)
  {
    hide Images, Tree;
    if m[a] in Tree(calls) { var b := TreeImage(m, orig, calls, m[a]); }
  }

  lemma {:induction false} ImageDistinct(m: NewArgs, orig: seq<Call>, calls: seq<Call>)
    requires Images(m, orig, calls) && Injective(m) && Distinct(orig)
    ensures Distinct(calls)
    decreases |orig|
  {
    if orig != [] {
      var n := |orig| - 1;
      ImageDistinct(m, orig[..n], calls[..n]);
      var s, t := orig[n].All(), calls[n].All();
      assert Covers(m, s) && t == MapSeq(m, s);
      forall i | 0 <= i < |t| ensures t[i] !in Tree(calls[..n]) {
        assert s[i] in ArgSet(s);
        NotImage(m, orig[..n], calls[..n], s[i]);
      }
    }
  }

  lemma {:induction false} ImageOrderedArgs(m: NewArgs, s: seq<ResultArg>, S: set<ResultArg>, T: set<ResultArg>,
                                            res: Producers, now: Producers)
    requires Covers(m, s) && OrderedArgs(res, S, s) && forall a :: a in m && a in S ==> m[a] in T
    requires forall a :: a in m && a in res ==> m[a] in now && ProducerCopied(m, res[a], now[m[a]])
    ensures OrderedArgs(now, T, MapSeq(m, s))
    decreases |s|
  {
    if s != [] {
      var n := |s| - 1;
      var t := MapSeq(m, s);
      assert Covers(m, s[..n]) && t[..n] == MapSeq(m, s[..n]);
      ImageOrderedArgs(m, s[..n], S, T, res, now);
      assert From(s[n], res, S + ArgSet(s[..n]));
      var r := res[s[n]];
      if r != null && r !in S {
        var i :| 0 <= i < n && s[i] == r;
        assert t[..n][i] == m[r];
      }
    }
  }

  lemma {:induction false} ImageOrdered(m: NewArgs, orig: seq<Call>, calls: seq<Call>, res: Producers, now: Producers)
    requires Images(m, orig, calls) && OrderedAfter(res, {}, orig)
    requires forall a :: a in m && a in res ==> m[a] in now && ProducerCopied(m, res[a], now[m[a]])
    ensures OrderedAfter(now, {}, calls)
    decreases |orig|
  {
    if orig != [] {
      var n := |orig| - 1;
      ImageOrdered(m, orig[..n], calls[..n], res, now);
      var s, t := orig[n].All(), calls[n].All();
      assert Covers(m, s) && t == MapSeq(m, s);
      forall a | a in m && a in {} + Tree(orig[..n]) ensures m[a] in {} + Tree(calls[..n]) {
        ImageTree(m, orig[..n], calls[..n], a);
      }
      ImageOrderedArgs(m, s, {} + Tree(orig[..n]), {} + Tree(calls[..n]), res, now);
    }
  }

  lemma {:induction false} ImageLinked(m: NewArgs, S: set<ResultArg>)
    requires Linked(S) && m.Keys == S && Cloned(m)
    ensures Linked(m.Values)
  {
    forall b | b in m.Values ensures LinkOk(b, m.Values) {
      var a :| a in m && m[a] == b;
      assert CopyOf(m, a) && LinkOk(a, S);
      forall v | v in b.uses ensures v in m.Values && v.res == b {
        var u :| u in m && m[u] == v;
        assert CopyOf(m, u) && LinkOk(u, S);
      }
      if a.res != null { assert CopyOf(m, a.res); }
    }
  }

  /** The copy of a sound program is sound over the copied arguments. */
  lemma {:induction false} ImageSound(m: NewArgs, orig: seq<Call>, calls: seq<Call>, S: set<ResultArg>)
    requires Sound(orig, S) && m.Keys == S && Cloned(m) && Images(m, orig, calls)
    ensures Sound(calls, m.Values)
  {
    ImageLinked(m, S);
    ImageDistinct(m, orig, calls);
    forall a | a in m ensures ProducerCopied(m, a.res, m[a].res) && m[a] in m.Values { assert CopyOf(m, a); }
    ImageOrdered(m, orig, calls, ProducersOf(S), ProducersOf(m.Values));
    forall b | b in m.Values ensures b in Tree(calls) {
      var a :| a in m && m[a] == b;
      ImageTree(m, orig, calls, a);
    }
    forall b | b in Tree(calls) ensures b in m.Values { var a := TreeImage(m, orig, calls, b); }
  }

  /** The copy of a call is as validation demands if the call is. */
  lemma {:induction false} ImageCallLegal(m: NewArgs, c: Call, d: Call, body: Bodies, now: Bodies)
    requires CallLegal(c, body) && Injective(m) && m.Keys == body.Keys && Covers(m, c.All())
    requires d.All() == MapSeq(m, c.All())
    requires d.memory == c.memory && (d.ret == null <==> c.ret == null)
    requires forall a :: a in m ==> m[a] in now && ProducerCopied(m, body[a].res, now[m[a]].res)
    requires forall a :: a in m ==> now[m[a]] == body[a].(res := now[m[a]].res)
    ensures CallLegal(d, now)
  {
    if c.ret != null { assert c.All()[0] == c.ret && d.All()[0] == d.ret && d.ret == m[c.ret]; }
    assert |d.args| == |c.args|;
    forall i | 0 <= i < |d.args| ensures ArgLegal(d, i, now) {
      ArgPlace(c, i);
      ArgPlace(d, i);
      assert ArgLegal(c, i, body);
      var j := if c.ret == null then i else i + 1;
      assert d.args[i] == d.All()[j] == m[c.All()[j]] == m[c.args[i]];
    }
  }

  lemma {:induction false} ImageLegal(m: NewArgs, orig: seq<Call>, calls: seq<Call>, S: set<ResultArg>)
    requires m.Keys == S && Cloned(m) && Images(m, orig, calls) && Legal(orig, BodiesOf(S))
    requires forall k :: 0 <= k < |orig| ==> LikeCall(calls[k], orig[k])
    ensures Legal(calls, BodiesOf(m.Values))
  {
    hide CallLegal, ProducerCopied, UsersCopied, Injective, MapSeq;
    forall a | a in m
      ensures m[a] in m.Values && ProducerCopied(m, a.res, m[a].res) && BodyOf(m[a]) == BodyOf(a).(res := m[a].res)
    {
      assert CopyOf(m, a);
    }
    forall k | 0 <= k < |calls| ensures CallLegal(calls[k], BodiesOf(m.Values)) {
      assert CallLegal(orig[k], BodiesOf(S)) && LikeCall(calls[k], orig[k]);
      ImageCallLegal(m, orig[k], calls[k], BodiesOf(S), BodiesOf(m.Values));
    }
  }

  /** Clone: an isomorphic program over fresh arguments if every producer is visited before its users,
      and otherwise none, a copy that does not exist having been looked up. */
  method Clone(p: Prog, ghost S: set<ResultArg>) returns (p1: Prog?, m: NewArgs)
    requires S == Tree(p.calls) && Distinct(p.calls) && Linked(S)
    ensures p1 != null <==> OrderedAfter(ProducersOf(S), {}, p.calls)
    ensures p1 != null ==> fresh(p1) && m.Keys == S && fresh(m.Values) && Cloned(m) && Images(m, p.calls, p1.calls)
    ensures p1 != null ==> Sound(p1.calls, m.Values) && Apart(p1.calls)
    ensures p1 != null ==> forall k :: 0 <= k < |p.calls| ==> fresh(p1.calls[k]) && LikeCall(p1.calls[k], p.calls[k])
    ensures p1 != null && Legal(p.calls, BodiesOf(S)) ==> Legal(p1.calls, BodiesOf(m.Values))
  {
    hide Tree, Distinct, OrderedAfter, Linked, Cloned, MapSeq, Covers, Legal;
    var ok, calls;
    ok, calls, m := CloneCalls(p.calls, S);
    if !ok { return null, m; }
    p1 := new Prog(calls);
    ImageSound(m, p.calls, calls, S);
    if Legal(p.calls, BodiesOf(S)) { ImageLegal(m, p.calls, calls, S); }
  }

  /** A sound program has a copy. */
  method CloneSound(p: Prog, ghost S: set<ResultArg>) returns (q: Prog, m: NewArgs)
    requires Sound(p.calls, S)
    ensures fresh(q) && m.Keys == S && fresh(m.Values) && Cloned(m) && Images(m, p.calls, q.calls)
    ensures Sound(q.calls, m.Values) && Apart(q.calls)
    ensures forall k :: 0 <= k < |p.calls| ==> fresh(q.calls[k]) && LikeCall(q.calls[k], p.calls[k])
    ensures Legal(p.calls, BodiesOf(S)) ==> Legal(q.calls, BodiesOf(m.Values))
  {
    hide Tree, Distinct, OrderedAfter, Linked, Cloned, Images, Legal;
    var p1;
    p1, m := Clone(p, S);
    q := p1;
  }
}
