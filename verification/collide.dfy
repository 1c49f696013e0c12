/** Program transformations that provoke races: asynchronous calls, and a program run against a
    second copy of itself. */
module Collide {
  import opened Links
  import opened Progs
  import opened Clones

  const MAX_ASYNC: nat := 24
  const MAX_CALLS: nat := 40

  // ----- AssignRandomAsync -----

  /** The results the arguments s read, and those they write. */
  ghost function ReadBy(s: seq<ResultArg>): set<ResultArg?>
    reads s
  {
    if s == [] then {} else
      var a := s[|s| - 1];
      ReadBy(s[..|s| - 1]) + if a.dir != Out then {a.res} else {}
  }

  ghost function WrittenBy(s: seq<ResultArg>): set<ResultArg?>
    reads s
  {
    if s == [] then {} else
      var a := s[|s| - 1];
      WrittenBy(s[..|s| - 1]) + if a.dir != In then {a} else {}
  }

  /** The visit of a call's arguments. */
  method Scan(all: seq<ResultArg>, unassigned: set<ResultArg?>) returns (produces: bool, consumes: set<ResultArg?>)
    ensures produces <==> WrittenBy(all) * unassigned != {}
    ensures consumes == ReadBy(all)
  {
    produces, consumes := false, {};
    for i := 0 to |all|
      invariant (produces <==> WrittenBy(all[..i]) * unassigned != {}) && consumes == ReadBy(all[..i])
    {
      var res := all[i];
      assert all[..i + 1][..i] == all[..i];
      if res.dir != In && res in unassigned {
        produces := true;
        assert res in WrittenBy(all[..i + 1]) * unassigned;
      }
      if res.dir != Out { consumes := consumes + {res.res}; }
    }
    assert all[..|all|] == all;
  }

  type Flags = seq<bool>
  type Effects = seq<set<ResultArg?>>

  ghost function FlagsOf(calls: seq<Call>): (f: Flags)
    reads calls
    ensures |f| == |calls| && forall i :: 0 <= i < |calls| ==> f[i] == calls[i].async
  {
    seq(|calls|, i requires 0 <= i < |calls| reads calls => calls[i].async)
  }

  ghost function WritesOf(calls: seq<Call>, S: set<ResultArg>): Effects
    requires Tree(calls) <= S
    reads S
  {
    seq(|calls|, i requires 0 <= i < |calls| reads S => InTree(calls, i); WrittenBy(calls[i].All()))
  }

  ghost function ReadsOf(calls: seq<Call>, S: set<ResultArg>): Effects
    requires Tree(calls) <= S
    reads S
  {
    seq(|calls|, i requires 0 <= i < |calls| reads S => InTree(calls, i); ReadBy(calls[i].All()))
  }

  lemma InTree(calls: seq<Call>, k: nat)
    requires k < |calls|
    ensures ArgSet(calls[k].All()) <= Tree(calls) && forall a :: a in calls[k].All() ==> a in Tree(calls)
  {
    var s := calls[..k + 1];
    TreePrefix(calls, k + 1);
    assert s[|s| - 1] == calls[k];
    forall a | a in calls[k].All() ensures a in Tree(calls) { assert a in ArgSet(calls[k].All()); }
  }

  /** All of the calls from i up to k are async. */
  ghost predicate AsyncRun(f: Flags, i: nat, k: nat)
    requires k <= |f|
  {
    forall j :: i <= j < k ==> f[j]
  }

  function AsyncCount(f: Flags): nat { if f == [] then 0 else (if f[0] then 1 else 0) + AsyncCount(f[1..]) }

  /** What call k reads, async call i does not write, unless a call strictly between them is not async. */
  ghost predicate SeparatedPair(f: Flags, writes: Effects, needs: Effects, i: nat, k: nat)
    requires |f| == |writes| == |needs| && i < k < |f|
  {
    f[i] && writes[i] * needs[k] != {} ==> !AsyncRun(f, i + 1, k)
  }

  ghost predicate Separated(f: Flags, writes: Effects, needs: Effects)
    requires |f| == |writes| == |needs|
  {
    forall i, k :: 0 <= i < k < |f| ==> SeparatedPair(f, writes, needs, i, k)
  }

  /** Call i writes nothing that a later call reads with only async calls strictly between the two. */
  ghost predicate Free(f: Flags, writes: Effects, needs: Effects, i: nat)
    requires |f| == |writes| == |needs| && i < |f|
  {
    forall k :: i < k < |f| && AsyncRun(f, i + 1, k) ==> writes[i] * needs[k] == {}
  }

  /** Call i is async exactly when its coin says so, it is not the last call, fewer than 24 later calls
      are async and it is free; once 24 are async a call stays what it was. */
  ghost predicate Chosen(was: Flags, toss: seq<bool>, f: Flags, writes: Effects, needs: Effects, i: nat)
    requires |f| == |was| == |toss| == |writes| == |needs| && i < |f|
  {
    f[i] <==>
      if AsyncCount(f[i + 1..]) < 24 then toss[i] && i + 1 != |f| && Free(f, writes, needs, i) else was[i]
  }

  ghost predicate Outcome(was: Flags, toss: seq<bool>, f: Flags, writes: Effects, needs: Effects, from: nat)
    requires |f| == |was| == |toss| == |writes| == |needs|
  {
    forall i :: from <= i < |f| ==> Chosen(was, toss, f, writes, needs, i)
  }

  /** Where no call was async before, the outcome keeps readers apart from async writers. */
  lemma OutcomeSeparated(was: Flags, toss: seq<bool>, f: Flags, writes: Effects, needs: Effects)
    requires |f| == |was| == |toss| == |writes| == |needs| && Outcome(was, toss, f, writes, needs, 0)
    requires forall i :: 0 <= i < |was| ==> !was[i]
    ensures Separated(f, writes, needs) && AsyncCount(f) <= 24 && (f != [] ==> !f[|f| - 1])
  {
    hide AsyncCount;
    forall i, k | 0 <= i < k < |f| ensures SeparatedPair(f, writes, needs, i, k) {
      assert Chosen(was, toss, f, writes, needs, i);
    }
    assert f != [] ==> Chosen(was, toss, f, writes, needs, |f| - 1);
    OutcomeCount(was, toss, f, writes, needs, 0);
    assert f[0..] == f;
  }

  lemma {:induction false} OutcomeCount(
      was: Flags, toss: seq<bool>, f: Flags, writes: Effects, needs: Effects, i: nat)
    requires |f| == |was| == |toss| == |writes| == |needs| && Outcome(was, toss, f, writes, needs, 0)
    requires i <= |f| && forall j :: 0 <= j < |was| ==> !was[j]
    ensures AsyncCount(f[i..]) <= 24
    decreases |f| - i
  {
    if i < |f| {
      OutcomeCount(was, toss, f, writes, needs, i + 1);
      CountStep(f, i);
      assert Chosen(was, toss, f, writes, needs, i);
    }
  }

  /** `unassigned` is what the calls read from `from` on, as far as the first that is not async. */
  ghost predicate Pending(f: Flags, needs: Effects, from: nat, unassigned: set<ResultArg?>)
    requires |f| == |needs|
  {
    && (forall k :: from <= k < |f| && AsyncRun(f, from, k) ==> needs[k] <= unassigned)
    && (forall x :: x in unassigned ==> exists k :: from <= k < |f| && AsyncRun(f, from, k) && x in needs[k])
  }

  lemma FreeIff(f: Flags, writes: Effects, needs: Effects, i: nat, unassigned: set<ResultArg?>)
    requires |f| == |writes| == |needs| && i < |f| && Pending(f, needs, i + 1, unassigned)
    ensures Free(f, writes, needs, i) <==> writes[i] * unassigned == {}
  {
    if Free(f, writes, needs, i) {
      forall x | x in unassigned ensures x !in writes[i] {
        var k :| i + 1 <= k < |f| && AsyncRun(f, i + 1, k) && x in needs[k];
        assert x !in writes[i] * needs[k];
      }
    } else {
      var k :| i < k < |f| && AsyncRun(f, i + 1, k) && writes[i] * needs[k] != {};
      var x :| x in writes[i] * needs[k];
      assert x in writes[i] * unassigned;
    }
  }

  lemma PendingNext(f: Flags, needs: Effects, i: nat, unassigned: set<ResultArg?>)
    requires |f| == |needs| && i < |f| && Pending(f, needs, i + 1, unassigned)
    ensures Pending(f, needs, i, if f[i] then unassigned + needs[i] else needs[i])
  {
    var u := if f[i] then unassigned + needs[i] else needs[i];
    forall k | i <= k < |f| && AsyncRun(f, i, k) ensures needs[k] <= u {
      if k > i { assert f[i] && AsyncRun(f, i + 1, k); }
    }
    forall x | x in u ensures exists k :: i <= k < |f| && AsyncRun(f, i, k) && x in needs[k] {
      if x in needs[i] {
        assert AsyncRun(f, i, i);
      } else {
        var k :| i + 1 <= k < |f| && AsyncRun(f, i + 1, k) && x in needs[k];
        assert AsyncRun(f, i, k);
      }
    }
  }

  /** Only the later calls matter. */
  lemma SameFrom(f: Flags, g: Flags, i: nat)
    requires |f| == |g| && i <= |f| && f[i..] == g[i..]
    ensures forall j, k :: i <= j <= k <= |f| ==> AsyncRun(f, j, k) == AsyncRun(g, j, k)
    ensures forall j :: i <= j <= |f| ==> f[j..] == g[j..]
  {
    forall j | i <= j < |f| ensures f[j] == g[j] { assert f[i..][j - i] == g[i..][j - i]; }
  }

  lemma PendingSame(f: Flags, g: Flags, needs: Effects, i: nat, unassigned: set<ResultArg?>)
    requires |f| == |g| == |needs| && i <= |f| && f[i..] == g[i..] && Pending(f, needs, i, unassigned)
    ensures Pending(g, needs, i, unassigned)
  {
    hide AsyncRun;
    SameFrom(f, g, i);
    forall x | x in unassigned ensures exists k :: i <= k < |g| && AsyncRun(g, i, k) && x in needs[k] {
      var k :| i <= k < |f| && AsyncRun(f, i, k) && x in needs[k];
      assert AsyncRun(g, i, k);
    }
  }

  lemma OutcomeSame(
      was: Flags, toss: seq<bool>, f: Flags, g: Flags, writes: Effects, needs: Effects, from: nat)
    requires |f| == |g| == |was| == |toss| == |writes| == |needs| && from <= |f| && f[from..] == g[from..]
    requires Outcome(was, toss, f, writes, needs, from)
    ensures Outcome(was, toss, g, writes, needs, from)
  {
    hide AsyncRun, AsyncCount;
    SameFrom(f, g, from);
    forall i | from <= i < |f| ensures Chosen(was, toss, g, writes, needs, i) {
      assert f[i + 1..] == g[i + 1..] && f[i..][0] == g[i..][0];
      assert Chosen(was, toss, f, writes, needs, i);
    }
  }

  method SetAsync(calls: seq<Call>, i: nat, b: bool)
    requires i < |calls| && Apart(calls)
    modifies calls
    ensures FlagsOf(calls) == old(FlagsOf(calls))[i := b]
  {
    calls[i].async := b;
  }

  /** One step backwards: call i is decided, while fewer than 24 later calls are async. */
  lemma Decided(was: Flags, toss: seq<bool>, f: Flags, writes: Effects, needs: Effects, i: nat,
                b: bool, unassigned: set<ResultArg?>)
    requires |f| == |was| == |toss| == |writes| == |needs| && i < |f| && AsyncCount(f[i + 1..]) < 24
    requires Outcome(was, toss, f, writes, needs, i + 1) && Pending(f, needs, i + 1, unassigned)
    requires b <==> writes[i] * unassigned == {} && i + 1 != |f| && toss[i]
    ensures var g := f[i := b];
      && Outcome(was, toss, g, writes, needs, i)
      && Pending(g, needs, i, if b then unassigned + needs[i] else needs[i])
      && AsyncCount(g[i..]) == AsyncCount(f[i + 1..]) + if b then 1 else 0
  {
    hide Outcome, Pending, Free, AsyncCount, AsyncRun;
    var g := f[i := b];
    assert g[i + 1..] == f[i + 1..];
    OutcomeSame(was, toss, f, g, writes, needs, i + 1);
    PendingSame(f, g, needs, i + 1, unassigned);
    FreeIff(g, writes, needs, i, unassigned);
    PendingNext(g, needs, i, unassigned);
    CountStep(g, i);
    OutcomeNext(was, toss, g, writes, needs, i);
  }

  lemma OutcomeNext(was: Flags, toss: seq<bool>, f: Flags, writes: Effects, needs: Effects, i: nat)
    requires |f| == |was| == |toss| == |writes| == |needs| && i < |f|
    requires Outcome(was, toss, f, writes, needs, i + 1) && Chosen(was, toss, f, writes, needs, i)
    ensures Outcome(was, toss, f, writes, needs, i)
  {
  }

  lemma NothingDecided(was: Flags, toss: seq<bool>, writes: Effects, needs: Effects)
    requires |was| == |toss| == |writes| == |needs|
    ensures Outcome(was, toss, was, writes, needs, |was|) && Pending(was, needs, |was|, {})
    ensures AsyncCount(was[|was|..]) == 0
  {
  }

  /** The loop may stop at 24 async calls: the calls before i stay what they were. */
  lemma RestAsBefore(was: Flags, toss: seq<bool>, f: Flags, writes: Effects, needs: Effects, i: nat)
    requires |f| == |was| == |toss| == |writes| == |needs| && i <= |f| && f[..i] == was[..i]
    requires Outcome(was, toss, f, writes, needs, i) && (i == 0 || AsyncCount(f[i..]) >= 24)
    ensures Outcome(was, toss, f, writes, needs, 0)
  {
    hide AsyncCount, Free;
    forall j | 0 <= j < |f| ensures Chosen(was, toss, f, writes, needs, j) {
      if j < i {
        CountGrows(f, j + 1, i);
        assert f[..i][j] == was[..i][j];
      }
    }
  }

  lemma {:induction false} CountGrows(f: Flags, j: nat, i: nat)
    requires j <= i <= |f|
    ensures AsyncCount(f[j..]) >= AsyncCount(f[i..])
    decreases i - j
  {
    if j < i {
      CountStep(f, j);
      CountGrows(f, j + 1, i);
    }
  }

  lemma CountStep(f: Flags, i: nat)
    requires i < |f|
    ensures AsyncCount(f[i..]) == AsyncCount(f[i + 1..]) + if f[i] then 1 else 0
  {
    assert f[i..][1..] == f[i + 1..];
  }

  /** The loop of AssignRandomAsync; toss[i] is the coin for call i. */
  method MarkAsync(calls: seq<Call>, toss: seq<bool>, ghost S: set<ResultArg>)
    requires Apart(calls) && |toss| == |calls| && Tree(calls) <= S
    modifies calls
    ensures Outcome(old(FlagsOf(calls)), toss, FlagsOf(calls), WritesOf(calls, S), ReadsOf(calls, S), 0)
  {
    hide Tree, Outcome, Pending, AsyncCount, ReadBy, WrittenBy, FlagsOf;
    ghost var writes, needs := WritesOf(calls, S), ReadsOf(calls, S);
    ghost var was := FlagsOf(calls);
    ghost var f := was;
    var unassigned: set<ResultArg?> := {};
    var leftAsync := MAX_ASYNC;
    var i := |calls|;
    NothingDecided(was, toss, writes, needs);
    while i > 0 && leftAsync > 0
      invariant 0 <= i <= |calls| && f == FlagsOf(calls) && f[..i] == was[..i]
      invariant Outcome(was, toss, f, writes, needs, i) && Pending(f, needs, i, unassigned)
      invariant AsyncCount(f[i..]) + leftAsync == 24
    {
      i := i - 1;
      InTree(calls, i);
      var produces, consumes := Scan(calls[i].All(), unassigned);
      var async := !produces && i + 1 != |calls| && toss[i];
      SetAsync(calls, i, async);
      Decided(was, toss, f, writes, needs, i, async, unassigned);
      assert f[i := async][..i] == f[..i + 1][..i];
      f := f[i := async];
      if async {
        unassigned := unassigned + consumes;
        leftAsync := leftAsync - 1;
      } else {
        unassigned := consumes;
      }
    }
    RestAsBefore(was, toss, f, writes, needs, i);
  }

  /** An argument that reads what an async call produces is in a call past the next one that is not async. */
  lemma ReadersWait(calls: seq<Call>, S: set<ResultArg>, i: nat, k: nat, a: ResultArg)
    requires Tree(calls) <= S && i < k < |calls| && calls[i].async
    requires Separated(FlagsOf(calls), WritesOf(calls, S), ReadsOf(calls, S))
    requires a in calls[k].All() && a.dir != Out && a.res != null
    requires a.res in calls[i].All() && a.res.dir != In
    ensures exists j :: i < j < k && !calls[j].async
  {
    ReadByHas(calls[k].All(), a);
    WrittenByHas(calls[i].All(), a.res);
    var f, writes, needs := FlagsOf(calls), WritesOf(calls, S), ReadsOf(calls, S);
    assert a.res in writes[i] * needs[k];
    assert SeparatedPair(f, writes, needs, i, k);
    var j :| i + 1 <= j < k && !f[j];
    assert !calls[j].async;
  }

  lemma {:induction false} ReadByHas(s: seq<ResultArg>, a: ResultArg)
    requires a in s && a.dir != Out
    ensures a.res in ReadBy(s)
  {
    var t := s[..|s| - 1];
    assert s == t + [s[|s| - 1]];
    if a in t { ReadByHas(t, a); }
  }

  lemma {:induction false} WrittenByHas(s: seq<ResultArg>, a: ResultArg)
    requires a in s && a.dir != In
    ensures a in WrittenBy(s)
  {
    var t := s[..|s| - 1];
    assert s == t + [s[|s| - 1]];
    if a in t { WrittenByHas(t, a); }
  }

  /** AssignRandomAsync on a copy: the original is untouched. */
  method AssignRandomAsync(p: Prog, toss: seq<bool>, ghost S: set<ResultArg>) returns (q: Prog, m: NewArgs)
    requires Sound(p.calls, S) && |toss| == |p.calls|
    ensures fresh(q) && m.Keys == S && fresh(m.Values) && Cloned(m) && Images(m, p.calls, q.calls)
    ensures Sound(q.calls, m.Values)
    ensures Legal(p.calls, BodiesOf(S)) ==> Legal(q.calls, BodiesOf(m.Values))
    ensures |q.calls| == |p.calls|
    ensures
      Outcome(FlagsOf(p.calls), toss, FlagsOf(q.calls), WritesOf(q.calls, m.Values), ReadsOf(q.calls, m.Values), 0)
    ensures (forall i :: 0 <= i < |p.calls| ==> !p.calls[i].async) ==>
      && Separated(FlagsOf(q.calls), WritesOf(q.calls, m.Values), ReadsOf(q.calls, m.Values))
      && AsyncCount(FlagsOf(q.calls)) <= 24 && (q.calls != [] ==> !q.calls[|q.calls| - 1].async)
  {
    hide *;
    q, m := CloneSound(p, S);
    SameLength(m, p.calls, q.calls);
    assert Tree(q.calls) <= m.Values by { SoundTree(q.calls, m.Values); }
    SameFlags(p.calls, q.calls);
    MarkAsync(q.calls, toss, m.Values);
    if forall i :: 0 <= i < |p.calls| ==> !p.calls[i].async { FreshOutcome(p.calls, toss, q.calls, m.Values); }
  }

  lemma FreshOutcome(orig: seq<Call>, toss: seq<bool>, calls: seq<Call>, S: set<ResultArg>)
    requires |calls| == |orig| == |toss| && Tree(calls) <= S && forall i :: 0 <= i < |orig| ==> !orig[i].async
    requires Outcome(FlagsOf(orig), toss, FlagsOf(calls), WritesOf(calls, S), ReadsOf(calls, S), 0)
    ensures Separated(FlagsOf(calls), WritesOf(calls, S), ReadsOf(calls, S))
    ensures AsyncCount(FlagsOf(calls)) <= 24 && (calls != [] ==> !calls[|calls| - 1].async)
  {
    hide Outcome, Separated, AsyncCount;
    OutcomeSeparated(FlagsOf(orig), toss, FlagsOf(calls), WritesOf(calls, S), ReadsOf(calls, S));
  }

  lemma SameFlags(orig: seq<Call>, calls: seq<Call>)
    requires |orig| == |calls| && forall k :: 0 <= k < |orig| ==> LikeCall(calls[k], orig[k])
    ensures FlagsOf(calls) == FlagsOf(orig)
  {
  }

  lemma SoundTree(calls: seq<Call>, S: set<ResultArg>)
    requires Sound(calls, S)
    ensures Tree(calls) == S
  {
  }
}
