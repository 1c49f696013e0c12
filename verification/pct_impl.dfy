/** The loops of pct.bpf.h over its two maps, with the random numbers as a parameter. */
module PctImpl {
  import opened SchedTypes
  import opened Shuffles
  import opened Pct
  import opened PctRuns

  /** (eid << 16) | low, for a low part below 2^16. */
  function Key(g: Eid, low: nat): nat
    requires low < 0x1_0000
  {
    g * 0x1_0000 + low
  }

  /** The choices the random words stand for. */
  function Choices(rand: seq<nat>, n: nat): (cs: seq<nat>)
    requires |rand| >= n - 1
    ensures InRange(cs, n)
    decreases n
  {
    if n <= 1 then [] else
      var cs := [rand[0] % n] + Choices(rand[1..], n - 1);
      assert cs[1..] == Choices(rand[1..], n - 1);
      cs
  }

  /** Position n and up are settled, the rest still to be shuffled. */
  ghost function Mixed(a: seq<nat>, n: nat, rand: seq<nat>): seq<nat>
    requires n <= |a| && |rand| >= n - 1
  {
    Shuffle(a[..n], Choices(rand, n)) + a[n..]
  }

  /** One turn of the loop settles one more position. */
  lemma {:induction false} MixTurn(a: seq<nat>, n: nat, rand: seq<nat>)
    requires 1 < n <= |a| && |rand| >= n - 1
    ensures Mixed(a, n, rand) == Mixed(Swap(a, n - 1, rand[0] % n), n - 1, rand[1..])
  {
    var cs := Choices(rand, n);
    var b := Swap(a, n - 1, cs[0]);
    var c := Swap(a[..n], n - 1, cs[0]);
    assert cs[1..] == Choices(rand[1..], n - 1);
    assert c[..n - 1] == b[..n - 1];
    assert b[n - 1..] == [c[n - 1]] + a[n..];
  }

  lemma {:induction false} MixEnds(a: seq<nat>, rand: seq<nat>)
    requires |a| > 0 && |rand| >= |a| - 1
    ensures Mixed(a, |a|, rand) == Shuffle(a, Choices(rand, |a|))
  {
    assert a[..|a|] == a && a[|a|..] == [];
  }

  lemma MixOne(a: seq<nat>, rand: seq<nat>)
    requires |a| > 0
    ensures Mixed(a, 1, rand) == a
  {
    assert a == a[..1] + a[1..];
  }

  /** Other groups' entries are untouched. */
  ghost predicate OthersKept(m: map<nat, nat>, m': map<nat, nat>, g: Eid) {
    forall h: Eid, k :: 0 <= k < N && h != g ==>
      (Key(h, k) in m' <==> Key(h, k) in m) && (Key(h, k) in m ==> m'[Key(h, k)] == m[Key(h, k)])
  }

  lemma KeptTrans(m: map<nat, nat>, m1: map<nat, nat>, m2: map<nat, nat>, g: Eid)
    requires OthersKept(m, m1, g) && OthersKept(m1, m2, g)
    ensures OthersKept(m, m2, g)
  {
  }

  lemma NoneMoved(m: map<nat, nat>, g: Eid)
    ensures OthersKept(m, m, g)
  {
  }

  class PctMaps {
    const depth: nat
    var priorities: map<nat, nat>
    var changePoints: map<nat, nat>

    constructor (depth: nat)
      ensures this.depth == depth && priorities == map[] && changePoints == map[]
    {
      this.depth := depth;
      priorities, changePoints := map[], map[];
    }

    ghost predicate HasSlots(g: Eid)
      reads this
    {
      forall k :: 0 <= k < N ==> Key(g, k) in priorities
    }

    ghost function Slots(g: Eid): (r: seq<nat>)
      requires HasSlots(g)
      reads this
      ensures |r| == N
    {
      seq(N, k requires 0 <= k < N && Key(g, k) in priorities reads this => priorities[Key(g, k)])
    }

    /** shuffle_prios: the slots of the group become the shuffle of the ladder under the choices
        made; other groups keep theirs; an invalid depth changes nothing. */
    method ShufflePrios(g: Eid, strata: nat, rand: seq<nat>)
      requires |rand| >= N - 1
      modifies `priorities
      ensures DepthOk(depth) ==> HasSlots(g) && Slots(g) == Shuffle(Ladder(depth, strata), Choices(rand, N))
      ensures OthersKept(old(priorities), priorities, g)
      ensures !DepthOk(depth) ==> priorities == old(priorities)
    {
      hide Mixed, Swap, Ladder, Key, Shuffle, Choices, InRange, OthersKept, HasSlots, Slots;
      NoneMoved(priorities, g);
      if depth < 1 || depth > N + 1 { return; }
      Climb(g, strata);
      MixEnds(Slots(g), rand);
      ghost var want := Mixed(Slots(g), N, rand);
      assert rand[0..] == rand;
      var i := 1;
      while i < N
        invariant 1 <= i <= N && HasSlots(g) && want == Mixed(Slots(g), N - i + 1, rand[i - 1..])
        invariant OthersKept(old(priorities), priorities, g)
      {
        MixTurn(Slots(g), N - i + 1, rand[i - 1..]);
        assert rand[i - 1..][1..] == rand[i..];
        ghost var before := priorities;
        SwapSlots(g, N - i, rand[i - 1] % (N - i + 1));
        KeptTrans(old(priorities), before, priorities, g);
        i := i + 1;
      }
      MixOne(Slots(g), rand[N - 1..]);
    }

    /** The first loop: base + depth upwards. */
    method Climb(g: Eid, strata: nat)
      modifies `priorities
      ensures HasSlots(g) && Slots(g) == Ladder(depth, strata)
      ensures OthersKept(old(priorities), priorities, g)
    {
      var i := depth;
      while i < depth + N
        invariant depth <= i <= depth + N
        invariant forall k :: 0 <= k < i - depth ==>
                    Key(g, k) in priorities && priorities[Key(g, k)] == (StrataBase(strata) + depth + k) % U32
        invariant OthersKept(old(priorities), priorities, g)
      {
        priorities := priorities[Key(g, i - depth) := (StrataBase(strata) + i) % U32];
        i := i + 1;
      }
    }

    method SwapSlots(g: Eid, i: nat, j: nat)
      requires HasSlots(g) && i < N && j < N
      modifies `priorities
      ensures HasSlots(g) && Slots(g) == Swap(old(Slots(g)), i, j)
      ensures OthersKept(old(priorities), priorities, g)
    {
      var a, b := priorities[Key(g, i)], priorities[Key(g, j)];
      priorities := priorities[Key(g, i) := b];
      priorities := priorities[Key(g, j) := a];
    }

    ghost predicate HasPoints(g: Eid)
      requires DepthOk(depth)
      reads this
    {
      forall k :: 0 <= k < depth - 1 ==> Key(g, k) in changePoints
    }

    ghost function Points(g: Eid): (r: seq<nat>)
      requires DepthOk(depth) && HasPoints(g)
      reads this
      ensures |r| == depth - 1
    {
      seq(depth - 1, k requires 0 <= k < depth - 1 && Key(g, k) in changePoints reads this => changePoints[Key(g, k)])
    }

    /** choose_change_points: depth - 1 of them, in [1, max] once max is known. */
    method ChooseChangePoints(g: Eid, max: nat, rand: seq<nat>)
      requires |rand| >= N
      modifies `changePoints
      ensures DepthOk(depth) ==> HasPoints(g) && (max > 0 ==> ChangePointsOk(Points(g), depth, max))
      ensures DepthOk(depth) ==> forall k :: 0 <= k < depth - 1 ==>
        Points(g)[k] == if max == 0 then k else DrawPoint(rand[k], max)
      ensures !DepthOk(depth) ==> changePoints == old(changePoints)
    {
      if depth < 1 || depth > N + 1 { return; }
      var i := 0;
      while i < depth - 1
        invariant 0 <= i <= depth - 1
        invariant forall k :: 0 <= k < i ==>
                    && Key(g, k) in changePoints
                    && changePoints[Key(g, k)] == if max == 0 then k else DrawPoint(rand[k], max)
      {
        changePoints := changePoints[Key(g, i) := if max == 0 then i else DrawPoint(rand[i], max)];
        i := i + 1;
      }
    }

    /** update_priorities_pct: the loop that looks for the change point of this event. */
    method UpdatePriorities(g: Eid, p: Pid, s: Sched) returns (strata: nat, t: Task)
      requires DepthOk(depth) && HasSlots(g) && HasPoints(g) && p in s.tasks
      requires s.slots == Slots(g) && s.cps == Points(g)
      ensures strata == Update(s, p).strata && t == Update(s, p).tasks[p]
    {
      strata, t := s.strata, s.tasks[p];
      if s.max == 0 { return; }
      if !t.inited {
        var prio := ToS32(priorities[Key(g, Slot(t.detId))]);
        if prio >= 0 { t := t.(priority := prio, inited := true); }
      }
      assert t == Initialised(s.slots, s.tasks[p]);
      var i := 0;
      while i < depth - 1
        invariant 0 <= i <= depth - 1
        invariant forall k :: 0 <= k < i ==> s.cps[k] != s.events % s.max
      {
        if s.events % s.max == changePoints[Key(g, i)] {
          assert s.cps[i] == s.events % s.max;
          assert FirstHit(s.cps, s.events % s.max) == i;
          if s.events > (s.max * (strata + 1)) % U32 { strata := (strata + 1) % U32; }
          t := t.(priority := (StrataBase(strata) + i + 1) % U32);
          return;
        }
        i := i + 1;
      }
      assert FirstHit(s.cps, s.events % s.max) == |s.cps|;
    }
  }
}
