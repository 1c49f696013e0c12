/** The condition of the serialisation theorem is needed: whenever a cycle of two or more
    threads is reset while its group is on offer, some continuation puts two joined tasks of
    one running cycle on the way to a CPU; and such a reset can be reached. */
module SchedConverse {
  import opened Common
  import opened SchedTypes
  import opened SchedSteps
  import opened SchedCounts
  import opened SchedSafety

  const QuietEvent: Event := Event(map[], 0, 0)

  function Newcomer(g: Eid): KTask { KTask(Some(g), true, false, Blocked) }

  /** A new thread of the group appears, is woken, runs and yields for the first time. */
  function JoinSteps(p: Pid, g: Eid): seq<Step> {
    [DoSpawn(p, Newcomer(g)), DoWake(p, QuietEvent), DoRun(p), DoYield(p)]
  }

  /** The part of a cycle that the gate depends on. */
  datatype Sig = Sig(expected: int, queued: int, asleep: int, alive: int, pending: bool, state: CycleState)

  function SigOf(w: World, g: Eid): Sig {
    if g in w.cycles then
      var c := w.cycles[g];
      Sig(c.expected, c.queued, c.asleep, c.alive, c.pending, c.state)
    else Sig(w.cfg.threads, 0, 0, 0, false, CycleUnavailable)
  }

  /** Task p is on a CPU, has joined group g and is running there. */
  predicate Runs(w: World, p: Pid, g: Eid) {
    && p in w.ctxs && w.ctxs[p].eid == g && w.ctxs[p].state == ThreadRunning && !w.ctxs[p].isAsleep
    && p in w.kernel && w.kernel[p] == Newcomer(g).(loc := OnCpu) && g in w.cycles
  }

  predicate Known(w: World, p: Pid, g: Eid, l: Loc) {
    && p in w.ctxs && w.ctxs[p].eid == g && w.ctxs[p].state == ThreadRegistered && !w.ctxs[p].isAsleep
    && p in w.kernel && w.kernel[p] == Newcomer(g).(loc := l) && g in w.cycles
  }

  /** A step of p leaves the queues and the other tasks alone. */
  ghost predicate Kept(w: World, w': World, p: Pid) {
    && w'.queue == w.queue && w'.dsqs == w.dsqs && w'.cfg == w.cfg && OthersSame(w, w', p)
    && |w'.ctxs| <= |w.ctxs| + Bit(p !in w.ctxs)
  }

  lemma Numbered(w: World, p: Pid, g: Eid)
    ensures var w' := NumberTask(CreateCycle(w, g), p, g);
      && SigOf(w', g) == SigOf(w, g) && SameTasks(w, w') && w'.queue == w.queue && g in w'.cycles && p in w'.detIds
      && forall h: Eid :: h in w.cycles ==> h in w'.cycles
  {
    var w1 := CreateCycle(w, g);
    assert SigOf(w1, g) == SigOf(w, g) && SameTasks(w, w1) && w1.queue == w.queue && g in w1.cycles;
    assert forall h: Eid :: h in w.cycles ==> h in w1.cycles;
    hide CreateCycle;
    var w' := NumberTask(w1, p, g);
    assert forall h: Eid :: h in w1.cycles ==> h in w'.cycles;
  }

  lemma AddCtx(w: World, p: Pid, t: Ctx)
    requires p !in w.ctxs
    ensures |SetCtx(w, p, t).ctxs| == |w.ctxs| + 1
    ensures forall q :: q != p ==> SameTask(w, SetCtx(w, p, t), q)
  {
    forall q | q != p ensures SameTask(w, SetCtx(w, p, t), q) {}
  }

  lemma Spawned(w: World, p: Pid, g: Eid)
    requires p !in w.kernel && p !in w.ctxs && |w.ctxs| < MAX_TASKS
    ensures var w' := Next(w, DoSpawn(p, Newcomer(g)));
      Kept(w, w', p) && Known(w', p, g, Blocked) && SigOf(w', g) == SigOf(w, g)
  {
    var w0 := w.(kernel := w.kernel[p := Newcomer(g)]);
    var w2 := NumberTask(CreateCycle(w0, g), p, g);
    Numbered(w0, p, g);
    hide CreateCycle, NumberTask;
    assert !TaskMapFull(w2);
    var w' := SetCtx(w2, p, NewCtx(g, w2.detIds[p]));
    assert w' == Next(w, DoSpawn(p, Newcomer(g)));
    hide Next, TaskMapFull;
    AddCtx(w2, p, NewCtx(g, w2.detIds[p]));
    forall q | q != p ensures SameTask(w, w', q) { assert SameTask(w2, w', q); }
  }

  lemma WokenUp(w: World, p: Pid, g: Eid)
    requires Known(w, p, g, Blocked) && w.cycles[g].state == CycleUnavailable
    ensures var w' := Next(w, DoWake(p, QuietEvent));
      Kept(w, w', p) && Known(w', p, g, GlobalDsq) && w'.cycles == w.cycles
  {
    var w1 := Woken(w, p);
    assert w1.ctxs == w.ctxs;
    assert EnsureCtx(w1, p, g) == w1;
    hide EnsureCtx, Park;
    var w' := Next(w, DoWake(p, QuietEvent));
    forall q | q != p ensures SameTask(w, w', q) {}
  }

  lemma Ran(w: World, p: Pid, g: Eid)
    requires Known(w, p, g, GlobalDsq)
    ensures var w' := Next(w, DoRun(p)); Kept(w, w', p) && Known(w', p, g, OnCpu) && w'.cycles == w.cycles
  {
    var w' := Next(w, DoRun(p));
    forall q | q != p ensures SameTask(w, w', q) {}
  }

  lemma Yielded(w: World, p: Pid, g: Eid)
    requires Known(w, p, g, OnCpu) && w.cycles[g].state == CycleUnavailable
    ensures var w' := Next(w, DoYield(p));
      && Kept(w, w', p) && Runs(w', p, g)
      && SigOf(w', g) == SigOf(w, g).(alive := SigOf(w, g).alive + 1,
           state := if SigOf(w, g).alive + 1 == SigOf(w, g).expected then CycleReady else CycleUnavailable)
  {
    assert EnsureCtx(w, p, g) == w;
    hide EnsureCtx;
    var w' := Next(w, DoYield(p));
    forall q | q != p ensures SameTask(w, w', q) {}
  }

  lemma KeptTrans(w: World, w1: World, w2: World, p: Pid)
    requires Kept(w, w1, p) && Kept(w1, w2, p) && p in w1.ctxs
    ensures Kept(w, w2, p)
  {
    forall q | q != p ensures SameTask(w, w2, q) { assert SameTask(w, w1, q) && SameTask(w1, w2, q); }
  }

  /** While the cycle gathers, any fresh thread can join it. */
  lemma Joins(w: World, p: Pid, g: Eid) returns (w': World)
    requires p !in w.kernel && p !in w.ctxs && |w.ctxs| < MAX_TASKS
    requires SigOf(w, g).state == CycleUnavailable
    ensures Run(w, JoinSteps(p, g)) == Some(w')
    ensures Kept(w, w', p) && Runs(w', p, g)
    ensures SigOf(w', g) == SigOf(w, g).(alive := SigOf(w, g).alive + 1,
              state := if SigOf(w, g).alive + 1 == SigOf(w, g).expected then CycleReady else CycleUnavailable)
  {
    hide Next;
    var st := JoinSteps(p, g);
    Spawned(w, p, g);
    var w1 := Next(w, st[0]);
    WokenUp(w1, p, g);
    var w2 := Next(w1, st[1]);
    Ran(w2, p, g);
    var w3 := Next(w2, st[2]);
    Yielded(w3, p, g);
    w' := Next(w3, st[3]);
    KeptTrans(w, w1, w2, p);
    KeptTrans(w, w2, w3, p);
    KeptTrans(w, w3, w', p);
    Run4(w, st, w1, w2, w3);
  }

  lemma Run4(w: World, st: seq<Step>, w1: World, w2: World, w3: World)
    requires |st| == 4
    requires Enabled(w, st[0]) && w1 == Next(w, st[0])
    requires Enabled(w1, st[1]) && w2 == Next(w1, st[1])
    requires Enabled(w2, st[2]) && w3 == Next(w2, st[2])
    requires Enabled(w3, st[3])
    ensures Run(w, st) == Some(Next(w3, st[3]))
  {
    hide Next, Enabled;
    assert st[1..][1..] == st[2..] && st[2..][1..] == st[3..] && st[3..][1..] == [];
    assert Run(w1, st[1..]) == Run(w2, st[2..]);
    assert Run(w2, st[2..]) == Run(w3, st[3..]);
    assert Run(w3, st[3..]) == Some(Next(w3, st[3]));
  }

  lemma {:induction false} RunConcat(w: World, a: seq<Step>, b: seq<Step>)
    requires Run(w, a).Some?
    ensures Run(w, a + b) == Run(Run(w, a).value, b)
    decreases |a|
  {
    hide Next, Enabled;
    if a == [] {
      assert a + b == b;
    } else {
      assert (a + b)[0] == a[0] && (a + b)[1..] == a[1..] + b;
      RunConcat(Next(w, a[0]), a[1..], b);
    }
  }

  lemma RunOne(w: World, s: Step)
    requires Enabled(w, s)
    ensures Run(w, [s]) == Some(Next(w, s))
  {
    hide Next, Enabled;
    assert [s][1..] == [];
  }

  // ----- parking a running task -----

  /** The gate after one more task is parked: it may open. */
  function SigParked(s: Sig): Sig {
    var s1 := s.(queued := s.queued + 1);
    var open := if s.state == CycleRunning then s1.queued == s1.alive - s1.asleep
                else s.state != CycleTimeout && s1.queued == s1.expected;
    if open && !s.pending then s1.(pending := true, state := CycleRunning) else s1
  }

  predicate Opened(s: Sig, s': Sig) { s'.pending && !s.pending }

  lemma Parks(w: World, p: Pid, g: Eid) returns (w': World)
    requires Exact(w) && Runs(w, p, g) && |w.queue| < GATE_SLOTS && w.cycles[g].state != CycleTimeout
    ensures Enabled(w, DoPreempt(p, QuietEvent)) && w' == Next(w, DoPreempt(p, QuietEvent))
    ensures Exact(w') && SigOf(w', g) == SigParked(SigOf(w, g)) && OthersSame(w, w', p) && w'.cfg == w.cfg
    ensures w'.queue == if Opened(SigOf(w, g), SigOf(w', g)) then w.queue + [g] else w.queue
    ensures |w'.ctxs| == |w.ctxs| && g in w'.cycles
  {
    hide Park, Next, Exact;
    NextExact(w, DoPreempt(p, QuietEvent));
    w' := Next(w, DoPreempt(p, QuietEvent));
    var w2 := Park(w, p, g, QuietEvent);
    PreemptIs(w, p, g);
    NotParkedYet(w, p, g);
    ParkTasks(w, p, g, QuietEvent);
    ParkIs(w, p, g, QuietEvent);
    ParkSize(w, p, g);
    PushGateFrame(w2, g, false);
    forall q | q != p ensures SameTask(w, w', q) { assert SameTask(w, w2, q); }
  }

  lemma NotParkedYet(w: World, p: Pid, g: Eid)
    requires Exact(w) && Runs(w, p, g)
    ensures CtxOk(w, p) && DsqOk(w, g) && !IsParked(w, p, g)
  {
  }

  lemma PreemptIs(w: World, p: Pid, g: Eid)
    requires Runs(w, p, g) && w.cycles[g].state != CycleTimeout
    ensures var w2 := Park(w, p, g, QuietEvent);
      && g in w2.cycles
      && Next(w, DoPreempt(p, QuietEvent)) == if GateOpens(w2.cycles[g]) then PushGate(w2, g, false) else w2
  {
    ParkIs(w, p, g, QuietEvent);
    EnsureCtxIs(w, p, g);
    hide Park, PushGate, EnsureCtx;
  }

  lemma ParkSize(w: World, p: Pid, g: Eid)
    requires p in w.ctxs && g in w.cycles
    ensures Park(w, p, g, QuietEvent).ctxs.Keys == w.ctxs.Keys
    ensures |Park(w, p, g, QuietEvent).ctxs| == |w.ctxs|
  {
    var m := Park(w, p, g, QuietEvent).ctxs;
    assert m.Keys == w.ctxs.Keys;
    assert |m| == |m.Keys| && |w.ctxs| == |w.ctxs.Keys|;
  }

  // ----- a third thread joins and leaves, which opens the gate early -----

  lemma WithoutOne<V>(m: map<Pid, V>, p: Pid)
    ensures |m - {p}| <= |m|
  {
    assert (m - {p}).Keys == m.Keys - {p};
    assert |(m - {p}).Keys| <= |m.Keys|;
  }

  lemma Leaves(w: World, p: Pid, g: Eid) returns (w': World)
    requires Exact(w) && Runs(w, p, g) && |w.queue| < GATE_SLOTS
    requires var s := SigOf(w, g);
      !s.pending && s.asleep == 0 && s.queued + 1 == s.alive && s.alive > 1 && s.expected > 1
      && (s.state == CycleReady || s.state == CycleUnavailable)
    ensures Enabled(w, DoExit(p)) && w' == Next(w, DoExit(p)) && Exact(w')
    ensures var s := SigOf(w, g);
      SigOf(w', g) == s.(expected := s.expected - 1, alive := s.alive - 1, pending := true, state := CycleRunning)
    ensures w'.queue == w.queue + [g] && g in w'.cycles && w'.cfg == w.cfg
    ensures OthersSame(w, w', p) && |w'.ctxs| <= |w.ctxs|
  {
    NextExact(w, DoExit(p));
    w' := Next(w, DoExit(p));
    WithoutOne(w.ctxs, p);
    LeavesAlone(w, p, g);
  }

  lemma LeavesAlone(w: World, p: Pid, g: Eid)
    requires Enabled(w, DoExit(p)) && Runs(w, p, g)
    ensures OthersSame(w, Next(w, DoExit(p)), p)
  {
    hide CountExit, PushGate, CycleOver, ResetCycle;
    var c := CountExit(w.cycles[g], w.ctxs[p]);
    var w2 := SetCycle(w.(ctxs := w.ctxs - {p}, detIds := w.detIds - {p}), g, c);
    var w3 := PushGate(w2, g, c.state == CycleTimeout);
    PushGateFrame(w2, g, c.state == CycleTimeout);
    forall h: Eid | h in w.cycles ensures h in w3.cycles { assert SameCounter(w2, w3, h); }
  }

  // ----- dispatching -----

  /** Dispatching another group does not touch g, and the queue moves up by one. */
  lemma DispatchOther(w: World, g: Eid)
    requires w.queue != [] && w.queue[0] != g && |w.queue| <= GATE_SLOTS && g in w.cycles
    ensures var w' := Dispatch(w);
      && g in w'.cycles && w'.cycles[g] == w.cycles[g]
      && (w'.queue == w.queue[1..] || w'.queue == w.queue[1..] + [w.queue[0]])
  {
    var h := w.queue[0];
    var w1 := w.(queue := w.queue[1..]);
    if h in w1.cycles {
      if Dsq(w1, h) == [] { EmptyOther(w1, h, g); } else { ReleaseOther(w1, h, g); }
    }
  }

  lemma EmptyOther(w: World, h: Eid, g: Eid)
    requires h in w.cycles && g in w.cycles && h != g && |w.queue| < GATE_SLOTS
    ensures var w' := DispatchEmpty(w, h);
      g in w'.cycles && w'.cycles[g] == w.cycles[g] && (w'.queue == w.queue || w'.queue == w.queue + [h])
  {
  }

  lemma ReleaseOther(w: World, h: Eid, g: Eid)
    requires h in w.cycles && g in w.cycles && h != g && |w.queue| < GATE_SLOTS && Dsq(w, h) != []
    ensures var w' := Release(w, h);
      g in w'.cycles && w'.cycles[g] == w.cycles[g] && (w'.queue == w.queue || w'.queue == w.queue + [h])
  {
  }

  /** Dispatching g itself, while it is running, releases one more task. */
  lemma DispatchSelf(w: World, g: Eid)
    requires Exact(w) && w.queue != [] && w.queue[0] == g && g in w.cycles
    requires w.cycles[g].state == CycleRunning && w.cycles[g].queued > 0
    ensures var w' := Dispatch(w);
      && g in w'.cycles && SigOf(w', g) == SigOf(w, g).(queued := SigOf(w, g).queued - 1, pending := false)
      && w'.queue == w.queue[1..]
  {
    EmptyIffNoneQueued(w, g);
  }

  function Dispatches(n: nat): seq<Step> { if n == 0 then [] else [DoDispatch] + Dispatches(n - 1) }

  /** Dispatching i + 1 times, with g at position i, releases one task of g; a second offer of g
      further back stays on offer. */
  lemma {:induction false} DispatchUntil(w: World, g: Eid, i: nat, again: bool, j: nat) returns (w': World)
    requires Exact(w) && g in w.cycles && |w.queue| <= GATE_SLOTS
    requires i < |w.queue| && w.queue[i] == g && (again ==> i < j < |w.queue| && w.queue[j] == g)
    requires forall k :: 0 <= k < i ==> w.queue[k] != g
    requires w.cycles[g].state == CycleRunning && w.cycles[g].queued > 0
    ensures Run(w, Dispatches(i + 1)) == Some(w') && Exact(w') && g in w'.cycles && |w'.queue| <= GATE_SLOTS
    ensures SigOf(w', g) == SigOf(w, g).(queued := SigOf(w, g).queued - 1, pending := false)
    ensures again ==> j - i - 1 < |w'.queue| && w'.queue[j - i - 1] == g
    decreases i
  {
    hide Dispatch, Exact, Run, Dispatches;
    DispatchFirst(w, i);
    var w1 := Dispatch(w);
    if i == 0 {
      DispatchSelf(w, g);
      w' := w1;
    } else {
      DispatchOther(w, g);
      w' := DispatchUntil(w1, g, i - 1, again, if again then j - 1 else 0);
    }
  }

  lemma DispatchFirst(w: World, i: nat)
    requires Exact(w)
    ensures Exact(Dispatch(w)) && Run(w, Dispatches(i + 1)) == Run(Dispatch(w), Dispatches(i))
    ensures Run(Dispatch(w), Dispatches(0)) == Some(Dispatch(w))
  {
    NextExact(w, DoDispatch);
    hide Exact, Dispatch;
    assert Dispatches(i + 1)[0] == DoDispatch && Dispatches(i + 1)[1..] == Dispatches(i);
  }

  lemma {:induction false} FirstOffer(q: seq<Eid>, g: Eid) returns (i: nat)
    requires g in q
    ensures i < |q| && q[i] == g && forall k :: 0 <= k < i ==> q[k] != g
  {
    if q[0] == g {
      i := 0;
    } else {
      i := FirstOffer(q[1..], g);
      i := i + 1;
    }
  }

  /** With g on offer twice and two tasks parked, dispatching releases both. */
  lemma BothReleased(w: World, g: Eid, i: nat, j: nat) returns (n: nat, w': World)
    requires Exact(w) && g in w.cycles && |w.queue| <= GATE_SLOTS
    requires i < j < |w.queue| && w.queue[i] == g == w.queue[j]
    requires SigOf(w, g).state == CycleRunning && SigOf(w, g).queued == 2 == SigOf(w, g).alive
    requires SigOf(w, g).asleep == 0
    ensures Run(w, Dispatches(n)) == Some(w') && g in w'.cycles && w'.cycles[g].state == CycleRunning
    ensures |Members(w', g, Active)| == 2
  {
    hide Run, Exact, Dispatch;
    var a := FirstOffer(w.queue, g);
    var b := if a == i then j else i;
    var w1 := DispatchUntil(w, g, a, true, b);
    var c := FirstOffer(w1.queue, g);
    w' := DispatchUntil(w1, g, c, false, 0);
    RunConcat(w, Dispatches(a + 1), Dispatches(c + 1));
    ConcatDispatches(a + 1, c + 1);
    n := a + 1 + (c + 1);
    TwoActive(w', g);
  }

  lemma TwoActive(w: World, g: Eid)
    requires Exact(w) && g in w.cycles && SigOf(w, g).alive == 2 && SigOf(w, g).queued == 0 == SigOf(w, g).asleep
    ensures |Members(w, g, Active)| == 2
  {
    assert CycleCounts(w, g);
  }

  lemma {:induction false} ConcatDispatches(m: nat, n: nat)
    ensures Dispatches(m) + Dispatches(n) == Dispatches(m + n)
  {
    if m > 0 {
      ConcatDispatches(m - 1, n);
      assert Dispatches(m) + Dispatches(n) == [DoDispatch] + (Dispatches(m - 1) + Dispatches(n));
    } else {
      assert [] + Dispatches(n) == Dispatches(n);
    }
  }

  lemma {:induction false} Bounded(s: set<nat>) returns (b: nat)
    ensures forall x :: x in s ==> x < b
  {
    if s == {} {
      b := 0;
    } else {
      var x :| x in s;
      var c := Bounded(s - {x});
      b := if c > x then c else x + 1;
      forall y | y in s ensures y < b { if y != x { assert y in s - {x}; } }
    }
  }

  lemma Fresh(w: World) returns (p: Pid)
    requires Exact(w)
    ensures p !in w.kernel && p !in w.ctxs
  {
    p := Bounded(w.kernel.Keys);
    assert CtxOk(w, p);
  }

  /** A fresh thread joins, all invariants included. */
  lemma JoinsExactly(w: World, g: Eid) returns (p: Pid, w': World)
    requires Exact(w) && |w.ctxs| < MAX_TASKS && SigOf(w, g).state == CycleUnavailable
    ensures Run(w, JoinSteps(p, g)) == Some(w') && Exact(w')
    ensures p !in w.kernel && Kept(w, w', p) && Runs(w', p, g) && |w'.ctxs| <= |w.ctxs| + 1
    ensures SigOf(w', g) == SigOf(w, g).(alive := SigOf(w, g).alive + 1,
              state := if SigOf(w, g).alive + 1 == SigOf(w, g).expected then CycleReady else CycleUnavailable)
  {
    p := Fresh(w);
    w' := Joins(w, p, g);
    RunsAreExact(w, JoinSteps(p, g));
  }

  lemma StillRuns(w: World, w': World, p: Pid, q: Pid, g: Eid)
    requires Runs(w, q, g) && OthersSame(w, w', p) && p != q
    ensures Runs(w', q, g)
  {
    assert SameTask(w, w', q);
  }

  /** Two threads join a gathering cycle and park. */
  lemma TwoPark(w: World, g: Eid) returns (steps: seq<Step>, w': World)
    requires Exact(w) && |w.ctxs| + 3 <= MAX_TASKS && |w.queue| < GATE_SLOTS
    requires w.cfg.threads >= 2 && SigOf(w, g) == Sig(w.cfg.threads, 0, 0, 0, false, CycleUnavailable)
    ensures Run(w, steps) == Some(w') && Exact(w') && g in w'.cycles && w'.cfg == w.cfg && |w'.ctxs| <= |w.ctxs| + 2
    ensures if w.cfg.threads == 2
            then SigOf(w', g) == Sig(2, 2, 0, 2, true, CycleRunning) && w'.queue == w.queue + [g]
            else SigOf(w', g) == Sig(w.cfg.threads, 2, 0, 2, false, CycleUnavailable) && w'.queue == w.queue
  {
    hide Run, Exact, Next, Enabled;
    var a, w1 := JoinsExactly(w, g);
    var b, w2 := JoinsExactly(w1, g);
    StillRuns(w1, w2, b, a, g);
    var w3 := Parks(w2, a, g);
    StillRuns(w2, w3, a, b, g);
    w' := Parks(w3, b, g);
    RunConcat(w, JoinSteps(a, g), JoinSteps(b, g));
    var s2 := JoinSteps(a, g) + JoinSteps(b, g);
    RunOne(w2, DoPreempt(a, QuietEvent));
    RunConcat(w, s2, [DoPreempt(a, QuietEvent)]);
    var s3 := s2 + [DoPreempt(a, QuietEvent)];
    RunOne(w3, DoPreempt(b, QuietEvent));
    RunConcat(w, s3, [DoPreempt(b, QuietEvent)]);
    steps := s3 + [DoPreempt(b, QuietEvent)];
  }

  /** However many threads a cycle waits for, two parked threads can be put on offer. */
  lemma TwoOnOffer(w: World, g: Eid) returns (steps: seq<Step>, w': World)
    requires Exact(w) && |w.ctxs| + 3 <= MAX_TASKS && |w.queue| < GATE_SLOTS
    requires w.cfg.threads >= 2 && SigOf(w, g) == Sig(w.cfg.threads, 0, 0, 0, false, CycleUnavailable)
    ensures Run(w, steps) == Some(w') && Exact(w') && g in w'.cycles && w'.queue == w.queue + [g]
    ensures |w'.ctxs| <= |w.ctxs| + 3 && w'.cfg == w.cfg
    ensures var s := SigOf(w', g); s.queued == 2 == s.alive && s.asleep == 0 && s.pending && s.state == CycleRunning
  {
    hide Run, Exact, Next, Enabled;
    steps, w' := TwoPark(w, g);
    if w.cfg.threads > 2 {
      var w2 := w';
      var c, w3 := JoinsExactly(w2, g);
      w' := Leaves(w3, c, g);
      RunConcat(w, steps, JoinSteps(c, g));
      RunOne(w3, DoExit(c));
      RunConcat(w, steps + JoinSteps(c, g), [DoExit(c)]);
      steps := steps + JoinSteps(c, g) + [DoExit(c)];
    }
  }

  /** An offer left over from an earlier cycle breaks serialisation. */
  lemma StaleOfferBreaks(w: World, g: Eid) returns (steps: seq<Step>, w': World)
    requires Exact(w) && g in w.queue && |w.ctxs| + 3 <= MAX_TASKS && |w.queue| < GATE_SLOTS
    requires w.cfg.threads >= 2 && SigOf(w, g) == Sig(w.cfg.threads, 0, 0, 0, false, CycleUnavailable)
    ensures Run(w, steps) == Some(w') && g in w'.cycles && w'.cycles[g].state == CycleRunning
    ensures |Members(w', g, Active)| == 2
  {
    hide Run, Exact, Next;
    var s1, w1 := TwoOnOffer(w, g);
    var i :| 0 <= i < |w.queue| && w.queue[i] == g;
    var n, w2 := BothReleased(w1, g, i, |w.queue|);
    RunConcat(w, s1, Dispatches(n));
    steps, w' := s1 + Dispatches(n), w2;
  }

  /** The converse of serialisation: if the last exit of a cycle of two or more threads finds its
      group on offer, the run has a continuation in which two joined tasks of one running cycle
      are neither parked nor asleep. */
  lemma ResetOnOfferBreaks(w: World, s: Step) returns (steps: seq<Step>, w': World)
    requires Exact(w) && |w.queue| < GATE_SLOTS && Enabled(w, s) && ResetsOnOffer(w, s)
    requires w.cfg.threads >= 2 && |w.ctxs| + 3 <= MAX_TASKS
    ensures Run(w, [s] + steps) == Some(w')
    ensures var g := GroupOf(w, s.pid).value;
      g in w'.cycles && w'.cycles[g].state == CycleRunning && |Members(w', g, Active)| == 2
  {
    var g := GroupOf(w, s.pid).value;
    var w1 := Next(w, s);
    NextExact(w, s);
    ResetSig(w, s.pid, g);
    steps, w' := StaleOfferBreaks(w1, g);
    RunOne(w, s);
    RunConcat(w, [s], steps);
  }

  lemma ResetSig(w: World, p: Pid, g: Eid)
    requires Exact(w) && Enabled(w, DoExit(p)) && GroupOf(w, p) == Some(g)
    requires Joined(w.ctxs[p].state) && CycleOver(CountExit(w.cycles[g], w.ctxs[p]))
    ensures var w' := Next(w, DoExit(p));
      && SigOf(w', g) == Sig(w.cfg.threads, 0, 0, 0, false, CycleUnavailable)
      && w'.queue == w.queue && w'.cfg == w.cfg && |w'.ctxs| <= |w.ctxs|
  {
    assert CtxOk(w, p);
    OverIsEmpty(w, p, g);
    WithoutOne(w.ctxs, p);
  }

  // ----- such a reset can be reached -----

  lemma ReleasesHead(w: World, g: Eid) returns (p: Pid, w': World)
    requires Exact(w) && w.queue == [g] && g in w.cycles
    requires w.cycles[g].state == CycleRunning && w.cycles[g].queued > 0
    ensures Run(w, [DoDispatch, DoRun(p)]) == Some(w') && Exact(w')
    ensures p in w'.ctxs && w'.ctxs[p].eid == g && Joined(w'.ctxs[p].state) && At(w', p, OnCpu)
    ensures w'.queue == [] && g in w'.cycles
    ensures SigOf(w', g) == SigOf(w, g).(queued := SigOf(w, g).queued - 1, pending := false)
    ensures |w'.ctxs| == |w.ctxs| && w'.cfg == w.cfg
  {
    EmptyIffNoneQueued(w, g);
    HeadIsParked(w, g);
    p := Dsq(w, g)[0].pid;
    assert CtxOk(w, p);
    var w1 := Next(w, DoDispatch);
    NextExact(w, DoDispatch);
    DispatchSelf(w, g);
    assert At(w1, p, LocalDsq) && w1.ctxs == w.ctxs;
    NextExact(w1, DoRun(p));
    hide Dispatch, Exact;
    w' := Next(w1, DoRun(p));
    assert [DoDispatch, DoRun(p)][1..] == [DoRun(p)];
    RunOne(w1, DoRun(p));
  }

  lemma ExitOffers(w: World, p: Pid, g: Eid) returns (w': World)
    requires Exact(w) && p in w.ctxs && w.ctxs[p].eid == g && Joined(w.ctxs[p].state) && At(w, p, OnCpu)
    requires w.queue == []
    requires var s := SigOf(w, g);
      s.state == CycleRunning && !s.pending && s.alive == 2 && s.queued == 1 && s.asleep == 0
    ensures Run(w, [DoExit(p)]) == Some(w') && Exact(w') && w'.queue == [g] && g in w'.cycles
    ensures SigOf(w', g) == SigOf(w, g).(alive := 1, pending := true)
    ensures |w'.ctxs| <= |w.ctxs| && w'.cfg == w.cfg
  {
    ExactAt(w, p, g);
    hide Exact, Next, SigOf;
    NextExact(w, DoExit(p));
    w' := Next(w, DoExit(p));
    ExitOpens(w, p, g);
    RunOne(w, DoExit(p));
  }

  lemma ExactAt(w: World, p: Pid, g: Eid)
    requires Exact(w)
    ensures CtxOk(w, p) && ShapeAt(w, g)
  {
  }

  /** What the exit of one of two members does when the other is parked. */
  lemma ExitOpens(w: World, p: Pid, g: Eid)
    requires CtxOk(w, p) && ShapeAt(w, g) && p in w.ctxs && w.ctxs[p].eid == g && Joined(w.ctxs[p].state)
    requires At(w, p, OnCpu) && w.queue == []
    requires var s := SigOf(w, g);
      s.state == CycleRunning && !s.pending && s.alive == 2 && s.queued == 1 && s.asleep == 0
    ensures var w' := Next(w, DoExit(p));
      && w'.queue == [g] && g in w'.cycles && SigOf(w', g) == SigOf(w, g).(alive := 1, pending := true)
      && |w'.ctxs| <= |w.ctxs| && w'.cfg == w.cfg
  {
    hide CountExit, CycleOver, PushGate, Shape;
    var t := w.ctxs[p];
    var c := CountExit(w.cycles[g], t);
    LastButOne(w.cycles[g], t);
    var w2 := SetCycle(w.(ctxs := w.ctxs - {p}, detIds := w.detIds - {p}), g, c);
    OpensEmpty(w2, g);
    WithoutOne(w.ctxs, p);
    assert Next(w, DoExit(p)) == PushGate(w2, g, false).(kernel := w.kernel - {p});
  }

  lemma LastButOne(c: Cycle, t: Ctx)
    requires Shape(c) && !Waiting(t.state) && !t.isAsleep && c.state == CycleRunning
    requires c.alive == 2 && c.queued == 1 && c.asleep == 0
    ensures CountExit(c, t) == c.(alive := 1) && !CycleOver(CountExit(c, t))
  {
  }

  lemma OpensEmpty(w: World, g: Eid)
    requires g in w.cycles && !w.cycles[g].pending && w.queue == []
    ensures PushGate(w, g, false) == SetCycle(w, g, w.cycles[g].(state := CycleRunning, pending := true)).(queue := [g])
  {
  }

  lemma SleepOffers(w: World, p: Pid, g: Eid) returns (w': World)
    requires Exact(w) && p in w.ctxs && w.ctxs[p].eid == g && Joined(w.ctxs[p].state) && At(w, p, OnCpu)
    requires w.queue == []
    requires var s := SigOf(w, g);
      s.state == CycleRunning && !s.pending && s.alive == 1 && s.queued == 0 && s.asleep == 0
    ensures Run(w, [DoSleep(p)]) == Some(w') && Exact(w') && w'.queue == [g] && g in w'.cycles
    ensures At(w', p, Blocked) && p in w'.ctxs && w'.ctxs[p].eid == g && Joined(w'.ctxs[p].state)
    ensures ResetsOnOffer(w', DoExit(p)) && GroupOf(w', p) == Some(g)
    ensures |w'.ctxs| == |w.ctxs| && w'.cfg == w.cfg
  {
    assert CtxOk(w, p);
    NextExact(w, DoSleep(p));
    w' := Next(w, DoSleep(p));
    assert CtxOk(w', p);
    RunOne(w, DoSleep(p));
  }

  /** From the start, two threads can reach a reset on offer. */
  lemma ReachesResetOnOffer(cfg: Config) returns (steps: seq<Step>, p: Pid, w: World)
    requires cfg.threads >= 2
    ensures Run(Start(cfg), steps) == Some(w) && Exact(w) && |w.queue| == 1 && w.cfg == cfg && |w.ctxs| < 5
    ensures Enabled(w, DoExit(p)) && ResetsOnOffer(w, DoExit(p)) && GroupOf(w, p) == Some(0)
  {
    hide Run, Exact, Next, ResetsOnOffer;
    var w0 := Start(cfg);
    StartExact(cfg);
    var s1, w1 := TwoOnOffer(w0, 0);
    var a, w2 := ReleasesHead(w1, 0);
    var w3 := ExitOffers(w2, a, 0);
    var b, w4 := ReleasesHead(w3, 0);
    w := SleepOffers(w4, b, 0);
    p := b;
    RunConcat(w0, s1, [DoDispatch, DoRun(a)]);
    RunConcat(w0, s1 + [DoDispatch, DoRun(a)], [DoExit(a)]);
    RunConcat(w0, s1 + [DoDispatch, DoRun(a)] + [DoExit(a)], [DoDispatch, DoRun(b)]);
    RunConcat(w0, s1 + [DoDispatch, DoRun(a)] + [DoExit(a)] + [DoDispatch, DoRun(b)], [DoSleep(b)]);
    steps := s1 + [DoDispatch, DoRun(a)] + [DoExit(a)] + [DoDispatch, DoRun(b)] + [DoSleep(b)];
  }

  /** So for two or more threads serialisation fails in some run. */
  lemma SerialisationCanFail(cfg: Config) returns (steps: seq<Step>, w: World)
    requires cfg.threads >= 2
    ensures Run(Start(cfg), steps) == Some(w)
    ensures 0 in w.cycles && w.cycles[0].state == CycleRunning && |Members(w, 0, Active)| == 2
  {
    hide Run, Exact, Next, Enabled, Members;
    var s1, p, w1 := ReachesResetOnOffer(cfg);
    var s2, w2 := ResetOnOfferBreaks(w1, DoExit(p));
    RunConcat(Start(cfg), s1, [DoExit(p)] + s2);
    steps, w := s1 + ([DoExit(p)] + s2), w2;
  }
}
