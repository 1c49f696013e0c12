/** Two consequences for whole runs: a cycle that timed out drains, and runs without timeouts
    in which tasks exit on a CPU are clean, hence serialised without further ado. */
module SchedRuns {
  import opened Common
  import opened SchedTypes
  import opened SchedSteps
  import opened SchedCounts
  import opened SchedSafety

  // ----- timeout-free runs -----

  ghost predicate OnTime(w: World, h: Eid) { h in w.cycles ==> w.cycles[h].state != CycleTimeout }

  lemma PushOnTime(w: World, g: Eid, timeout: bool, h: Eid)
    requires OnTime(w, h) && (timeout ==> g != h)
    ensures OnTime(PushGate(w, g, timeout), h)
  {
  }

  lemma EnsureCtxOnTime(w: World, p: Pid, g: Eid, h: Eid)
    requires OnTime(w, h)
    ensures OnTime(EnsureCtx(w, p, g), h)
  {
    hide TaskMapFull;
    assert OnTime(CreateCycle(w, g), h);
  }

  lemma EnqueueOnTime(w: World, p: Pid, ev: Event, h: Eid)
    requires OnTime(w, h) && p in w.kernel
    ensures OnTime(Enqueue(w, p, ev), h)
  {
    hide EnsureCtx, Park, PushGate;
    var k := w.kernel[p];
    if k.eid.Some? && k.eid.value in w.cycles {
      var g := k.eid.value;
      var w1 := EnsureCtx(w, p, g);
      EnsureCtxOnTime(w, p, g, h);
      EnsureCtxKeepsCycle(w, p, g, g);
      if p in w1.ctxs {
        ParkIs(w1, p, g, ev);
        PushOnTime(Park(w1, p, g, ev), g, false, h);
      }
    }
  }

  lemma DispatchOnTime(w: World, h: Eid)
    requires OnTime(w, h)
    ensures OnTime(Dispatch(w), h)
  {
    if w.queue != [] && w.queue[0] in w.cycles {
      var g := w.queue[0];
      var w1 := w.(queue := w.queue[1..]);
      hide PushGate;
      if Dsq(w1, g) == [] {
        var late := w.cycles[g].state == CycleTimeout;
        var c := w.cycles[g].(pending := false, queued := if late then 0 else w.cycles[g].queued);
        PushOnTime(SetCycle(w1, g, c), g, late, h);
      } else {
        var q := Dsq(w1, g);
        var w2 := SetLoc(w1.(dsqs := w1.dsqs[g := q[1..]]), q[0].pid, LocalDsq);
        var c0 := w2.cycles[g];
        var c := c0.(pending := false, queued := if c0.queued > 0 then c0.queued - 1 else c0.queued);
        if c.state == CycleTimeout { PushOnTime(SetCycle(w2, g, c), g, true, h); }
      }
    }
  }

  lemma WokenOnTime(w: World, p: Pid, h: Eid)
    requires OnTime(w, h) && p in w.kernel
    ensures OnTime(Woken(w, p), h)
  {
  }

  lemma SleepOnTime(w: World, p: Pid, h: Eid)
    requires OnTime(w, h)
    ensures OnTime(Sleep(w, p), h)
  {
  }

  lemma YieldOnTime(w: World, p: Pid, h: Eid)
    requires OnTime(w, h) && p in w.kernel
    ensures OnTime(Yield(w, p), h)
  {
    hide EnsureCtx;
    if w.kernel[p].eid.Some? { EnsureCtxOnTime(w, p, w.kernel[p].eid.value, h); }
  }

  lemma ExitedOnTime(w: World, p: Pid, h: Eid)
    requires OnTime(w, h)
    ensures OnTime(Exited(w, p), h)
  {
  }

  lemma NextOnTime(w: World, s: Step, h: Eid)
    requires OnTime(w, h) && Enabled(w, s) && !s.DoTimer?
    ensures OnTime(Next(w, s), h)
  {
    hide Enqueue, Dispatch, Sleep, Yield, Exited, TimerCheck, Woken, EnsureCtx;
    match s
    case DoSpawn(p, k) =>
      if k.eid.Some? { EnsureCtxOnTime(w.(kernel := w.kernel[p := k]), p, k.eid.value, h); }
    case DoRetag(p, k) =>
    case DoPreempt(p, ev) => EnqueueOnTime(w, p, ev, h);
    case DoWake(p, ev) =>
      WokenOnTime(w, p, h);
      EnqueueOnTime(Woken(w, p), p, ev, h);
    case DoDispatch => DispatchOnTime(w, h);
    case DoRun(p) =>
    case DoSleep(p) => SleepOnTime(SetLoc(w, p, Blocked), p, h);
    case DoYield(p) => YieldOnTime(w, p, h);
    case DoExit(p) => ExitedOnTime(w, p, h);
  }

  /** No timeout fires, and joined tasks exit only while on a CPU. */
  predicate QuietStep(w: World, s: Step) {
    !s.DoTimer? && (s.DoExit? && s.pid in w.ctxs && Joined(w.ctxs[s.pid].state) ==> At(w, s.pid, OnCpu))
  }

  predicate QuietRun(w: World, steps: seq<Step>)
    decreases |steps|
  {
    steps == [] || !Enabled(w, steps[0]) || (QuietStep(w, steps[0]) && QuietRun(Next(w, steps[0]), steps[1..]))
  }

  /** The last task of a cycle, exiting on a CPU, leaves nothing on offer. */
  lemma QuietStepIsClean(w: World, s: Step)
    requires Safe(w) && Enabled(w, s) && QuietStep(w, s)
    requires forall g: Eid :: OnTime(w, g)
    ensures !ResetsOnOffer(w, s)
  {
    if s.DoExit? && GroupOf(w, s.pid).Some? && Joined(w.ctxs[s.pid].state) {
      var g := GroupOf(w, s.pid).value;
      assert CtxOk(w, s.pid) && GroupSafe(w, g) && OnTime(w, g);
      JoinedCounters(w, s.pid);
      assert Offers(w, g) == 0;
      assert g !in multiset(w.queue);
    }
  }

  lemma {:induction false} QuietRunsAreClean(w: World, steps: seq<Step>)
    requires Safe(w) && QuietRun(w, steps)
    requires forall g: Eid :: OnTime(w, g)
    ensures CleanRun(w, steps)
    decreases |steps|
  {
    if steps != [] && Enabled(w, steps[0]) {
      var s := steps[0];
      QuietStepIsClean(w, s);
      NextSafe(w, s);
      forall g: Eid ensures OnTime(Next(w, s), g) { NextOnTime(w, s, g); }
      QuietRunsAreClean(Next(w, s), steps[1..]);
    }
  }

  /** Without timeouts and with exits on a CPU only, every run is serialised. */
  lemma QuietRunsSerialise(cfg: Config, steps: seq<Step>, w: World, g: Eid)
    requires cfg.threads > 0 && Run(Start(cfg), steps) == Some(w) && QuietRun(Start(cfg), steps)
    requires g in w.cycles && w.cycles[g].state == CycleRunning
    ensures |Members(w, g, Active)| + Bit(w.cycles[g].pending) <= 1
  {
    StartSafe(cfg);
    QuietRunsAreClean(Start(cfg), steps);
    Serialised(cfg, steps, w, g);
  }

  // ----- draining a cycle that timed out -----

  /** Group g's cycle has timed out and q is parked for it. */
  ghost predicate Late(w: World, g: Eid, q: seq<Entry>) {
    g in w.cycles && w.cycles[g].state == CycleTimeout && Dsq(w, g) == q
  }

  predicate Pops(w: World, s: Step, g: Eid) { s.DoDispatch? && w.queue != [] && w.queue[0] == g }

  predicate EndsCycle(w: World, s: Step, g: Eid) {
    && s.DoExit? && GroupOf(w, s.pid) == Some(g) && Joined(w.ctxs[s.pid].state)
    && CycleOver(CountExit(w.cycles[g], w.ctxs[s.pid]))
  }

  lemma PushLate(w: World, h: Eid, timeout: bool, g: Eid, q: seq<Entry>)
    requires Late(w, g, q) && (h == g ==> timeout)
    ensures Late(PushGate(w, h, timeout), g, q)
  {
  }

  lemma EnsureCtxLate(w: World, p: Pid, h: Eid, g: Eid, q: seq<Entry>)
    requires Late(w, g, q)
    ensures Late(EnsureCtx(w, p, h), g, q)
  {
    hide TaskMapFull;
    assert Late(CreateCycle(w, h), g, q);
    assert Late(NumberTask(CreateCycle(w, h), p, h), g, q);
  }

  lemma ParkLate(w: World, p: Pid, h: Eid, ev: Event, g: Eid, q: seq<Entry>)
    requires Late(w, g, q) && p in w.ctxs && h in w.cycles && h != g
    ensures Late(Park(w, p, h, ev), g, q)
  {
  }

  lemma EnqueueLate(w: World, p: Pid, ev: Event, g: Eid, q: seq<Entry>)
    requires Late(w, g, q) && p in w.kernel
    ensures Late(Enqueue(w, p, ev), g, q)
  {
    hide EnsureCtx, Park, PushGate;
    var k := w.kernel[p];
    if k.eid.Some? && k.eid.value in w.cycles && k.eid.value != g {
      var h := k.eid.value;
      var w1 := EnsureCtx(w, p, h);
      EnsureCtxLate(w, p, h, g, q);
      EnsureCtxKeepsCycle(w, p, h, h);
      if p in w1.ctxs {
        ParkLate(w1, p, h, ev, g, q);
        PushLate(Park(w1, p, h, ev), h, false, g, q);
      }
    }
  }

  lemma DispatchLate(w: World, g: Eid, q: seq<Entry>)
    requires Late(w, g, q)
    ensures Late(Dispatch(w), g, if Pops(w, DoDispatch, g) && q != [] then q[1..] else q)
  {
    if w.queue != [] && w.queue[0] in w.cycles {
      var h := w.queue[0];
      var w1 := w.(queue := w.queue[1..]);
      hide PushGate;
      if Dsq(w1, h) == [] {
        var late := w.cycles[h].state == CycleTimeout;
        var c := w.cycles[h].(pending := false, queued := if late then 0 else w.cycles[h].queued);
        PushLate(SetCycle(w1, h, c), h, late, g, q);
      } else {
        ReleaseLate(w1, h, g, q);
      }
    }
  }

  lemma ReleaseLate(w: World, h: Eid, g: Eid, q: seq<Entry>)
    requires Late(w, g, q) && h in w.cycles && Dsq(w, h) != []
    ensures Late(Release(w, h), g, if h == g then q[1..] else q)
  {
    hide PushGate;
    var e := Dsq(w, h);
    var w1 := SetLoc(w.(dsqs := w.dsqs[h := e[1..]]), e[0].pid, LocalDsq);
    var c0 := w1.cycles[h];
    var c := c0.(pending := false, queued := if c0.queued > 0 then c0.queued - 1 else c0.queued);
    PushLate(SetCycle(w1, h, c), h, true, g, if h == g then q[1..] else q);
  }

  lemma WokenLate(w: World, p: Pid, g: Eid, q: seq<Entry>)
    requires Late(w, g, q) && p in w.kernel
    ensures Late(Woken(w, p), g, q)
  {
  }

  lemma SleepLate(w: World, p: Pid, g: Eid, q: seq<Entry>)
    requires Late(w, g, q)
    ensures Late(Sleep(w, p), g, q)
  {
  }

  lemma YieldLate(w: World, p: Pid, g: Eid, q: seq<Entry>)
    requires Late(w, g, q) && p in w.kernel
    ensures Late(Yield(w, p), g, q)
  {
    hide EnsureCtx;
    if w.kernel[p].eid.Some? { EnsureCtxLate(w, p, w.kernel[p].eid.value, g, q); }
  }

  lemma ExitedLate(w: World, p: Pid, g: Eid, q: seq<Entry>)
    requires Late(w, g, q) && !EndsCycle(w, DoExit(p), g)
    ensures Late(Exited(w, p), g, q)
  {
    hide CountExit, PushGate;
    if GroupOf(w, p).Some? && Joined(w.ctxs[p].state) {
      var h := GroupOf(w, p).value;
      var c := CountExit(w.cycles[h], w.ctxs[p]);
      StateKept(w.cycles[h], w.ctxs[p]);
      PushLate(SetCycle(w.(ctxs := w.ctxs - {p}, detIds := w.detIds - {p}), h, c), h, c.state == CycleTimeout, g, q);
    }
  }

  lemma StateKept(c: Cycle, t: Ctx)
    ensures CountExit(c, t).state == c.state
  {
  }

  /** A step neither revives a timed-out cycle nor parks anything for it; only a dispatch of
      its group shortens its queue, by the first entry. */
  lemma NextLate(w: World, s: Step, g: Eid, q: seq<Entry>)
    requires Late(w, g, q) && Enabled(w, s) && !EndsCycle(w, s, g)
    ensures Late(Next(w, s), g, if Pops(w, s, g) && q != [] then q[1..] else q)
  {
    hide Enqueue, Dispatch, Sleep, Yield, Exited, Woken, EnsureCtx;
    match s
    case DoSpawn(p, k) =>
      if k.eid.Some? { EnsureCtxLate(w.(kernel := w.kernel[p := k]), p, k.eid.value, g, q); }
    case DoRetag(p, k) =>
    case DoPreempt(p, ev) => EnqueueLate(w, p, ev, g, q);
    case DoWake(p, ev) =>
      WokenLate(w, p, g, q);
      EnqueueLate(Woken(w, p), p, ev, g, q);
    case DoDispatch => DispatchLate(w, g, q);
    case DoRun(p) =>
    case DoSleep(p) => SleepLate(SetLoc(w, p, Blocked), p, g, q);
    case DoYield(p) => YieldLate(w, p, g, q);
    case DoExit(p) => ExitedLate(w, p, g, q);
    case DoTimer(p, now) =>
  }

  /** How often a run dispatches group g, and whether it ends g's cycle. */
  function PopCount(w: World, steps: seq<Step>, g: Eid): nat
    decreases |steps|
  {
    if steps == [] || !Enabled(w, steps[0]) then 0
    else Bit(Pops(w, steps[0], g)) + PopCount(Next(w, steps[0]), steps[1..], g)
  }

  predicate KeepsCycle(w: World, steps: seq<Step>, g: Eid)
    decreases |steps|
  {
    steps == [] || !Enabled(w, steps[0]) ||
    (!EndsCycle(w, steps[0], g) && KeepsCycle(Next(w, steps[0]), steps[1..], g))
  }

  function Drop<T>(q: seq<T>, k: nat): seq<T> { if k <= |q| then q[k..] else [] }

  lemma {:induction false} LateRuns(w: World, steps: seq<Step>, g: Eid, q: seq<Entry>)
    requires Late(w, g, q) && Run(w, steps).Some? && KeepsCycle(w, steps, g)
    ensures Late(Run(w, steps).value, g, Drop(q, PopCount(w, steps, g)))
    decreases |steps|
  {
    hide Next, Enabled, Late, EndsCycle, Pops;
    if steps != [] {
      var s := steps[0];
      NextLate(w, s, g, q);
      LateRuns(Next(w, s), steps[1..], g, if Pops(w, s, g) && q != [] then q[1..] else q);
    }
  }

  lemma {:induction false} PidsSize(q: seq<Entry>)
    requires Distinct(q)
    ensures |Pids(q)| == |q|
  {
    if q != [] { PidsSize(q[1..]); }
  }

  lemma QueuedIsDsq(w: World, g: Eid)
    requires CountsOk(w) && g in w.cycles
    ensures w.cycles[g].queued == |Dsq(w, g)|
  {
    assert DsqOk(w, g) && CycleCounts(w, g);
    PidsSize(Dsq(w, g));
    assert Members(w, g, Queued) == Pids(Dsq(w, g)) by {
      forall p ensures p in Members(w, g, Queued) <==> p in Pids(Dsq(w, g)) {
        assert CtxOk(w, p);
        assert p in Pids(Dsq(w, g)) <==> IsParked(w, p, g);
      }
    }
  }

  /** Once timed out, a cycle stays so until it ends; k dispatches of its group leave num_queued
      at what it was less k, or zero; and as long as it is positive the group is on offer. */
  lemma TimeoutDrains(w: World, steps: seq<Step>, g: Eid)
    requires Safe(w) && CleanRun(w, steps) && Run(w, steps).Some? && KeepsCycle(w, steps, g)
    requires g in w.cycles && w.cycles[g].state == CycleTimeout
    ensures var w' := Run(w, steps).value;
      var left := w.cycles[g].queued - PopCount(w, steps, g);
      && g in w'.cycles && w'.cycles[g].state == CycleTimeout
      && w'.cycles[g].queued == (if left > 0 then left else 0)
      && (w'.cycles[g].queued > 0 ==> w'.cycles[g].pending && g in w'.queue)
  {
    var w' := Run(w, steps).value;
    RunsAreSafe(w, steps);
    LateRuns(w, steps, g, Dsq(w, g));
    QueuedIsDsq(w, g);
    QueuedIsDsq(w', g);
    assert GroupSafe(w', g);
  }
}
