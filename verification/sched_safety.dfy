/** Serialisation: as long as no cycle is reset while its group is still on offer, at most
    one joined task of a running cycle is on a CPU or on its way there, no parked task is
    forgotten, and a cycle that timed out drains. */
module SchedSafety {
  import opened Common
  import opened SchedTypes
  import opened SchedSteps
  import opened SchedCounts

  function Bit(b: bool): nat { if b then 1 else 0 }

  /** What the gate of one cycle promises, by state. */
  predicate GateOk(c: Cycle) {
    match c.state
    case CycleUnavailable => !c.pending
    case CycleReady => !c.pending
    case CycleRunning =>
      c.Active() + Bit(c.pending) <= 1 && (c.pending || c.Active() == 1 || c.queued == 0)
    case CycleTimeout => c.queued > 0 ==> c.pending
  }

  /** The same with one more task about to be parked. */
  predicate GateLoose(c: Cycle) {
    match c.state
    case CycleUnavailable => !c.pending
    case CycleReady => !c.pending
    case CycleRunning => c.Active() - 1 + Bit(c.pending) <= 1
    case CycleTimeout => c.queued > 0 ==> c.pending
  }

  predicate Pending(w: World, g: Eid) { g in w.cycles && w.cycles[g].pending }

  ghost function Offers(w: World, g: Eid): nat { multiset(w.queue)[g] }

  /** A group is on offer exactly once while pending, not at all otherwise, and its gate holds. */
  ghost predicate GroupSafe(w: World, g: Eid) {
    Offers(w, g) == Bit(Pending(w, g)) && (g in w.cycles ==> GateOk(w.cycles[g]))
  }

  ghost predicate Safe(w: World) { Exact(w) && forall g: Eid :: GroupSafe(w, g) }

  // ----- the gate queue never fills up -----

  ghost predicate Capped(m: multiset<Eid>, n: nat, k: nat) {
    forall g: Eid :: m[g] <= if g < n then k else 0
  }

  ghost function Times(n: nat, k: nat): nat { if n == 0 then 0 else k + Times(n - 1, k) }

  lemma {:induction false} CappedSize(m: multiset<Eid>, n: nat, k: nat)
    requires n <= MAX_EXECUTOR_GROUPS && Capped(m, n, k)
    ensures |m| <= Times(n, k)
    decreases n
  {
    if n == 0 {
      assert m == multiset{} by { forall g: Eid ensures m[g] == 0 {} }
    } else {
      var x: Eid := n - 1;
      var rest := m[x := 0];
      CappedSize(rest, n - 1, k);
      assert |rest| == |m| - m[x];
    }
  }

  /** With every group on offer at most once, the 64 slots hold at most 10 entries. */
  lemma QueueShort(w: World)
    requires forall g: Eid :: GroupSafe(w, g)
    ensures |w.queue| <= MAX_EXECUTOR_GROUPS
  {
    forall g: Eid ensures multiset(w.queue)[g] <= 1 { assert GroupSafe(w, g); }
    assert Capped(multiset(w.queue), MAX_EXECUTOR_GROUPS, 1);
    CappedSize(multiset(w.queue), MAX_EXECUTOR_GROUPS, 1);
    assert Times(5, 1) == 5 && Times(10, 1) == 10;
  }

  // ----- each callback, seen from one group h -----

  /** Pushing group g, when there is room. */
  lemma PushGroup(w: World, g: Eid, timeout: bool, h: Eid)
    requires |w.queue| < GATE_SLOTS
    requires Offers(w, h) == Bit(Pending(w, h))
    ensures var w' := PushGate(w, g, timeout);
      && Offers(w', h) == Bit(Pending(w', h))
      && (h != g || Pending(w, h) ==>
            (h in w'.cycles <==> h in w.cycles) && (h in w.cycles ==> w'.cycles[h] == w.cycles[h]))
      && (h == g && h in w.cycles && !w.cycles[h].pending ==>
            && h in w'.cycles
            && w'.cycles[h] == w.cycles[h].(state := if timeout then CycleTimeout else CycleRunning, pending := true))
  {
  }

  lemma CreateCycleGroup(w: World, g: Eid, h: Eid)
    requires GroupSafe(w, h)
    ensures GroupSafe(CreateCycle(w, g), h)
  {
  }

  lemma NumberTaskGroup(w: World, p: Pid, g: Eid, h: Eid)
    requires GroupSafe(w, h) && g in w.cycles
    ensures GroupSafe(NumberTask(w, p, g), h)
  {
  }

  lemma EnsureCtxGroup(w: World, p: Pid, g: Eid, h: Eid)
    requires GroupSafe(w, h)
    ensures GroupSafe(EnsureCtx(w, p, g), h)
  {
    hide TaskMapFull;
    CreateCycleGroup(w, g, h);
    NumberTaskGroup(CreateCycle(w, g), p, g, h);
  }

  /** Parking p, an active task of g: loosely safe before, safe after. */
  lemma ParkGroup(w: World, p: Pid, g: Eid, ev: Event, h: Eid)
    requires p in w.ctxs && g in w.cycles && |w.queue| < GATE_SLOTS
    requires Offers(w, h) == Bit(Pending(w, h))
    requires h != g && h in w.cycles ==> GateOk(w.cycles[h])
    requires GateLoose(w.cycles[g]) && w.cycles[g].state != CycleTimeout && Shape(w.cycles[g])
    requires w.cycles[g].Active() >= 1 && w.cycles[g].asleep >= 0
    ensures var w2 := Park(w, p, g, ev);
      GroupSafe(if GateOpens(w2.cycles[g]) then PushGate(w2, g, false) else w2, h)
  {
    var w2 := Park(w, p, g, ev);
    ParkIs(w, p, g, ev);
    hide Park, PushGate;
    PushGroup(w2, g, false, h);
  }

  ghost predicate LooseFor(w: World, p: Pid, h: Eid) {
    && Offers(w, h) == Bit(Pending(w, h))
    && (h in w.cycles ==> if RoleOf(w, p) == Member(h, Active) then GateLoose(w.cycles[h]) else GateOk(w.cycles[h]))
  }

  /** A task without a context gets none that has joined. */
  lemma EnsureCtxIs(w: World, p: Pid, g: Eid)
    ensures var w' := EnsureCtx(w, p, g);
      if p in w.ctxs then w' == w else p in w'.ctxs ==> !Joined(w'.ctxs[p].state)
  {
    hide TaskMapFull;
  }

  lemma EnqueueGroup(w: World, p: Pid, ev: Event, h: Eid)
    requires CtxOk(w, p) && (At(w, p, OnCpu) || At(w, p, Transit)) && |w.queue| < GATE_SLOTS
    requires forall g: Eid :: LooseFor(w, p, g)
    requires p in w.ctxs && Joined(w.ctxs[p].state) ==>
      var c := w.cycles[w.ctxs[p].eid]; c.Active() >= 1 && c.asleep >= 0 && Shape(c)
    ensures GroupSafe(Enqueue(w, p, ev), h)
  {
    hide EnsureCtx, Park, PushGate;
    assert LooseFor(w, p, h);
    var k := w.kernel[p];
    if !(k.kthread || k.eid.None? || !k.ext) {
      var g := k.eid.value;
      assert LooseFor(w, p, g);
      if g in w.cycles && w.cycles[g].state != CycleTimeout {
        EnsureCtxIs(w, p, g);
        if p in w.ctxs && Joined(w.ctxs[p].state) {
          ParkGroup(w, p, g, ev, h);
        } else {
          EnsureCtxGroup(w, p, g, h);
        }
      }
    }
  }

  lemma ReleaseGroup(w: World, g: Eid, h: Eid)
    requires |w.queue| < GATE_SLOTS && g in w.cycles && Dsq(w, g) != []
    requires Offers(w, h) == Bit(h != g && Pending(w, h)) && (h in w.cycles ==> GateOk(w.cycles[h]))
    requires var c := w.cycles[g]; c.pending && c.queued > 0 && GateOk(c) && c.Active() >= 0
    requires w.cycles[g].state == CycleRunning || w.cycles[g].state == CycleTimeout
    ensures GroupSafe(Release(w, g), h)
  {
    hide PushGate;
    var q := Dsq(w, g);
    var w1 := SetLoc(w.(dsqs := w.dsqs[g := q[1..]]), q[0].pid, LocalDsq);
    var w2 := SetCycle(w1, g, w.cycles[g].(pending := false, queued := w.cycles[g].queued - 1));
    PushGroup(w2, g, true, h);
  }

  lemma DispatchEmptyGroup(w: World, g: Eid, h: Eid)
    requires g in w.cycles && w.cycles[g].queued == 0
    requires Offers(w, h) == Bit(h != g && Pending(w, h)) && (h in w.cycles ==> GateOk(w.cycles[h]))
    requires var c := w.cycles[g]; c.pending && GateOk(c)
    ensures GroupSafe(DispatchEmpty(w, g), h)
  {
  }

  lemma DispatchGroup(w: World, h: Eid)
    requires w.queue != [] && |w.queue| < GATE_SLOTS
    requires GroupSafe(w, h) && GroupSafe(w, w.queue[0])
    requires w.queue[0] in w.cycles
    requires var c := w.cycles[w.queue[0]];
      c.queued >= 0 && c.Active() >= 0 && (Dsq(w, w.queue[0]) == [] <==> c.queued == 0)
    ensures GroupSafe(Dispatch(w), h)
  {
    var g := w.queue[0];
    var w1 := w.(queue := w.queue[1..]);
    assert w.queue == [g] + w1.queue;
    assert Offers(w, h) == Bit(h == g) + Offers(w1, h);
    assert Offers(w, g) == 1 + Offers(w1, g);
    if Dsq(w1, g) != [] { ReleaseGroup(w1, g, h); } else { DispatchEmptyGroup(w1, g, h); }
  }

  /** A wake-up alone never opens the gate: the woken task is not parked yet. */
  lemma WokenGroup(w: World, p: Pid, h: Eid)
    requires CtxOk(w, p) && At(w, p, Blocked) && GroupSafe(w, h)
    requires p in w.ctxs && w.ctxs[p].isAsleep ==> var c := w.cycles[w.ctxs[p].eid]; c.asleep >= 1 && c.Active() >= 0
    ensures LooseFor(Woken(w, p), p, h)
    ensures Woken(w, p).queue == w.queue
  {
  }

  lemma SleepGroup(w: World, p: Pid, h: Eid)
    requires CtxOk(w, p) && At(w, p, OnCpu) && GroupSafe(w, h) && |w.queue| < GATE_SLOTS
    requires p in w.ctxs && Joined(w.ctxs[p].state) ==> w.cycles[w.ctxs[p].eid].Active() >= 1
    ensures GroupSafe(Sleep(SetLoc(w, p, Blocked), p), h)
  {
    hide PushGate;
    if p in w.ctxs && Joined(w.ctxs[p].state) {
      var g := w.ctxs[p].eid;
      var c := w.cycles[g].(asleep := w.cycles[g].asleep + 1);
      var w1 := SetCycle(SetCtx(SetLoc(w, p, Blocked), p, w.ctxs[p].(isAsleep := true)), g, c);
      PushGroup(w1, g, false, h);
    }
  }

  lemma YieldGroup(w: World, p: Pid, h: Eid)
    requires p in w.kernel && GroupSafe(w, h)
    ensures GroupSafe(Yield(w, p), h)
  {
    hide EnsureCtx;
    if w.kernel[p].eid.Some? { EnsureCtxGroup(w, p, w.kernel[p].eid.value, h); }
  }

  /** The step that can break serialisation: the last exit of a cycle whose group is on offer. */
  predicate ResetsOnOffer(w: World, s: Step) {
    && s.DoExit? && GroupOf(w, s.pid).Some? && Joined(w.ctxs[s.pid].state)
    && CycleOver(CountExit(w.cycles[GroupOf(w, s.pid).value], w.ctxs[s.pid]))
    && GroupOf(w, s.pid).value in w.queue
  }

  /** What an exit does to the gate of its own cycle. */
  lemma ExitCycle(c: Cycle, t: Ctx)
    requires GateOk(c) && Shape(c) && c.alive >= 1 && c.queued >= 0 && !Waiting(t.state)
    requires c.asleep >= Bit(t.isAsleep) && c.Active() >= Bit(!t.isAsleep)
    ensures var c' := CountExit(c, t);
      && c'.pending == c.pending && c'.state == c.state && c'.Active() >= 0
      && (CycleOver(c') ==> c'.alive == 0)
      && (!CycleOver(c') && !(c'.alive != 0 && c'.queued == c'.alive - c'.asleep) ==> GateOk(c'))
      && (c'.pending && !CycleOver(c') ==> GateOk(c'))
  {
  }

  /** An exit seen from another group. */
  lemma ExitOther(w: World, p: Pid, h: Eid)
    requires CtxOk(w, p) && |w.queue| < GATE_SLOTS && GroupSafe(w, h) && GroupOf(w, p) != Some(h)
    ensures GroupSafe(Exited(w, p), h)
  {
    hide PushGate, CountExit, GateOk;
    if p in w.ctxs && Joined(w.ctxs[p].state) {
      var g := w.ctxs[p].eid;
      var c := CountExit(w.cycles[g], w.ctxs[p]);
      var w2 := SetCycle(w.(ctxs := w.ctxs - {p}, detIds := w.detIds - {p}), g, c);
      PushGroup(w2, g, c.state == CycleTimeout, h);
    }
  }

  lemma ExitGroup(w: World, p: Pid, h: Eid)
    requires CtxOk(w, p) && (At(w, p, OnCpu) || At(w, p, Blocked)) && |w.queue| < GATE_SLOTS
    requires GroupSafe(w, h) && !ResetsOnOffer(w, DoExit(p))
    requires p in w.ctxs && Joined(w.ctxs[p].state) ==>
      var c := w.cycles[w.ctxs[p].eid];
      && Shape(c) && c.alive >= 1 && c.queued >= 0 && c.asleep >= Bit(w.ctxs[p].isAsleep)
      && c.Active() >= Bit(!w.ctxs[p].isAsleep)
    ensures GroupSafe(Exited(w, p), h)
  {
    hide PushGate, CountExit, Shape;
    if GroupOf(w, p) != Some(h) {
      ExitOther(w, p, h);
    } else if Joined(w.ctxs[p].state) {
      var c := CountExit(w.cycles[h], w.ctxs[p]);
      var w2 := SetCycle(w.(ctxs := w.ctxs - {p}, detIds := w.detIds - {p}), h, c);
      assert Offers(w, h) == 0 <==> h !in w.queue;
      ExitCycle(w.cycles[h], w.ctxs[p]);
      PushGroup(w2, h, c.state == CycleTimeout, h);
    }
  }

  lemma TimerGroup(w: World, p: Pid, now: nat, h: Eid)
    requires GroupSafe(w, h) && |w.queue| < GATE_SLOTS
    ensures GroupSafe(TimerCheck(w, p, now), h)
  {
    if p in w.ctxs && Expired(w.ctxs[p], now) {
      PushGroup(SetCtx(w, p, w.ctxs[p].(state := ThreadTimeout)), w.ctxs[p].eid, true, h);
    }
  }

  // ----- whole steps and whole runs -----

  lemma Counters(w: World, g: Eid)
    requires CountsOk(w) && g in w.cycles
    ensures w.cycles[g].Active() == Count(w, g, Active) && w.cycles[g].queued >= 0 && w.cycles[g].asleep >= 0
  {
    assert CycleCounts(w, g);
  }

  /** What the counters say about the cycle of a joined task. */
  lemma JoinedCounters(w: World, p: Pid)
    requires Exact(w) && p in w.ctxs && Joined(w.ctxs[p].state)
    ensures var g := w.ctxs[p].eid;
      && g in w.cycles && Shape(w.cycles[g]) && w.cycles[g].alive >= 1
      && w.cycles[g].queued >= 0 && w.cycles[g].asleep >= Bit(w.ctxs[p].isAsleep) && w.cycles[g].Active() >= 0
      && (RoleOf(w, p) == Member(g, Active) ==> w.cycles[g].Active() >= 1)
  {
    var g := w.ctxs[p].eid;
    JoinedCounted(w, p);
    Counters(w, g);
    assert ShapeAt(w, g) && CycleCounts(w, g);
  }

  lemma EmptyIffNoneQueued(w: World, g: Eid)
    requires CountsOk(w) && g in w.cycles
    ensures Dsq(w, g) == [] <==> w.cycles[g].queued == 0
  {
    if Dsq(w, g) == [] { EmptyDsqUncounted(w, g); } else { HeadIsParked(w, g); }
  }

  lemma PreemptLoose(w: World, p: Pid, h: Eid)
    requires Exact(w) && GroupSafe(w, h)
    ensures LooseFor(w, p, h)
  {
    if h in w.cycles && RoleOf(w, p) == Member(h, Active) { JoinedCounters(w, p); }
  }

  lemma NextGroup(w: World, s: Step, h: Eid)
    requires Safe(w) && Enabled(w, s) && !ResetsOnOffer(w, s) && |w.queue| < GATE_SLOTS
    ensures GroupSafe(Next(w, s), h)
  {
    hide Enqueue, Dispatch, Sleep, Yield, Exited, TimerCheck, Woken, EnsureCtx;
    assert GroupSafe(w, h);
    if !s.DoDispatch? {
      assert CtxOk(w, s.pid);
      if s.pid in w.ctxs && Joined(w.ctxs[s.pid].state) { JoinedCounters(w, s.pid); }
    }
    match s
    case DoSpawn(p, k) =>
      if k.eid.Some? { EnsureCtxGroup(w.(kernel := w.kernel[p := k]), p, k.eid.value, h); }
    case DoRetag(p, k) =>
    case DoPreempt(p, ev) =>
      forall g: Eid ensures LooseFor(w, p, g) { assert GroupSafe(w, g); PreemptLoose(w, p, g); }
      EnqueueGroup(w, p, ev, h);
    case DoWake(p, ev) => WakeGroup(w, p, ev, h);
    case DoDispatch => DispatchStepGroup(w, h);
    case DoRun(p) =>
    case DoSleep(p) => SleepGroup(w, p, h);
    case DoYield(p) => YieldGroup(w, p, h);
    case DoExit(p) => ExitGroup(w, p, h);
    case DoTimer(p, now) => TimerGroup(w, p, now, h);
  }

  lemma WakeGroup(w: World, p: Pid, ev: Event, h: Eid)
    requires Safe(w) && At(w, p, Blocked) && |w.queue| < GATE_SLOTS
    ensures GroupSafe(Enqueue(Woken(w, p), p, ev), h)
  {
    hide Enqueue;
    assert CtxOk(w, p);
    if p in w.ctxs && Joined(w.ctxs[p].state) { JoinedCounters(w, p); }
    forall g: Eid ensures LooseFor(Woken(w, p), p, g) {
      assert GroupSafe(w, g);
      WokenGroup(w, p, g);
    }
    WokenGroup(w, p, h);
    WokenCounts(w, p);
    var w1 := Woken(w, p);
    assert CtxOk(w1, p);
    forall g: Eid ensures ShapeAt(w1, g) { assert ShapeAt(w, g); WokenShape(w, p, g); }
    if p in w1.ctxs && Joined(w1.ctxs[p].state) { JoinedCounters(w1, p); }
    EnqueueGroup(w1, p, ev, h);
  }

  lemma DispatchStepGroup(w: World, h: Eid)
    requires Safe(w) && |w.queue| < GATE_SLOTS
    ensures GroupSafe(Dispatch(w), h)
  {
    assert GroupSafe(w, h);
    if w.queue != [] {
      var g := w.queue[0];
      assert GroupSafe(w, g);
      assert Offers(w, g) > 0;
      Counters(w, g);
      EmptyIffNoneQueued(w, g);
      DispatchGroup(w, h);
    }
  }

  lemma NextSafe(w: World, s: Step)
    requires Safe(w) && Enabled(w, s) && !ResetsOnOffer(w, s)
    ensures Safe(Next(w, s))
  {
    hide Next;
    QueueShort(w);
    NextExact(w, s);
    forall g: Eid ensures GroupSafe(Next(w, s), g) { NextGroup(w, s, g); }
  }

  /** No cycle is reset while its group is on offer. */
  predicate CleanRun(w: World, steps: seq<Step>)
    decreases |steps|
  {
    steps == [] || !Enabled(w, steps[0]) ||
    (!ResetsOnOffer(w, steps[0]) && CleanRun(Next(w, steps[0]), steps[1..]))
  }

  lemma {:induction false} RunsAreSafe(w: World, steps: seq<Step>)
    requires Safe(w) && CleanRun(w, steps) && Run(w, steps).Some?
    ensures Safe(Run(w, steps).value)
    decreases |steps|
  {
    if steps != [] {
      NextSafe(w, steps[0]);
      RunsAreSafe(Next(w, steps[0]), steps[1..]);
    }
  }

  lemma StartSafe(cfg: Config)
    requires cfg.threads > 0
    ensures Safe(Start(cfg))
  {
    StartExact(cfg);
    forall g: Eid ensures GroupSafe(Start(cfg), g) {}
  }

  /** Serialisation: in every clean run, whenever the cycle of group g is running, the joined
      tasks of g that are neither parked nor asleep, plus one if the group is on offer, number
      at most one; and if any task is parked then that number is exactly one. */
  lemma Serialised(cfg: Config, steps: seq<Step>, w: World, g: Eid)
    requires cfg.threads > 0 && Run(Start(cfg), steps) == Some(w) && CleanRun(Start(cfg), steps)
    requires g in w.cycles && w.cycles[g].state == CycleRunning
    ensures |Members(w, g, Active)| + Bit(w.cycles[g].pending) <= 1
    ensures Members(w, g, Queued) != {} ==> |Members(w, g, Active)| + Bit(w.cycles[g].pending) == 1
    ensures |w.queue| <= MAX_EXECUTOR_GROUPS
  {
    StartSafe(cfg);
    RunsAreSafe(Start(cfg), steps);
    assert GroupSafe(w, g) && CycleCounts(w, g);
    QueueShort(w);
  }
}
