/** The timeout watchdog: whom it reports, and when. */
module SchedTimer {
  import opened Common
  import opened SchedTypes
  import opened SchedSteps
  import opened SchedCounts

  /** The age of a stamp on the 64-bit clock. */
  function Age(stamp: nat, now: nat): nat { (now - stamp) % U64 }

  /** Wrap-around included: a stamp expires after 60 ms, and for as long as the signed comparison holds. */
  lemma ExpiredIff(t: Ctx, now: nat)
    requires t.lastEnqueue < U64 && now < U64
    ensures Expired(t, now) <==>
      && Waiting(t.state) && !t.isAsleep && t.lastEnqueue != 0
      && 60_000_000 < Age(t.lastEnqueue, now) <= 60_000_000 + U64 / 2
  {
  }

  /** p has been waiting, awake, since a time not after now. */
  predicate WaitsSince(w: World, p: Pid, since: nat, now: nat) {
    && p in w.ctxs && Waiting(w.ctxs[p].state) && !w.ctxs[p].isAsleep && w.ctxs[p].eid in w.cycles
    && w.ctxs[p].lastEnqueue == since && 0 < since <= now < U64 / 2
  }

  /** After the report of p: p is marked, its group is on offer, and nothing else has changed. */
  ghost predicate Reported(w: World, p: Pid, w': World) {
    && p in w.ctxs && w.ctxs[p].eid in w.cycles
    && var g := w.ctxs[p].eid;
    && w'.ctxs == w.ctxs[p := w.ctxs[p].(state := ThreadTimeout)]
    && w'.cfg == w.cfg && w'.detIds == w.detIds && w'.dsqs == w.dsqs && w'.kernel == w.kernel
    && (w.cycles[g].pending || (|w.queue| >= 64 && !w.cfg.evicts) ==> w'.cycles == w.cycles && w'.queue == w.queue)
    && (!w.cycles[g].pending && (|w.queue| < 64 || w.cfg.evicts) ==>
          && w'.cycles == w.cycles[g := w.cycles[g].(state := CycleTimeout, pending := true)]
          && w'.queue == w.queue[if |w.queue| < 64 then 0 else 1..] + [g])
  }

  /** The watchdog reports a waiting task exactly when it has waited more than 60 ms. */
  lemma TimerExact(w: World, p: Pid, since: nat, now: nat)
    requires WaitsSince(w, p, since, now)
    ensures now - since > 60_000_000 ==> Reported(w, p, TimerCheck(w, p, now))
    ensures now - since <= 60_000_000 ==> TimerCheck(w, p, now) == w
  {
    ExpiredIff(w.ctxs[p], now);
  }

  lemma TimerLeavesAlone(w: World, p: Pid, now: nat)
    requires Exact(w) && !At(w, p, Parked) && !At(w, p, LocalDsq)
    ensures TimerCheck(w, p, now) == w
  {
    assert CtxOk(w, p);
  }

  /** A task that is on a CPU, asleep, or outside its group's queue is left alone in every reachable state. */
  lemma NeverReported(cfg: Config, steps: seq<Step>, w: World, p: Pid, now: nat)
    requires cfg.threads > 0 && Run(Start(cfg), steps) == Some(w)
    requires At(w, p, OnCpu) || At(w, p, Blocked) || At(w, p, GlobalDsq) || At(w, p, Transit) || p !in w.kernel
    ensures TimerCheck(w, p, now) == w
  {
    hide Exact, Run, TimerCheck;
    StartExact(cfg);
    RunsAreExact(Start(cfg), steps);
    TimerLeavesAlone(w, p, now);
  }

  lemma ParkedHasCtx(w: World, p: Pid)
    requires Exact(w) && At(w, p, Parked)
    ensures p in w.ctxs && Waiting(w.ctxs[p].state) && !w.ctxs[p].isAsleep && w.ctxs[p].eid in w.cycles
  {
    assert CtxOk(w, p);
  }

  predicate SameStamp(w: World, w': World, p: Pid) {
    p in w.ctxs && p in w'.ctxs && w'.ctxs[p].lastEnqueue == w.ctxs[p].lastEnqueue
  }

  lemma OfferStamp(w: World, g: Eid, timeout: bool, p: Pid)
    requires p in w.ctxs
    ensures SameStamp(w, PushGate(w, g, timeout), p)
  {
  }

  lemma RegisterStamp(w: World, q: Pid, g: Eid, p: Pid)
    requires p in w.ctxs
    ensures SameStamp(w, EnsureCtx(w, q, g), p)
  {
  }

  lemma ParkStamp(w: World, q: Pid, g: Eid, ev: Event, p: Pid)
    requires q in w.ctxs && g in w.cycles && p in w.ctxs
    ensures p != q ==> SameStamp(w, Park(w, q, g, ev), p)
    ensures p == q ==> p in Park(w, q, g, ev).ctxs && Park(w, q, g, ev).ctxs[p].lastEnqueue == ev.now % U64
  {
    hide CountEnqueue, Insert;
  }

  lemma EnqueueStamp(w: World, q: Pid, ev: Event, p: Pid)
    requires p in w.ctxs && p != q && q in w.kernel
    ensures SameStamp(w, Enqueue(w, q, ev), p)
  {
    hide PushGate, GateOpens, EnsureCtx, Park;
    var k := w.kernel[q];
    if k.kthread || k.eid.None? || !k.ext || k.eid.value !in w.cycles {
    } else {
      var g := k.eid.value;
      RegisterStamp(w, q, g, p);
      var w1 := EnsureCtx(w, q, g);
      KeepsCycle(w, q, g);
      if q in w1.ctxs {
        ParkStamp(w1, q, g, ev, p);
        OfferStamp(Park(w1, q, g, ev), g, false, p);
      }
    }
  }

  lemma KeepsCycle(w: World, q: Pid, g: Eid)
    requires g in w.cycles
    ensures g in EnsureCtx(w, q, g).cycles
  {
  }

  lemma DispatchStamp(w: World, p: Pid)
    requires p in w.ctxs
    ensures SameStamp(w, Dispatch(w), p)
  {
  }

  lemma WokenStamp(w: World, q: Pid, p: Pid)
    requires p in w.ctxs && q in w.kernel
    ensures SameStamp(w, Woken(w, q), p)
  {
    hide PushGate;
    if GroupOf(w, q).Some? { RunnableStamp(w, q, GroupOf(w, q).value, p); }
  }

  lemma RunnableStamp(w: World, q: Pid, g: Eid, p: Pid)
    requires p in w.ctxs && GroupOf(w, q) == Some(g)
    ensures SameStamp(w, Runnable(w, q), p)
  {
    hide PushGate;
    var w1 := SetCtx(w, q, w.ctxs[q].(isAsleep := false));
    var c := w.cycles[g].(asleep := if w.cycles[g].asleep > 0 then w.cycles[g].asleep - 1 else w.cycles[g].asleep);
    OfferStamp(SetCycle(w1, g, c), g, false, p);
  }

  lemma SleepStamp(w: World, q: Pid, p: Pid)
    requires p in w.ctxs && p != q
    ensures SameStamp(w, Sleep(w, q), p)
  {
  }

  lemma ExitStamp(w: World, q: Pid, p: Pid)
    requires p in w.ctxs && p != q
    ensures SameStamp(w, Exit(w, q), p)
  {
  }

  lemma YieldStamp(w: World, q: Pid, p: Pid)
    requires p in w.ctxs && q in w.kernel
    ensures SameStamp(w, Yield(w, q), p)
  {
    hide EnsureCtx;
    var k := w.kernel[q];
    if k.eid.Some? { RegisterStamp(w, q, k.eid.value, p); }
  }

  lemma TimerStamp(w: World, q: Pid, now: nat, p: Pid)
    requires p in w.ctxs
    ensures SameStamp(w, TimerCheck(w, q, now), p)
  {
    hide PushGate, Expired;
    if q in w.ctxs { OfferStamp(SetCtx(w, q, w.ctxs[q].(state := ThreadTimeout)), w.ctxs[q].eid, true, p); }
  }

  /** The stamp of a parked task stays until the task is released. */
  lemma StampStays(w: World, s: Step, p: Pid)
    requires Exact(w) && Enabled(w, s) && At(w, p, Parked)
    ensures SameStamp(w, Next(w, s), p)
  {
    hide Exact, Enqueue, Dispatch, Woken, Sleep, Exit, Yield, TimerCheck, EnsureCtx;
    ParkedHasCtx(w, p);
    match s
    case DoSpawn(q, k) => if k.eid.Some? { RegisterStamp(w.(kernel := w.kernel[q := k]), q, k.eid.value, p); }
    case DoRetag(q, k) =>
    case DoPreempt(q, ev) => EnqueueStamp(w, q, ev, p);
    case DoWake(q, ev) =>
      WokenStamp(w, q, p);
      EnqueueStamp(Woken(w, q), q, ev, p);
    case DoDispatch => DispatchStamp(w, p);
    case DoRun(q) =>
    case DoSleep(q) => SleepStamp(SetLoc(w, q, Blocked), q, p);
    case DoYield(q) => YieldStamp(w, q, p);
    case DoExit(q) => ExitStamp(w, q, p);
    case DoTimer(q, now) => TimerStamp(w, q, now, p);
  }

  /** p stays in its group's queue from state to state. */
  ghost predicate StaysParked(w: World, steps: seq<Step>, p: Pid)
    decreases |steps|
  {
    && At(w, p, Parked)
    && (steps != [] ==> Enabled(w, steps[0]) && StaysParked(Next(w, steps[0]), steps[1..], p))
  }

  lemma {:induction false} StampKept(w: World, steps: seq<Step>, p: Pid)
    requires Exact(w) && StaysParked(w, steps, p)
    ensures Run(w, steps).Some? && Exact(Run(w, steps).value) && At(Run(w, steps).value, p, Parked)
    ensures SameStamp(w, Run(w, steps).value, p)
    decreases |steps|
  {
    hide Exact, Next;
    if steps == [] {
      ParkedHasCtx(w, p);
    } else {
      NextExact(w, steps[0]);
      StampStays(w, steps[0], p);
      StampKept(Next(w, steps[0]), steps[1..], p);
    }
  }

  /** The time of the enqueue that parks a task is its stamp. */
  lemma ParkStamps(w: World, p: Pid, ev: Event)
    requires p in w.kernel && !At(w, p, Parked) && At(Enqueue(w, p, ev), p, Parked)
    ensures p in Enqueue(w, p, ev).ctxs && Enqueue(w, p, ev).ctxs[p].lastEnqueue == ev.now % U64
  {
    hide PushGate, GateOpens, EnsureCtx, Park;
    var k := w.kernel[p];
    assert !k.kthread && k.eid.Some? && k.ext && k.eid.value in w.cycles;
    var g := k.eid.value;
    var w1 := EnsureCtx(w, p, g);
    KeepsCycle(w, p, g);
    assert p in w1.ctxs;
    ParkStamp(w1, p, g, ev, p);
    OfferStamp(Park(w1, p, g, ev), g, false, p);
  }

  lemma StepStamps(w: World, s: Step, p: Pid)
    requires (s.DoPreempt? || s.DoWake?) && s.pid == p && Enabled(w, s) && At(Next(w, s), p, Parked)
    ensures p in Next(w, s).ctxs && Next(w, s).ctxs[p].lastEnqueue == s.ev.now % U64
  {
    hide Enqueue, Woken;
    if s.DoPreempt? {
      ParkStamps(w, p, s.ev);
    } else {
      WokenInTransit(w, p);
      ParkStamps(Woken(w, p), p, s.ev);
    }
  }

  lemma WokenInTransit(w: World, p: Pid)
    requires p in w.kernel
    ensures p in Woken(w, p).kernel && !At(Woken(w, p), p, Parked)
  {
  }

  /** Over whole runs: a task parked at some time, and parked ever since, is reported by the watchdog
      exactly when that time is more than 60 ms ago. */
  lemma ParkedTooLong(w: World, s: Step, w1: World, steps: seq<Step>, v: World, p: Pid, now: nat)
    requires (s.DoPreempt? || s.DoWake?) && s.pid == p && 0 < s.ev.now <= now < U64 / 2
    requires Enabled(w, s) && w1 == Next(w, s)
    requires StaysParked(w1, steps, p) && Run(w1, steps) == Some(v) && Exact(w)
    ensures now - s.ev.now > 60_000_000 ==> Reported(v, p, TimerCheck(v, p, now))
    ensures now - s.ev.now <= 60_000_000 ==> TimerCheck(v, p, now) == v
  {
    hide Exact, Next, Reported, Run, TimerCheck;
    NextExact(w, s);
    StepStamps(w, s, p);
    StampKept(w1, steps, p);
    ParkedHasCtx(v, p);
    TimerExact(v, p, s.ev.now, now);
  }
}
