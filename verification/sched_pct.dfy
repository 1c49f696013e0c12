/** PCT inside the scheduler: in every run whose enqueues take their priorities from PCT, the task that
    is dispatched is the parked task of its group with the greatest priority. */
module SchedPct {
  import opened Common
  import opened SchedTypes
  import opened SchedSteps
  import opened SchedCounts
  import opened Pct
  import R = PctRuns

  /** What init_pct leaves behind for a cycle; `max` is expected_events_per_cycle. */
  datatype Algo = Algo(depth: nat, max: nat, slots: seq<nat>, cps: seq<nat>)

  ghost predicate AlgoOk(a: Algo) {
    a.max > 0 && DepthOk(a.depth) && SlotsOk(a.depth, a.slots) && ChangePointsOk(a.cps, a.depth, a.max)
  }

  predicate InGroup(w: World, g: Eid, p: Pid) { p in w.ctxs && w.ctxs[p].eid == g }

  /** A priority is positive once PCT has set it. */
  function TaskOf(t: Ctx): R.Task { R.Task(t.detId, t.priority > 0, t.priority) }

  /** The group as PCT sees it. */
  function SchedOf(w: World, g: Eid, a: Algo): R.Sched
    requires g in w.cycles
  {
    R.Sched(a.depth, a.max, a.slots, a.cps, w.cycles[g].eventsSeen, w.cycles[g].strata,
            map p | p in w.ctxs && w.ctxs[p].eid == g :: TaskOf(w.ctxs[p]), Dsq(w, g))
  }

  // ----- what a step leaves alone -----

  ghost predicate SameTask(w: World, w': World, g: Eid, p: Pid) {
    && (InGroup(w', g, p) <==> InGroup(w, g, p))
    && (InGroup(w, g, p) ==> TaskOf(w'.ctxs[p]) == TaskOf(w.ctxs[p]))
  }

  ghost predicate SameCycle(w: World, w': World, g: Eid) {
    g in w.cycles ==>
      && g in w'.cycles && w'.cycles[g].eventsSeen == w.cycles[g].eventsSeen
      && w'.cycles[g].strata == w.cycles[g].strata
      && Dsq(w', g) == Dsq(w, g)
  }

  ghost predicate Same(w: World, w': World, g: Eid) { SameCycle(w, w', g) && forall p :: SameTask(w, w', g, p) }

  lemma SameSched(w: World, w': World, g: Eid, a: Algo)
    requires g in w.cycles && Same(w, w', g)
    ensures g in w'.cycles && SchedOf(w', g, a) == SchedOf(w, g, a)
  {
    var s, s' := SchedOf(w, g, a), SchedOf(w', g, a);
    forall p ensures p in s'.tasks <==> p in s.tasks { assert SameTask(w, w', g, p); }
    forall p | p in s.tasks ensures s'.tasks[p] == s.tasks[p] { assert SameTask(w, w', g, p); }
    assert s'.tasks == s.tasks;
  }

  lemma SameTrans(u: World, v: World, w: World, g: Eid)
    requires g in u.cycles && Same(u, v, g) && Same(v, w, g)
    ensures Same(u, w, g)
  {
    forall p ensures SameTask(u, w, g, p) { assert SameTask(u, v, g, p) && SameTask(v, w, g, p); }
  }

  lemma CtxsSame(w: World, w': World, g: Eid)
    requires w'.ctxs == w.ctxs && SameCycle(w, w', g)
    ensures Same(w, w', g)
  {
    hide SameCycle;
  }

  lemma PushSame(w: World, h: Eid, timeout: bool, g: Eid)
    ensures Same(w, PushGate(w, h, timeout), g)
  {
    hide Same;
    var w' := PushGate(w, h, timeout);
    assert w'.ctxs == w.ctxs && w'.dsqs == w.dsqs;
    CtxsSame(w, w', g);
  }

  lemma CtxSame(w: World, p: Pid, t: Ctx, g: Eid)
    requires p in w.ctxs && t.eid == w.ctxs[p].eid && TaskOf(t) == TaskOf(w.ctxs[p])
    ensures Same(w, SetCtx(w, p, t), g)
  {
  }

  lemma CycleSame(w: World, h: Eid, c: Cycle, g: Eid)
    requires h in w.cycles && c.eventsSeen == w.cycles[h].eventsSeen && c.strata == w.cycles[h].strata
    ensures Same(w, SetCycle(w, h, c), g)
  {
  }

  lemma LocSame(w: World, p: Pid, l: Loc, g: Eid)
    ensures Same(w, SetLoc(w, p, l), g)
  {
  }

  lemma RunnableSame(w: World, p: Pid, g: Eid)
    requires g in w.cycles
    ensures Same(w, Runnable(w, p), g)
  {
    hide Same, PushGate;
    if GroupOf(w, p).Some? {
      var h := GroupOf(w, p).value;
      var w1 := SetCtx(w, p, w.ctxs[p].(isAsleep := false));
      CtxSame(w, p, w.ctxs[p].(isAsleep := false), g);
      var c0 := w1.cycles[h];
      var c := c0.(asleep := if c0.asleep > 0 then c0.asleep - 1 else c0.asleep);
      var w2 := SetCycle(w1, h, c);
      CycleSame(w1, h, c, g);
      SameTrans(w, w1, w2, g);
      PushSame(w2, h, false, g);
      SameTrans(w, w2, PushGate(w2, h, false), g);
    } else {
      LocSame(w, p, Blocked, g);
      NothingSame(w, g);
    }
  }

  lemma NothingSame(w: World, g: Eid)
    ensures Same(w, w, g)
  {
  }

  lemma SleepSame(w: World, p: Pid, g: Eid)
    requires g in w.cycles
    ensures Same(w, Sleep(w, p), g)
  {
    hide Same, PushGate;
    NothingSame(w, g);
    if GroupOf(w, p).Some? {
      var h := GroupOf(w, p).value;
      var t := w.ctxs[p];
      var t1 := t.(isAsleep := true, lastEnqueue := if Waiting(t.state) then 0 else t.lastEnqueue);
      var w1 := SetCtx(w, p, t1);
      CtxSame(w, p, t1, g);
      var c0 := w1.cycles[h];
      var c := c0.(asleep := c0.asleep + 1,
                   queued := if Waiting(t.state) && c0.queued > 0 then c0.queued - 1 else c0.queued);
      var w2 := SetCycle(w1, h, c);
      CycleSame(w1, h, c, g);
      SameTrans(w, w1, w2, g);
      PushSame(w2, h, false, g);
      SameTrans(w, w2, PushGate(w2, h, false), g);
    }
  }

  lemma RunningSame(w: World, p: Pid, g: Eid)
    ensures Same(w, Running(w, p), g)
  {
  }

  lemma TimerSame(w: World, p: Pid, now: nat, g: Eid)
    requires g in w.cycles
    ensures Same(w, TimerCheck(w, p, now), g)
  {
    hide Same, PushGate, Expired;
    NothingSame(w, g);
    if p in w.ctxs {
      var w1 := SetCtx(w, p, w.ctxs[p].(state := ThreadTimeout));
      CtxSame(w, p, w.ctxs[p].(state := ThreadTimeout), g);
      PushSame(w1, w.ctxs[p].eid, true, g);
      SameTrans(w, w1, PushGate(w1, w.ctxs[p].eid, true), g);
    }
  }

  // ----- the steps of PCT -----

  /** No two tasks of the group draw from the same slot. */
  ghost predicate SlotsApart(w: World, g: Eid) {
    forall p, q :: InGroup(w, g, p) && InGroup(w, g, q) && p != q ==> w.ctxs[p].detId % N != w.ctxs[q].detId % N
  }

  ghost predicate PctOk(w: World, g: Eid, a: Algo) { g in w.cycles && R.Inv(SchedOf(w, g, a)) }

  /** A task may appear, without a priority. */
  ghost predicate Registered(w: World, w': World, g: Eid, p: Pid) {
    && SameCycle(w, w', g) && !InGroup(w, g, p) && InGroup(w', g, p) && w'.ctxs[p].priority == 0
    && forall q :: q != p ==> SameTask(w, w', g, q)
  }

  lemma RegisteredOk(w: World, w': World, g: Eid, p: Pid, a: Algo)
    requires PctOk(w, g, a) && Registered(w, w', g, p) && SlotsApart(w', g)
    ensures PctOk(w', g, a)
  {
    hide R.Inv;
    var s, s' := SchedOf(w, g, a), SchedOf(w', g, a);
    var d := w'.ctxs[p].detId;
    forall q ensures q in s'.tasks <==> q in s.tasks || q == p { if q != p { assert SameTask(w, w', g, q); } }
    forall q | q in s.tasks ensures s'.tasks[q] == s.tasks[q] && s.tasks[q].detId % N != d % N {
      assert SameTask(w, w', g, q);
      assert InGroup(w', g, q);
    }
    assert s'.tasks == s.tasks[p := R.Task(d, false, 0)];
    R.NextKeepsInv(s, R.Register(p, d));
  }

  lemma CreateSame(w: World, h: Eid, g: Eid)
    requires g in w.cycles
    ensures Same(w, CreateCycle(w, h), g)
  {
    hide Same;
    CtxsSame(w, CreateCycle(w, h), g);
  }

  lemma NumberSame(w: World, p: Pid, h: Eid, g: Eid)
    requires g in w.cycles && h in w.cycles
    ensures var w' := NumberTask(w, p, h); Same(w, w', g) && w'.ctxs == w.ctxs && p in w'.detIds
  {
    hide Same;
    CtxsSame(w, NumberTask(w, p, h), g);
  }

  lemma NewCtxEffect(w: World, p: Pid, h: Eid, det: nat, g: Eid)
    requires p !in w.ctxs
    ensures var w' := SetCtx(w, p, NewCtx(h, det)); if h == g then Registered(w, w', g, p) else Same(w, w', g)
  {
  }

  lemma EnsureCtxEffect(w: World, p: Pid, h: Eid, g: Eid)
    requires g in w.cycles
    ensures var w' := EnsureCtx(w, p, h); Same(w, w', g) || Registered(w, w', g, p)
  {
    hide TaskMapFull, Same, Registered, CreateCycle, NumberTask, SetCtx;
    NothingSame(w, g);
    if p !in w.ctxs {
      var w1 := CreateCycle(w, h);
      CreateSame(w, h, g);
      Created(w, h, g);
      var w2 := NumberTask(w1, p, h);
      NumberSame(w1, p, h, g);
      SameTrans(w, w1, w2, g);
      if !TaskMapFull(w2) {
        NewCtxEffect(w2, p, h, w2.detIds[p], g);
        if h == g {
          RegisteredTrans(w, w2, EnsureCtx(w, p, h), g, p);
        } else {
          SameTrans(w, w2, EnsureCtx(w, p, h), g);
        }
      }
    }
  }

  lemma Created(w: World, h: Eid, g: Eid)
    requires g in w.cycles
    ensures var w1 := CreateCycle(w, h); g in w1.cycles && h in w1.cycles && w1.ctxs == w.ctxs
  {
  }

  lemma RegisteredTrans(u: World, v: World, w: World, g: Eid, p: Pid)
    requires g in u.cycles && Same(u, v, g) && Registered(v, w, g, p)
    ensures Registered(u, w, g, p)
  {
    assert SameTask(u, v, g, p);
    forall q | q != p ensures SameTask(u, w, g, q) { assert SameTask(u, v, g, q) && SameTask(v, w, g, q); }
  }

  lemma EnsureCtxOk(w: World, p: Pid, h: Eid, g: Eid, a: Algo)
    requires PctOk(w, g, a) && SlotsApart(EnsureCtx(w, p, h), g)
    ensures PctOk(EnsureCtx(w, p, h), g, a)
  {
    hide EnsureCtx, SlotsApart, R.Inv;
    EnsureCtxEffect(w, p, h, g);
    var w' := EnsureCtx(w, p, h);
    if Same(w, w', g) { SameSched(w, w', g, a); } else { RegisteredOk(w, w', g, p, a); }
  }

  /** The enqueue of p takes its priority and stratum from update_priorities_pct. */
  ghost predicate ByPct(w: World, p: Pid, g: Eid, a: Algo, ev: Event)
    requires g in w.cycles && InGroup(w, g, p) && |a.slots| == N && a.max > 0
  {
    var s := R.Enqueue(SchedOf(w, g, a), p);
    && w.cycles[g].expectedEvents == a.max && R.Fits(a.max, w.cycles[g].eventsSeen + 1)
    && ev.prios == map[p := s.tasks[p].priority] && ev.strata == s.strata
  }

  lemma ParkIsArrive(w: World, p: Pid, g: Eid, a: Algo, ev: Event)
    requires PctOk(w, g, a) && InGroup(w, g, p) && p !in Pids(Dsq(w, g)) && AlgoOk(a) && ByPct(w, p, g, a, ev)
    ensures PctOk(Park(w, p, g, ev), g, a)
  {
    hide R.Enqueue, R.Inv, Park, Insert, Ladder, ChangePointsOk, StratumFits;
    var s := SchedOf(w, g, a);
    assert R.Enabled(s, R.Arrive(p));
    R.ArriveKeepsInv(s, p);
    R.EnqueuedTask(s, p);
    var s1 := R.Enqueue(s, p);
    R.PriorityRange(s1, p);
    ParkedCycle(w, p, g, ev);
    var w' := Park(w, p, g, ev);
    var s' := SchedOf(w', g, a);
    forall q | q in s1.tasks ensures q in s'.tasks && s'.tasks[q] == s1.tasks[q] {
      ParkedTask(w, p, g, ev, q);
      if q != p { assert q in s.tasks && s1.tasks[q] == s.tasks[q]; }
    }
    forall q | q in s'.tasks ensures q in s1.tasks {
      ParkedTask(w, p, g, ev, q);
      if q != p { assert q in s.tasks; }
    }
    assert s'.tasks == s1.tasks;
    assert s' == s1;
  }

  lemma ParkedCycle(w: World, p: Pid, g: Eid, ev: Event)
    requires InGroup(w, g, p) && g in w.cycles && p in ev.prios && 0 < ev.prios[p] < U32 - 1
    ensures var w' := Park(w, p, g, ev);
      && g in w'.cycles && w'.cycles[g].eventsSeen == (w.cycles[g].eventsSeen + 1) % U32
      && w'.cycles[g].strata == ev.strata
      && Dsq(w', g) == Insert(Dsq(w, g), Entry(p, R.VTime(ev.prios[p])))
  {
    hide Insert;
  }

  lemma ParkedTask(w: World, p: Pid, g: Eid, ev: Event, q: Pid)
    requires InGroup(w, g, p) && g in w.cycles && ev.prios.Keys == {p} && ev.prios[p] < U32
    ensures var w' := Park(w, p, g, ev);
      && (InGroup(w', g, q) <==> InGroup(w, g, q))
      && (InGroup(w, g, q) ==>
            && w'.ctxs[q].detId == w.ctxs[q].detId
            && w'.ctxs[q].priority == if q == p then ev.prios[p] else w.ctxs[q].priority)
  {
    hide Insert;
  }

  // ----- every step -----

  /** The enqueue of p parks it in the queue of g. */
  predicate Parks(w: World, p: Pid, g: Eid) {
    && p in w.kernel && !w.kernel[p].kthread && w.kernel[p].eid == Some(g) && w.kernel[p].ext
    && g in w.cycles && w.cycles[g].state != CycleTimeout && p in w.ctxs && Joined(w.ctxs[p].state)
  }

  /** An enqueue into the queue of g follows PCT; one elsewhere sets no priorities in g. */
  ghost predicate EnqueueByPct(w: World, p: Pid, g: Eid, a: Algo, ev: Event)
    requires AlgoOk(a)
  {
    if InGroup(w, g, p) then Parks(w, p, g) ==> ByPct(w, p, g, a, ev)
    else forall q :: q in ev.prios ==> !InGroup(w, g, q)
  }

  lemma EnqueueOk(w: World, p: Pid, g: Eid, a: Algo, ev: Event)
    requires PctOk(w, g, a) && AlgoOk(a) && p in w.kernel && SlotsApart(Enqueue(w, p, ev), g)
    requires CtxOk(w, p) && DsqOk(w, g) && !At(w, p, Parked) && EnqueueByPct(w, p, g, a, ev)
    ensures PctOk(Enqueue(w, p, ev), g, a)
  {
    hide R.Inv, EnsureCtx, Park, PushGate, SlotsApart, AlgoOk, ByPct;
    var k := w.kernel[p];
    if k.kthread || k.eid.None? || !k.ext || k.eid.value !in w.cycles || w.cycles[k.eid.value].state == CycleTimeout {
      LocSame(w, p, GlobalDsq, g);
      SameSched(w, SetLoc(w, p, GlobalDsq), g, a);
    } else {
      var h := k.eid.value;
      if p in w.ctxs && Joined(w.ctxs[p].state) {
        KnownCtx(w, p, h);
        ParkedOk(w, p, h, g, a, ev);
      } else {
        NewlyRegistered(w, p, h);
        UnjoinedOk(w, p, h, g, a);
      }
    }
  }

  lemma KnownCtx(w: World, p: Pid, h: Eid)
    requires p in w.ctxs
    ensures EnsureCtx(w, p, h) == w
  {
  }

  lemma ParkedOk(w: World, p: Pid, h: Eid, g: Eid, a: Algo, ev: Event)
    requires PctOk(w, g, a) && AlgoOk(a) && Parks(w, p, h) && CtxOk(w, p) && DsqOk(w, g) && !At(w, p, Parked)
    requires EnqueueByPct(w, p, g, a, ev)
    ensures var w2 := Park(w, p, h, ev); h in w2.cycles && PctOk(w2, g, a) && PctOk(PushGate(w2, h, false), g, a)
  {
    hide R.Inv, PushGate, Park, AlgoOk, ByPct;
    var w2 := Park(w, p, h, ev);
    if h == g {
      ParkIsArrive(w, p, g, a, ev);
    } else {
      ParkElsewhere(w, p, h, ev, g);
      SameSched(w, w2, g, a);
    }
    ParkHasCycle(w, p, h, ev);
    PushSame(w2, h, false, g);
    SameSched(w2, PushGate(w2, h, false), g, a);
  }

  lemma ParkHasCycle(w: World, p: Pid, h: Eid, ev: Event)
    requires p in w.ctxs && h in w.cycles
    ensures h in Park(w, p, h, ev).cycles
  {
  }

  lemma UnjoinedOk(w: World, p: Pid, h: Eid, g: Eid, a: Algo)
    requires PctOk(w, g, a) && p in w.kernel && !(p in w.ctxs && Joined(w.ctxs[p].state)) && h in w.cycles
    requires SlotsApart(SetLoc(EnsureCtx(w, p, h), p, GlobalDsq), g)
    ensures var w1 := EnsureCtx(w, p, h);
      !(p in w1.ctxs && Joined(w1.ctxs[p].state)) && PctOk(SetLoc(w1, p, GlobalDsq), g, a)
  {
    NewlyRegistered(w, p, h);
    hide R.Inv, EnsureCtx, SlotsOk;
    var w1 := EnsureCtx(w, p, h);
    assert SlotsApart(w1, g) by { LocApart(w1, p, GlobalDsq, g); }
    EnsureCtxOk(w, p, h, g, a);
    LocSame(w1, p, GlobalDsq, g);
    SameSched(w1, SetLoc(w1, p, GlobalDsq), g, a);
  }

  lemma LocApart(w: World, p: Pid, l: Loc, g: Eid)
    requires SlotsApart(SetLoc(w, p, l), g)
    ensures SlotsApart(w, g)
  {
    assert SetLoc(w, p, l).ctxs == w.ctxs;
  }

  lemma NewlyRegistered(w: World, p: Pid, h: Eid)
    requires p !in w.ctxs || !Joined(w.ctxs[p].state)
    ensures var w1 := EnsureCtx(w, p, h); p in w1.ctxs ==> !Joined(w1.ctxs[p].state)
  {
    hide TaskMapFull;
  }

  lemma DispatchOk(w: World, g: Eid, a: Algo)
    requires PctOk(w, g, a)
    ensures PctOk(Dispatch(w), g, a)
  {
    hide R.Inv, PushGate, Same;
    NothingSame(w, g);
    if w.queue != [] {
      var h := w.queue[0];
      var w1 := w.(queue := w.queue[1..]);
      CtxsSame(w, w1, g);
      SameSched(w, w1, g, a);
      if h in w1.cycles {
        if Dsq(w1, h) == [] { DispatchEmptyOk(w1, h, g, a); } else { ReleaseOk(w1, h, g, a); }
      }
    }
  }

  lemma DispatchEmptyOk(w: World, h: Eid, g: Eid, a: Algo)
    requires PctOk(w, g, a) && h in w.cycles
    ensures PctOk(DispatchEmpty(w, h), g, a)
  {
    hide R.Inv, PushGate, Same;
    var late := w.cycles[h].state == CycleTimeout;
    var c := w.cycles[h].(pending := false, queued := if late then 0 else w.cycles[h].queued);
    var w1 := SetCycle(w, h, c);
    CycleSame(w, h, c, g);
    SameSched(w, w1, g, a);
    PushSame(w1, h, late, g);
    SameSched(w1, PushGate(w1, h, late), g, a);
  }

  lemma ReleaseOk(w: World, h: Eid, g: Eid, a: Algo)
    requires PctOk(w, g, a) && h in w.cycles && Dsq(w, h) != []
    ensures PctOk(Release(w, h), g, a)
  {
    hide R.Inv, PushGate, Same;
    var q := Dsq(w, h);
    var w1 := SetLoc(w.(dsqs := w.dsqs[h := q[1..]]), q[0].pid, LocalDsq);
    if h == g {
      R.NextKeepsInv(SchedOf(w, g, a), R.Dispatch);
      assert SchedOf(w1, g, a) == R.Next(SchedOf(w, g, a), R.Dispatch);
    } else {
      CtxsSame(w, w1, g);
      SameSched(w, w1, g, a);
    }
    var c0 := w1.cycles[h];
    var c := c0.(pending := false, queued := if c0.queued > 0 then c0.queued - 1 else c0.queued);
    var w2 := SetCycle(w1, h, c);
    CycleSame(w1, h, c, g);
    SameSched(w1, w2, g, a);
    PushSame(w2, h, true, g);
    SameSched(w2, PushGate(w2, h, true), g, a);
  }

  lemma ParkElsewhere(w: World, p: Pid, h: Eid, ev: Event, g: Eid)
    requires InGroup(w, h, p) && h in w.cycles && h != g && (forall q :: q in ev.prios ==> !InGroup(w, g, q))
    ensures Same(w, Park(w, p, h, ev), g)
  {
    hide Insert;
  }

  lemma YieldOk(w: World, p: Pid, g: Eid, a: Algo)
    requires PctOk(w, g, a) && p in w.kernel && SlotsApart(Yield(w, p), g)
    ensures PctOk(Yield(w, p), g, a)
  {
    hide R.Inv, EnsureCtx, Same, SlotsApart;
    NothingSame(w, g);
    var k := w.kernel[p];
    if !k.kthread && k.eid.Some? && k.ext {
      var h := k.eid.value;
      var w1 := EnsureCtx(w, p, h);
      EnsureCtxKeepsCycle(w, p, h, g);
      YieldRest(w1, p, h, g);
      SameApart(w1, Yield(w, p), g);
      EnsureCtxOk(w, p, h, g, a);
      SameSched(w1, Yield(w, p), g, a);
    }
  }

  lemma SameApart(w: World, w': World, g: Eid)
    requires Same(w, w', g) && SlotsApart(w', g)
    ensures SlotsApart(w, g)
  {
    forall p, q | InGroup(w, g, p) && InGroup(w, g, q) && p != q ensures w.ctxs[p].detId % N != w.ctxs[q].detId % N {
      assert SameTask(w, w', g, p) && SameTask(w, w', g, q);
      assert InGroup(w', g, p) && InGroup(w', g, q);
      assert TaskOf(w'.ctxs[p]) == TaskOf(w.ctxs[p]) && TaskOf(w'.ctxs[q]) == TaskOf(w.ctxs[q]);
    }
  }

  /** What follows the registration in a yield. */
  function Joining(w: World, p: Pid, h: Eid): World {
    if p !in w.ctxs || h !in w.cycles || w.ctxs[p].state != ThreadRegistered then w
    else if w.cycles[h].state != CycleUnavailable then SetCtx(w, p, w.ctxs[p].(state := ThreadIgnored))
    else
      var w2 := SetCtx(w, p, w.ctxs[p].(state := ThreadRunning));
      var c := w2.cycles[h].(alive := w2.cycles[h].alive + 1);
      SetCycle(w2, h, if c.alive == c.expected then c.(state := CycleReady) else c)
  }

  lemma YieldRest(w: World, p: Pid, h: Eid, g: Eid)
    requires g in w.cycles
    ensures Same(w, Joining(w, p, h), g)
  {
    hide Same;
    NothingSame(w, g);
    if p in w.ctxs && h in w.cycles && w.ctxs[p].state == ThreadRegistered {
      CtxSame(w, p, w.ctxs[p].(state := ThreadIgnored), g);
    }
    if p in w.ctxs && h in w.cycles && w.ctxs[p].state == ThreadRegistered && w.cycles[h].state == CycleUnavailable {
      var w2 := SetCtx(w, p, w.ctxs[p].(state := ThreadRunning));
      CtxSame(w, p, w.ctxs[p].(state := ThreadRunning), g);
      var c := w2.cycles[h].(alive := w2.cycles[h].alive + 1);
      CycleSame(w2, h, if c.alive == c.expected then c.(state := CycleReady) else c, g);
      SameTrans(w, w2, Joining(w, p, h), g);
    }
  }

  /** The step resets the cycle of g. */
  predicate Resets(w: World, s: Step, g: Eid) {
    && s.DoExit? && GroupOf(w, s.pid) == Some(g) && Joined(w.ctxs[s.pid].state)
    && CycleOver(CountExit(w.cycles[g], w.ctxs[s.pid]))
  }

  lemma ForgetOk(w: World, p: Pid, g: Eid, a: Algo)
    requires PctOk(w, g, a) && p in w.ctxs && p !in Pids(Dsq(w, g))
    ensures PctOk(w.(ctxs := w.ctxs - {p}, detIds := w.detIds - {p}), g, a)
  {
    hide R.Inv;
    var w' := w.(ctxs := w.ctxs - {p}, detIds := w.detIds - {p});
    var s, s' := SchedOf(w, g, a), SchedOf(w', g, a);
    if p in s.tasks {
      assert s'.tasks == s.tasks - {p};
      R.NextKeepsInv(s, R.Leave(p));
    } else {
      assert s'.tasks == s.tasks;
    }
  }

  lemma ExitOk(w: World, p: Pid, g: Eid, a: Algo)
    requires PctOk(w, g, a) && p !in Pids(Dsq(w, g)) && !Resets(w, DoExit(p), g)
    ensures PctOk(Exited(w, p), g, a)
  {
    hide R.Inv, PushGate, Same, CountExit, Exit;
    ExitCallOk(w, p, g, a);
    var w1 := Exit(w, p);
    CtxsSame(w1, Exited(w, p), g);
    SameSched(w1, Exited(w, p), g, a);
  }

  lemma ExitCallOk(w: World, p: Pid, g: Eid, a: Algo)
    requires PctOk(w, g, a) && p !in Pids(Dsq(w, g)) && !Resets(w, DoExit(p), g)
    ensures PctOk(Exit(w, p), g, a)
  {
    hide R.Inv, PushGate, Same, ResetCycle, CycleOver;
    if GroupOf(w, p).Some? {
      var h, t := GroupOf(w, p).value, w.ctxs[p];
      var w1 := w.(ctxs := w.ctxs - {p}, detIds := w.detIds - {p});
      ForgetOk(w, p, g, a);
      var c := CountExit(w1.cycles[h], t);
      var w2 := SetCycle(w1, h, c);
      CycleSame(w1, h, c, g);
      SameSched(w1, w2, g, a);
      var late := c.state == CycleTimeout;
      PushSame(w2, h, late, g);
      SameSched(w2, PushGate(w2, h, late), g, a);
      if h != g {
        ResetElsewhere(w2, h, g, a, w.cfg.threads);
        PushHas(w2, h, late);
        ResetElsewhere(PushGate(w2, h, late), h, g, a, w.cfg.threads);
      }
    }
  }

  lemma PushHas(w: World, h: Eid, timeout: bool)
    requires h in w.cycles
    ensures h in PushGate(w, h, timeout).cycles
  {
  }

  lemma ResetElsewhere(w: World, h: Eid, g: Eid, a: Algo, threads: nat)
    requires PctOk(w, g, a) && h != g && h in w.cycles
    ensures PctOk(SetCycle(w, h, ResetCycle(w.cycles[h], threads)), g, a)
  {
    hide R.Inv, Same, ResetCycle;
    var w' := SetCycle(w, h, ResetCycle(w.cycles[h], threads));
    CtxsSame(w, w', g);
    SameSched(w, w', g, a);
  }

  /** The step takes the priorities of group g from PCT, does not end its cycle, and lets no two of its
      tasks draw from the same slot. */
  ghost predicate Follows(w: World, s: Step, g: Eid, a: Algo)
    requires Enabled(w, s) && AlgoOk(a)
  {
    && !Resets(w, s, g) && SlotsApart(Next(w, s), g)
    && match s
       case DoPreempt(p, ev) => EnqueueByPct(w, p, g, a, ev)
       case DoWake(p, ev) => EnqueueByPct(Woken(w, p), p, g, a, ev)
       case _ => true
  }

  lemma NotQueued(w: World, p: Pid, g: Eid)
    requires CountsOk(w) && !At(w, p, Parked)
    ensures CtxOk(w, p) && DsqOk(w, g) && p !in Pids(Dsq(w, g))
  {
    hide CycleCounts;
    assert DsqOk(w, g) && CtxOk(w, p);
  }

  lemma NextPctOk(w: World, s: Step, g: Eid, a: Algo)
    requires PctOk(w, g, a) && AlgoOk(a) && Exact(w) && Enabled(w, s) && Follows(w, s, g, a)
    ensures PctOk(Next(w, s), g, a)
  {
    hide R.Inv, Same, AlgoOk, Enqueue, Woken, Dispatch, Running, Sleep, Yield, Exited, TimerCheck, EnsureCtx;
    hide SlotsApart, Resets, EnqueueByPct, CountsOk;
    match s
    case DoSpawn(p, k) => SpawnOk(w, p, k, g, a);
    case DoRetag(p, k) =>
      CtxsSame(w, Next(w, s), g);
      SameSched(w, Next(w, s), g, a);
    case DoPreempt(p, ev) =>
      NotQueued(w, p, g);
      EnqueueOk(w, p, g, a, ev);
    case DoWake(p, ev) => WakeOk(w, p, ev, g, a);
    case DoDispatch => DispatchOk(w, g, a);
    case DoRun(p) =>
      var w1 := SetLoc(w, p, OnCpu);
      LocSame(w, p, OnCpu, g);
      SameSched(w, w1, g, a);
      RunningSame(w1, p, g);
      SameSched(w1, Running(w1, p), g, a);
    case DoSleep(p) =>
      var w1 := SetLoc(w, p, Blocked);
      LocSame(w, p, Blocked, g);
      SameSched(w, w1, g, a);
      SleepSame(w1, p, g);
      SameSched(w1, Sleep(w1, p), g, a);
    case DoYield(p) => YieldOk(w, p, g, a);
    case DoExit(p) =>
      NotQueued(w, p, g);
      ExitOk(w, p, g, a);
    case DoTimer(p, now) =>
      TimerSame(w, p, now, g);
      SameSched(w, TimerCheck(w, p, now), g, a);
  }

  lemma SpawnOk(w: World, p: Pid, k: KTask, g: Eid, a: Algo)
    requires PctOk(w, g, a) && SlotsApart(InitTask(w.(kernel := w.kernel[p := k]), p), g)
    ensures PctOk(InitTask(w.(kernel := w.kernel[p := k]), p), g, a)
  {
    hide R.Inv, Same, EnsureCtx, SlotsApart;
    var w1 := w.(kernel := w.kernel[p := k]);
    CtxsSame(w, w1, g);
    SameSched(w, w1, g, a);
    if !k.kthread && k.eid.Some? && k.ext { EnsureCtxOk(w1, p, k.eid.value, g, a); }
  }

  lemma WakeOk(w: World, p: Pid, ev: Event, g: Eid, a: Algo)
    requires PctOk(w, g, a) && AlgoOk(a) && CountsOk(w) && At(w, p, Blocked)
    requires SlotsApart(Enqueue(Woken(w, p), p, ev), g) && EnqueueByPct(Woken(w, p), p, g, a, ev)
    ensures PctOk(Enqueue(Woken(w, p), p, ev), g, a)
  {
    hide R.Inv, Same, Enqueue, AlgoOk, SlotsApart, EnqueueByPct, Runnable, CountsOk;
    var w1 := Runnable(w, p);
    RunnableSame(w, p, g);
    SameSched(w, w1, g, a);
    LocSame(w1, p, Transit, g);
    SameSched(w1, Woken(w, p), g, a);
    WokenCounts(w, p);
    assert !At(Woken(w, p), p, Parked);
    NotQueued(Woken(w, p), p, g);
    EnqueueOk(Woken(w, p), p, g, a, ev);
  }

  // ----- whole runs -----

  ghost predicate FollowsPct(w: World, steps: seq<Step>, g: Eid, a: Algo)
    requires AlgoOk(a)
    decreases |steps|
  {
    steps == [] || !Enabled(w, steps[0]) ||
    (Follows(w, steps[0], g, a) && FollowsPct(Next(w, steps[0]), steps[1..], g, a))
  }

  /** The cycle of g has not begun: nothing is parked or counted, and no task has a priority. */
  ghost predicate AtStart(w: World, g: Eid) {
    && g in w.cycles && w.cycles[g].eventsSeen == 0 && w.cycles[g].strata == 0 && Dsq(w, g) == []
    && SlotsApart(w, g) && forall p :: InGroup(w, g, p) ==> w.ctxs[p].priority == 0
  }

  lemma AtStartOk(w: World, g: Eid, a: Algo)
    requires AtStart(w, g) && AlgoOk(a)
    ensures PctOk(w, g, a)
  {
    hide SlotsOk;
    var s := SchedOf(w, g, a);
    assert !R.Reached(a.cps, 0);
    assert R.Config(s) && s.strata == R.LapStratum(s.cps, s.max, 0);
    forall p, q ensures R.Apart(s, p, q) {}
  }

  lemma {:induction false} RunsPctOk(w: World, steps: seq<Step>, g: Eid, a: Algo)
    requires PctOk(w, g, a) && AlgoOk(a) && Exact(w) && FollowsPct(w, steps, g, a) && Run(w, steps).Some?
    ensures PctOk(Run(w, steps).value, g, a) && Exact(Run(w, steps).value)
    decreases |steps|
  {
    hide PctOk, AlgoOk, Exact, Next, Enabled, Follows;
    if steps != [] {
      NextPctOk(w, steps[0], g, a);
      NextExact(w, steps[0]);
      RunsPctOk(Next(w, steps[0]), steps[1..], g, a);
    }
  }

  /** Every dispatch of the group releases the parked task with the greatest priority: in every run
      from the start of a cycle that takes its priorities from PCT, with any depth, shuffle and change
      points, whatever the other groups do. */
  lemma PctDispatches(w: World, steps: seq<Step>, v: World, g: Eid, a: Algo)
    requires Exact(w) && AtStart(w, g) && AlgoOk(a) && FollowsPct(w, steps, g, a) && Run(w, steps) == Some(v)
    requires v.queue != [] && v.queue[0] == g && g in v.cycles && Dsq(v, g) != []
    ensures var p := Dsq(v, g)[0].pid;
      && IsParked(v, p, g) && At(Dispatch(v), p, LocalDsq)
      && forall q :: IsParked(v, q, g) && q != p ==> v.ctxs[q].priority < v.ctxs[p].priority
  {
    hide Exact, Dispatch, FollowsPct, AlgoOk;
    AtStartOk(w, g, a);
    RunsPctOk(w, steps, g, a);
    hide R.Inv;
    var s := SchedOf(v, g, a);
    var p := s.dsq[0].pid;
    ParkedInQueue(v, g, p);
    assert p in Pids(s.dsq) by { PidsAt(s.dsq, p); }
    forall q | IsParked(v, q, g) && q != p ensures v.ctxs[q].priority < v.ctxs[p].priority {
      ParkedInQueue(v, g, q);
      PidsAt(s.dsq, q);
      var i :| 0 <= i < |s.dsq| && s.dsq[i].pid == q;
      R.HeadIsHighest(s, i);
    }
    Released(v, g);
  }

  lemma ParkedInQueue(w: World, g: Eid, p: Pid)
    requires Exact(w)
    ensures p in Pids(Dsq(w, g)) <==> IsParked(w, p, g)
  {
    assert DsqOk(w, g);
  }

  lemma Released(w: World, g: Eid)
    requires w.queue != [] && w.queue[0] == g && g in w.cycles && Dsq(w, g) != [] && Dsq(w, g)[0].pid in w.kernel
    ensures At(Dispatch(w), Dsq(w, g)[0].pid, LocalDsq)
  {
  }
}
