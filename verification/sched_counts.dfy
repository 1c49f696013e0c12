/** In every run, with or without timeouts, the counters of every cycle are the true
    numbers of joined, sleeping and parked tasks. */
module SchedCounts {
  import opened Common
  import opened SchedTypes
  import opened SchedSteps

  /** What a task is to its cycle. */
  datatype Kind = Active | Queued | Asleep
  datatype Role = NoRole | Member(eid: Eid, kind: Kind)

  ghost function RoleOf(w: World, p: Pid): Role {
    if p in w.ctxs && Joined(w.ctxs[p].state) then
      Member(w.ctxs[p].eid,
             if w.ctxs[p].isAsleep then Asleep else if At(w, p, Parked) then Queued else Active)
    else NoRole
  }

  ghost function Members(w: World, g: Eid, k: Kind): set<Pid> {
    set p | p in w.ctxs && RoleOf(w, p) == Member(g, k)
  }

  ghost function Count(w: World, g: Eid, k: Kind): nat { |Members(w, g, k)| }

  /** The context of a task agrees with where the kernel holds the task. */
  predicate PlaceOk(t: Ctx, l: Loc) {
    if Joined(t.state)
    then (t.isAsleep <==> l == Blocked) && (Waiting(t.state) <==> l == Parked || l == LocalDsq)
    else !t.isAsleep && l != Parked && l != LocalDsq
  }

  ghost predicate CtxOk(w: World, p: Pid) {
    p in w.ctxs ==>
      && p in w.kernel
      && w.kernel[p].eid == Some(w.ctxs[p].eid) && w.kernel[p].ext && !w.kernel[p].kthread
      && w.ctxs[p].eid in w.cycles
      && PlaceOk(w.ctxs[p], w.kernel[p].loc)
  }

  ghost predicate IsParked(w: World, p: Pid, g: Eid) {
    p in w.ctxs && w.ctxs[p].eid == g && At(w, p, Parked)
  }

  ghost predicate DsqOk(w: World, g: Eid) {
    Distinct(Dsq(w, g)) && forall p :: p in Pids(Dsq(w, g)) <==> IsParked(w, p, g)
  }

  ghost predicate Linked(w: World) {
    && (forall p :: CtxOk(w, p))
    && (forall p :: p in w.kernel && p !in w.ctxs ==> w.kernel[p].loc != Parked && w.kernel[p].loc != LocalDsq)
    && (forall g: Eid :: DsqOk(w, g))
  }

  ghost predicate CycleCounts(w: World, g: Eid) {
    g in w.cycles ==>
      && w.cycles[g].queued == Count(w, g, Queued)
      && w.cycles[g].asleep == Count(w, g, Asleep)
      && w.cycles[g].alive == Count(w, g, Active) + Count(w, g, Queued) + Count(w, g, Asleep)
  }

  ghost predicate CountsOk(w: World) { Linked(w) && forall g: Eid :: CycleCounts(w, g) }

  // ----- one task changes its role at a time -----

  ghost predicate OnlyMoves(w: World, w': World, p: Pid) {
    forall q :: q != p ==> RoleOf(w', q) == RoleOf(w, q)
  }

  ghost function Delta(r: Role, g: Eid, k: Kind): int { if r == Member(g, k) then 1 else 0 }

  lemma SplitMembers(w: World, p: Pid, g: Eid, k: Kind)
    ensures Count(w, g, k) == |Members(w, g, k) - {p}| + Delta(RoleOf(w, p), g, k)
  {
    var all := Members(w, g, k);
    if RoleOf(w, p) == Member(g, k) {
      assert p in all;
      assert all == (all - {p}) + {p};
    } else {
      assert p !in all;
      assert all == all - {p};
    }
  }

  lemma MemberMoves(w: World, w': World, p: Pid, g: Eid, k: Kind)
    requires OnlyMoves(w, w', p)
    ensures Count(w', g, k) == Count(w, g, k) - Delta(RoleOf(w, p), g, k) + Delta(RoleOf(w', p), g, k)
  {
    SplitMembers(w, p, g, k);
    SplitMembers(w', p, g, k);
    assert Members(w', g, k) - {p} == Members(w, g, k) - {p} by {
      forall q | q != p ensures q in Members(w', g, k) <==> q in Members(w, g, k) {
        assert RoleOf(w', q) == RoleOf(w, q);
      }
    }
  }

  /** How the counters of a group must follow a task from role r to role r'. */
  ghost predicate Follows(c: Cycle, c': Cycle, g: Eid, r: Role, r': Role) {
    && c'.queued == c.queued - Delta(r, g, Queued) + Delta(r', g, Queued)
    && c'.asleep == c.asleep - Delta(r, g, Asleep) + Delta(r', g, Asleep)
    && c'.alive == c.alive + (if r'.Member? && r'.eid == g then 1 else 0) - (if r.Member? && r.eid == g then 1 else 0)
  }

  lemma CountsFollow(w: World, w': World, p: Pid)
    requires forall g: Eid :: CycleCounts(w, g)
    requires OnlyMoves(w, w', p)
    requires forall g: Eid :: g in w.cycles ==>
      g in w'.cycles && Follows(w.cycles[g], w'.cycles[g], g, RoleOf(w, p), RoleOf(w', p))
    requires forall g: Eid :: g in w'.cycles ==> g in w.cycles
    ensures forall g: Eid :: CycleCounts(w', g)
  {
    forall g: Eid ensures CycleCounts(w', g) {
      assert CycleCounts(w, g);
      MemberMoves(w, w', p, g, Active);
      MemberMoves(w, w', p, g, Queued);
      MemberMoves(w, w', p, g, Asleep);
    }
  }

  /** Nothing the cycle of g counts has changed. */
  predicate SameCounter(w: World, w': World, g: Eid) {
    && (g in w.cycles <==> g in w'.cycles)
    && (g in w.cycles ==>
         && w'.cycles[g].queued == w.cycles[g].queued
         && w'.cycles[g].asleep == w.cycles[g].asleep
         && w'.cycles[g].alive == w.cycles[g].alive)
  }

  ghost predicate SameCounters(w: World, w': World) { forall g: Eid :: SameCounter(w, w', g) }

  predicate SameTasks(w: World, w': World) { w'.ctxs == w.ctxs && w'.kernel == w.kernel && w'.dsqs == w.dsqs }

  lemma PushGateFrame(w: World, g: Eid, timeout: bool)
    ensures var w' := PushGate(w, g, timeout);
      SameCounters(w, w') && SameTasks(w, w')
  {
    forall h: Eid ensures SameCounter(w, PushGate(w, g, timeout), h) {}
  }

  /** Changing only gate flags and the gate queue keeps the counts right. */
  lemma GateKeepsCounts(w: World, w': World)
    requires CountsOk(w)
    requires SameCounters(w, w') && SameTasks(w, w')
    ensures CountsOk(w')
  {
    forall p ensures CtxOk(w', p) {
      assert CtxOk(w, p);
      if p in w.ctxs { assert SameCounter(w, w', w.ctxs[p].eid); }
    }
    forall g: Eid ensures DsqOk(w', g) {
      assert DsqOk(w, g);
      forall p ensures IsParked(w', p, g) <==> IsParked(w, p, g) {}
    }
    assert OnlyMoves(w, w', 0) && RoleOf(w', 0) == RoleOf(w, 0);
    forall g: Eid ensures CycleCounts(w', g) {
      assert SameCounter(w, w', g) && CycleCounts(w, g);
      MemberMoves(w, w', 0, g, Active);
      MemberMoves(w, w', 0, g, Queued);
      MemberMoves(w, w', 0, g, Asleep);
    }
  }

  // ----- keeping contexts, kernel and queues in step -----

  /** Apart from its priority and clock, task q is as it was. */
  ghost predicate SameTask(w: World, w': World, q: Pid) {
    && (q in w'.kernel <==> q in w.kernel) && (q in w.kernel ==> w'.kernel[q] == w.kernel[q])
    && (q in w'.ctxs <==> q in w.ctxs)
    && (q in w.ctxs ==>
          && w'.ctxs[q].eid == w.ctxs[q].eid && w'.ctxs[q].isAsleep == w.ctxs[q].isAsleep
          && w'.ctxs[q].state == w.ctxs[q].state)
  }

  ghost predicate OthersSame(w: World, w': World, p: Pid) {
    && (forall q :: q != p ==> SameTask(w, w', q))
    && (forall g: Eid :: g in w.cycles ==> g in w'.cycles)
  }

  ghost predicate PlacedOk(w: World, p: Pid) {
    CtxOk(w, p) && (p in w.kernel && p !in w.ctxs ==> w.kernel[p].loc != Parked && w.kernel[p].loc != LocalDsq)
  }

  lemma Relink(w: World, w': World, p: Pid)
    requires Linked(w) && OthersSame(w, w', p) && PlacedOk(w', p)
    requires forall g: Eid :: DsqOk(w', g)
    ensures Linked(w') && OnlyMoves(w, w', p)
  {
    forall q ensures CtxOk(w', q) && (q != p ==> RoleOf(w', q) == RoleOf(w, q)) {
      if q != p { assert SameTask(w, w', q) && CtxOk(w, q); }
    }
    forall q | q in w'.kernel && q !in w'.ctxs
      ensures w'.kernel[q].loc != Parked && w'.kernel[q].loc != LocalDsq
    {
      if q != p { assert SameTask(w, w', q); }
    }
  }

  /** The queue of a group still holds its parked tasks, when p is none of them before or after. */
  lemma DsqKept(w: World, w': World, p: Pid, g: Eid)
    requires DsqOk(w, g) && OthersSame(w, w', p) && Dsq(w', g) == Dsq(w, g)
    requires !IsParked(w, p, g) && !IsParked(w', p, g)
    ensures DsqOk(w', g)
  {
    forall q ensures q in Pids(Dsq(w', g)) <==> IsParked(w', q, g) {
      if q != p { assert SameTask(w, w', q); }
    }
  }

  lemma RelinkUnparked(w: World, w': World, p: Pid)
    requires Linked(w) && OthersSame(w, w', p) && PlacedOk(w', p)
    requires w'.dsqs == w.dsqs && !At(w, p, Parked) && !At(w', p, Parked)
    ensures Linked(w') && OnlyMoves(w, w', p)
  {
    forall g: Eid ensures DsqOk(w', g) {
      assert DsqOk(w, g);
      DsqKept(w, w', p, g);
    }
    Relink(w, w', p);
  }

  // ----- every step keeps the counts -----

  lemma NewCycleCounts(w: World, g: Eid, c: Cycle)
    requires CountsOk(w) && g !in w.cycles && c.queued == c.asleep == c.alive == 0
    ensures CountsOk(SetCycle(w, g, c))
  {
    var w' := SetCycle(w, g, c);
    forall q ensures SameTask(w, w', q) {}
    forall h: Eid ensures DsqOk(w', h) {
      assert DsqOk(w, h);
      forall p ensures IsParked(w', p, h) <==> IsParked(w, p, h) {}
    }
    assert CtxOk(w, 0);
    Relink(w, w', 0);
    forall h: Eid ensures CycleCounts(w', h) {
      assert CycleCounts(w, h);
      if h == g { Uncounted(w, g); }
      MemberMoves(w, w', 0, h, Active);
      MemberMoves(w, w', 0, h, Queued);
      MemberMoves(w, w', 0, h, Asleep);
    }
  }

  lemma Uncounted(w: World, g: Eid)
    requires CountsOk(w) && g !in w.cycles
    ensures forall k: Kind :: Count(w, g, k) == 0
  {
    forall k: Kind ensures Members(w, g, k) == {} {
      forall q ensures q !in Members(w, g, k) { assert CtxOk(w, q); }
    }
  }

  lemma CreateCycleCounts(w: World, g: Eid)
    requires CountsOk(w)
    ensures CountsOk(CreateCycle(w, g))
  {
    if g !in w.cycles { NewCycleCounts(w, g, NewCycle(w.cfg.threads)); }
  }

  ghost predicate Participant(w: World, p: Pid, g: Eid) {
    p in w.kernel && w.kernel[p].eid == Some(g) && w.kernel[p].ext && !w.kernel[p].kthread
  }

  lemma NewCtxCounts(w: World, p: Pid, t: Ctx)
    requires CountsOk(w) && p !in w.ctxs && Participant(w, p, t.eid) && t.eid in w.cycles
    requires t.state == ThreadRegistered && !t.isAsleep
    ensures CountsOk(SetCtx(w, p, t))
  {
    var w' := SetCtx(w, p, t);
    forall q | q != p ensures SameTask(w, w', q) {}
    RelinkUnparked(w, w', p);
    CountsFollow(w, w', p);
  }

  lemma NumberTaskCounts(w: World, p: Pid, g: Eid)
    requires CountsOk(w) && g in w.cycles
    ensures CountsOk(NumberTask(w, p, g))
  {
    GateKeepsCounts(w, NumberTask(w, p, g));
  }

  lemma EnsureCtxCounts(w: World, p: Pid, g: Eid)
    requires CountsOk(w) && Participant(w, p, g)
    ensures CountsOk(EnsureCtx(w, p, g))
    ensures EnsureCtx(w, p, g).kernel == w.kernel
  {
    if p !in w.ctxs {
      hide CountsOk, TaskMapFull, CreateCycle, NumberTask;
      var w1 := CreateCycle(w, g);
      CreateCycleCounts(w, g);
      var w2 := NumberTask(w1, p, g);
      NumberTaskCounts(w1, p, g);
      if !TaskMapFull(w2) { NewCtxCounts(w2, p, NewCtx(g, w2.detIds[p])); }
    }
  }

  lemma SetLocCounts(w: World, p: Pid, l: Loc)
    requires CountsOk(w) && p in w.kernel
    requires l != Parked && !At(w, p, Parked) && PlacedOk(SetLoc(w, p, l), p)
    ensures CountsOk(SetLoc(w, p, l))
  {
    var w' := SetLoc(w, p, l);
    forall q | q != p ensures SameTask(w, w', q) {}
    RelinkUnparked(w, w', p);
    CountsFollow(w, w', p);
  }

  /** What parking does to the tasks and to the queue of the group. */
  lemma ParkTasks(w: World, p: Pid, g: Eid, ev: Event)
    requires p in w.ctxs && p in w.kernel && g in w.cycles
    requires Distinct(Dsq(w, g)) && p !in Pids(Dsq(w, g))
    ensures var w' := Park(w, p, g, ev);
      && OthersSame(w, w', p)
      && p in w'.kernel && w'.kernel[p] == w.kernel[p].(loc := Parked)
      && p in w'.ctxs && w'.ctxs[p].eid == w.ctxs[p].eid && w'.ctxs[p].isAsleep == w.ctxs[p].isAsleep
      && w'.ctxs[p].state == ThreadEnqueued
      && Pids(Dsq(w', g)) == Pids(Dsq(w, g)) + {p} && Distinct(Dsq(w', g))
      && forall h: Eid :: h != g ==> Dsq(w', h) == Dsq(w, h)
  {
    var w' := Park(w, p, g, ev);
    forall q | q != p ensures SameTask(w, w', q) {}
    var prio := if w'.ctxs[p].priority > 0 then w'.ctxs[p].priority else 1;
    InsertPids(Dsq(w, g), Entry(p, if prio < U32 then U32 - 1 - prio else 0));
  }

  lemma ParkIs(w: World, p: Pid, g: Eid, ev: Event)
    requires p in w.ctxs && g in w.cycles
    ensures var w' := Park(w, p, g, ev);
      w'.cycles == w.cycles[g := CountEnqueue(w.cycles[g], ev)] && w'.queue == w.queue
  {
  }

  lemma ParkCounts(w: World, p: Pid, g: Eid, ev: Event)
    requires CountsOk(w) && p in w.ctxs && RoleOf(w, p) == Member(g, Active) && !Waiting(w.ctxs[p].state)
    requires g in w.cycles
    ensures CountsOk(Park(w, p, g, ev))
  {
    assert CtxOk(w, p) && DsqOk(w, g) && p !in Pids(Dsq(w, g));
    ParkTasks(w, p, g, ev);
    ParkIs(w, p, g, ev);
    hide Park;
    var w' := Park(w, p, g, ev);
    forall h: Eid ensures DsqOk(w', h) {
      assert DsqOk(w, h);
      if h != g {
        DsqKept(w, w', p, h);
      } else {
        forall q ensures q in Pids(Dsq(w', g)) <==> IsParked(w', q, g) {
          if q != p { assert SameTask(w, w', q); }
        }
      }
    }
    Relink(w, w', p);
    CountsFollow(w, w', p);
  }

  lemma EnqueueCounts(w: World, p: Pid, ev: Event)
    requires CountsOk(w) && (At(w, p, OnCpu) || At(w, p, Transit))
    ensures CountsOk(Enqueue(w, p, ev))
  {
    hide EnsureCtx, Park, PushGate;
    var k := w.kernel[p];
    assert CtxOk(w, p);
    if k.kthread || k.eid.None? || !k.ext {
      SetLocCounts(w, p, GlobalDsq);
    } else {
      var g := k.eid.value;
      if g !in w.cycles || w.cycles[g].state == CycleTimeout {
        SetLocCounts(w, p, GlobalDsq);
      } else {
        var w1 := EnsureCtx(w, p, g);
        EnsureCtxCounts(w, p, g);
        assert CtxOk(w1, p);
        if p !in w1.ctxs || !Joined(w1.ctxs[p].state) {
          SetLocCounts(w1, p, GlobalDsq);
        } else {
          ParkCounts(w1, p, g, ev);
          PushGateFrame(Park(w1, p, g, ev), g, false);
          GateKeepsCounts(Park(w1, p, g, ev), Enqueue(w, p, ev));
        }
      }
    }
  }

  lemma HeadIsParked(w: World, g: Eid)
    requires CountsOk(w) && Dsq(w, g) != []
    ensures var p := Dsq(w, g)[0].pid;
      IsParked(w, p, g) && RoleOf(w, p) == Member(g, Queued) && g in w.cycles && w.cycles[g].queued > 0
  {
    var p := Dsq(w, g)[0].pid;
    assert DsqOk(w, g) && p in Pids(Dsq(w, g));
    assert CtxOk(w, p) && CycleCounts(w, g);
    assert p in Members(w, g, Queued);
    assert Members(w, g, Queued) == {p} + (Members(w, g, Queued) - {p});
  }

  /** The part of a dispatch before the group is offered again. */
  ghost function Released(w: World, g: Eid): World
    requires g in w.cycles && Dsq(w, g) != []
  {
    var q := Dsq(w, g);
    var w1 := SetLoc(w.(dsqs := w.dsqs[g := q[1..]]), q[0].pid, LocalDsq);
    SetCycle(w1, g, w.cycles[g].(pending := false, queued := w.cycles[g].queued - 1))
  }

  lemma ReleasedCounts(w: World, g: Eid)
    requires CountsOk(w) && g in w.cycles && Dsq(w, g) != []
    ensures CountsOk(Released(w, g))
  {
    HeadIsParked(w, g);
    var q := Dsq(w, g);
    var p := q[0].pid;
    var w' := Released(w, g);
    assert CtxOk(w, p);
    forall o | o != p ensures SameTask(w, w', o) {}
    forall h: Eid ensures DsqOk(w', h) {
      assert DsqOk(w, h);
      if h != g {
        DsqKept(w, w', p, h);
      } else {
        forall o ensures o in Pids(Dsq(w', g)) <==> IsParked(w', o, g) {
          if o != p { assert SameTask(w, w', o); }
        }
      }
    }
    Relink(w, w', p);
    CountsFollow(w, w', p);
  }

  lemma EmptyDsqUncounted(w: World, g: Eid)
    requires CountsOk(w) && g in w.cycles && Dsq(w, g) == []
    ensures w.cycles[g].queued == 0
  {
    assert DsqOk(w, g) && CycleCounts(w, g);
    assert Members(w, g, Queued) == {} by {
      forall p ensures p !in Members(w, g, Queued) {
        assert p in Members(w, g, Queued) ==> IsParked(w, p, g);
        assert p !in Pids(Dsq(w, g));
      }
    }
  }

  lemma DispatchCounts(w: World)
    requires CountsOk(w)
    ensures CountsOk(Dispatch(w))
  {
    if w.queue != [] {
      var g := w.queue[0];
      var w1 := w.(queue := w.queue[1..]);
      GateKeepsCounts(w, w1);
      if g in w1.cycles {
        if Dsq(w1, g) == [] {
          EmptyDsqUncounted(w1, g);
          GateKeepsCounts(w1, DispatchEmpty(w1, g));
        } else {
          HeadIsParked(w1, g);
          ReleasedCounts(w1, g);
          PushGateFrame(Released(w1, g), g, true);
          GateKeepsCounts(Released(w1, g), Release(w1, g));
        }
      }
    }
  }

  /** What becomes of one task and its cycle, before any push to the gate. */
  ghost function Retold(w: World, p: Pid, l: Loc, t: Ctx, g: Eid, c: Cycle): World {
    SetLoc(SetCycle(SetCtx(w, p, t), g, c), p, l)
  }

  lemma RetoldCounts(w: World, p: Pid, l: Loc, t: Ctx, g: Eid, c: Cycle)
    requires CountsOk(w) && p in w.ctxs && p in w.kernel && w.ctxs[p].eid == g == t.eid
    requires !At(w, p, Parked) && l != Parked && PlaceOk(t, l)
    requires g in w.cycles
    requires var w' := Retold(w, p, l, t, g, c); Follows(w.cycles[g], c, g, RoleOf(w, p), RoleOf(w', p))
    ensures CountsOk(Retold(w, p, l, t, g, c))
  {
    var w' := Retold(w, p, l, t, g, c);
    assert CtxOk(w, p);
    forall q | q != p ensures SameTask(w, w', q) {}
    RelinkUnparked(w, w', p);
    CountsFollow(w, w', p);
  }

  /** A sleeping task wakes up: one fewer asleep, one more active. */
  lemma AwakenedCounts(w: World, p: Pid, g: Eid)
    requires CountsOk(w) && At(w, p, Blocked) && GroupOf(w, p) == Some(g) && w.ctxs[p].isAsleep
    ensures var t := w.ctxs[p].(isAsleep := false); var c := w.cycles[g].(asleep := w.cycles[g].asleep - 1);
      g in w.cycles && c.asleep >= 0 && CountsOk(Retold(w, p, Transit, t, g, c))
  {
    assert CtxOk(w, p) && CycleCounts(w, g);
    SplitMembers(w, p, g, Asleep);
    hide CountsOk, CtxOk, Members;
    RetoldCounts(w, p, Transit, w.ctxs[p].(isAsleep := false), g, w.cycles[g].(asleep := w.cycles[g].asleep - 1));
  }

  lemma AwakenedFrame(w: World, p: Pid, g: Eid)
    requires At(w, p, Blocked) && GroupOf(w, p) == Some(g) && g in w.cycles && w.ctxs[p].isAsleep
    requires w.cycles[g].asleep > 0
    ensures var t, c := w.ctxs[p].(isAsleep := false), w.cycles[g].(asleep := w.cycles[g].asleep - 1);
      var w' := Retold(w, p, Transit, t, g, c);
      SameCounters(w', Woken(w, p)) && SameTasks(w', Woken(w, p))
  {
    hide PushGate;
    var w1 := SetCycle(SetCtx(w, p, w.ctxs[p].(isAsleep := false)), g, w.cycles[g].(asleep := w.cycles[g].asleep - 1));
    PushGateFrame(w1, g, false);
    var w' := SetLoc(w1, p, Transit);
    forall h: Eid ensures SameCounter(w', Woken(w, p), h) { assert SameCounter(w1, PushGate(w1, g, false), h); }
  }

  lemma WokenCounts(w: World, p: Pid)
    requires CountsOk(w) && At(w, p, Blocked)
    ensures CountsOk(Woken(w, p))
  {
    assert CtxOk(w, p);
    hide PushGate, CountsOk;
    match GroupOf(w, p)
    case None => SetLocCounts(w, p, Transit);
    case Some(g) =>
      var t := w.ctxs[p];
      if t.isAsleep {
        AwakenedCounts(w, p, g);
        AwakenedFrame(w, p, g);
        var c := w.cycles[g].(asleep := w.cycles[g].asleep - 1);
        GateKeepsCounts(Retold(w, p, Transit, t.(isAsleep := false), g, c), Woken(w, p));
      } else {
        assert t.(isAsleep := false) == t && w.ctxs[p := t] == w.ctxs;
        SetLocCounts(w, p, Transit);
      }
  }

  lemma RunCounts(w: World, p: Pid)
    requires CountsOk(w) && (At(w, p, LocalDsq) || At(w, p, GlobalDsq))
    ensures CountsOk(Running(SetLoc(w, p, OnCpu), p))
  {
    assert CtxOk(w, p);
    if p in w.ctxs && Waiting(w.ctxs[p].state) {
      var t := w.ctxs[p].(state := ThreadRunning, lastEnqueue := 0);
      var g := t.eid;
      RetoldCounts(w, p, OnCpu, t, g, w.cycles[g]);
      assert w.cycles[g := w.cycles[g]] == w.cycles;
      assert Running(SetLoc(w, p, OnCpu), p) == Retold(w, p, OnCpu, t, g, w.cycles[g]);
    } else {
      SetLocCounts(w, p, OnCpu);
    }
  }

  lemma SleepCounts(w: World, p: Pid)
    requires CountsOk(w) && At(w, p, OnCpu)
    ensures CountsOk(Sleep(SetLoc(w, p, Blocked), p))
  {
    hide PushGate;
    assert CtxOk(w, p);
    var w0 := SetLoc(w, p, Blocked);
    match GroupOf(w0, p)
    case None => SetLocCounts(w, p, Blocked);
    case Some(g) =>
      var t := w.ctxs[p];
      if !Joined(t.state) {
        SetLocCounts(w, p, Blocked);
      } else {
        var t' := t.(isAsleep := true);
        var c := w.cycles[g].(asleep := w.cycles[g].asleep + 1);
        var w' := Retold(w, p, Blocked, t', g, c);
        RetoldCounts(w, p, Blocked, t', g, c);
        PushGateFrame(SetCycle(SetCtx(w0, p, t'), g, c), g, false);
        GateKeepsCounts(w', Sleep(w0, p));
      }
  }

  lemma YieldCounts(w: World, p: Pid)
    requires CountsOk(w) && At(w, p, OnCpu)
    ensures CountsOk(Yield(w, p))
  {
    hide EnsureCtx;
    var k := w.kernel[p];
    if !(k.kthread || k.eid.None? || !k.ext) {
      var g := k.eid.value;
      var w1 := EnsureCtx(w, p, g);
      EnsureCtxCounts(w, p, g);
      assert CtxOk(w1, p);
      if p in w1.ctxs && g in w1.cycles && w1.ctxs[p].state == ThreadRegistered {
        var w' := Yield(w, p);
        assert w1.kernel[p := w1.kernel[p].(loc := OnCpu)] == w1.kernel;
        if w1.cycles[g].state != CycleUnavailable {
          var t := w1.ctxs[p].(state := ThreadIgnored);
          RetoldCounts(w1, p, OnCpu, t, g, w1.cycles[g]);
          assert w1.cycles[g := w1.cycles[g]] == w1.cycles;
          assert w' == Retold(w1, p, OnCpu, t, g, w1.cycles[g]);
        } else {
          var t := w1.ctxs[p].(state := ThreadRunning);
          RetoldCounts(w1, p, OnCpu, t, g, w'.cycles[g]);
          assert w' == Retold(w1, p, OnCpu, t, g, w'.cycles[g]);
        }
      }
    }
  }

  lemma TimerCounts(w: World, p: Pid, now: nat)
    requires CountsOk(w)
    ensures CountsOk(TimerCheck(w, p, now))
  {
    if p in w.ctxs && Expired(w.ctxs[p], now) {
      assert CtxOk(w, p);
      var g := w.ctxs[p].eid;
      var w' := SetCtx(w, p, w.ctxs[p].(state := ThreadTimeout));
      forall q | q != p ensures SameTask(w, w', q) {}
      forall h: Eid ensures DsqOk(w', h) {
        assert DsqOk(w, h);
        forall q ensures IsParked(w', q, h) <==> IsParked(w, q, h) {}
      }
      Relink(w, w', p);
      CountsFollow(w, w', p);
      PushGateFrame(w', g, true);
      GateKeepsCounts(w', TimerCheck(w, p, now));
    }
  }

  /** The part of an exit before any push to the gate or reset. */
  ghost function Departed(w: World, p: Pid, g: Eid): World
    requires p in w.ctxs && g in w.cycles
  {
    var w1 := w.(ctxs := w.ctxs - {p}, detIds := w.detIds - {p}, kernel := w.kernel - {p});
    if Joined(w.ctxs[p].state) then SetCycle(w1, g, CountExit(w.cycles[g], w.ctxs[p])) else w1
  }

  lemma DepartedCounts(w: World, p: Pid, g: Eid)
    requires CountsOk(w) && (At(w, p, OnCpu) || At(w, p, Blocked)) && GroupOf(w, p) == Some(g)
    ensures CountsOk(Departed(w, p, g))
  {
    var w' := Departed(w, p, g);
    assert CtxOk(w, p) && CycleCounts(w, g);
    forall q | q != p ensures SameTask(w, w', q) {}
    RelinkUnparked(w, w', p);
    forall k: Kind | RoleOf(w, p) == Member(g, k) ensures Count(w, g, k) > 0 { SplitMembers(w, p, g, k); }
    CountsFollow(w, w', p);
  }

  // ----- the shape of a cycle that is still gathering -----

  /** Until the gate first opens, the cycle waits for somebody. */
  predicate Shape(c: Cycle) {
    match c.state
    case CycleUnavailable => c.alive < c.expected
    case CycleReady => c.alive == c.expected && c.alive > 0
    case CycleRunning => c.expected > 0
    case CycleTimeout => c.expected > 0
  }

  ghost predicate ShapeAt(w: World, g: Eid) { g in w.cycles ==> Shape(w.cycles[g]) && w.cycles[g].alive >= 0 }

  ghost predicate Exact(w: World) {
    w.cfg.threads > 0 && CountsOk(w) && forall g: Eid :: ShapeAt(w, g)
  }

  lemma JoinedCounted(w: World, p: Pid)
    requires CountsOk(w) && p in w.ctxs && Joined(w.ctxs[p].state)
    ensures var g := w.ctxs[p].eid;
      g in w.cycles && Count(w, g, RoleOf(w, p).kind) > 0 && w.cycles[g].alive > 0
  {
    var g := w.ctxs[p].eid;
    assert CtxOk(w, p) && CycleCounts(w, g);
    assert p in Members(w, g, RoleOf(w, p).kind);
  }

  /** When a cycle is over, nobody is left in it for the reset to forget. */
  lemma OverIsEmpty(w: World, p: Pid, g: Eid)
    requires Exact(w) && (At(w, p, OnCpu) || At(w, p, Blocked)) && GroupOf(w, p) == Some(g)
    requires Joined(w.ctxs[p].state) && CycleOver(CountExit(w.cycles[g], w.ctxs[p]))
    ensures var c := CountExit(w.cycles[g], w.ctxs[p]); c.alive == 0 && c.queued == 0 && c.asleep == 0
  {
    assert CtxOk(w, p) && ShapeAt(w, g);
    JoinedCounted(w, p);
    DepartedCounts(w, p, g);
    assert CycleCounts(Departed(w, p, g), g);
    assert Departed(w, p, g).cycles[g] == CountExit(w.cycles[g], w.ctxs[p]);
  }

  lemma ExitedCounts(w: World, p: Pid)
    requires Exact(w) && (At(w, p, OnCpu) || At(w, p, Blocked))
    ensures CountsOk(Exited(w, p))
  {
    hide PushGate;
    assert CtxOk(w, p);
    var w' := Exited(w, p);
    match GroupOf(w, p)
    case None =>
      assert p !in w.ctxs;
      forall q | q != p ensures SameTask(w, w', q) {}
      RelinkUnparked(w, w', p);
      CountsFollow(w, w', p);
    case Some(g) =>
      DepartedCounts(w, p, g);
      var w1 := Departed(w, p, g);
      if Joined(w.ctxs[p].state) {
        if CycleOver(w1.cycles[g]) { OverIsEmpty(w, p, g); }
        var w0 := w.(ctxs := w.ctxs - {p}, detIds := w.detIds - {p});
        var c := CountExit(w.cycles[g], w.ctxs[p]);
        PushGateFrame(SetCycle(w0, g, c), g, c.state == CycleTimeout);
        assert SameTasks(w1, w');
        forall h: Eid ensures SameCounter(w1, w', h) {
          assert SameCounter(SetCycle(w0, g, c), PushGate(SetCycle(w0, g, c), g, c.state == CycleTimeout), h);
        }
        GateKeepsCounts(w1, w');
      } else {
        assert w' == w1;
      }
  }

  lemma PushGateShape(w: World, g: Eid, timeout: bool, h: Eid)
    requires ShapeAt(w, h)
    ensures ShapeAt(PushGate(w, g, timeout), h)
  {
  }

  lemma CreateCycleShape(w: World, g: Eid, h: Eid)
    requires ShapeAt(w, h) && w.cfg.threads > 0
    ensures ShapeAt(CreateCycle(w, g), h)
  {
  }

  lemma NumberTaskShape(w: World, p: Pid, g: Eid, h: Eid)
    requires ShapeAt(w, h) && g in w.cycles
    ensures ShapeAt(NumberTask(w, p, g), h)
  {
  }

  lemma EnsureCtxShape(w: World, p: Pid, g: Eid, h: Eid)
    requires ShapeAt(w, h) && w.cfg.threads > 0
    ensures ShapeAt(EnsureCtx(w, p, g), h)
  {
    hide TaskMapFull;
    CreateCycleShape(w, g, h);
    NumberTaskShape(CreateCycle(w, g), p, g, h);
  }

  lemma SetCycleShape(w: World, g: Eid, c: Cycle, h: Eid)
    requires ShapeAt(w, h) && (h == g ==> Shape(c) && c.alive >= 0)
    ensures ShapeAt(SetCycle(w, g, c), h)
  {
  }

  lemma EnsureCtxKeepsCycle(w: World, p: Pid, g: Eid, h: Eid)
    requires h in w.cycles
    ensures h in EnsureCtx(w, p, g).cycles
  {
    hide TaskMapFull;
  }

  lemma EnqueueShape(w: World, p: Pid, ev: Event, h: Eid)
    requires ShapeAt(w, h) && w.cfg.threads > 0 && p in w.kernel
    ensures ShapeAt(Enqueue(w, p, ev), h)
  {
    hide EnsureCtx, Park, PushGate;
    var k := w.kernel[p];
    if k.eid.Some? && k.eid.value in w.cycles {
      var g := k.eid.value;
      var w1 := EnsureCtx(w, p, g);
      EnsureCtxShape(w, p, g, h);
      EnsureCtxKeepsCycle(w, p, g, g);
      if p in w1.ctxs {
        ParkIs(w1, p, g, ev);
        PushGateShape(Park(w1, p, g, ev), g, false, h);
      }
    }
  }

  lemma YieldShape(w: World, p: Pid, h: Eid)
    requires ShapeAt(w, h) && w.cfg.threads > 0 && p in w.kernel
    ensures ShapeAt(Yield(w, p), h)
  {
    hide EnsureCtx;
    var k := w.kernel[p];
    if k.eid.Some? {
      var g := k.eid.value;
      EnsureCtxShape(w, p, g, h);
      var w1 := EnsureCtx(w, p, g);
      if p in w1.ctxs && g in w1.cycles && w1.cycles[g].state == CycleUnavailable {
        var c := w1.cycles[g].(alive := w1.cycles[g].alive + 1);
        var c' := if c.alive == c.expected then c.(state := CycleReady) else c;
        var w2 := SetCtx(w1, p, w1.ctxs[p].(state := ThreadRunning));
        assert ShapeAt(w1, h);
        SetCycleShape(w2, g, c', h);
      }
    }
  }

  lemma DispatchShape(w: World, h: Eid)
    requires ShapeAt(w, h)
    ensures ShapeAt(Dispatch(w), h)
  {
    if w.queue != [] && w.queue[0] in w.cycles {
      var g := w.queue[0];
      var w1 := w.(queue := w.queue[1..]);
      if Dsq(w1, g) == [] { DispatchEmptyShape(w1, g, h); } else { ReleaseShape(w1, g, h); }
    }
  }

  lemma DispatchEmptyShape(w: World, g: Eid, h: Eid)
    requires ShapeAt(w, h) && g in w.cycles
    ensures ShapeAt(DispatchEmpty(w, g), h)
  {
    var late := w.cycles[g].state == CycleTimeout;
    var c := w.cycles[g].(pending := false, queued := if late then 0 else w.cycles[g].queued);
    SetCycleShape(w, g, c, h);
    PushGateShape(SetCycle(w, g, c), g, late, h);
  }

  lemma ReleaseShape(w: World, g: Eid, h: Eid)
    requires ShapeAt(w, h) && g in w.cycles && Dsq(w, g) != []
    ensures ShapeAt(Release(w, g), h)
  {
    var q := Dsq(w, g);
    var w1 := SetLoc(w.(dsqs := w.dsqs[g := q[1..]]), q[0].pid, LocalDsq);
    var c0 := w.cycles[g];
    var c := c0.(pending := false, queued := if c0.queued > 0 then c0.queued - 1 else c0.queued);
    SetCycleShape(w1, g, c, h);
    PushGateShape(SetCycle(w1, g, c), g, true, h);
  }

  lemma WokenShape(w: World, p: Pid, h: Eid)
    requires ShapeAt(w, h) && p in w.kernel
    ensures ShapeAt(Woken(w, p), h)
  {
  }

  lemma SleepShape(w: World, p: Pid, h: Eid)
    requires ShapeAt(w, h)
    ensures ShapeAt(Sleep(w, p), h)
  {
  }

  lemma ExitedShape(w: World, p: Pid, h: Eid)
    requires ShapeAt(w, h) && w.cfg.threads > 0
    requires GroupOf(w, p) == Some(h) && Joined(w.ctxs[p].state) ==> w.cycles[h].alive > 0
    ensures ShapeAt(Exited(w, p), h)
  {
  }

  lemma NextShape(w: World, s: Step, h: Eid)
    requires Exact(w) && Enabled(w, s)
    ensures ShapeAt(Next(w, s), h)
  {
    assert ShapeAt(w, h);
    match s
    case DoSpawn(p, k) =>
      if k.eid.Some? { EnsureCtxShape(w.(kernel := w.kernel[p := k]), p, k.eid.value, h); }
    case DoRetag(p, k) =>
    case DoPreempt(p, ev) => EnqueueShape(w, p, ev, h);
    case DoWake(p, ev) =>
      WokenShape(w, p, h);
      EnqueueShape(Woken(w, p), p, ev, h);
    case DoDispatch => DispatchShape(w, h);
    case DoRun(p) =>
    case DoSleep(p) => SleepShape(SetLoc(w, p, Blocked), p, h);
    case DoYield(p) => YieldShape(w, p, h);
    case DoExit(p) =>
      assert CtxOk(w, p);
      if p in w.ctxs && Joined(w.ctxs[p].state) { JoinedCounted(w, p); }
      ExitedShape(w, p, h);
    case DoTimer(p, now) =>
      if p in w.ctxs { PushGateShape(SetCtx(w, p, w.ctxs[p].(state := ThreadTimeout)), w.ctxs[p].eid, true, h); }
  }

  lemma NextCounts(w: World, s: Step)
    requires Exact(w) && Enabled(w, s)
    ensures CountsOk(Next(w, s))
  {
    match s
    case DoSpawn(p, k) => SpawnCounts(w, p, k);
    case DoRetag(p, k) => RetagCounts(w, p, k);
    case DoPreempt(p, ev) => EnqueueCounts(w, p, ev);
    case DoWake(p, ev) =>
      WokenCounts(w, p);
      EnqueueCounts(Woken(w, p), p, ev);
    case DoDispatch => DispatchCounts(w);
    case DoRun(p) => RunCounts(w, p);
    case DoSleep(p) => SleepCounts(w, p);
    case DoYield(p) => YieldCounts(w, p);
    case DoExit(p) => ExitedCounts(w, p);
    case DoTimer(p, now) => TimerCounts(w, p, now);
  }

  lemma NextExact(w: World, s: Step)
    requires Exact(w) && Enabled(w, s)
    ensures Exact(Next(w, s))
  {
    NextCounts(w, s);
    forall g: Eid ensures ShapeAt(Next(w, s), g) { NextShape(w, s, g); }
  }

  lemma RetagCounts(w: World, p: Pid, k: KTask)
    requires CountsOk(w) && p in w.kernel && p !in w.ctxs && k.loc == w.kernel[p].loc
    ensures CountsOk(w.(kernel := w.kernel[p := k]))
  {
    var w' := w.(kernel := w.kernel[p := k]);
    forall q | q != p ensures SameTask(w, w', q) {}
    RelinkUnparked(w, w', p);
    CountsFollow(w, w', p);
  }

  lemma SpawnCounts(w: World, p: Pid, k: KTask)
    requires CountsOk(w) && p !in w.kernel && k.loc == Blocked
    ensures CountsOk(InitTask(w.(kernel := w.kernel[p := k]), p))
  {
    var w' := w.(kernel := w.kernel[p := k]);
    assert CtxOk(w, p);
    forall q | q != p ensures SameTask(w, w', q) {}
    RelinkUnparked(w, w', p);
    CountsFollow(w, w', p);
    if !(k.kthread || k.eid.None? || !k.ext) { EnsureCtxCounts(w', p, k.eid.value); }
  }

  lemma StartExact(cfg: Config)
    requires cfg.threads > 0
    ensures Exact(Start(cfg))
  {
    forall g: Eid, p ensures !IsParked(Start(cfg), p, g) {}
    assert forall g: Eid :: DsqOk(Start(cfg), g);
  }

  /** In every run from the start, timeouts included, each cycle's num_alive, num_asleep and
      num_queued are the numbers of its joined, sleeping and parked tasks. */
  lemma {:induction false} RunsAreExact(w: World, steps: seq<Step>)
    requires Exact(w) && Run(w, steps).Some?
    ensures Exact(Run(w, steps).value)
    decreases |steps|
  {
    if steps != [] {
      NextExact(w, steps[0]);
      RunsAreExact(Next(w, steps[0]), steps[1..]);
    }
  }
}
