/** The scheduler as an object: the BPF maps are fields, each callback a method that follows
    the lock sections of the source, and each is shown to do what its step function says. */
module SchedImpl {
  import opened Common
  import opened SchedTypes
  import opened SchedSteps

  class Scheduler {
    const cfg: Config
    var cycles: map<Eid, Cycle>
    var ctxs: map<Pid, Ctx>
    var detIds: map<Pid, nat>
    var queue: seq<Eid>
    var dsqs: map<Eid, seq<Entry>>
    var kernel: map<Pid, KTask>

    constructor (threads: nat, evicts: bool)
      ensures View() == Start(Config(threads, evicts))
    {
      cfg := Config(threads, evicts);
      cycles, ctxs, detIds, queue, dsqs, kernel := map[], map[], map[], [], map[], map[];
    }

    function View(): World
      reads this
    {
      World(cfg, cycles, ctxs, detIds, queue, dsqs, kernel)
    }

    /** bpf_map_push_elem with BPF_EXIST: a full queue map evicts its oldest entry or fails. */
    method PushElem(g: Eid) returns (ok: bool)
      modifies `queue
      ensures ok <==> |old(queue)| < GATE_SLOTS || cfg.evicts
      ensures queue == if !ok then old(queue)
                       else if |old(queue)| < GATE_SLOTS then old(queue) + [g]
                       else old(queue)[1..] + [g]
    {
      if |queue| < GATE_SLOTS {
        queue := queue + [g];
        return true;
      }
      if cfg.evicts {
        queue := queue[1..] + [g];
        return true;
      }
      return false;
    }

    method EnqueueCycleForDispatch(g: Eid, timeout: bool)
      modifies `cycles, `queue
      ensures View() == PushGate(old(View()), g, timeout)
    {
      if g !in cycles { return; }
      var before := cycles[g];
      if before.pending { return; }
      cycles := cycles[g := before.(state := if timeout then CycleTimeout else CycleRunning, pending := true)];
      var ok := PushElem(g);
      if !ok {
        cycles := cycles[g := cycles[g].(pending := false, state := before.state)];
        assert cycles[g] == before;
        assert cycles == old(cycles);
      }
    }

    /** Pops the next group on offer, if any. */
    method DequeueCycleForDispatch() returns (r: Option<Eid>)
      modifies `queue
      ensures r == if old(queue) == [] then None else Some(old(queue)[0])
      ensures queue == if old(queue) == [] then [] else old(queue)[1..]
    {
      if queue == [] { return None; }
      r := Some(queue[0]);
      queue := queue[1..];
    }

    method EnsureTaskCtx(p: Pid, g: Eid) returns (ok: bool)
      modifies `cycles, `ctxs, `detIds
      ensures View() == EnsureCtx(old(View()), p, g)
      ensures ok <==> p in ctxs
    {
      if p in ctxs { return true; }
      if g !in cycles {
        cycles := cycles[g := NewCycle(cfg.threads)];
      }
      var det: nat;
      if p in detIds {
        det := detIds[p];
      } else {
        det := (cycles[g].nextDetId + 1) % U32;
        cycles := cycles[g := cycles[g].(nextDetId := det)];
        detIds := detIds[p := det];
      }
      if |ctxs| >= MAX_TASKS { return false; }
      ctxs := ctxs[p := NewCtx(g, det)];
      return true;
    }

    method InsertGlobal(p: Pid)
      requires p in kernel
      modifies `kernel
      ensures View() == SetLoc(old(View()), p, GlobalDsq)
    {
      kernel := kernel[p := kernel[p].(loc := GlobalDsq)];
    }

    /** insert_into_cycle_dsq, with the priority the algorithm has just assigned. */
    method InsertIntoCycleDsq(p: Pid, g: Eid)
      requires p in ctxs && p in kernel
      modifies `dsqs, `kernel
      ensures View() == InsertParked(old(View()), p, g)
    {
      var priority := 1;
      if ctxs[p].priority > 0 { priority := ctxs[p].priority; }
      var vtime := if priority < U32 then U32 - 1 - priority else 0;
      var q := if g in dsqs then dsqs[g] else [];
      dsqs := dsqs[g := Insert(q, Entry(p, vtime))];
      kernel := kernel[p := kernel[p].(loc := Parked)];
    }

    /** The lock sections of an enqueue that flag the algorithm's start and count the event. */
    method CountEvent(g: Eid, ev: Event)
      requires g in cycles
      modifies `cycles
      ensures cycles == old(cycles)[g := CountEnqueue(old(cycles)[g], ev)]
    {
      var c := cycles[g];
      if !c.algoInit && c.expectedEvents != 0 { c := c.(algoInit := true); }
      c := c.(queued := c.queued + 1, eventsSeen := (c.eventsSeen + 1) % U32);
      c := c.(strata := ev.strata);
      cycles := cycles[g := c];
    }

    /** The part of the enqueue callback that parks a joined task. */
    method ParkTask(p: Pid, g: Eid, ev: Event)
      requires p in ctxs && p in kernel && g in cycles
      modifies `cycles, `ctxs, `dsqs, `kernel
      ensures View() == Park(old(View()), p, g, ev)
    {
      hide InsertParked, CountEnqueue;
      ctxs := ctxs[p := ctxs[p].(state := ThreadEnqueued, lastEnqueue := ev.now % U64)];
      CountEvent(g, ev);
      ctxs := Reprioritise(ctxs, ev.prios);
      InsertIntoCycleDsq(p, g);
    }

    method EnqueueTask(p: Pid, ev: Event)
      requires p in kernel
      modifies this
      ensures View() == Enqueue(old(View()), p, ev)
    {
      hide PushGate, Park, EnsureCtx;
      var k := kernel[p];
      if k.kthread || k.eid.None? || !k.ext { InsertGlobal(p); return; }
      var g := k.eid.value;
      if g !in cycles || cycles[g].state == CycleTimeout { InsertGlobal(p); return; }
      assert g in EnsureCtx(View(), p, g).cycles by { CycleStays(View(), p, g); }
      var ok := EnsureTaskCtx(p, g);
      if !ok { InsertGlobal(p); return; }
      if !Joined(ctxs[p].state) { InsertGlobal(p); return; }
      ParkTask(p, g, ev);
      assert g in cycles by { ParkKeeps(old(View()), p, g, ev); }
      var c := cycles[g];
      var dispatchable := false;
      if c.state == CycleReady || c.state == CycleUnavailable {
        dispatchable := c.queued == c.expected;
      } else if c.state == CycleRunning {
        dispatchable := c.queued == c.alive - c.asleep;
      }
      if dispatchable { EnqueueCycleForDispatch(g, false); }
    }

    static lemma CycleStays(w: World, p: Pid, g: Eid)
      requires g in w.cycles
      ensures var w' := EnsureCtx(w, p, g); g in w'.cycles && w'.kernel == w.kernel
    {
      hide TaskMapFull;
    }

    static lemma ParkKeeps(w: World, p: Pid, g: Eid, ev: Event)
      requires p in w.kernel && g in w.cycles
      ensures var w' := EnsureCtx(w, p, g);
        g in w'.cycles && (p in w'.ctxs ==> g in Park(w', p, g, ev).cycles)
    {
      CycleStays(w, p, g);
      hide EnsureCtx;
    }

    /** scx_bpf_dsq_move_to_local: the first entry of the group's queue, if there is one. */
    method MoveToLocal(g: Eid) returns (moved: bool)
      modifies `dsqs, `kernel
      ensures moved <==> Dsq(old(View()), g) != []
      ensures var w := old(View()); var q := Dsq(w, g);
        View() == if moved then SetLoc(w.(dsqs := w.dsqs[g := q[1..]]), q[0].pid, LocalDsq) else w
    {
      var q := if g in dsqs then dsqs[g] else [];
      if q == [] { return false; }
      dsqs := dsqs[g := q[1..]];
      if q[0].pid in kernel { kernel := kernel[q[0].pid := kernel[q[0].pid].(loc := LocalDsq)]; }
      return true;
    }

    method DispatchOne()
      modifies this
      ensures View() == Dispatch(old(View()))
    {
      hide PushGate;
      var r := DequeueCycleForDispatch();
      if r.None? { return; }
      var g := r.value;
      if g !in cycles { return; }
      var moved := MoveToLocal(g);
      if !moved {
        var late := cycles[g].state == CycleTimeout;
        cycles := cycles[g := cycles[g].(pending := false, queued := if late then 0 else cycles[g].queued)];
        if cycles[g].queued > 0 { EnqueueCycleForDispatch(g, late); }
        return;
      }
      var n := if cycles[g].queued > 0 then cycles[g].queued - 1 else cycles[g].queued;
      cycles := cycles[g := cycles[g].(pending := false, queued := n)];
      if cycles[g].state == CycleTimeout && cycles[g].queued > 0 { EnqueueCycleForDispatch(g, true); }
    }

    /** The lookups most callbacks begin with. */
    method FindGroup(p: Pid) returns (r: Option<Eid>)
      ensures r == GroupOf(View(), p)
    {
      if p !in kernel || kernel[p].eid.None? { return None; }
      var g := kernel[p].eid.value;
      if g !in cycles { return None; }
      if p !in ctxs { return None; }
      return Some(g);
    }

    method TaskRunnable(p: Pid)
      modifies this
      ensures View() == Runnable(old(View()), p)
    {
      hide PushGate;
      var r := FindGroup(p);
      if r.None? { return; }
      var g := r.value;
      var wasAsleep := ctxs[p].isAsleep;
      ctxs := ctxs[p := ctxs[p].(isAsleep := false)];
      if wasAsleep {
        var n := if cycles[g].asleep > 0 then cycles[g].asleep - 1 else cycles[g].asleep;
        cycles := cycles[g := cycles[g].(asleep := n)];
        if cycles[g].state == CycleRunning && cycles[g].queued == cycles[g].alive - cycles[g].asleep {
          EnqueueCycleForDispatch(g, false);
        }
      }
    }

    method TaskRunning(p: Pid)
      modifies `ctxs
      ensures View() == Running(old(View()), p)
    {
      if p in ctxs && Waiting(ctxs[p].state) {
        ctxs := ctxs[p := ctxs[p].(state := ThreadRunning, lastEnqueue := 0)];
      }
    }

    method TaskSleeps(p: Pid)
      modifies this
      ensures View() == Sleep(old(View()), p)
    {
      hide PushGate;
      var r := FindGroup(p);
      if r.None? { return; }
      var g := r.value;
      var t := ctxs[p];
      if !Joined(t.state) { return; }
      if t.isAsleep { return; }
      ctxs := ctxs[p := t.(isAsleep := true, lastEnqueue := if Waiting(t.state) then 0 else t.lastEnqueue)];
      var c := cycles[g];
      if Waiting(t.state) && c.queued > 0 { c := c.(queued := c.queued - 1); }
      c := c.(asleep := c.asleep + 1);
      cycles := cycles[g := c];
      if c.state == CycleRunning && c.queued == c.alive - c.asleep { EnqueueCycleForDispatch(g, false); }
    }

    method TaskYields(p: Pid)
      requires p in kernel
      modifies this
      ensures View() == Yield(old(View()), p)
    {
      hide EnsureCtx;
      var k := kernel[p];
      if k.kthread || k.eid.None? || !k.ext { return; }
      var g := k.eid.value;
      var ok := EnsureTaskCtx(p, g);
      if !ok || g !in cycles { return; }
      if ctxs[p].state != ThreadRegistered { return; }
      if cycles[g].state != CycleUnavailable {
        ctxs := ctxs[p := ctxs[p].(state := ThreadIgnored)];
        return;
      }
      ctxs := ctxs[p := ctxs[p].(state := ThreadRunning)];
      var c := cycles[g].(alive := cycles[g].alive + 1);
      if c.alive == c.expected { c := c.(state := CycleReady); }
      cycles := cycles[g := c];
    }

    method ResetCycleState(g: Eid)
      requires g in cycles
      modifies `cycles
      ensures View() == SetCycle(old(View()), g, ResetCycle(old(cycles)[g], cfg.threads))
    {
      var c := cycles[g].(expected := cfg.threads, alive := 0, queued := 0, asleep := 0, nextDetId := 0, strata := 0);
      if c.expectedEvents == 0 { c := c.(expectedEvents := c.eventsSeen); }
      c := c.(eventsSeen := 0, algoInit := false, pending := false, state := CycleUnavailable);
      cycles := cycles[g := c];
    }

    method CountOut(g: Eid, t: Ctx)
      requires g in cycles
      modifies `cycles
      ensures cycles == old(cycles)[g := CountExit(old(cycles)[g], t)]
    {
      var c := cycles[g];
      if c.state == CycleReady || c.state == CycleUnavailable { c := c.(expected := c.expected - 1); }
      if Waiting(t.state) && c.queued > 0 { c := c.(queued := c.queued - 1); }
      if t.isAsleep && c.asleep > 0 { c := c.(asleep := c.asleep - 1); }
      if c.alive > 0 { c := c.(alive := c.alive - 1); }
      cycles := cycles[g := c];
    }

    method TaskExits(p: Pid)
      modifies this
      ensures View() == Exit(old(View()), p)
    {
      hide PushGate, CountExit, ResetCycle;
      var r := FindGroup(p);
      if r.None? { return; }
      var g := r.value;
      var t := ctxs[p];
      ctxs := ctxs - {p};
      detIds := detIds - {p};
      if !Joined(t.state) { return; }
      CountOut(g, t);
      var c := cycles[g];
      if c.alive != 0 && c.queued == c.alive - c.asleep {
        PushKeeps(View(), g, c.state == CycleTimeout);
        EnqueueCycleForDispatch(g, c.state == CycleTimeout);
      }
      if c.expected == 0 || (c.alive == 0 && c.state != CycleUnavailable) { ResetCycleState(g); }
    }

    static lemma PushKeeps(w: World, g: Eid, timeout: bool)
      requires g in w.cycles
      ensures g in PushGate(w, g, timeout).cycles
    {
    }

    method CheckDispatchTimeout(p: Pid, now: nat)
      modifies this
      ensures View() == TimerCheck(old(View()), p, now)
    {
      hide PushGate;
      if p !in ctxs { return; }
      var t := ctxs[p];
      var expireAt := (t.lastEnqueue + TIMEOUT_BUDGET) % U64;
      if !Waiting(t.state) || t.isAsleep || t.lastEnqueue == 0 || !TimeBefore(expireAt, now) { return; }
      ctxs := ctxs[p := t.(state := ThreadTimeout)];
      EnqueueCycleForDispatch(t.eid, true);
    }
  }
}
