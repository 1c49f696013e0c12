/** What a cycle learns for PCT: the events of the first cycle are counted, one for every task that is
    parked, and the count is what all later cycles expect. */
module SchedEvents {
  import opened Common
  import opened SchedTypes
  import opened SchedSteps
  import opened SchedCounts

  ghost predicate SameEvents(w: World, w': World, g: Eid) {
    g in w.cycles ==>
      && g in w'.cycles && w'.cycles[g].eventsSeen == w.cycles[g].eventsSeen
      && w'.cycles[g].expectedEvents == w.cycles[g].expectedEvents
      && w'.cycles[g].algoInit == w.cycles[g].algoInit
  }

  lemma OfferEvents(w: World, h: Eid, timeout: bool, g: Eid)
    ensures SameEvents(w, PushGate(w, h, timeout), g)
  {
  }

  lemma CreateEvents(w: World, h: Eid, g: Eid)
    ensures SameEvents(w, CreateCycle(w, h), g) && CreateCycle(w, h).ctxs == w.ctxs
    ensures CreateCycle(w, h).kernel == w.kernel && h in CreateCycle(w, h).cycles
  {
  }

  lemma NumberEvents(w: World, p: Pid, h: Eid, g: Eid)
    requires h in w.cycles
    ensures SameEvents(w, NumberTask(w, p, h), g) && NumberTask(w, p, h).ctxs == w.ctxs
    ensures NumberTask(w, p, h).kernel == w.kernel && h in NumberTask(w, p, h).cycles && p in NumberTask(w, p, h).detIds
  {
  }

  lemma RegisterEvents(w: World, p: Pid, h: Eid, g: Eid)
    ensures SameEvents(w, EnsureCtx(w, p, h), g)
  {
    hide TaskMapFull, CreateCycle, NumberTask;
    CreateEvents(w, h, g);
    NumberEvents(CreateCycle(w, h), p, h, g);
  }

  lemma DispatchEvents(w: World, g: Eid)
    ensures SameEvents(w, Dispatch(w), g)
  {
    hide DispatchEmpty, Release;
    if w.queue != [] {
      var h, w1 := w.queue[0], w.(queue := w.queue[1..]);
      if h in w1.cycles {
        if Dsq(w1, h) == [] { EmptyEvents(w1, h, g); } else { ReleaseEvents(w1, h, g); }
      }
    }
  }

  lemma EmptyEvents(w: World, h: Eid, g: Eid)
    requires h in w.cycles
    ensures SameEvents(w, DispatchEmpty(w, h), g)
  {
    hide PushGate;
    var late := w.cycles[h].state == CycleTimeout;
    var c := w.cycles[h].(pending := false, queued := if late then 0 else w.cycles[h].queued);
    OfferEvents(SetCycle(w, h, c), h, late, g);
  }

  lemma ReleaseEvents(w: World, h: Eid, g: Eid)
    requires h in w.cycles && Dsq(w, h) != []
    ensures SameEvents(w, Release(w, h), g)
  {
    hide PushGate;
    var q := Dsq(w, h);
    var w1 := SetLoc(w.(dsqs := w.dsqs[h := q[1..]]), q[0].pid, LocalDsq);
    var c := w1.cycles[h].(pending := false,
                           queued := if w1.cycles[h].queued > 0 then w1.cycles[h].queued - 1 else w1.cycles[h].queued);
    OfferEvents(SetCycle(w1, h, c), h, true, g);
  }

  lemma WokenEvents(w: World, p: Pid, g: Eid)
    requires p in w.kernel
    ensures SameEvents(w, Woken(w, p), g)
  {
    if GroupOf(w, p).Some? { RunnableEvents(w, p, GroupOf(w, p).value, g); }
  }

  lemma RunnableEvents(w: World, p: Pid, h: Eid, g: Eid)
    requires GroupOf(w, p) == Some(h)
    ensures SameEvents(w, Runnable(w, p), g)
  {
    hide PushGate;
    var w1 := SetCtx(w, p, w.ctxs[p].(isAsleep := false));
    var c := w.cycles[h].(asleep := if w.cycles[h].asleep > 0 then w.cycles[h].asleep - 1 else w.cycles[h].asleep);
    OfferEvents(SetCycle(w1, h, c), h, false, g);
  }

  lemma SleepEvents(w: World, p: Pid, g: Eid)
    ensures SameEvents(w, Sleep(w, p), g)
  {
  }

  lemma YieldEvents(w: World, p: Pid, g: Eid)
    requires p in w.kernel
    ensures SameEvents(w, Yield(w, p), g)
  {
    hide EnsureCtx;
    var k := w.kernel[p];
    if k.eid.Some? { RegisterEvents(w, p, k.eid.value, g); }
  }

  lemma TimerEvents(w: World, p: Pid, now: nat, g: Eid)
    ensures SameEvents(w, TimerCheck(w, p, now), g)
  {
    hide PushGate, Expired;
    if p in w.ctxs { OfferEvents(SetCtx(w, p, w.ctxs[p].(state := ThreadTimeout)), w.ctxs[p].eid, true, g); }
  }

  // ----- parking -----

  /** One more event for group g if its task was parked; the algorithm has then begun, if it knows how
      many events to expect. */
  ghost predicate Counted(w: World, w': World, g: Eid, parked: bool) {
    g in w.cycles ==>
      && g in w'.cycles && w'.cycles[g].expectedEvents == w.cycles[g].expectedEvents
      && w'.cycles[g].eventsSeen == (if parked then (w.cycles[g].eventsSeen + 1) % U32 else w.cycles[g].eventsSeen)
      && (w'.cycles[g].algoInit <==> w.cycles[g].algoInit || (parked && w.cycles[g].expectedEvents != 0))
  }

  lemma ParkEvents(w: World, p: Pid, h: Eid, ev: Event, g: Eid)
    requires p in w.ctxs && h in w.cycles && p in w.kernel
    ensures Counted(w, Park(w, p, h, ev), g, g == h) && At(Park(w, p, h, ev), p, Parked)
    ensures p in Park(w, p, h, ev).ctxs && Park(w, p, h, ev).ctxs[p].eid == w.ctxs[p].eid
  {
    hide Insert;
  }

  lemma OfferKeeps(w: World, h: Eid, timeout: bool)
    ensures PushGate(w, h, timeout).ctxs == w.ctxs && PushGate(w, h, timeout).kernel == w.kernel
  {
  }

  lemma RegisterKeeps(w: World, p: Pid, h: Eid)
    ensures EnsureCtx(w, p, h).kernel == w.kernel && (h in w.cycles ==> h in EnsureCtx(w, p, h).cycles)
    ensures p in w.ctxs ==> EnsureCtx(w, p, h) == w
    ensures p !in w.ctxs && p in EnsureCtx(w, p, h).ctxs ==> EnsureCtx(w, p, h).ctxs[p].eid == h
  {
    hide TaskMapFull, CreateCycle, NumberTask;
    CreateEvents(w, h, h);
    NumberEvents(CreateCycle(w, h), p, h, h);
  }

  /** The context of a task is of the group in its name. */
  predicate OwnGroup(w: World, p: Pid) {
    p in w.ctxs ==> p in w.kernel && w.kernel[p].eid == Some(w.ctxs[p].eid)
  }

  lemma EnqueueEvents(w: World, p: Pid, ev: Event, g: Eid)
    requires p in w.kernel && !At(w, p, Parked) && OwnGroup(w, p)
    ensures Counted(w, Enqueue(w, p, ev), g, IsParked(Enqueue(w, p, ev), p, g))
  {
    hide PushGate, GateOpens, EnsureCtx, Park;
    var k := w.kernel[p];
    if k.kthread || k.eid.None? || !k.ext || k.eid.value !in w.cycles || w.cycles[k.eid.value].state == CycleTimeout {
    } else {
      var h := k.eid.value;
      RegisterEvents(w, p, h, g);
      RegisterKeeps(w, p, h);
      var w1 := EnsureCtx(w, p, h);
      if p in w1.ctxs && Joined(w1.ctxs[p].state) {
        ParkEvents(w1, p, h, ev, g);
        OfferEvents(Park(w1, p, h, ev), h, false, g);
        OfferKeeps(Park(w1, p, h, ev), h, false);
      }
    }
  }

  // ----- the end of a cycle -----

  /** With the exit of p the cycle of g is over. */
  predicate Ends(w: World, p: Pid, g: Eid) {
    GroupOf(w, p) == Some(g) && Joined(w.ctxs[p].state) && CycleOver(CountExit(w.cycles[g], w.ctxs[p]))
  }

  /** The cycle of g starts over; it expects what it counted, unless it knew before. */
  ghost predicate StartsOver(w: World, w': World, g: Eid)
    requires g in w.cycles
  {
    g in w'.cycles &&
    w'.cycles[g] == NewCycle(w.cfg.threads).(
      expectedEvents := if w.cycles[g].expectedEvents == 0 then w.cycles[g].eventsSeen else w.cycles[g].expectedEvents)
  }

  lemma ExitEvents(w: World, p: Pid, g: Eid)
    requires g in w.cycles
    ensures if Ends(w, p, g) then StartsOver(w, Exit(w, p), g) else SameEvents(w, Exit(w, p), g)
  {
    hide PushGate;
    if GroupOf(w, p).Some? {
      var h := GroupOf(w, p).value;
      var w1 := w.(ctxs := w.ctxs - {p}, detIds := w.detIds - {p});
      var c := CountExit(w1.cycles[h], w.ctxs[p]);
      var w2 := SetCycle(w1, h, c);
      OfferEvents(w2, h, c.state == CycleTimeout, g);
      OfferEvents(w2, h, c.state == CycleTimeout, h);
    }
  }

  // ----- every step -----

  /** The step parks a task of group g. */
  ghost predicate ParksIn(w: World, s: Step, g: Eid)
    requires Enabled(w, s)
  {
    (s.DoPreempt? || s.DoWake?) && IsParked(Next(w, s), s.pid, g)
  }

  predicate EndsIn(w: World, s: Step, g: Eid) { s.DoExit? && Ends(w, s.pid, g) }

  /** A step that parks a task of the group counts one event for it, one that ends its cycle starts the
      count over and keeps what was learnt, and no other step touches either number. */
  lemma NextEvents(w: World, s: Step, g: Eid)
    requires Exact(w) && Enabled(w, s) && g in w.cycles
    ensures EndsIn(w, s, g) ==> StartsOver(w, Next(w, s), g)
    ensures !EndsIn(w, s, g) ==> Counted(w, Next(w, s), g, ParksIn(w, s, g))
  {
    hide Exact, Enqueue, Dispatch, Woken, Sleep, Exit, Yield, TimerCheck, EnsureCtx, Ends, IsParked;
    match s
    case DoSpawn(q, k) => if k.eid.Some? { RegisterEvents(w.(kernel := w.kernel[q := k]), q, k.eid.value, g); }
    case DoRetag(q, k) =>
    case DoPreempt(q, ev) =>
      OwnGroupOf(w, q);
      EnqueueEvents(w, q, ev, g);
    case DoWake(q, ev) =>
      OwnGroupOf(w, q);
      WokenKeeps(w, q);
      WokenEvents(w, q, g);
      EnqueueEvents(Woken(w, q), q, ev, g);
    case DoDispatch => DispatchEvents(w, g);
    case DoRun(q) =>
    case DoSleep(q) => SleepEvents(SetLoc(w, q, Blocked), q, g);
    case DoYield(q) => YieldEvents(w, q, g);
    case DoExit(q) => ExitEvents(w, q, g);
    case DoTimer(q, now) => TimerEvents(w, q, now, g);
  }

  lemma OwnGroupOf(w: World, p: Pid)
    requires Exact(w)
    ensures OwnGroup(w, p)
  {
    assert CtxOk(w, p);
  }

  lemma WokenKeeps(w: World, p: Pid)
    requires p in w.kernel && OwnGroup(w, p)
    ensures OwnGroup(Woken(w, p), p) && !At(Woken(w, p), p, Parked)
  {
    hide PushGate;
    if GroupOf(w, p).Some? {
      var h := GroupOf(w, p).value;
      var c := w.cycles[h].(asleep := if w.cycles[h].asleep > 0 then w.cycles[h].asleep - 1 else w.cycles[h].asleep);
      OfferKeeps(SetCycle(SetCtx(w, p, w.ctxs[p].(isAsleep := false)), h, c), h, false);
    }
  }

  // ----- runs -----

  /** Over a run: the number of events of group g since its cycle last started over, counted on from n. */
  ghost function EventsOf(w: World, steps: seq<Step>, g: Eid, n: nat): nat
    requires Run(w, steps).Some?
    decreases |steps|
  {
    if steps == [] then n
    else
      var s := steps[0];
      var m := if EndsIn(w, s, g) then 0 else if ParksIn(w, s, g) then n + 1 else n;
      EventsOf(Next(w, s), steps[1..], g, m)
  }

  /** In every run eventsSeen is that number, as long as it fits 32 bits; and once a cycle knows how many
      events to expect, this never changes. */
  lemma {:induction false} RunEvents(w: World, steps: seq<Step>, g: Eid, n: nat)
    requires Exact(w) && Run(w, steps).Some? && g in w.cycles && w.cycles[g].eventsSeen == n % U32
    ensures g in Run(w, steps).value.cycles
    ensures Run(w, steps).value.cycles[g].eventsSeen == EventsOf(w, steps, g, n) % U32
    ensures w.cycles[g].expectedEvents != 0 ==>
      Run(w, steps).value.cycles[g].expectedEvents == w.cycles[g].expectedEvents
    decreases |steps|
  {
    hide Exact, Next, Enabled, ParksIn, EndsIn;
    if steps != [] {
      var s := steps[0];
      NextExact(w, s);
      NextEvents(w, s, g);
      var m := if EndsIn(w, s, g) then 0 else if ParksIn(w, s, g) then n + 1 else n;
      OneMore(n);
      RunEvents(Next(w, s), steps[1..], g, m);
    }
  }

  lemma OneMore(n: nat)
    ensures (n % U32 + 1) % U32 == (n + 1) % U32
  {
  }

  // ----- numbers -----

  /** Tasks registered with a group, one after the other. */
  function RegisterAll(w: World, ps: seq<Pid>, g: Eid): World
    decreases |ps|
  {
    if ps == [] then w else EnsureCtx(RegisterAll(w, ps[..|ps| - 1], g), ps[|ps| - 1], g)
  }

  ghost predicate IsNumbered(w: World, p: Pid, g: Eid, n: nat) {
    p in w.ctxs && w.ctxs[p] == NewCtx(g, n) && p in w.detIds && w.detIds[p] == n
  }

  /** From w to v exactly the tasks ps have come, numbered from 1. */
  ghost predicate Came(w: World, v: World, ps: seq<Pid>, g: Eid) {
    && (forall i :: 0 <= i < |ps| ==> IsNumbered(v, ps[i], g, i + 1))
    && (forall q :: q !in ps ==> (q in v.ctxs <==> q in w.ctxs) && (q in v.detIds <==> q in w.detIds))
    && |v.ctxs| == |w.ctxs| + |ps|
    && (if g in v.cycles then v.cycles[g].nextDetId == |ps| else ps == [])
  }

  /** Tasks new to a new group are numbered 1, 2, 3 and so on in the order they register, while the task
      map has room for 2000. */
  lemma {:induction false} NumberedInOrder(w: World, ps: seq<Pid>, g: Eid)
    requires g !in w.cycles && NoDup(ps) && |w.ctxs| + |ps| <= 2000
    requires forall i :: 0 <= i < |ps| ==> ps[i] !in w.ctxs && ps[i] !in w.detIds
    ensures Came(w, RegisterAll(w, ps, g), ps, g)
    decreases |ps|
  {
    hide Came, EnsureCtx;
    if ps == [] {
      NobodyCame(w, g);
    } else {
      var n := |ps| - 1;
      NumberedInOrder(w, ps[..n], g);
      OneMoreCame(w, RegisterAll(w, ps[..n], g), ps, g);
    }
  }

  lemma NobodyCame(w: World, g: Eid)
    requires g !in w.cycles
    ensures Came(w, w, [], g)
  {
  }

  lemma OneMoreCame(w: World, u: World, ps: seq<Pid>, g: Eid)
    requires ps != [] && NoDup(ps) && |w.ctxs| + |ps| <= 2000 && Came(w, u, ps[..|ps| - 1], g)
    requires ps[|ps| - 1] !in w.ctxs && ps[|ps| - 1] !in w.detIds
    ensures Came(w, EnsureCtx(u, ps[|ps| - 1], g), ps, g)
  {
    hide EnsureCtx, IsNumbered, NewCtx, NoDup;
    var n := |ps| - 1;
    var qs, p := ps[..n], ps[n];
    assert p !in qs by { LastIsNew(ps); }
    RegisterOne(u, p, g, n);
    var v := EnsureCtx(u, p, g);
    forall i | 0 <= i < |ps| ensures IsNumbered(v, ps[i], g, i + 1) {
      if i < n { KeepsNumber(u, v, p, g, n + 1, qs[i], i + 1); } else { GetsNumber(u, v, p, g, n + 1); }
    }
    forall q | q !in ps ensures (q in v.ctxs <==> q in w.ctxs) && (q in v.detIds <==> q in w.detIds) {
      assert q !in qs && q != p;
    }
  }

  lemma LastIsNew(ps: seq<Pid>)
    requires ps != [] && NoDup(ps)
    ensures ps[|ps| - 1] !in ps[..|ps| - 1]
  {
  }

  lemma KeepsNumber(u: World, v: World, p: Pid, g: Eid, n: nat, q: Pid, k: nat)
    requires v.ctxs == u.ctxs[p := NewCtx(g, n)] && v.detIds == u.detIds[p := n] && q != p && IsNumbered(u, q, g, k)
    ensures IsNumbered(v, q, g, k)
  {
  }

  lemma GetsNumber(u: World, v: World, p: Pid, g: Eid, n: nat)
    requires v.ctxs == u.ctxs[p := NewCtx(g, n)] && v.detIds == u.detIds[p := n]
    ensures IsNumbered(v, p, g, n)
  {
  }

  lemma RegisterOne(w: World, p: Pid, g: Eid, n: nat)
    requires p !in w.ctxs && p !in w.detIds && |w.ctxs| < 2000
    requires n < 2000 && (if g in w.cycles then w.cycles[g].nextDetId == n else n == 0)
    ensures var v := EnsureCtx(w, p, g);
      && v.ctxs == w.ctxs[p := NewCtx(g, n + 1)] && v.detIds == w.detIds[p := n + 1]
      && g in v.cycles && v.cycles[g].nextDetId == n + 1 && |v.ctxs| == |w.ctxs| + 1
  {
    hide CreateCycle, NumberTask;
    CreateFor(w, g, n);
    NumberFor(CreateCycle(w, g), p, g, n);
    SizeGrows(w.ctxs, p, NewCtx(g, n + 1));
  }

  lemma SizeGrows(m: map<Pid, Ctx>, p: Pid, t: Ctx)
    requires p !in m
    ensures |m[p := t]| == |m| + 1
  {
    assert m[p := t].Keys == m.Keys + {p};
  }

  lemma CreateFor(w: World, g: Eid, n: nat)
    requires if g in w.cycles then w.cycles[g].nextDetId == n else n == 0
    ensures var v := CreateCycle(w, g);
      v.ctxs == w.ctxs && v.detIds == w.detIds && g in v.cycles && v.cycles[g].nextDetId == n
  {
  }

  lemma NumberFor(w: World, p: Pid, g: Eid, n: nat)
    requires p !in w.detIds && g in w.cycles && w.cycles[g].nextDetId == n && n < 2000
    ensures var v := NumberTask(w, p, g);
      v.ctxs == w.ctxs && v.detIds == w.detIds[p := n + 1] && g in v.cycles && v.cycles[g].nextDetId == n + 1
  {
  }

  /** With 2000 tasks in the map, no other gets a context. */
  lemma NoRoomLeft(w: World, p: Pid, g: Eid)
    requires |w.ctxs| >= 2000 && p !in w.ctxs
    ensures p !in EnsureCtx(w, p, g).ctxs
  {
  }

  // ----- waking up -----

  /** In a reachable state a wake-up by itself never puts a group on offer: the task that wakes is itself
      neither parked nor asleep. */
  lemma WakeNeverOffers(w: World, p: Pid)
    requires Exact(w) && At(w, p, Blocked)
    ensures Runnable(w, p).queue == w.queue
  {
    if GroupOf(w, p).Some? && w.ctxs[p].isAsleep {
      var g := GroupOf(w, p).value;
      assert CtxOk(w, p) && CycleCounts(w, g) && ShapeAt(w, g);
      JoinedCounted(w, p);
    }
  }
}
