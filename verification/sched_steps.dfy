/** What each callback of the scheduler does to the world, one function per callback,
    and the kernel environment that calls them. */
module SchedSteps {
  import opened Common
  import opened SchedTypes

  // ----- helpers shared by the callbacks -----

  function SetCycle(w: World, g: Eid, c: Cycle): World { w.(cycles := w.cycles[g := c]) }

  function SetCtx(w: World, p: Pid, t: Ctx): World { w.(ctxs := w.ctxs[p := t]) }

  function SetLoc(w: World, p: Pid, l: Loc): World {
    if p in w.kernel then w.(kernel := w.kernel[p := w.kernel[p].(loc := l)]) else w
  }

  function NewCycle(threads: nat): Cycle {
    Cycle(threads, 0, 0, 0, 0, 0, 0, 0, false, false, CycleUnavailable)
  }

  function NewCtx(g: Eid, det: nat): Ctx { Ctx(0, g, det, false, ThreadRegistered, 0) }

  function CreateCycle(w: World, g: Eid): (r: World)
    ensures r.cfg == w.cfg
  {
    if g in w.cycles then w else SetCycle(w, g, NewCycle(w.cfg.threads))
  }

  /** Draws the task's deterministic id, unless it already has one. */
  function NumberTask(w: World, p: Pid, g: Eid): (r: World)
    requires g in w.cycles
    ensures r.cfg == w.cfg
  {
    if p in w.detIds then w
    else
      var det := (w.cycles[g].nextDetId + 1) % U32;
      SetCycle(w, g, w.cycles[g].(nextDetId := det)).(detIds := w.detIds[p := det])
  }

  predicate TaskMapFull(w: World) { |w.ctxs| >= MAX_TASKS }

  /** Lazily registers a task; fails when the task map is full. */
  function EnsureCtx(w: World, p: Pid, g: Eid): (r: World)
    ensures r.cfg == w.cfg
  {
    if p in w.ctxs then w
    else
      var w1 := NumberTask(CreateCycle(w, g), p, g);
      if TaskMapFull(w1) then w1 else SetCtx(w1, p, NewCtx(g, w1.detIds[p]))
  }

  /** Offers a group to the dispatchers, unless it already is on offer. */
  function PushGate(w: World, g: Eid, timeout: bool): (r: World)
    ensures r.cfg == w.cfg
  {
    if g !in w.cycles || w.cycles[g].pending then w
    else
      var c := w.cycles[g].(state := if timeout then CycleTimeout else CycleRunning, pending := true);
      if |w.queue| < GATE_SLOTS then SetCycle(w, g, c).(queue := w.queue + [g])
      else if w.cfg.evicts then SetCycle(w, g, c).(queue := w.queue[1..] + [g])
      else w
  }

  function ResetCycle(c: Cycle, threads: nat): Cycle {
    Cycle(threads, 0, 0, 0, 0,
          if c.expectedEvents == 0 then c.eventsSeen else c.expectedEvents,
          0, 0, false, false, CycleUnavailable)
  }

  // ----- enqueue -----

  /** What the algorithm and the clock contribute to one enqueue: the priorities it
      sets, the stratum it leaves behind, and the time. */
  datatype Event = Event(prios: map<Pid, nat>, strata: nat, now: nat)

  function Reprioritise(ctxs: map<Pid, Ctx>, prios: map<Pid, nat>): map<Pid, Ctx> {
    map p | p in ctxs :: if p in prios then ctxs[p].(priority := prios[p] % U32) else ctxs[p]
  }

  /** The gate opens when every task the cycle counts on is parked. */
  predicate GateOpens(c: Cycle) {
    match c.state
    case CycleReady => c.queued == c.expected
    case CycleUnavailable => c.queued == c.expected
    case CycleRunning => c.queued == c.alive - c.asleep
    case CycleTimeout => false
  }

  function CountEnqueue(c: Cycle, ev: Event): Cycle {
    c.(algoInit := c.algoInit || c.expectedEvents != 0,
       queued := c.queued + 1,
       eventsSeen := (c.eventsSeen + 1) % U32,
       strata := ev.strata)
  }

  function InsertParked(w: World, p: Pid, g: Eid): (r: World)
    requires p in w.ctxs
    ensures r.cfg == w.cfg
  {
    var prio := if w.ctxs[p].priority > 0 then w.ctxs[p].priority else 1;
    var vtime := if prio < U32 then U32 - 1 - prio else 0;
    SetLoc(w.(dsqs := w.dsqs[g := Insert(Dsq(w, g), Entry(p, vtime))]), p, Parked)
  }

  /** A joined task is counted, prioritised and parked. */
  function Park(w: World, p: Pid, g: Eid, ev: Event): (r: World)
    requires p in w.ctxs && g in w.cycles
    ensures r.cfg == w.cfg
  {
    var w1 := SetCtx(w, p, w.ctxs[p].(state := ThreadEnqueued, lastEnqueue := ev.now % U64));
    var w2 := SetCycle(w1, g, CountEnqueue(w1.cycles[g], ev));
    var w3 := w2.(ctxs := Reprioritise(w2.ctxs, ev.prios));
    InsertParked(w3, p, g)
  }

  function Enqueue(w: World, p: Pid, ev: Event): (r: World)
    requires p in w.kernel
    ensures r.cfg == w.cfg
  {
    var k := w.kernel[p];
    if k.kthread || k.eid.None? || !k.ext then SetLoc(w, p, GlobalDsq)
    else
      var g := k.eid.value;
      if g !in w.cycles || w.cycles[g].state == CycleTimeout then SetLoc(w, p, GlobalDsq)
      else
        var w1 := EnsureCtx(w, p, g);
        if p !in w1.ctxs || !Joined(w1.ctxs[p].state) then SetLoc(w1, p, GlobalDsq)
        else
          var w2 := Park(w1, p, g, ev);
          if GateOpens(w2.cycles[g]) then PushGate(w2, g, false) else w2
  }

  // ----- dispatch -----

  /** Pops one group and releases its first parked task to the local DSQ. */
  function Dispatch(w: World): (r: World)
    ensures r.cfg == w.cfg
  {
    if w.queue == [] then w
    else
      var g := w.queue[0];
      var w1 := w.(queue := w.queue[1..]);
      if g !in w1.cycles then w1
      else if Dsq(w1, g) == [] then DispatchEmpty(w1, g)
      else Release(w1, g)
  }

  function DispatchEmpty(w: World, g: Eid): (r: World)
    requires g in w.cycles
    ensures r.cfg == w.cfg
  {
    var late := w.cycles[g].state == CycleTimeout;
    var c := w.cycles[g].(pending := false, queued := if late then 0 else w.cycles[g].queued);
    var w1 := SetCycle(w, g, c);
    if c.queued > 0 then PushGate(w1, g, late) else w1
  }

  function Release(w: World, g: Eid): (r: World)
    requires g in w.cycles && Dsq(w, g) != []
    ensures r.cfg == w.cfg
  {
    var q := Dsq(w, g);
    var w1 := SetLoc(w.(dsqs := w.dsqs[g := q[1..]]), q[0].pid, LocalDsq);
    var c0 := w1.cycles[g];
    var c := c0.(pending := false, queued := if c0.queued > 0 then c0.queued - 1 else c0.queued);
    var w2 := SetCycle(w1, g, c);
    if c.state == CycleTimeout && c.queued > 0 then PushGate(w2, g, true) else w2
  }

  // ----- runnable, running, sleep, yield, exit, timer -----

  /** The group whose cycle the callback works on, when the task has a context there. */
  function GroupOf(w: World, p: Pid): (r: Option<Eid>)
    ensures r.Some? ==> p in w.ctxs && r.value in w.cycles
  {
    if p in w.kernel && w.kernel[p].eid.Some? && w.kernel[p].eid.value in w.cycles && p in w.ctxs
    then w.kernel[p].eid else None
  }

  function Runnable(w: World, p: Pid): (r: World)
    ensures r.cfg == w.cfg
  {
    match GroupOf(w, p)
    case None => w
    case Some(g) =>
      var w1 := SetCtx(w, p, w.ctxs[p].(isAsleep := false));
      if !w.ctxs[p].isAsleep then w1
      else
        var c0 := w1.cycles[g];
        var c := c0.(asleep := if c0.asleep > 0 then c0.asleep - 1 else c0.asleep);
        var w2 := SetCycle(w1, g, c);
        if c.state == CycleRunning && c.queued == c.alive - c.asleep then PushGate(w2, g, false) else w2
  }

  function Running(w: World, p: Pid): (r: World)
    ensures r.cfg == w.cfg
  {
    if p in w.ctxs && Waiting(w.ctxs[p].state)
    then SetCtx(w, p, w.ctxs[p].(state := ThreadRunning, lastEnqueue := 0))
    else w
  }

  function Sleep(w: World, p: Pid): (r: World)
    ensures r.cfg == w.cfg
  {
    match GroupOf(w, p)
    case None => w
    case Some(g) =>
      var t := w.ctxs[p];
      if !Joined(t.state) || t.isAsleep then w
      else
        var w1 := SetCtx(w, p, t.(isAsleep := true, lastEnqueue := if Waiting(t.state) then 0 else t.lastEnqueue));
        var c0 := w1.cycles[g];
        var c := c0.(asleep := c0.asleep + 1,
                     queued := if Waiting(t.state) && c0.queued > 0 then c0.queued - 1 else c0.queued);
        var w2 := SetCycle(w1, g, c);
        if c.state == CycleRunning && c.queued == c.alive - c.asleep then PushGate(w2, g, false) else w2
  }

  /** The first yield of a registered task joins the cycle, if the cycle still gathers. */
  function Yield(w: World, p: Pid): (r: World)
    requires p in w.kernel
    ensures r.cfg == w.cfg
  {
    var k := w.kernel[p];
    if k.kthread || k.eid.None? || !k.ext then w
    else
      var g := k.eid.value;
      var w1 := EnsureCtx(w, p, g);
      if p !in w1.ctxs || g !in w1.cycles || w1.ctxs[p].state != ThreadRegistered then w1
      else if w1.cycles[g].state != CycleUnavailable
      then SetCtx(w1, p, w1.ctxs[p].(state := ThreadIgnored))
      else
        var w2 := SetCtx(w1, p, w1.ctxs[p].(state := ThreadRunning));
        var c := w2.cycles[g].(alive := w2.cycles[g].alive + 1);
        SetCycle(w2, g, if c.alive == c.expected then c.(state := CycleReady) else c)
  }

  function CountExit(c: Cycle, t: Ctx): Cycle {
    c.(expected := if c.state == CycleReady || c.state == CycleUnavailable then c.expected - 1 else c.expected,
       queued := if Waiting(t.state) && c.queued > 0 then c.queued - 1 else c.queued,
       asleep := if t.isAsleep && c.asleep > 0 then c.asleep - 1 else c.asleep,
       alive := if c.alive > 0 then c.alive - 1 else c.alive)
  }

  /** The cycle is over: its counters, read after the exit, say nobody is left. */
  predicate CycleOver(c: Cycle) {
    c.expected == 0 || (c.alive == 0 && c.state != CycleUnavailable)
  }

  function Exit(w: World, p: Pid): (r: World)
    ensures r.cfg == w.cfg
  {
    match GroupOf(w, p)
    case None => w
    case Some(g) =>
      var t := w.ctxs[p];
      var w1 := w.(ctxs := w.ctxs - {p}, detIds := w.detIds - {p});
      if !Joined(t.state) then w1
      else
        var c := CountExit(w1.cycles[g], t);
        var w2 := SetCycle(w1, g, c);
        var w3 :=
          if c.alive != 0 && c.queued == c.alive - c.asleep then PushGate(w2, g, c.state == CycleTimeout) else w2;
        if CycleOver(c) then SetCycle(w3, g, ResetCycle(w3.cycles[g], w.cfg.threads)) else w3
  }

  /** Signed comparison of two 64-bit clock values. */
  predicate TimeBefore(a: nat, b: nat) { (a - b) % U64 >= U64 / 2 }

  predicate Expired(t: Ctx, now: nat) {
    Waiting(t.state) && !t.isAsleep && t.lastEnqueue != 0 && TimeBefore((t.lastEnqueue + TIMEOUT_BUDGET) % U64, now)
  }

  function TimerCheck(w: World, p: Pid, now: nat): (r: World)
    ensures r.cfg == w.cfg
  {
    if p in w.ctxs && Expired(w.ctxs[p], now)
    then PushGate(SetCtx(w, p, w.ctxs[p].(state := ThreadTimeout)), w.ctxs[p].eid, true)
    else w
  }

  // ----- the environment -----

  /** Everything that can happen next. A task appears blocked; its name and policy may
      change until the scheduler has a context for it; it is enqueued when it stops
      running or wakes up; it sleeps while on a CPU, and exits on a CPU or from sleep. */
  datatype Step =
    | DoSpawn(pid: Pid, task: KTask)
    | DoRetag(pid: Pid, task: KTask)
    | DoPreempt(pid: Pid, ev: Event)
    | DoWake(pid: Pid, ev: Event)
    | DoDispatch
    | DoRun(pid: Pid)
    | DoSleep(pid: Pid)
    | DoYield(pid: Pid)
    | DoExit(pid: Pid)
    | DoTimer(pid: Pid, now: nat)

  predicate At(w: World, p: Pid, l: Loc) { p in w.kernel && w.kernel[p].loc == l }

  predicate Enabled(w: World, s: Step) {
    match s
    case DoSpawn(p, k) => p !in w.kernel && k.loc == Blocked
    case DoRetag(p, k) => p in w.kernel && p !in w.ctxs && k.loc == w.kernel[p].loc
    case DoPreempt(p, _) => At(w, p, OnCpu)
    case DoWake(p, _) => At(w, p, Blocked)
    case DoDispatch => true
    case DoRun(p) => At(w, p, LocalDsq) || At(w, p, GlobalDsq)
    case DoSleep(p) => At(w, p, OnCpu)
    case DoYield(p) => At(w, p, OnCpu)
    case DoExit(p) => At(w, p, OnCpu) || At(w, p, Blocked)
    case DoTimer(p, _) => true
  }

  function InitTask(w: World, p: Pid): (r: World)
    requires p in w.kernel
    ensures r.cfg == w.cfg
  {
    var k := w.kernel[p];
    if k.kthread || k.eid.None? || !k.ext then w else EnsureCtx(w, p, k.eid.value)
  }

  function Next(w: World, s: Step): (r: World)
    requires Enabled(w, s)
    ensures r.cfg == w.cfg
  {
    match s
    case DoSpawn(p, k) => InitTask(w.(kernel := w.kernel[p := k]), p)
    case DoRetag(p, k) => w.(kernel := w.kernel[p := k])
    case DoPreempt(p, ev) => Enqueue(w, p, ev)
    case DoWake(p, ev) => Enqueue(Woken(w, p), p, ev)
    case DoDispatch => Dispatch(w)
    case DoRun(p) => Running(SetLoc(w, p, OnCpu), p)
    case DoSleep(p) => Sleep(SetLoc(w, p, Blocked), p)
    case DoYield(p) => Yield(w, p)
    case DoExit(p) => Exited(w, p)
    case DoTimer(p, now) => TimerCheck(w, p, now)
  }

  /** The world between the two callbacks of a wake-up. */
  function Woken(w: World, p: Pid): (r: World)
    requires p in w.kernel
    ensures r.kernel.Keys == w.kernel.Keys && r.cfg == w.cfg
  {
    SetLoc(Runnable(w, p), p, Transit)
  }

  function Exited(w: World, p: Pid): (r: World)
    ensures r.cfg == w.cfg
  {
    var w1 := Exit(w, p);
    w1.(kernel := w1.kernel - {p})
  }

  /** The state a run of steps ends in, when every step is enabled in its turn. */
  function Run(w: World, steps: seq<Step>): Option<World>
    decreases |steps|
  {
    if steps == [] then Some(w)
    else if Enabled(w, steps[0]) then Run(Next(w, steps[0]), steps[1..])
    else None
  }

  function Start(cfg: Config): World { World(cfg, map[], map[], map[], [], map[], map[]) }
}
