/** The scheduler object under a kernel that calls it in any order. */
module SchedDriver {
  import opened Common
  import opened SchedTypes
  import opened SchedSteps
  import opened SchedCounts
  import opened SchedSafety
  import opened SchedImpl

  method Move(s: Scheduler, p: Pid, l: Loc)
    modifies s`kernel
    ensures s.View() == SetLoc(old(s.View()), p, l)
  {
    if p in s.kernel { s.kernel := s.kernel[p := s.kernel[p].(loc := l)]; }
  }

  method Appear(s: Scheduler, p: Pid, k: KTask)
    requires p !in s.kernel
    modifies s
    ensures s.View() == InitTask(old(s.View()).(kernel := old(s.kernel)[p := k]), p)
  {
    hide EnsureCtx;
    s.kernel := s.kernel[p := k];
    if k.kthread || k.eid.None? || !k.ext { return; }
    var _ := s.EnsureTaskCtx(p, k.eid.value);
  }

  method Wake(s: Scheduler, p: Pid, ev: Event)
    requires p in s.kernel
    modifies s
    ensures s.View() == Enqueue(Woken(old(s.View()), p), p, ev)
  {
    hide Enqueue, Runnable;
    ghost var w := s.View();
    s.TaskRunnable(p);
    Move(s, p, Transit);
    assert s.View() == Woken(w, p);
    s.EnqueueTask(p, ev);
  }

  /** One step of the kernel, with the callbacks it makes. */
  method Do(s: Scheduler, step: Step)
    requires Enabled(s.View(), step)
    modifies s
    ensures s.View() == Next(old(s.View()), step)
  {
    hide Enqueue, Woken, Dispatch, Running, Sleep, Yield, Exit, TimerCheck, InitTask, SetLoc;
    match step
    case DoSpawn(p, k) => Appear(s, p, k);
    case DoRetag(p, k) => s.kernel := s.kernel[p := k];
    case DoPreempt(p, ev) => s.EnqueueTask(p, ev);
    case DoWake(p, ev) => Wake(s, p, ev);
    case DoDispatch => s.DispatchOne();
    case DoRun(p) => Move(s, p, OnCpu); s.TaskRunning(p);
    case DoSleep(p) => Move(s, p, Blocked); s.TaskSleeps(p);
    case DoYield(p) => s.TaskYields(p);
    case DoExit(p) => s.TaskExits(p); s.kernel := s.kernel - {p};
    case DoTimer(p, now) => s.CheckDispatchTimeout(p, now);
  }

  /** At most one task of a running cycle is active or about to be, and one is if any is parked. */
  ghost predicate OneAtATime(w: World, g: Eid) {
    g in w.cycles && w.cycles[g].state == CycleRunning ==>
      var n := |Members(w, g, Active)| + Bit(w.cycles[g].pending);
      n <= 1 && (Members(w, g, Queued) != {} ==> n == 1)
  }

  lemma SafeIsSerial(w: World, g: Eid)
    requires Safe(w)
    ensures OneAtATime(w, g)
  {
    assert GroupSafe(w, g) && CycleCounts(w, g);
  }

  /** Whatever the kernel does, as long as no cycle is reset on offer: the object goes through the run,
      is safe after every step, and dispatches the tasks of each group one at a time. */
  method Drive(s: Scheduler, steps: seq<Step>) returns (n: nat)
    requires Safe(s.View()) && CleanRun(s.View(), steps)
    modifies s
    ensures n <= |steps| && Run(old(s.View()), steps[..n]) == Some(s.View())
    ensures n < |steps| ==> !Enabled(s.View(), steps[n])
    ensures Safe(s.View()) && forall g: Eid :: OneAtATime(s.View(), g)
  {
    hide Next, Enabled, Safe;
    n := 0;
    ghost var w := s.View();
    while n < |steps|
      invariant n <= |steps| && Run(w, steps[..n]) == Some(s.View()) && Safe(s.View()) && CleanRun(s.View(), steps[n..])
    {
      if !Enabled(s.View(), steps[n]) { break; }
      ghost var v := s.View();
      NextSafe(v, steps[n]);
      assert steps[n..][0] == steps[n] && steps[n..][1..] == steps[n + 1..];
      Do(s, steps[n]);
      RunSnoc(w, steps[..n], steps[n], v);
      assert steps[..n] + [steps[n]] == steps[..n + 1];
      n := n + 1;
    }
    forall g: Eid ensures OneAtATime(s.View(), g) { SafeIsSerial(s.View(), g); }
  }

  lemma {:induction false} RunSnoc(w: World, steps: seq<Step>, step: Step, v: World)
    requires Run(w, steps) == Some(v) && Enabled(v, step)
    ensures Run(w, steps + [step]) == Some(Next(v, step))
    decreases |steps|
  {
    hide Next, Enabled;
    if steps == [] {
      assert [step][1..] == [];
    } else {
      assert (steps + [step])[1..] == steps[1..] + [step];
      RunSnoc(Next(w, steps[0]), steps[1..], step, v);
    }
  }

  /** A new scheduler of at least one thread is safe to drive. */
  method NewScheduler(threads: nat, evicts: bool) returns (s: Scheduler)
    requires threads > 0
    ensures fresh(s) && s.View() == Start(Config(threads, evicts)) && Safe(s.View())
  {
    s := new Scheduler(threads, evicts);
    StartSafe(Config(threads, evicts));
  }
}
