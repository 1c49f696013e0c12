/** A whole PCT cycle: threads register, are enqueued, dispatched and exit in any order. */
module PctRuns {
  import opened Common
  import opened SchedTypes
  import opened Shuffles
  import opened Pct
  import Arith

  datatype Task = Task(detId: nat, inited: bool, priority: nat)

  /** `max` is expected_events_per_cycle, `slots` the shuffled priorities, `cps` the change points. */
  datatype Sched = Sched(
    depth: nat, max: nat, slots: seq<nat>, cps: seq<nat>,
    events: nat, strata: nat, tasks: map<Pid, Task>, dsq: seq<Entry>)

  /** The first enqueue of a task looks its slot up. */
  function Initialised(slots: seq<nat>, t: Task): Task
    requires |slots| == N
  {
    var prio := ToS32(slots[Slot(t.detId)]);
    if !t.inited && prio >= 0 then t.(inited := true, priority := prio) else t
  }

  /** The stratum after a change point fired at event e, in 32-bit arithmetic. */
  function Advance(strata: nat, max: nat, e: nat): nat {
    if e > (max * (strata + 1)) % U32 then (strata + 1) % U32 else strata
  }

  /** A lap is max events long, and its last event still belongs to it. */
  lemma LapEnds(strata: nat, max: nat, e: nat)
    requires max > 0 && max * (strata + 1) < U32 && strata + 1 < U32
    ensures max * strata < e <= max * (strata + 1) ==> Advance(strata, max, e) == strata
    ensures e > max * (strata + 1) ==> Advance(strata, max, e) == strata + 1
  {
  }

  /** The first priority of a task is that of slot number detId modulo 200. */
  lemma FirstPriority(depth: nat, slots: seq<nat>, t: Task)
    requires DepthOk(depth) && SlotsOk(depth, slots) && !t.inited
    ensures Initialised(slots, t) == t.(inited := true, priority := slots[t.detId % 200])
  {
    hide Ladder;
    MemberOf(slots, Ladder(depth, 0), t.detId % 200);
    LadderPlain(depth);
  }

  /** update_priorities_pct for task p, after the event has been counted. */
  function Update(s: Sched, p: Pid): Sched
    requires p in s.tasks && |s.slots| == N
  {
    if s.max == 0 then s
    else
      var t := Initialised(s.slots, s.tasks[p]);
      var i := FirstHit(s.cps, s.events % s.max);
      if i == |s.cps| then s.(tasks := s.tasks[p := t])
      else
        var strata := Advance(s.strata, s.max, s.events);
        s.(strata := strata, tasks := s.tasks[p := t.(priority := (StrataBase(strata) + i + 1) % U32)])
  }

  function VTime(priority: nat): nat {
    var prio := if priority > 0 then priority else 1;
    if prio < U32 then U32 - 1 - prio else 0
  }

  function Enqueue(s: Sched, p: Pid): Sched
    requires p in s.tasks && |s.slots| == N
  {
    var s1 := Update(s.(events := (s.events + 1) % U32), p);
    s1.(dsq := Insert(s1.dsq, Entry(p, VTime(s1.tasks[p].priority))))
  }

  datatype Step = Register(pid: Pid, detId: nat) | Arrive(pid: Pid) | Dispatch | Leave(pid: Pid)

  /** Event e, its lap and its product fit the 32-bit words they are kept in. */
  predicate Fits(max: nat, e: nat)
    requires max > 0
  {
    e + max < U32 && StratumFits(e / max)
  }

  ghost predicate Enabled(s: Sched, step: Step) {
    match step
    case Register(p, d) => p !in s.tasks && forall q :: q in s.tasks ==> s.tasks[q].detId % N != d % N
    case Arrive(p) => p in s.tasks && p !in Pids(s.dsq) && |s.slots| == N && s.max > 0 && Fits(s.max, s.events + 1)
    case Dispatch => s.dsq != []
    case Leave(p) => p in s.tasks && p !in Pids(s.dsq)
  }

  ghost function Next(s: Sched, step: Step): Sched
    requires Enabled(s, step)
  {
    match step
    case Register(p, d) => s.(tasks := s.tasks[p := Task(d, false, 0)])
    case Arrive(p) => Enqueue(s, p)
    case Dispatch => s.(dsq := s.dsq[1..])
    case Leave(p) => s.(tasks := s.tasks - {p})
  }

  // ----- the invariant -----

  ghost predicate Config(s: Sched) {
    s.max > 0 && DepthOk(s.depth) && SlotsOk(s.depth, s.slots) && ChangePointsOk(s.cps, s.depth, s.max)
  }

  predicate Reached(cps: seq<nat>, r: int) { exists i :: 0 <= i < |cps| && cps[i] <= r }

  /** The stratum keeps up with the laps: it is the current lap once a change point of this lap has
      fired, and the lap before until then. */
  ghost function LapStratum(cps: seq<nat>, max: nat, e: nat): nat
    requires max > 0
  {
    if Reached(cps, e % max) then e / max
    else if e / max == 0 || !Reached(cps, max - 1) then 0
    else e / max - 1
  }

  ghost predicate FromSlot(s: Sched, t: Task) { |s.slots| == N && t.priority == s.slots[Slot(t.detId)] }

  ghost predicate DemotedAt(s: Sched, t: Task, e: nat) {
    s.max > 0 && 1 <= e <= s.events && Fires(s.cps, s.max, e) && t.priority == Demoted(s.cps, s.max, e)
  }

  ghost predicate TaskOk(s: Sched, p: Pid) {
    p in s.tasks && s.tasks[p].inited ==> FromSlot(s, s.tasks[p]) || exists e :: DemotedAt(s, s.tasks[p], e)
  }

  ghost predicate Apart(s: Sched, p: Pid, q: Pid) {
    p in s.tasks && q in s.tasks && p != q ==>
      && s.tasks[p].detId % N != s.tasks[q].detId % N
      && (s.tasks[p].inited && s.tasks[q].inited ==> s.tasks[p].priority != s.tasks[q].priority)
  }

  ghost predicate EntryOk(s: Sched, e: Entry) {
    e.pid in s.tasks && s.tasks[e.pid].inited && e.vtime == VTime(s.tasks[e.pid].priority)
  }

  ghost predicate Inv(s: Sched) {
    && Config(s)
    && (s.events == 0 || Fits(s.max, s.events))
    && s.strata == LapStratum(s.cps, s.max, s.events)
    && (forall p :: TaskOk(s, p))
    && (forall p, q :: Apart(s, p, q))
    && Distinct(s.dsq) && Sorted(s.dsq)
    && (forall i :: 0 <= i < |s.dsq| ==> EntryOk(s, s.dsq[i]))
  }

  // ----- the stratum follows the laps -----

  lemma NextLap(max: nat, e: nat)
    requires max > 0
    ensures if e % max + 1 < max then (e + 1) / max == e / max && (e + 1) % max == e % max + 1
            else (e + 1) / max == e / max + 1 && (e + 1) % max == 0
  {
    var q, r := e / max, e % max;
    if r + 1 < max {
      Arith.DivModUnique(e + 1, max, q, r + 1);
    } else {
      assert (q + 1) * max == q * max + max;
      Arith.DivModUnique(e + 1, max, q + 1, 0);
    }
  }

  /** Within 32 bits, the stratum advances exactly when the lap is ahead of it. */
  lemma AdvanceIs(strata: nat, max: nat, q: nat, r: nat)
    requires 0 < r < max && q * max + r + max < U32
    requires strata == q || strata + 1 == q
    ensures Advance(strata, max, q * max + r) == q
  {
    if strata == q {
      assert max * (strata + 1) == q * max + max;
      assert q * max >= 0;
    } else {
      assert max * (strata + 1) == q * max;
      assert q <= q * max by { assert q * max == q + q * (max - 1); }
    }
  }

  /** When event e + 1 fires, the stratum becomes its lap. */
  lemma FiringStratum(cps: seq<nat>, max: nat, depth: nat, e: nat)
    requires max > 0 && DepthOk(depth) && ChangePointsOk(cps, depth, max) && Fits(max, e + 1)
    requires Fires(cps, max, e + 1)
    ensures Advance(LapStratum(cps, max, e), max, e + 1) == (e + 1) / max == LapStratum(cps, max, e + 1)
  {
    hide Advance, Fires, StratumFits, LapStratum, ChangePointsOk;
    var q, r := (e + 1) / max, (e + 1) % max;
    FiredLap(cps, max, depth, e);
    Arith.DivMod(e + 1, max);
    AdvanceIs(LapStratum(cps, max, e), max, q, r);
  }

  lemma FiredLap(cps: seq<nat>, max: nat, depth: nat, e: nat)
    requires max > 0 && ChangePointsOk(cps, depth, max) && Fires(cps, max, e + 1)
    ensures var q := (e + 1) / max;
      && 0 < (e + 1) % max && LapStratum(cps, max, e + 1) == q
      && (LapStratum(cps, max, e) == q || LapStratum(cps, max, e) + 1 == q)
  {
    NextLap(max, e);
    var r := (e + 1) % max;
    var i :| 0 <= i < |cps| && cps[i] == r;
    assert Reached(cps, r) && Reached(cps, max - 1);
  }

  lemma QuietStratum(cps: seq<nat>, max: nat, depth: nat, e: nat)
    requires max > 0 && DepthOk(depth) && ChangePointsOk(cps, depth, max) && !Fires(cps, max, e + 1)
    ensures LapStratum(cps, max, e + 1) == LapStratum(cps, max, e)
  {
    NextLap(max, e);
    var r := (e + 1) % max;
    if r > 0 && Reached(cps, r) {
      var i :| 0 <= i < |cps| && cps[i] <= r;
      assert cps[i] != r;
    }
  }

  // ----- one enqueue -----

  /** What an enqueue makes of its task. */
  lemma EnqueuedTask(s: Sched, p: Pid)
    requires Inv(s) && Enabled(s, Arrive(p))
    ensures var s' := Enqueue(s, p); var e := s.events + 1;
      && s'.events == e && s'.strata == LapStratum(s.cps, s.max, e)
      && s' == s.(events := e, strata := s'.strata, tasks := s.tasks[p := s'.tasks[p]], dsq := s'.dsq)
      && s'.dsq == Insert(s.dsq, Entry(p, VTime(s'.tasks[p].priority)))
      && s'.tasks[p].inited && s'.tasks[p].detId == s.tasks[p].detId
      && (if Fires(s.cps, s.max, e) then s'.tasks[p].priority == Demoted(s.cps, s.max, e)
          else if s.tasks[p].inited then s'.tasks[p] == s.tasks[p]
          else s'.tasks[p].priority == s.slots[Slot(s.tasks[p].detId)])
  {
    hide Initialised, StrataBase, Advance, LapStratum, StratumFits, TaskOk, Apart, EntryOk, Insert, Demoted;
    hide ChangePointsOk, SlotsOk;
    var e := s.events + 1;
    InitialisedIs(s.depth, s.slots, s.tasks[p]);
    if Fires(s.cps, s.max, e) {
      FiringStratum(s.cps, s.max, s.depth, s.events);
      DemotedIs(s.cps, s.max, e, s.depth);
    } else {
      QuietStratum(s.cps, s.max, s.depth, s.events);
    }
  }

  lemma InitialisedIs(depth: nat, slots: seq<nat>, t: Task)
    requires DepthOk(depth) && SlotsOk(depth, slots)
    ensures Initialised(slots, t) == if t.inited then t else t.(inited := true, priority := slots[Slot(t.detId)])
  {
    SlotsSpread(depth, slots);
  }

  /** In the stratum of its lap, the 32-bit computation gives the priority it ought to. */
  lemma DemotedIs(cps: seq<nat>, max: nat, e: nat, depth: nat)
    requires max > 0 && DepthOk(depth) && ChangePointsOk(cps, depth, max) && Fires(cps, max, e)
    requires StratumFits(e / max)
    ensures var i := FirstHit(cps, e % max);
      i < |cps| && (StrataBase(e / max) + i + 1) % U32 == Demoted(cps, max, e)
  {
    hide StrataBase, StratumFits;
    DemotedRange(cps, max, e, e, depth);
    BandsStack(e / max, e / max);
    HitFires(cps, max, e);
  }

  lemma HitFires(cps: seq<nat>, max: nat, e: nat)
    requires max > 0 && Fires(cps, max, e)
    ensures FirstHit(cps, e % max) < |cps|
  {
    var k :| 0 <= k < |cps| && cps[k] == e % max;
  }

  /** Demotions lie below every slot. */
  lemma DemotedBelowSlots(s: Sched, e: nat, d: nat)
    requires Config(s) && Fires(s.cps, s.max, e)
    ensures Demoted(s.cps, s.max, e) < s.slots[Slot(d)]
  {
    DemotedInBand(s.cps, s.max, e, s.depth);
    SlotsSpread(s.depth, s.slots);
    BandsStack(0, 0);
    assert (e / s.max + 2) * N >= 2 * N;
  }

  lemma EnqueuedApart(s: Sched, p: Pid, q: Pid)
    requires Inv(s) && Enabled(s, Arrive(p)) && q in s.tasks && p != q && s.tasks[q].inited
    ensures Enqueue(s, p).tasks[p].priority != s.tasks[q].priority
  {
    EnqueuedTask(s, p);
    var e := s.events + 1;
    assert TaskOk(s, q) && Apart(s, p, q);
    var t := s.tasks[q];
    if Fires(s.cps, s.max, e) {
      if FromSlot(s, t) {
        DemotedBelowSlots(s, e, t.detId);
      } else {
        var f :| DemotedAt(s, t, f);
        if Demoted(s.cps, s.max, e) == t.priority { DemotionsDiffer(s.cps, s.max, e, f, s.depth); }
      }
    } else if !s.tasks[p].inited {
      if FromSlot(s, t) {
        SlotsCollideIff(s.depth, s.slots, s.tasks[p].detId, t.detId);
      } else {
        var f :| DemotedAt(s, t, f);
        DemotedBelowSlots(s, f, s.tasks[p].detId);
      }
    }
  }

  lemma EnqueuedTasks(s: Sched, p: Pid)
    requires Inv(s) && Enabled(s, Arrive(p))
    ensures var s' := Enqueue(s, p);
      (forall q :: TaskOk(s', q)) && (forall q, r :: Apart(s', q, r))
  {
    EnqueuedTask(s, p);
    var s' := Enqueue(s, p);
    var e := s.events + 1;
    assert forall q :: q != p && q in s'.tasks ==> q in s.tasks && s'.tasks[q] == s.tasks[q];
    forall q ensures TaskOk(s', q) {
      assert TaskOk(s, q);
      if q in s'.tasks && s'.tasks[q].inited {
        if q == p && Fires(s.cps, s.max, e) {
          assert DemotedAt(s', s'.tasks[p], e);
        } else if !FromSlot(s', s'.tasks[q]) {
          var f :| DemotedAt(s, s.tasks[q], f);
          assert DemotedAt(s', s'.tasks[q], f);
        }
      }
    }
    forall q, r ensures Apart(s', q, r) {
      assert Apart(s, q, r);
      if q == p && r in s.tasks && r != p && s.tasks[r].inited { EnqueuedApart(s, p, r); }
      if r == p && q in s.tasks && q != p && s.tasks[q].inited { EnqueuedApart(s, p, q); }
    }
  }

  lemma {:induction false} InsertKeeps(q: seq<Entry>, e: Entry, i: nat)
    requires i < |Insert(q, e)|
    ensures Insert(q, e)[i] == e || Insert(q, e)[i] in q
  {
    InsertMultiset(q, e);
    assert Insert(q, e)[i] in multiset(Insert(q, e));
  }

  lemma EnqueuedQueue(s: Sched, p: Pid)
    requires Inv(s) && Enabled(s, Arrive(p))
    ensures var s' := Enqueue(s, p);
      Distinct(s'.dsq) && Sorted(s'.dsq) && forall i :: 0 <= i < |s'.dsq| ==> EntryOk(s', s'.dsq[i])
  {
    EnqueuedTask(s, p);
    var s' := Enqueue(s, p);
    var x := Entry(p, VTime(s'.tasks[p].priority));
    InsertPids(s.dsq, x);
    InsertSorted(s.dsq, x);
    forall i | 0 <= i < |s'.dsq| ensures EntryOk(s', s'.dsq[i]) {
      InsertKeeps(s.dsq, x, i);
      if s'.dsq[i] != x {
        var j :| 0 <= j < |s.dsq| && s.dsq[j] == s'.dsq[i];
        PidsAt(s.dsq, p);
      }
    }
  }

  lemma ArriveKeepsInv(s: Sched, p: Pid)
    requires Inv(s) && Enabled(s, Arrive(p))
    ensures Inv(Enqueue(s, p))
  {
    EnqueuedTask(s, p);
    EnqueuedTasks(s, p);
    EnqueuedQueue(s, p);
    hide Enqueue, TaskOk, Apart, EntryOk, LapStratum, Demoted;
  }

  lemma NextKeepsInv(s: Sched, step: Step)
    requires Inv(s) && Enabled(s, step)
    ensures Inv(Next(s, step))
  {
    hide Enqueue, LapStratum;
    var s' := Next(s, step);
    match step
    case Register(p, d) =>
      assert forall q :: q != p && q in s'.tasks ==> q in s.tasks && s'.tasks[q] == s.tasks[q];
      forall q ensures TaskOk(s', q) { OldDemotions(s, s', q); }
      forall q, r ensures Apart(s', q, r) { assert Apart(s, q, r); }
    case Arrive(p) => ArriveKeepsInv(s, p);
    case Dispatch =>
      forall q ensures TaskOk(s', q) { OldDemotions(s, s', q); }
      forall q, r ensures Apart(s', q, r) { assert Apart(s, q, r); }
      forall i | 0 <= i < |s'.dsq| ensures EntryOk(s', s'.dsq[i]) { assert EntryOk(s, s.dsq[i + 1]); }
    case Leave(p) =>
      forall q ensures TaskOk(s', q) { OldDemotions(s, s', q); }
      forall q, r ensures Apart(s', q, r) { assert Apart(s, q, r); }
      forall i | 0 <= i < |s'.dsq| ensures EntryOk(s', s'.dsq[i]) { assert EntryOk(s, s.dsq[i]); PidsAt(s.dsq, p); }
  }

  lemma OldDemotions(s: Sched, s': Sched, q: Pid)
    requires TaskOk(s, q) && s'.max == s.max && s'.cps == s.cps && s'.events == s.events && s'.slots == s.slots
    requires q in s'.tasks && s'.tasks[q].inited ==> q in s.tasks && s.tasks[q] == s'.tasks[q]
    ensures TaskOk(s', q)
  {
    if q in s'.tasks && s'.tasks[q].inited && !FromSlot(s, s.tasks[q]) {
      var e :| DemotedAt(s, s.tasks[q], e);
      assert DemotedAt(s', s.tasks[q], e);
    }
  }

  // ----- whole cycles -----

  ghost function Run(s: Sched, steps: seq<Step>): Option<Sched>
    decreases |steps|
  {
    if steps == [] then Some(s)
    else if Enabled(s, steps[0]) then Run(Next(s, steps[0]), steps[1..])
    else None
  }

  /** A cycle begins when init has shuffled the slots and drawn the change points. */
  function Begin(depth: nat, max: nat, cs: seq<nat>, cps: seq<nat>): Sched
    requires InRange(cs, N)
  {
    Sched(depth, max, Shuffle(Ladder(depth, 0), cs), cps, 0, 0, map[], [])
  }

  lemma BeginInv(depth: nat, max: nat, cs: seq<nat>, cps: seq<nat>)
    requires DepthOk(depth) && max > 0 && InRange(cs, N) && ChangePointsOk(cps, depth, max)
    ensures Inv(Begin(depth, max, cs, cps))
  {
    ShufflePermutes(Ladder(depth, 0), cs);
    hide Ladder, Shuffle;
    assert !Reached(cps, 0);
  }

  lemma {:induction false} RunsKeepInv(s: Sched, steps: seq<Step>)
    requires Inv(s) && Run(s, steps).Some?
    ensures Inv(Run(s, steps).value)
    decreases |steps|
  {
    if steps != [] {
      NextKeepsInv(s, steps[0]);
      RunsKeepInv(Next(s, steps[0]), steps[1..]);
    }
  }

  lemma PriorityRange(s: Sched, p: Pid)
    requires Inv(s) && p in s.tasks && s.tasks[p].inited
    ensures 0 < s.tasks[p].priority <= S32_MAX
  {
    assert TaskOk(s, p);
    SlotsSpread(s.depth, s.slots);
    BandsStack(0, 0);
    if !FromSlot(s, s.tasks[p]) {
      var e :| DemotedAt(s, s.tasks[p], e);
      DemotedRange(s.cps, s.max, e, s.events, s.depth);
    }
  }

  lemma DemotedRange(cps: seq<nat>, max: nat, e: nat, f: nat, depth: nat)
    requires max > 0 && DepthOk(depth) && ChangePointsOk(cps, depth, max) && Fires(cps, max, e)
    requires e <= f && StratumFits(f / max)
    ensures 0 < Demoted(cps, max, e) <= S32_MAX
  {
    hide Demoted, Fires, ChangePointsOk;
    DemotedInBand(cps, max, e, depth);
    LapMono(e, f, max);
  }

  lemma LapMono(e: nat, f: nat, max: nat)
    requires max > 0 && e <= f
    ensures e / max <= f / max
  {
    if f / max < e / max { Arith.MulLess(f / max, e / max, max); }
  }

  /** In every cycle of PCT, for every depth, shuffle and choice of change points: initialised tasks
      have pairwise different priorities; each is the task's own slot or the demotion of one firing
      event, which lies below every slot and in the band of that event's lap; nothing leaves the
      range of s32; and the head of the queue is the parked task of greatest current priority. */
  lemma PctOrders(depth: nat, max: nat, cs: seq<nat>, cps: seq<nat>, steps: seq<Step>, s: Sched)
    requires DepthOk(depth) && max > 0 && InRange(cs, N) && ChangePointsOk(cps, depth, max)
    requires Run(Begin(depth, max, cs, cps), steps) == Some(s)
    ensures forall p, q :: p in s.tasks && q in s.tasks && p != q && s.tasks[p].inited && s.tasks[q].inited ==>
              s.tasks[p].priority != s.tasks[q].priority
    ensures forall p :: p in s.tasks && s.tasks[p].inited ==>
              && 0 < s.tasks[p].priority <= S32_MAX
              && (FromSlot(s, s.tasks[p]) || exists e :: DemotedAt(s, s.tasks[p], e))
    ensures forall e: nat, d: nat :: s.max > 0 && Fires(s.cps, s.max, e) && |s.slots| == N ==>
              Demoted(s.cps, s.max, e) < s.slots[Slot(d)]
    ensures forall i :: 0 < i < |s.dsq| ==>
              s.dsq[0].pid in s.tasks && s.dsq[i].pid in s.tasks &&
              s.tasks[s.dsq[0].pid].priority > s.tasks[s.dsq[i].pid].priority
  {
    BeginInv(depth, max, cs, cps);
    hide Begin;
    RunsKeepInv(Begin(depth, max, cs, cps), steps);
    forall p, q | p in s.tasks && q in s.tasks && p != q && s.tasks[p].inited && s.tasks[q].inited
      ensures s.tasks[p].priority != s.tasks[q].priority
    {
      assert Apart(s, p, q);
    }
    forall p | p in s.tasks && s.tasks[p].inited
      ensures 0 < s.tasks[p].priority <= S32_MAX && (FromSlot(s, s.tasks[p]) || exists e :: DemotedAt(s, s.tasks[p], e))
    {
      assert TaskOk(s, p);
      PriorityRange(s, p);
    }
    forall e: nat, d: nat | s.max > 0 && Fires(s.cps, s.max, e) && |s.slots| == N
      ensures Demoted(s.cps, s.max, e) < s.slots[Slot(d)]
    {
      DemotedBelowSlots(s, e, d);
    }
    forall i | 0 < i < |s.dsq|
      ensures s.dsq[0].pid in s.tasks && s.dsq[i].pid in s.tasks
      ensures s.tasks[s.dsq[0].pid].priority > s.tasks[s.dsq[i].pid].priority
    {
      HeadIsHighest(s, i);
    }
  }

  lemma HeadIsHighest(s: Sched, i: nat)
    requires Inv(s) && 0 < i < |s.dsq|
    ensures s.dsq[0].pid in s.tasks && s.dsq[i].pid in s.tasks
    ensures s.tasks[s.dsq[0].pid].priority > s.tasks[s.dsq[i].pid].priority
  {
    assert EntryOk(s, s.dsq[0]) && EntryOk(s, s.dsq[i]);
    var p, q := s.dsq[0].pid, s.dsq[i].pid;
    PidsAt(s.dsq[1..], q);
    assert s.dsq[1..][i - 1].pid == q;
    assert Apart(s, p, q);
    PriorityRange(s, p);
    PriorityRange(s, q);
  }
}
