/** The hand-off between those who offer a group and those who dispatch it, at the granularity
    of spin-lock sections: any number of CPUs interleave between one section and the next. */
module SchedTokens {
  import opened Common
  import opened SchedTypes

  type Tid = nat

  /** Where a CPU stands between two lock sections. `Pushing` has set pending_dispatch and not yet
      pushed; `Failed` has to undo that; `Popped` has taken a group off the queue and not yet
      cleared pending_dispatch; `Again` will offer the group once more. */
  datatype Pc = Idle | Pushing(eid: Eid, prev: CycleState) | Failed(eid: Eid, prev: CycleState)
              | Popped(eid: Eid) | Again(eid: Eid, timeout: bool)

  datatype Gate = Gate(pending: bool, state: CycleState)

  datatype System = System(gates: map<Eid, Gate>, queue: seq<Eid>, pcs: map<Tid, Pc>)

  function PcOf(s: System, t: Tid): Pc { if t in s.pcs then s.pcs[t] else Idle }

  datatype Step =
    | Create(eid: Eid)                            // get_or_create_sched_cycle
    | Offer(tid: Tid, eid: Eid, timeout: bool)    // test and set pending_dispatch
    | Push(tid: Tid, evicts: bool)                // bpf_map_push_elem
    | Undo(tid: Tid)                              // after a failed push
    | Pop(tid: Tid)                               // bpf_map_pop_elem
    | Clear(tid: Tid, again: bool)                // serialise_dispatch, second lock section
    | Change(eid: Eid, state: CycleState)         // a section that writes state but not pending_dispatch
    | Reset(eid: Eid)                             // reset_cycle_state

  predicate Enabled(s: System, step: Step) {
    match step
    case Create(g) => g !in s.gates
    case Offer(t, g, timeout) => g in s.gates && (PcOf(s, t) == Idle || PcOf(s, t) == Again(g, timeout))
    case Push(t, _) => PcOf(s, t).Pushing?
    case Undo(t) => PcOf(s, t).Failed? && PcOf(s, t).eid in s.gates
    case Pop(t) => PcOf(s, t) == Idle && s.queue != []
    case Clear(t, _) => PcOf(s, t).Popped? && PcOf(s, t).eid in s.gates
    case Change(g, _) => g in s.gates
    case Reset(g) => g in s.gates
  }

  function Next(s: System, step: Step): System
    requires Enabled(s, step)
  {
    match step
    case Create(g) => s.(gates := s.gates[g := Gate(false, CycleUnavailable)])
    case Offer(t, g, timeout) =>
      if s.gates[g].pending then s.(pcs := s.pcs[t := Idle])
      else s.(gates := s.gates[g := Gate(true, if timeout then CycleTimeout else CycleRunning)],
              pcs := s.pcs[t := Pushing(g, s.gates[g].state)])
    case Push(t, evicts) =>
      var g := PcOf(s, t).eid;
      if |s.queue| < GATE_SLOTS then s.(queue := s.queue + [g], pcs := s.pcs[t := Idle])
      else if evicts then s.(queue := s.queue[1..] + [g], pcs := s.pcs[t := Idle])
      else s.(pcs := s.pcs[t := Failed(g, PcOf(s, t).prev)])
    case Undo(t) =>
      s.(gates := s.gates[PcOf(s, t).eid := Gate(false, PcOf(s, t).prev)], pcs := s.pcs[t := Idle])
    case Pop(t) => s.(queue := s.queue[1..], pcs := s.pcs[t := Popped(s.queue[0])])
    case Clear(t, again) =>
      var g := PcOf(s, t).eid;
      s.(gates := s.gates[g := s.gates[g].(pending := false)],
         pcs := s.pcs[t := if again then Again(g, s.gates[g].state == CycleTimeout) else Idle])
    case Change(g, st) => s.(gates := s.gates[g := s.gates[g].(state := st)])
    case Reset(g) => s.(gates := s.gates[g := Gate(false, CycleUnavailable)])
  }

  // ----- tokens -----

  predicate Holds(pc: Pc, g: Eid) {
    match pc
    case Idle => false
    case Pushing(e, _) => e == g
    case Failed(e, _) => e == g
    case Popped(e) => e == g
    case Again(_, _) => false
  }

  ghost function Holders(s: System, g: Eid): set<Tid> { set t | t in s.pcs && Holds(s.pcs[t], g) }

  /** The offers of g in existence: in the hands of a CPU, or in the queue. */
  ghost function TokenCount(s: System, g: Eid): nat { |Holders(s, g)| + multiset(s.queue)[g] }

  predicate Pending(s: System, g: Eid) { g in s.gates && s.gates[g].pending }

  function Bit(b: bool): nat { if b then 1 else 0 }

  /** pending_dispatch says exactly whether one offer of g exists, and no push has failed. */
  ghost predicate Conserved(s: System, g: Eid) { TokenCount(s, g) == Bit(Pending(s, g)) }

  ghost predicate NoneFailed(s: System) { forall t :: t in s.pcs ==> !s.pcs[t].Failed? }

  ghost predicate KnownGates(s: System) { forall t :: t in s.pcs && !s.pcs[t].Idle? ==> s.pcs[t].eid in s.gates }

  ghost predicate Ok(s: System) { NoneFailed(s) && KnownGates(s) && forall g: Eid :: Conserved(s, g) }

  /** One CPU moving on changes the holders of g by that CPU alone. */
  lemma HoldersMove(s: System, t: Tid, pc: Pc, g: Eid)
    ensures |Holders(s.(pcs := s.pcs[t := pc]), g)| == |Holders(s, g)| - Bit(Holds(PcOf(s, t), g)) + Bit(Holds(pc, g))
  {
    var s' := s.(pcs := s.pcs[t := pc]);
    var rest := Holders(s, g) - {t};
    assert Holders(s', g) - {t} == rest;
    assert Holds(PcOf(s, t), g) ==> Holders(s, g) == rest + {t};
    assert !Holds(PcOf(s, t), g) ==> Holders(s, g) == rest;
    assert Holds(pc, g) ==> Holders(s', g) == rest + {t};
    assert !Holds(pc, g) ==> Holders(s', g) == rest;
  }

  lemma HoldersSame(s: System, s': System, g: Eid)
    requires s'.pcs == s.pcs
    ensures Holders(s', g) == Holders(s, g)
  {
  }

  // ----- every lock section conserves tokens, a careless reset excepted -----

  lemma {:induction false} SizeByGroup(m: multiset<Eid>, n: nat)
    requires n <= MAX_EXECUTOR_GROUPS && forall g: Eid :: m[g] <= if g < n then 1 else 0
    ensures |m| <= n
    decreases n
  {
    if n == 0 {
      assert m == multiset{} by { forall g: Eid ensures m[g] == 0 {} }
    } else {
      var x: Eid := n - 1;
      SizeByGroup(m[x := 0], n - 1);
      assert |m[x := 0]| == |m| - m[x];
    }
  }

  /** The queue never holds more than one entry for each of the ten groups. */
  lemma QueueBounded(s: System)
    requires Ok(s)
    ensures |s.queue| <= MAX_EXECUTOR_GROUPS
  {
    forall g: Eid ensures multiset(s.queue)[g] <= 1 { assert Conserved(s, g); }
    SizeByGroup(multiset(s.queue), MAX_EXECUTOR_GROUPS);
  }

  lemma MoveConserves(s: System, t: Tid, pc: Pc, q: seq<Eid>, gates: map<Eid, Gate>, g: Eid)
    requires Conserved(s, g)
    requires Bit(Holds(pc, g)) + multiset(q)[g] + Bit(Pending(s, g)) ==
             Bit(Holds(PcOf(s, t), g)) + multiset(s.queue)[g] + Bit(g in gates && gates[g].pending)
    ensures Conserved(System(gates, q, s.pcs[t := pc]), g)
  {
    HoldersMove(s, t, pc, g);
    HoldersSame(s.(pcs := s.pcs[t := pc]), System(gates, q, s.pcs[t := pc]), g);
  }

  lemma StayConserves(s: System, s': System, g: Eid)
    requires Conserved(s, g) && s'.pcs == s.pcs && s'.queue == s.queue && Pending(s', g) == Pending(s, g)
    ensures Conserved(s', g)
  {
    HoldersSame(s, s', g);
  }

  lemma NextConserves(s: System, step: Step, g: Eid)
    requires Conserved(s, g) && Enabled(s, step) && |s.queue| < GATE_SLOTS
    requires step.Clear? ==> Conserved(s, PcOf(s, step.tid).eid)
    requires step.Undo? ==> Conserved(s, PcOf(s, step.tid).eid)
    requires step == Reset(g) ==> !Pending(s, g)
    ensures Conserved(Next(s, step), g)
  {
    hide Conserved;
    var s' := Next(s, step);
    if step.Create? || step.Change? || step.Reset? {
      StayConserves(s, s', g);
    } else {
      var t := step.tid;
      if step.Undo? || step.Clear? { HolderPends(s, t); }
      if step.Pop? { PopCounts(s.queue, g); }
      hide Next;
      MoveConserves(s, t, s'.pcs[t], s'.queue, s'.gates, g);
    }
  }

  lemma PopCounts(q: seq<Eid>, g: Eid)
    requires q != []
    ensures multiset(q)[g] == multiset(q[1..])[g] + Bit(q[0] == g)
  {
    assert q == [q[0]] + q[1..];
  }

  /** Whoever holds an offer of a group finds it pending. */
  lemma HolderPends(s: System, t: Tid)
    requires PcOf(s, t).Popped? || PcOf(s, t).Failed? || PcOf(s, t).Pushing?
    requires Conserved(s, PcOf(s, t).eid)
    ensures Pending(s, PcOf(s, t).eid)
  {
    assert t in Holders(s, PcOf(s, t).eid);
  }

  /** A section keeps the tokens of every group if and only if it is not the reset of a group
      that has an offer outstanding. */
  lemma ConservesIff(s: System, step: Step)
    requires Ok(s) && Enabled(s, step)
    ensures Ok(Next(s, step)) <==> !(step.Reset? && Pending(s, step.eid))
  {
    QueueBounded(s);
    var s' := Next(s, step);
    if step.Reset? && Pending(s, step.eid) {
      assert Conserved(s, step.eid);
      HoldersSame(s, s', step.eid);
      assert !Conserved(s', step.eid);
    } else {
      forall g: Eid ensures Conserved(s', g) {
        assert Conserved(s, g);
        if step.Clear? || step.Undo? { assert Conserved(s, PcOf(s, step.tid).eid); }
        NextConserves(s, step, g);
      }
      PushesSucceed(s, step);
    }
  }

  lemma PushesSucceed(s: System, step: Step)
    requires NoneFailed(s) && KnownGates(s) && (forall g: Eid :: Conserved(s, g)) && Enabled(s, step)
    requires |s.queue| < GATE_SLOTS
    ensures NoneFailed(Next(s, step)) && KnownGates(Next(s, step))
  {
    if step.Pop? {
      var g := s.queue[0];
      assert Conserved(s, g) && multiset(s.queue)[g] > 0;
    }
  }

  // ----- whole runs -----

  function Run(s: System, steps: seq<Step>): Option<System>
    decreases |steps|
  {
    if steps == [] then Some(s)
    else if Enabled(s, steps[0]) then Run(Next(s, steps[0]), steps[1..])
    else None
  }

  predicate Careful(s: System, steps: seq<Step>)
    decreases |steps|
  {
    steps == [] || !Enabled(s, steps[0]) ||
    (!(steps[0].Reset? && Pending(s, steps[0].eid)) && Careful(Next(s, steps[0]), steps[1..]))
  }

  /** In every interleaving without a careless reset, each group has one offer while pending and none
      otherwise, at most one CPU holds it, the 64-slot queue has at most 10 entries, and the branch
      that undoes a failed push is never taken. */
  lemma {:induction false} TokensConserved(s: System, steps: seq<Step>)
    requires Ok(s) && Careful(s, steps) && Run(s, steps).Some?
    ensures Ok(Run(s, steps).value) && |Run(s, steps).value.queue| <= MAX_EXECUTOR_GROUPS
    ensures forall g: Eid :: |Holders(Run(s, steps).value, g)| <= 1
    decreases |steps|
  {
    if steps == [] {
      QueueBounded(s);
      forall g: Eid ensures |Holders(s, g)| <= 1 { assert Conserved(s, g); }
    } else {
      ConservesIff(s, steps[0]);
      TokensConserved(Next(s, steps[0]), steps[1..]);
    }
  }

  lemma StartOk()
    ensures Ok(System(map[], [], map[]))
  {
    forall g: Eid ensures Conserved(System(map[], [], map[]), g) {
      assert Holders(System(map[], [], map[]), g) == {};
    }
  }
}
