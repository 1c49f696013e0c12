/** The data of the serialising scheduler: per-group cycles, per-task contexts, the
    per-group dispatch queues (DSQs) ordered by vtime, and the kernel's view of a task. */
module SchedTypes {
  import opened Common

  const MAX_EXECUTOR_GROUPS: nat := 10
  const MAX_CYCLE_THREADS: nat := 200
  const MAX_TASKS: nat := MAX_EXECUTOR_GROUPS * MAX_CYCLE_THREADS
  const GATE_SLOTS: nat := 64
  const U32: nat := 0x1_0000_0000
  const U64: nat := 0x1_0000_0000_0000_0000
  const TIMEOUT_BUDGET: nat := 60_000_000

  type Eid = n: nat | n < MAX_EXECUTOR_GROUPS
  type Pid = nat

  datatype ThreadState = ThreadRegistered | ThreadEnqueued | ThreadRunning | ThreadTimeout | ThreadIgnored

  datatype CycleState = CycleUnavailable | CycleReady | CycleRunning | CycleTimeout

  datatype Cycle = Cycle(
    expected: int, queued: int, asleep: int, alive: int,
    nextDetId: nat, expectedEvents: nat, eventsSeen: nat, strata: nat,
    algoInit: bool, pending: bool, state: CycleState)
  {
    /** Joined tasks that are neither parked nor asleep, as the counters tell it. */
    function Active(): int { alive - asleep - queued }
  }

  datatype Ctx = Ctx(priority: nat, eid: Eid, detId: nat, isAsleep: bool, state: ThreadState, lastEnqueue: nat)

  /** REGISTERED and IGNORED tasks take no part in the cycle. */
  predicate Joined(s: ThreadState) { s != ThreadRegistered && s != ThreadIgnored }

  /** A task sits in a dispatch queue, or has just left it, in these two states. */
  predicate Waiting(s: ThreadState) { s == ThreadEnqueued || s == ThreadTimeout }

  /** Where the kernel holds a task. `Transit` is a woken task between the runnable
      and the enqueue callback of one wake-up. */
  datatype Loc = OnCpu | LocalDsq | GlobalDsq | Parked | Blocked | Transit

  /** The kernel's view of a task: `eid` is the group read off its command name. */
  datatype KTask = KTask(eid: Option<Eid>, ext: bool, kthread: bool, loc: Loc)

  datatype Entry = Entry(pid: Pid, vtime: nat)

  /** `threads` is cycle_thread_count; `evicts` says what a push to a full queue map does:
      overwrite the oldest entry, or fail. */
  datatype Config = Config(threads: nat, evicts: bool)

  datatype World = World(
    cfg: Config,
    cycles: map<Eid, Cycle>,
    ctxs: map<Pid, Ctx>,
    detIds: map<Pid, nat>,
    queue: seq<Eid>,
    dsqs: map<Eid, seq<Entry>>,
    kernel: map<Pid, KTask>)

  function Dsq(w: World, g: Eid): seq<Entry> {
    if g in w.dsqs then w.dsqs[g] else []
  }

  /** Insertion by vtime, first-in first-out among equals. */
  function Insert(q: seq<Entry>, e: Entry): seq<Entry> {
    if q == [] || e.vtime < q[0].vtime then [e] + q else [q[0]] + Insert(q[1..], e)
  }

  ghost function Pids(q: seq<Entry>): set<Pid> {
    if q == [] then {} else {q[0].pid} + Pids(q[1..])
  }

  ghost predicate Distinct(q: seq<Entry>) {
    q != [] ==> q[0].pid !in Pids(q[1..]) && Distinct(q[1..])
  }

  ghost predicate Sorted(q: seq<Entry>) {
    forall i, j :: 0 <= i < j < |q| ==> q[i].vtime <= q[j].vtime
  }

  lemma {:induction false} InsertPids(q: seq<Entry>, e: Entry)
    requires Distinct(q) && e.pid !in Pids(q)
    ensures Pids(Insert(q, e)) == Pids(q) + {e.pid}
    ensures Distinct(Insert(q, e))
  {
    var r := Insert(q, e);
    if q == [] || e.vtime < q[0].vtime {
      assert r[0] == e && r[1..] == q;
    } else {
      InsertPids(q[1..], e);
      assert r[0] == q[0] && r[1..] == Insert(q[1..], e);
    }
  }

  lemma {:induction false} InsertMultiset(q: seq<Entry>, e: Entry)
    ensures multiset(Insert(q, e)) == multiset(q) + multiset{e}
  {
    if q == [] || e.vtime < q[0].vtime {
    } else {
      InsertMultiset(q[1..], e);
      assert q == [q[0]] + q[1..];
    }
  }

  lemma {:induction false} InsertSorted(q: seq<Entry>, e: Entry)
    requires Sorted(q)
    ensures Sorted(Insert(q, e))
  {
    if q == [] || e.vtime < q[0].vtime {
    } else {
      var r := Insert(q[1..], e);
      InsertSorted(q[1..], e);
      InsertMultiset(q[1..], e);
      forall i | 0 <= i < |r| ensures q[0].vtime <= r[i].vtime {
        assert r[i] in multiset(r);
        assert r[i] in q[1..] || r[i] == e;
      }
    }
  }

  lemma {:induction false} PidsAt(q: seq<Entry>, p: Pid)
    ensures p in Pids(q) <==> exists i :: 0 <= i < |q| && q[i].pid == p
  {
    if q != [] {
      PidsAt(q[1..], p);
      if p in Pids(q[1..]) {
        var i :| 0 <= i < |q[1..]| && q[1..][i].pid == p;
        assert q[i + 1].pid == p;
      }
      if exists i :: 0 <= i < |q| && q[i].pid == p {
        var i :| 0 <= i < |q| && q[i].pid == p;
        if i > 0 { assert q[1..][i - 1].pid == p; }
      }
    }
  }

  /** An entry goes behind those of smaller or equal vtime and before those of greater. */
  lemma {:induction false} InsertAt(q: seq<Entry>, e: Entry) returns (k: nat)
    requires Sorted(q)
    ensures k <= |q| && Insert(q, e) == q[..k] + [e] + q[k..]
    ensures (forall i :: 0 <= i < k ==> q[i].vtime <= e.vtime) && forall i :: k <= i < |q| ==> e.vtime < q[i].vtime
  {
    if q == [] || e.vtime < q[0].vtime {
      k := 0;
    } else {
      var j := InsertAt(q[1..], e);
      k := j + 1;
      assert q[..k] == [q[0]] + q[1..][..j] && q[k..] == q[1..][j..];
      forall i | 0 <= i < k ensures q[i].vtime <= e.vtime { if i > 0 { assert q[i] == q[1..][i - 1]; } }
      forall i | k <= i < |q| ensures e.vtime < q[i].vtime { assert q[i] == q[1..][i - 1]; }
    }
  }
}
