/** Any sequence of the operations on result arguments keeps a program sound and within what
    validation demands. */
module LinkOps {
  import opened Common
  import opened Links
  import opened Progs

  /** The place of an argument, and an argument to be made. */
  datatype Place = Place(call: nat, arg: nat)
  datatype NewArg = NewArg(dir: Dir, memory: bool, producer: Option<Place>, val: int, deflt: int)

  /** MakeResultArg and replaceResultArg; RemoveCall; MakeResultArg for each argument of a new call
      and insertBefore, which goes by the call that stands at the place. */
  datatype Op =
    | Replace(at: Place, dir: Dir, producer: Option<Place>, val: int)
    | Remove(call: nat)
    | Insert(before: nat, ret: bool, args: seq<NewArg>)

  /** A program as a value: its calls, and all of its arguments but for their users. */
  datatype State = State(calls: seq<Call>, body: Bodies)

  function StateOf(p: Prog): State
    reads p, Tree(p.calls)
  {
    State(p.calls, BodiesOf(Tree(p.calls)))
  }

  predicate Exists(calls: seq<Call>, at: Place) { at.call < |calls| && at.arg < |calls[at.call].All()| }

  function ArgAt(calls: seq<Call>, at: Option<Place>): ResultArg?
    requires at.Some? ==> Exists(calls, at.value)
  {
    if at.None? then null else calls[at.value.call].All()[at.value.arg]
  }

  /** Visited before argument i of call k. */
  predicate Earlier(calls: seq<Call>, at: Place, k: nat, i: nat) {
    Exists(calls, at) && (at.call < k || (at.call == k && at.arg < i))
  }

  /** The call that insertBefore looks for, and where it is found. */
  function Target(calls: seq<Call>, before: nat): Call? { if before < |calls| then calls[before] else null }

  function Where(calls: seq<Call>, before: nat): (k: nat)
    ensures k <= |calls|
  {
    Find(calls, Target(calls, before))
  }

  /** The body of the argument that replaces the one at a place. */
  function Replacement(s: State, op: Op): Body
    requires op.Replace? && Exists(s.calls, op.at) && (op.producer.Some? ==> Exists(s.calls, op.producer.value))
    requires ArgAt(s.calls, Some(op.at)) in s.body
  {
    Body(op.dir, ArgAt(s.calls, op.producer), 0, 0, op.val, s.body[ArgAt(s.calls, Some(op.at))].deflt)
  }

  /** The body of a new argument. */
  function Made(calls: seq<Call>, n: NewArg): Body
    requires n.producer.Some? ==> Exists(calls, n.producer.value)
  {
    Body(n.dir, ArgAt(calls, n.producer), 0, 0, n.val, n.deflt)
  }

  /** A producer for call k is visited before argument i of it, and not an input. */
  predicate Produces(s: State, at: Place, k: nat, i: nat) {
    Earlier(s.calls, at, k, i) && ArgAt(s.calls, Some(at)) in s.body && s.body[ArgAt(s.calls, Some(at))].dir != In
  }

  /** New argument j of a call at k, the return value being the first if there is one. */
  predicate NewFits(s: State, n: NewArg, isRet: bool, k: nat) {
    && (n.producer.Some? ==> Produces(s, n.producer.value, k, 0) && !isRet)
    && (n.dir == Out ==> n.val == 0 || n.val == n.deflt)
    && if isRet then n.dir == Out && n.val == 0 else !n.memory ==> n.dir == In
  }

  /** The operation fits the program, and its outcome what validation demands. */
  predicate Respects(s: State, op: Op) {
    match op
    case Replace(at, dir, producer, val) =>
      && Exists(s.calls, at) && ArgAt(s.calls, Some(at)) in s.body
      && (producer.Some? ==> Produces(s, producer.value, at.call, at.arg))
      && Fits(s.calls[at.call], at.arg, Replacement(s, op), s.body)
    case Remove(k) => k < |s.calls|
    case Insert(before, ret, args) =>
      && (ret ==> args != [])
      && forall j :: 0 <= j < |args| ==> NewFits(s, args[j], ret && j == 0, Where(s.calls, before))
  }

  /** What the operation does; one that does not fit is left out. */
  ghost predicate Effect(op: Op, s: State, t: State) {
    if !Respects(s, op) then t == s
    else match op
      case Replace(at, dir, producer, val) =>
        t == State(s.calls, s.body[ArgAt(s.calls, Some(at)) := Replacement(s, op)])
      case Remove(k) => Removed(s, k, t)
      case Insert(before, ret, args) =>
        Inserted(s, Where(s.calls, before), ret, args, t)
  }

  /** Call k is gone, and what referred to its results is a default argument. */
  ghost predicate Removed(s: State, k: nat, t: State)
    requires k < |s.calls|
  {
    var R := ArgSet(s.calls[k].All());
    && t.calls == s.calls[..k] + s.calls[k + 1..] && t.body.Keys == s.body.Keys - R
    && forall a :: a in t.body ==> t.body[a] == Without(s.body[a], R)
  }

  /** A call of the arguments asked for stands at k; they are new, and all others are as they were. */
  ghost predicate Inserted(s: State, k: nat, ret: bool, args: seq<NewArg>, t: State)
    requires k <= |s.calls|
    requires forall j :: 0 <= j < |args| && args[j].producer.Some? ==> Exists(s.calls, args[j].producer.value)
  {
    && |t.calls| == |s.calls| + 1 && t.calls == s.calls[..k] + [t.calls[k]] + s.calls[k..]
    && NewCall(s, t.calls[k], ret, args, t.body)
    && t.body.Keys == s.body.Keys + ArgSet(t.calls[k].All()) && forall a :: a in s.body ==> t.body[a] == s.body[a]
  }

  ghost predicate NewCall(s: State, c: Call, ret: bool, args: seq<NewArg>, body: Bodies)
    requires forall j :: 0 <= j < |args| && args[j].producer.Some? ==> Exists(s.calls, args[j].producer.value)
  {
    && (c.ret != null <==> ret) && |c.All()| == |args| && |c.memory| == |c.args| && ArgSet(c.All()) !! s.body.Keys
    && (forall j :: 0 <= j < |args| ==> c.All()[j] in body && body[c.All()[j]] == Made(s.calls, args[j]))
    && forall j :: 0 <= j < |args| && !(ret && j == 0) ==> c.AllMemory()[j] == args[j].memory
  }

  lemma {:induction false} EarlierIsBefore(calls: seq<Call>, at: Place, k: nat, i: nat)
    requires k < |calls| && i < |calls[k].All()| && Earlier(calls, at, k, i)
    ensures ArgAt(calls, Some(at)) in Before(calls, k, i)
  {
    hide Tree;
    if at.call < k {
      assert calls[..k][at.call] == calls[at.call];
      InCall(calls[..k], at.call, at.arg);
    } else {
      assert calls[k].All()[..i][at.arg] == calls[k].All()[at.arg];
    }
  }

  /** New arguments, each with a producer in P, all linked. */
  method MakeArgs(calls: seq<Call>, args: seq<NewArg>, ghost S: set<ResultArg>, ghost P: set<ResultArg>)
    returns (made: seq<ResultArg>)
    requires Linked(S) && P <= S
    requires forall j :: 0 <= j < |args| && args[j].producer.Some? ==>
      Exists(calls, args[j].producer.value) && ArgAt(calls, args[j].producer) in P
    modifies P`uses
    ensures |made| == |args| && fresh(ArgSet(made)) && NoDup(made) && ArgSet(made) !! S && Linked(S + ArgSet(made))
    ensures forall j :: 0 <= j < |made| ==> BodyOf(made[j]) == Made(calls, args[j])
  {
    hide Linked;
    made := [];
    assert S + ArgSet(made) == S;
    for i := 0 to |args|
      invariant |made| == i && fresh(ArgSet(made)) && NoDup(made) && ArgSet(made) !! S && Linked(S + ArgSet(made))
      invariant forall j :: 0 <= j < i ==> BodyOf(made[j]) == Made(calls, args[j])
    {
      ghost var T := S + ArgSet(made);
      var n := args[i];
      var a := MakeResultArg(n.dir, ArgAt(calls, n.producer), n.val, n.deflt, T);
      assert T + {a} == S + ArgSet(made + [a]);
      made := made + [a];
    }
  }

  /** The call of the arguments made. */
  method MakeCall(made: seq<ResultArg>, ret: bool, args: seq<NewArg>) returns (c: Call)
    requires |made| == |args| && (ret ==> args != [])
    ensures fresh(c) && c.All() == made && (c.ret != null <==> ret) && |c.memory| == |c.args|
    ensures forall j :: 0 <= j < |args| && !(ret && j == 0) ==> c.AllMemory()[j] == args[j].memory
  {
    var memory := seq(|args|, j requires 0 <= j < |args| => args[j].memory);
    if ret {
      c := new Call(made[0], made[1..], memory[1..], false);
      assert made == [made[0]] + made[1..];
    } else {
      c := new Call(null, made, memory, false);
    }
  }

  lemma ProducersBefore(s: State, op: Op, P: set<ResultArg>)
    requires op.Insert? && Respects(s, op) && P == Tree(s.calls[..Where(s.calls, op.before)])
    ensures forall j :: 0 <= j < |op.args| && op.args[j].producer.Some? ==>
      Exists(s.calls, op.args[j].producer.value) && ArgAt(s.calls, op.args[j].producer) in P
  {
    hide Tree;
    var k := Where(s.calls, op.before);
    forall j | 0 <= j < |op.args| && op.args[j].producer.Some?
      ensures Exists(s.calls, op.args[j].producer.value) && ArgAt(s.calls, op.args[j].producer) in P
    {
      assert NewFits(s, op.args[j], op.ret && j == 0, k);
      var at := op.args[j].producer.value;
      assert s.calls[..k][at.call] == s.calls[at.call];
      InCall(s.calls[..k], at.call, at.arg);
    }
  }

  /** The new call, linked to what it refers to but not yet part of the program. */
  method MakeNew(calls: seq<Call>,
                 op: Op, ghost S: set<ResultArg>, ghost s: State) returns (c: Call, ghost M: set<ResultArg>)
    requires Linked(S) && S == Tree(calls) && s == State(calls, BodiesOf(S)) && op.Insert? && Respects(s, op)
    modifies S`uses
    ensures fresh(c) && fresh(M) && S !! M && Linked(S + M) && M == ArgSet(c.All())
    ensures Distinct([c]) && Tree([c]) == M
    ensures OrderedAfter(ProducersOf(S + M), Tree(calls[..Where(calls, op.before)]), [c])
    ensures forall j :: 0 <= j < |op.args| && op.args[j].producer.Some? ==> Exists(calls, op.args[j].producer.value)
    ensures NewCall(s, c, op.ret, op.args, BodiesOf(S + M))
  {
    hide Tree, Distinct, OrderedAfter, Linked, Respects;
    ghost var P := Tree(calls[..Where(calls, op.before)]);
    TreePrefix(calls, Where(calls, op.before));
    ProducersBefore(s, op, P);
    assert op.ret ==> op.args != [] by { RetGiven(s, op); }
    var made := MakeArgs(calls, op.args, S, P);
    c := MakeCall(made, op.ret, op.args);
    M := ArgSet(made);
    NewCallFits(c, P, ProducersOf(S + M));
  }

  lemma RetGiven(s: State, op: Op)
    requires op.Insert? && Respects(s, op)
    ensures op.ret ==> op.args != []
  {
  }

  method InsertNew(p: Prog, op: Op, ghost S: set<ResultArg>, ghost s: State) returns (ghost T: set<ResultArg>)
    requires Sound(p.calls, S) && op.Insert? && s == State(p.calls, BodiesOf(S)) && Respects(s, op)
    modifies p, S
    ensures Sound(p.calls, T) && S <= T && fresh(T - S) && Effect(op, s, State(p.calls, BodiesOf(T)))
  {
    hide Tree, Distinct, OrderedAfter, Linked, Respects, NewCall, Effect, Target, Find;
    var calls := p.calls;
    ghost var was := ProducersOf(S);
    var c;
    ghost var M;
    c, M := MakeNew(calls, op, S, s);
    T := S + M;
    assert ProducersOf(S) == was;
    assert forall a :: a in S ==> BodyOf(a) == s.body[a];
    p.InsertBefore(Target(calls, op.before), [c], S, M);
    InsertedEffect(op, s, c, State(p.calls, BodiesOf(T)));
  }

  lemma InsertedEffect(op: Op, s: State, c: Call, t: State)
    requires op.Insert? && Respects(s, op)
    requires forall j :: 0 <= j < |op.args| && op.args[j].producer.Some? ==> Exists(s.calls, op.args[j].producer.value)
    requires NewCall(s, c, op.ret, op.args, t.body)
    requires var k := Where(s.calls, op.before); t.calls == s.calls[..k] + [c] + s.calls[k..]
    requires t.body.Keys == s.body.Keys + ArgSet(c.All()) && forall a :: a in s.body ==> t.body[a] == s.body[a]
    ensures Effect(op, s, t)
  {
    hide Respects, NewCall, Where;
    assert t.calls[Where(s.calls, op.before)] == c;
  }

  /** A call of new arguments with producers in P is in order after P. */
  lemma {:induction false} NewCallFits(c: Call, P: set<ResultArg>, res: Producers)
    requires NoDup(c.All()) && forall j :: 0 <= j < |c.All()| ==> c.All()[j] in res && Of(res[c.All()[j]]) <= P
    ensures Distinct([c]) && Tree([c]) == ArgSet(c.All()) && OrderedAfter(res, P, [c])
  {
    assert [c][..0] == [] && Tree([]) == {};
    var s := c.All();
    forall i | 0 <= i < |s| ensures From(s[i], res, P + Tree([]) + ArgSet(s[..i])) { assert Of(res[s[i]]) <= P; }
    OrderedArgsFrom(res, P + Tree([]), s);
  }

  /** The new call is as validation demands. */
  lemma NewCallLegal(s: State, op: Op, c: Call, body: Bodies)
    requires op.Insert? && Respects(s, op)
    requires forall j :: 0 <= j < |op.args| && op.args[j].producer.Some? ==> Exists(s.calls, op.args[j].producer.value)
    requires NewCall(s, c, op.ret, op.args, body) && forall a :: a in s.body ==> a in body && body[a] == s.body[a]
    ensures CallLegal(c, body)
  {
    var k := Where(s.calls, op.before);
    if c.ret != null {
      assert NewFits(s, op.args[0], true, k);
      assert c.All()[0] == c.ret;
    }
    forall i | 0 <= i < |c.args| ensures ArgLegal(c, i, body) {
      ArgPlace(c, i);
      var j := if c.ret == null then i else i + 1;
      assert NewFits(s, op.args[j], false, k);
      assert c.AllMemory()[j] == op.args[j].memory;
      if c.ret != null { assert c.All()[0] == c.ret && c.ret in ArgSet(c.All()); }
    }
  }

  /** Every operation keeps what validation demands. */
  lemma {:induction false} EffectLegal(op: Op, s: State, t: State)
    requires Effect(op, s, t) && Legal(s.calls, s.body) && Distinct(s.calls) && s.body.Keys == Tree(s.calls)
    requires op.Replace? && Respects(s, op) ==> Replacement(s, op).res != ArgAt(s.calls, Some(op.at))
    ensures Legal(t.calls, t.body)
  {
    hide Legal, Distinct, Tree, Fits, NewFits;
    if Respects(s, op) {
      match op
      case Replace(at, _, _, _) => ReplacedLegal(s.calls, s.body, at.call, at.arg, Replacement(s, op));
      case Remove(k) =>
        assert s.calls == s.calls[..k] + [s.calls[k]] + s.calls[k + 1..];
        RemovedLegal(s.calls[..k], s.calls[k], s.calls[k + 1..], s.body, t.body);
      case Insert(before, ret, args) =>
        ProducersBefore(s, op, Tree(s.calls[..Where(s.calls, before)]));
        NewCallLegal(s, op, t.calls[Where(s.calls, before)], t.body);
        InsertedLegal(s.calls, Where(s.calls, before), t.calls[Where(s.calls, before)], s.body, t.body);
    }
  }

  /** A replacement does not refer to itself. */
  lemma {:induction false} NotItself(s: State, op: Op)
    requires op.Replace? && Respects(s, op) && Distinct(s.calls)
    ensures Replacement(s, op).res != ArgAt(s.calls, Some(op.at))
  {
    hide Distinct, Fits;
    if op.producer.Some? {
      EarlierIsBefore(s.calls, op.producer.value, op.at.call, op.at.arg);
      NotBefore(s.calls, op.at.call, op.at.arg);
    }
  }

  method Do(p: Prog, op: Op, ghost S: set<ResultArg>, s: State) returns (ghost T: set<ResultArg>)
    requires Sound(p.calls, S) && s == State(p.calls, BodiesOf(S)) && Respects(s, op)
    modifies p, S
    ensures Sound(p.calls, T) && fresh(T - S) && Effect(op, s, State(p.calls, BodiesOf(T)))
  {
    hide Sound, Legal, Fits, NewFits, Without;
    match op
    case Replace(at, dir, producer, val) =>
      if producer.Some? { EarlierIsBefore(p.calls, producer.value, at.call, at.arg); }
      ReplaceIn(p, at.call, at.arg, dir, ArgAt(p.calls, producer), val, S);
      T := S;
      assert BodiesOf(T) == s.body[ArgAt(s.calls, Some(at)) := Replacement(s, op)];
    case Remove(k) =>
      T := S - ArgSet(p.calls[k].All());
      p.RemoveCall(k, S);
    case Insert(_, _, _) => T := InsertNew(p, op, S, s);
  }

  /** One operation; one that does not fit, or whose outcome validation would reject, is left out. */
  method Apply(p: Prog, op: Op, ghost S: set<ResultArg>) returns (ghost T: set<ResultArg>)
    requires Sound(p.calls, S)
    modifies p, S
    ensures Sound(p.calls, T) && fresh(T - S)
    ensures Effect(op, old(State(p.calls, BodiesOf(S))), State(p.calls, BodiesOf(T)))
    ensures old(Legal(p.calls, BodiesOf(S))) ==> Legal(p.calls, BodiesOf(T))
  {
    hide Legal, Distinct, OrderedAfter, Linked, Respects, Tree;
    var s := StateOf(p);
    T := S;
    if !Respects(s, op) { return; }
    T := Do(p, op, S, s);
    if Legal(s.calls, s.body) {
      if op.Replace? { NotItself(s, op); }
      EffectLegal(op, s, State(p.calls, BodiesOf(T)));
    }
  }

  /** Whatever the operations, the program stays sound and as validation demands; the trace tells what
      each of them did. */
  method Run(p: Prog, ops: seq<Op>, ghost S: set<ResultArg>) returns (ghost T: set<ResultArg>, ghost trace: seq<State>)
    requires Sound(p.calls, S)
    modifies p, S
    ensures Sound(p.calls, T) && fresh(T - S)
    ensures old(Legal(p.calls, BodiesOf(S))) ==> Legal(p.calls, BodiesOf(T))
    ensures |trace| == |ops| + 1 && trace[0] == old(State(p.calls, BodiesOf(S)))
    ensures trace[|ops|] == State(p.calls, BodiesOf(T))
    ensures forall i :: 0 <= i < |ops| ==> Effect(ops[i], trace[i], trace[i + 1])
  {
    hide Sound, Legal, Effect;
    T, trace := S, [State(p.calls, BodiesOf(S))];
    for i := 0 to |ops|
      invariant Sound(p.calls, T) && fresh(T - S)
      invariant |trace| == i + 1 && trace[0] == old(State(p.calls, BodiesOf(S)))
      invariant trace[i] == State(p.calls, BodiesOf(T))
      invariant Legal(trace[0].calls, trace[0].body) ==> Legal(trace[i].calls, trace[i].body)
      invariant forall j :: 0 <= j < i ==> Effect(ops[j], trace[j], trace[j + 1])
    {
      T := Apply(p, ops[i], T);
      trace := trace + [State(p.calls, BodiesOf(T))];
    }
  }
}
