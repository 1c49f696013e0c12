/** Result arguments and the links between them: an argument knows its producer, and a producer
    knows its users. */
module Links {
  datatype Dir = In | Out | InOut

  class ResultArg {
    var dir: Dir
    var res: ResultArg?
    var opDiv: int
    var opAdd: int
    var val: int
    var deflt: int
    var uses: set<ResultArg>

    constructor (dir: Dir, res: ResultArg?, val: int, deflt: int)
      ensures BodyOf(this) == Body(dir, res, 0, 0, val, deflt) && uses == {}
    {
      this.dir, this.res, this.val, this.deflt := dir, res, val, deflt;
      opDiv, opAdd, uses := 0, 0, {};
    }
  }

  /** Everything but the users; `deflt` stands for the type, which has a default value. */
  datatype Body = Body(dir: Dir, res: ResultArg?, opDiv: int, opAdd: int, val: int, deflt: int)

  function BodyOf(a: ResultArg): Body
    reads a
  {
    Body(a.dir, a.res, a.opDiv, a.opAdd, a.val, a.deflt)
  }

  function Of(r: ResultArg?): set<ResultArg> { if r == null then {} else {r} }

  /** a's links within S: it is among its producer's users, and its users refer to it. */
  ghost predicate LinkOk(a: ResultArg, S: set<ResultArg>)
    requires a in S
    reads S
  {
    && (a.res != null ==> a.res in S && a in a.res.uses)
    && forall u :: u in a.uses ==> u in S && u.res == a
  }

  /** Producers and users are mutual inverses over S. */
  ghost predicate Linked(S: set<ResultArg>)
    reads S
  {
    forall a :: a in S ==> LinkOk(a, S)
  }

  lemma ProducerIn(a: ResultArg, S: set<ResultArg>)
    requires Linked(S) && a in S
    ensures Of(a.res) <= S
  {
    assert LinkOk(a, S);
  }

  /** MakeResultArg. */
  method MakeResultArg(dir: Dir, r: ResultArg?, v: int, deflt: int, ghost S: set<ResultArg>) returns (arg: ResultArg)
    requires Linked(S) && Of(r) <= S
    modifies Of(r)`uses
    ensures fresh(arg) && Linked(S + {arg})
    ensures BodyOf(arg) == Body(dir, r, 0, 0, v, deflt) && arg.uses == {}
    ensures r != null ==> r.uses == old(r.uses) + {arg}
  {
    arg := new ResultArg(dir, r, v, deflt);
    if r == null { return; }
    r.uses := r.uses + {arg};
  }

  /** The users of x once arg has taken over the producer r1 of arg1 in place of its own, r. */
  function UsesAfter(uses: set<ResultArg>, x: ResultArg, arg: ResultArg, r: ResultArg?, arg1: ResultArg,
                     r1: ResultArg?): set<ResultArg> {
    var without := if x == r then uses - {arg} else uses;
    if x == r1 then without - {arg1} + {arg} else without
  }

  /** replaceResultArg: arg takes over what arg1 was, except for its users. */
  method ReplaceResultArg(arg: ResultArg, arg1: ResultArg)
    modifies {arg} + Of(arg.res) + Of(arg1.res)
    ensures BodyOf(arg) == old(BodyOf(arg1))
    ensures arg.uses == UsesAfter(old(arg.uses), arg, arg, old(arg.res), arg1, old(arg1.res))
    ensures var r := old(arg.res); r != null ==>
      && r.uses == UsesAfter(old(arg.res.uses), r, arg, r, arg1, old(arg1.res))
      && (r != arg ==> BodyOf(r) == old(BodyOf(arg.res)))
    ensures var r1 := old(arg1.res); r1 != null ==>
      && r1.uses == UsesAfter(old(arg1.res.uses), r1, arg, old(arg.res), arg1, r1)
      && (r1 != arg ==> BodyOf(r1) == old(BodyOf(arg1.res)))
  {
    if arg.res != null { arg.res.uses := arg.res.uses - {arg}; }
    var uses := arg.uses;
    arg.dir, arg.res, arg.opDiv := arg1.dir, arg1.res, arg1.opDiv;
    arg.opAdd, arg.val, arg.deflt := arg1.opAdd, arg1.val, arg1.deflt;
    arg.uses := uses;
    if arg.res != null { arg.res.uses := arg.res.uses - {arg1} + {arg}; }
  }

  /** Replacing by an argument nobody uses keeps the links; arg1 is no longer part of the program. */
  method ReplaceLinked(arg: ResultArg, arg1: ResultArg, ghost S: set<ResultArg>)
    requires Linked(S) && arg in S && arg1 in S && arg != arg1
    requires arg1.uses == {} && arg1.res != arg && arg.res != arg
    modifies {arg} + Of(arg.res) + Of(arg1.res)
    ensures Linked(S - {arg1})
    ensures BodyOf(arg) == old(BodyOf(arg1)) && arg.uses == old(arg.uses)
    ensures forall x :: x in S && x != arg ==> BodyOf(x) == old(BodyOf(x))
    ensures forall x :: x in S && x != arg ==>
      x.uses == UsesAfter(old(x.uses), x, arg, old(arg.res), arg1, old(arg1.res))
  {
    assert LinkOk(arg, S) && LinkOk(arg1, S);
    ReplaceResultArg(arg, arg1);
    forall x | x in S - {arg1} ensures LinkOk(x, S - {arg1}) {
      assert old(LinkOk(x, S));
    }
  }

  /** What becomes of an argument when the arguments R are removed: without its producer it is a
      default argument. */
  function Without(b: Body, R: set<ResultArg>): Body {
    if b.res != null && b.res in R then Body(b.dir, null, 0, 0, b.deflt, b.deflt) else b
  }

  lemma WithoutRes(b: Body, R: set<ResultArg>)
    ensures Without(b, R).res == if b.res in R then null else b.res
    ensures Without(b, {}) == b
  {
  }

  lemma WithoutMore(b: Body, R: set<ResultArg>, a: ResultArg)
    ensures Without(Without(b, R), {a}) == Without(b, R + {a})
  {
  }

  /** The users of a, taken in any order, become default arguments. */
  method DropUsers(a: ResultArg, ghost U: set<ResultArg>)
    requires a.uses == U && a !in U && forall u :: u in U ==> u.res == a
    modifies a, U
    ensures a.uses == {} && BodyOf(a) == old(BodyOf(a))
    ensures forall u :: u in U ==> BodyOf(u) == Without(old(BodyOf(u)), {a}) && u.uses == old(u.uses)
  {
    while a.uses != {}
      invariant a.uses <= U && BodyOf(a) == old(BodyOf(a))
      invariant forall u :: u in a.uses ==> BodyOf(u) == old(BodyOf(u))
      invariant forall u :: u in U - a.uses ==> BodyOf(u) == Without(old(BodyOf(u)), {a})
      invariant forall u :: u in U ==> u.uses == old(u.uses)
      decreases |a.uses|
    {
      var u :| u in a.uses;
      var d := new ResultArg(u.dir, null, u.deflt, u.deflt);
      ReplaceResultArg(u, d);
    }
  }

  /** removeArg, for one result argument: it is taken out of its producer's users, and its users
      become default arguments; nothing else changes. */
  method RemoveArg(a: ResultArg, ghost S: set<ResultArg>)
    requires Linked(S) && a in S && a.res != a
    modifies S
    ensures Linked(S - {a})
    ensures forall b :: b in S && b != a ==> BodyOf(b) == Without(old(BodyOf(b)), {a}) && b.uses == old(b.uses) - {a}
  {
    ghost var U := a.uses;
    assert LinkOk(a, S);
    forall b | b in S ensures b.res == a <==> b in U { assert LinkOk(b, S); }
    if a.res != null {
      assert a in a.res.uses;
      a.res.uses := a.res.uses - {a};
    }
    DropUsers(a, U);
    forall b | b in S && b != a ensures BodyOf(b) == Without(old(BodyOf(b)), {a}) && b.uses == old(b.uses) - {a} {
      assert old(LinkOk(b, S));
    }
    forall b | b in S - {a} ensures LinkOk(b, S - {a}) { assert old(LinkOk(b, S)); }
  }
}
