/** A valid program that the encoder gets wrong and the decoder refuses. */
module ExecExample {
  import opened Common
  import opened ExecFormat
  import opened ExecProg
  import opened ExecValid
  import opened ExecDecode
  import opened ExecRoundTrip

  const IN := Attr(In, false, false, 0)
  const OUT := Attr(Out, false, false, 0)
  const INOUT := Attr(InOut, false, false, 0)

  const RET := ResultArg(OUT, 8, 7, true, None, 0, 0, 0, 0, 0)
  const FIRST := ResultArg(INOUT, 8, 1, true, None, 0, 0, 0, 0, 0)
  const SECOND := ResultArg(INOUT, 8, 2, false, Some(1), 0, 0, 0, 0, 0)
  const THIRD := ResultArg(IN, 8, 3, false, Some(7), 0, 0, 0, 0, 0)
  const GROUP := GroupArg(INOUT, 16, [FIRST, SECOND], 0)
  const STRUCT_PTR := PointerArg(IN, 8, 4096, Some(GROUP))

  /** A call that returns result 7, and one that takes it, with a pointer to a struct whose second field
      refers to its first. */
  function Opener(): Call { Call(0, NO_PROPS, Some(RET), [], []) }

  function Chained(): Call { Call(0, NO_PROPS, None, [STRUCT_PTR, THIRD], []) }

  function Program(): seq<Call> { [Opener(), Chained()] }

  lemma StructVisits()
    ensures Visits(STRUCT_PTR, None, 0) ==
      [Visit(STRUCT_PTR, None), Visit(GROUP, Some(4096)), Visit(FIRST, Some(4096)), Visit(SECOND, Some(4104))]
  {
    var inner := [FIRST, SECOND];
    assert InnerVisits(inner, 2, 0, Some(4096), 0, 16) == [];
    assert InnerVisits(inner, 1, 0, Some(4096), 0, 8) == [Visit(SECOND, Some(4104))];
    assert InnerVisits(inner, 0, 0, Some(4096), 0, 0) == [Visit(FIRST, Some(4096)), Visit(SECOND, Some(4104))];
    assert Visits(GROUP, Some(4096), 0) ==
      [Visit(GROUP, Some(4096)), Visit(FIRST, Some(4096)), Visit(SECOND, Some(4104))];
  }

  lemma ChainedVisits()
    ensures CallVisits(Chained()) ==
      [Visit(STRUCT_PTR, None), Visit(GROUP, Some(4096)), Visit(FIRST, Some(4096)), Visit(SECOND, Some(4104)),
       Visit(THIRD, None)]
  {
    StructVisits();
    assert [STRUCT_PTR][..0] == [] && ArgsVisits([]) == [];
    assert ArgsVisits([STRUCT_PTR]) == Visits(STRUCT_PTR, None, 0);
    assert [STRUCT_PTR, THIRD][..1] == [STRUCT_PTR];
    assert ArgsVisits([STRUCT_PTR, THIRD]) == ArgsVisits([STRUCT_PTR]) + Visits(THIRD, None, 0);
  }

  lemma {:induction false} ChainedIds()
    ensures CallIds(Chained()) == [1] && CallIds(Opener()) == [7]
  {
    ChainedVisits();
    hide CallVisits;
    var vs := CallVisits(Chained());
    assert UsedIds(vs, 1) == [] && UsedIds(vs, 2) == [] && UsedIds(vs, 3) == [1] && UsedIds(vs, 4) == [1];
    assert CallVisits(Opener()) == [Visit(RET, None)] by { OpenerVisits(); }
    FirstUsed(CallVisits(Opener()));
  }

  lemma OpenerVisits()
    ensures CallVisits(Opener()) == [Visit(RET, None)]
  {
  }

  /** Result 7 has place 0, result 1 place 1. */
  lemma {:induction false} Places()
    ensures Defined(Program(), 0) == [] && Defined(Program(), 1) == [7] && Defined(Program(), 2) == [7, 1]
    ensures NoDup([7, 1]) && PosOf([7, 1], 7) == 0 && PosOf([7, 1], 1) == 1 && PlaceOf([7], 1) == 0
  {
    hide CallIds, Opener, Chained;
    ChainedIds();
    PosUnique([7, 1], 0);
    PosUnique([7, 1], 1);
  }

  lemma {:induction false} OpenerOk()
    ensures CallOk(Opener(), [], 1)
  {
    OpenerVisits();
  }

  lemma {:induction false} ChainedOk()
    ensures CallOk(Chained(), [7], 1)
  {
    ChainedVisits();
    hide CallVisits;
    var c := Chained();
    var vs := CallVisits(c);
    assert vs[2].arg.id == 1 && Used(vs[2]) && InMemory(vs, 4, 1);
    forall j | 0 <= j < |vs| ensures VisitOk(vs, j, [7]) { assert j == 3 || RefOf(vs[j].arg) in {None, Some(7)}; }
    assert TopRefsOk(c.args, vs, [7]);
  }

  lemma {:induction false} ProgramValid()
    ensures Valid(Program(), 1)
  {
    hide CallOk, Defined, Opener, Chained;
    Places();
    OpenerOk();
    ChainedOk();
  }

  /** The reference of the second field is written with index 0, which is the place of result 7. */
  lemma {:induction false} ChainedIsWrong()
    ensures Valid(Program(), 1) && CallsOk(Program()) && PosOf(Defined(Program(), 2), 1) == 1
    ensures EResult(8, 0, 0, 0, 0, 0) in ArgsOf(Written(Program(), 1))
    ensures Resolve(SECOND, [7]) == EResult(8, 0, 0, 0, 0, 0)
    ensures !InPlace(Program()) && WrittenCalls(Program(), 2) != PlainCalls(Program(), 2)
  {
    hide Valid, Defined, Opener, CallVisits, PlainCall, ArgsOf, WrittenCalls, PlainCalls, PosOf, Encoded;
    Places();
    ProgramValid();
    ValidCallsOk(Program(), 1);
    SecondEncoded();
    EncodedHas(Chained(), [7], SECOND);
    assert !RefInPlace(Program(), 1, SECOND);
    WrittenIsMeantIff(Program(), 1);
  }

  lemma SecondEncoded()
    ensures Encoded(Chained(), SECOND)
  {
    ChainedVisits();
    hide CallVisits;
    assert Visit(SECOND, Some(4104)) in CallVisits(Chained());
  }

  /** No reference carries place 1, so the decoder counts one variable too few and refuses the program. */
  lemma {:induction false} ProgramRefused()
    ensures Valid(Program(), 1) && CallsOk(Program()) && InstrsOk(CodeAt(Program(), 2), 1)
    ensures !LastReferenced(Program()) && DeserializeExec(ProgBytes(Program(), 1), 1) == Err
  {
    hide Valid, Defined, Opener, Chained, Encoded, ProgBytes, DeserializeExec, InstrsOk, CodeAt, NoteRefs;
    hide LastWritten, InPlace;
    Places();
    ProgramValid();
    LastWrittenIff(Program(), 1);
    RoundTrip(Program(), 1);
  }
}
