/** The executor's loop: what it does with the words it is given, read as numbers. Memory, system calls
    and threads stay outside; a call's results, and the number of the process, are an environment. */
module Executor {
  import opened Common
  import opened ExecFormat

  /** `results` holds the values of the results whose calls have completed. */
  datatype Env = Env(procid: nat, results: map<nat, U64>)

  datatype Action =
    | Poke(addr: U64, value: U64, size: nat, format: nat, bfOffset: nat, bfLength: nat)
    | PokeData(addr: U64, flags: U64, data: seq<Byte>)
    | PokeSum(addr: U64, chunks: seq<Chunk>)
    | Fetch(index: U64, addr: U64, width: U64)
    | UseProps(failNth: U64, async: U64, rerun: U64)
    | Invoke(num: U64, index: U64, args: seq<U64>)

  datatype Step = Did(action: Action, next: nat) | Finished | Failed

  // ----- values -----

  /** A reference: the result, divided and added to, or the default while there is no result. */
  function ResultValue(index: U64, divOp: U64, addOp: U64, deflt: U64, env: Env): Option<U64> {
    if index >= 1000 then None
    else if index !in env.results then Some(deflt)
    else
      var v := env.results[index];
      Some(((if divOp == 0 then v else v / divOp) + addOp) % 0x1_0000_0000_0000_0000)
  }

  /** A constant: each process has its own stride of values. */
  function ConstValue(value: U64, stride: nat, env: Env): U64 {
    (value + stride * env.procid) % 0x1_0000_0000_0000_0000
  }

  function Reversed(s: seq<Byte>): (r: seq<Byte>)
    ensures |r| == |s|
  {
    seq(|s|, i requires 0 <= i < |s| => s[|s| - 1 - i])
  }

  /** Native (0) or big-endian (1), of two, four or eight bytes. */
  function Swapped(v: U64, size: nat, format: nat): Option<nat> {
    if format == 0 then Some(v)
    else if format == 1 && (size == 2 || size == 4 || size == 8) then Some(FromLe(Reversed(Le(v, size))))
    else None
  }

  lemma SwappedFits(v: U64, size: nat, format: nat)
    ensures Swapped(v, size, format).Some? ==> Swapped(v, size, format).value < 0x1_0000_0000_0000_0000
  {
    Pow256Of8();
    assert Pow256(2) == 0x1_0000 && Pow256(4) == 0x1_0000_0000;
  }

  /** A constant as a call's argument. */
  function ConstArgument(value: U64, size: nat, format: nat, o: nat, l: nat): (r: Option<U64>) {
    SwappedFits(value, size, format);
    if o != 0 || l != 0 then None else Swapped(value, size, format)
  }

  // ----- reading -----

  function ReadResult(data: seq<Byte>, i: nat, env: Env): Option<U64>
    requires i + 32 <= |data|
  {
    ResultValue(U64At(data, i), U64At(data, i + 8), U64At(data, i + 16), U64At(data, i + 24), env)
  }

  /** One argument of a call. */
  function ReadArg(data: seq<Byte>, i: nat, env: Env): (r: Parsed<U64>)
    ensures r.Got? ==> i < r.next <= |data|
  {
    if i + 24 > |data| then Bad
    else if U64At(data, i) == 0 then
      var meta := U64At(data, i + 8);
      var v := ConstValue(U64At(data, i + 16), meta / 0x1_0000_0000, env);
      var a := ConstArgument(v, meta % 0x100, meta / 0x100 % 0x100, meta / 0x1_0000 % 0x100, meta / 0x100_0000 % 0x100);
      if a.None? then Bad else Got(a.value, i + 24)
    else if U64At(data, i) == 1 && i + 48 <= |data| && U64At(data, i + 8) / 0x100 == 0 then
      var v := ReadResult(data, i + 16, env);
      if v.None? then Bad else Got(v.value, i + 48)
    else Bad
  }

  function ReadArgs(data: seq<Byte>, i: nat, n: nat, env: Env): (r: Parsed<seq<U64>>)
    requires i <= |data|
    ensures r.Got? ==> i <= r.next <= |data|
    decreases n
  {
    if n == 0 then Got([], i)
    else
      match ReadArg(data, i, env)
      case Bad => Bad
      case Got(a, j) =>
        match ReadArgs(data, j, n - 1, env)
        case Bad => Bad
        case Got(rest, k) => Got([a] + rest, k)
  }

  /** Chunks of a checksum: kind, value, size. */
  function ReadChunks(data: seq<Byte>, i: nat, n: nat): seq<Chunk>
    requires i + 24 * n <= |data|
    decreases n
  {
    if n == 0 then []
    else
      var j := i + 24 * (n - 1);
      ReadChunks(data, i, n - 1) + [Chunk(U64At(data, j), U64At(data, j + 8), U64At(data, j + 16))]
  }

  /** Data in memory (0), or a constant (1) of two, four or eight bytes. */
  predicate ChunkOk(c: Chunk) { c.kind == 0 || (c.kind == 1 && (c.size == 2 || c.size == 4 || c.size == 8)) }

  predicate SumOk(size: nat, chunks: seq<Chunk>) { size == 2 && forall i :: 0 <= i < |chunks| ==> ChunkOk(chunks[i]) }

  /** Behind the tag of a copyin: an address and an argument. */
  function ReadCopyin(data: seq<Byte>, i: nat, env: Env): (r: Step)
    ensures r.Did? ==> i < r.next <= |data|
  {
    if i + 24 > |data| then Failed
    else
      var addr, typ, word := U64At(data, i), U64At(data, i + 8), U64At(data, i + 16);
      if typ == 0 && i + 32 <= |data| then
        var v := ConstValue(U64At(data, i + 24), word / 0x1_0000_0000, env);
        Did(Poke(addr, v, word % 0x100, word / 0x100 % 0x100, word / 0x1_0000 % 0x100, word / 0x100_0000 % 0x100),
            i + 32)
      else if typ == 1 && i + 56 <= |data| then
        var v := ReadResult(data, i + 24, env);
        if v.None? then Failed else Did(Poke(addr, v.value, word % 0x100, word / 0x100, 0, 0), i + 56)
      else if typ == 2 then
        var n := word % 0x8000_0000_0000_0000;
        var next := i + 24 + (n + 7) / 8 * 8;
        if next > |data| then Failed else Did(PokeData(addr, word, data[i + 24..i + 24 + n]), next)
      else if typ == 3 && i + 40 <= |data| && U64At(data, i + 24) == 0 then
        var n := U64At(data, i + 32);
        if i + 40 + 24 * n > |data| || !SumOk(word, ReadChunks(data, i + 40, n)) then Failed
        else Did(PokeSum(addr, ReadChunks(data, i + 40, n)), i + 40 + 24 * n)
      else Failed
  }

  function ReadCall(data: seq<Byte>, i: nat, env: Env): (r: Step)
    requires i + 24 <= |data|
    ensures r.Did? ==> i < r.next <= |data|
  {
    if U64At(data, i + 16) > 9 then Failed
    else
      match ReadArgs(data, i + 24, U64At(data, i + 16), env)
      case Bad => Failed
      case Got(args, j) => Did(Invoke(U64At(data, i), U64At(data, i + 8), args), j)
  }

  /** One turn of the loop; there are nsys system calls. */
  function StepAt(data: seq<Byte>, i: nat, nsys: nat, env: Env): (r: Step)
    ensures r.Did? ==> i < r.next <= |data|
  {
    if i + 8 > |data| then Failed
    else
      var num := U64At(data, i);
      if num == 0xFFFF_FFFF_FFFF_FFFF then Finished
      else if num == 0xFFFF_FFFF_FFFF_FFFE then ReadCopyin(data, i + 8, env)
      else if i + 24 > |data| then Failed
      else if num == 0xFFFF_FFFF_FFFF_FFFD then
        if i + 32 > |data| then Failed
        else Did(Fetch(U64At(data, i + 8), U64At(data, i + 16), U64At(data, i + 24)), i + 32)
      else if num == 0xFFFF_FFFF_FFFF_FFFC then
        if i + 32 > |data| then Failed
        else Did(UseProps(U64At(data, i + 8), U64At(data, i + 16), U64At(data, i + 24)), i + 32)
      else if num >= nsys then Failed
      else ReadCall(data, i, env)
  }

  /** What the executor does, and whether it reaches the end. The results may change from one turn to
      the next; how a turn depends on them is the same in all. */
  function Execute(data: seq<Byte>, i: nat, nsys: nat, env: Env): (seq<Action>, bool)
    requires i <= |data|
    decreases |data| - i
  {
    match StepAt(data, i, nsys, env)
    case Finished => ([], true)
    case Failed => ([], false)
    case Did(a, j) =>
      var (rest, ok) := Execute(data, j, nsys, env);
      ([a] + rest, ok)
  }
}
