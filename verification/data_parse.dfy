/** The parser of data arguments, as functions of the line and the position. */
module DataParse {
  import opened Common
  import opened DataText

  datatype Parsed<T> = Got(value: T, next: nat) | Fail

  predicate IsWs(c: Byte) { c == 0x20 || c == 0x09 }

  predicate IsIdent(c: Byte) { 0x61 <= c <= 0x7A || 0x41 <= c <= 0x5A || 0x30 <= c <= 0x39 || c == 0x5F || c == DOLLAR }

  function SkipWs(s: seq<Byte>, i: nat): (j: nat)
    requires i <= |s|
    ensures i <= j <= |s| && (j < |s| ==> !IsWs(s[j])) && forall k :: i <= k < j ==> IsWs(s[k])
    decreases |s| - i
  {
    if i < |s| && IsWs(s[i]) then SkipWs(s, i + 1) else i
  }

  function IdentEnd(s: seq<Byte>, i: nat): (j: nat)
    requires i <= |s|
    ensures i <= j <= |s| && (j < |s| ==> !IsIdent(s[j])) && forall k :: i <= k < j ==> IsIdent(s[k])
    decreases |s| - i
  {
    if i < |s| && IsIdent(s[i]) then IdentEnd(s, i + 1) else i
  }

  /** Parse: one character and the white space behind it. */
  function Accept(s: seq<Byte>, i: nat, c: Byte): (r: Parsed<()>)
    ensures r.Got? ==> i < r.next <= |s|
  {
    if i < |s| && s[i] == c then Got((), SkipWs(s, i + 1)) else Fail
  }

  function Ident(s: seq<Byte>, i: nat): (r: Parsed<seq<Byte>>)
    requires i <= |s|
    ensures r.Got? ==> i < r.next <= |s|
  {
    var j := IdentEnd(s, i);
    if j == i then Fail else Got(s[i..j], SkipWs(s, j))
  }

  function FromHexChar(c: Byte): (r: Option<nat>)
    ensures r.Some? ==> r.value < 16
  {
    if 0x30 <= c <= 0x39 then Some(c - 0x30) else if 0x61 <= c <= 0x66 then Some(c - 0x61 + 10) else None
  }

  /** A digit of a hex string may also be upper case. */
  function HexDigit(c: Byte): (r: Option<nat>)
    ensures r.Some? ==> r.value < 16
  {
    if 0x41 <= c <= 0x46 then Some(c - 0x41 + 10) else FromHexChar(c)
  }

  function HexDecode(t: seq<Byte>): Option<seq<Byte>> {
    if t == [] then Some([])
    else if |t| == 1 then None
    else
      var n := |t| - 2;
      var head := HexDecode(t[..n]);
      if head.None? || HexDigit(t[n]).None? || HexDigit(t[n + 1]).None? then None
      else Some(head.value + [16 * HexDigit(t[n]).value + HexDigit(t[n + 1]).value])
  }

  /** The byte an escape letter stands for. */
  function Unescape(c: Byte): Option<Byte> {
    if c == 0x61 then Some(0x07)
    else if c == 0x62 then Some(0x08)
    else if c == 0x66 then Some(0x0C)
    else if c == 0x6E then Some(0x0A)
    else if c == 0x72 then Some(0x0D)
    else if c == 0x74 then Some(0x09)
    else if c == 0x76 then Some(0x0B)
    else if c == QUOTE || c == DQUOTE || c == BACKSLASH then Some(c)
    else None
  }

  /** One byte of readable data. */
  function ReadByte(s: seq<Byte>, i: nat): (r: Parsed<Byte>)
    requires i < |s|
    ensures r.Got? ==> i < r.next <= |s|
  {
    if s[i] != BACKSLASH then Got(s[i], i + 1)
    else if i + 1 == |s| then Fail
    else if s[i + 1] == LOWER_X then
      if i + 4 > |s| || FromHexChar(s[i + 2]).None? || FromHexChar(s[i + 3]).None? then Fail
      else Got(16 * FromHexChar(s[i + 2]).value + FromHexChar(s[i + 3]).value, i + 4)
    else if Unescape(s[i + 1]).Some? then Got(Unescape(s[i + 1]).value, i + 2)
    else Fail
  }

  /** Readable data up to the closing quote; a zero character ends it too, and is then refused. */
  function ReadReadable(s: seq<Byte>, i: nat, acc: seq<Byte>): (r: Parsed<seq<Byte>>)
    requires i <= |s|
    ensures r.Got? ==> i < r.next <= |s|
    decreases |s| - i
  {
    if i == |s| || s[i] == 0 then Fail
    else if s[i] == QUOTE then Got(acc, SkipWs(s, i + 1))
    else
      match ReadByte(s, i)
      case Fail => Fail
      case Got(b, j) => ReadReadable(s, j, acc + [b])
  }

  function UntilDquote(s: seq<Byte>, i: nat): (j: nat)
    requires i <= |s|
    ensures i <= j <= |s| && (j < |s| ==> s[j] == DQUOTE) && forall k :: i <= k < j ==> s[k] != DQUOTE
    decreases |s| - i
  {
    if i < |s| && s[i] != DQUOTE then UntilDquote(s, i + 1) else i
  }

  /** Decoders of the language's library: base 64, numbers that are not plain decimals, and whether
      zlib reads its input to the end; `empty` is nothing, compressed. */
  datatype Lib = Lib(
    unb64: seq<Byte> -> Option<seq<Byte>>, number: seq<Byte> -> Option<nat>,
    zlibReads: seq<Byte> -> bool, empty: seq<Byte>)

  /** DecompressCheck: no data at all is fine, anything else is left to zlib. */
  predicate Decompresses(data: seq<Byte>, lib: Lib) { data == [] || lib.zlibReads(data) }

  /** deserializeData: the bytes, and whether they came as base 64. */
  function ReadData(s: seq<Byte>, i: nat, lib: Lib): (r: Parsed<(seq<Byte>, bool)>)
    requires i <= |s|
    ensures r.Got? ==> i < r.next <= |s|
  {
    if i == |s| then Fail
    else if s[i] == DQUOTE then ReadQuoted(s, SkipWs(s, i + 1), lib)
    else if s[i] == QUOTE then
      match ReadReadable(s, i + 1, [])
      case Fail => Fail
      case Got(data, j) => Got((data, false), j)
    else Fail
  }

  /** Behind the opening double quote. */
  function ReadQuoted(s: seq<Byte>, i: nat, lib: Lib): (r: Parsed<(seq<Byte>, bool)>)
    requires i <= |s|
    ensures r.Got? ==> i < r.next <= |s|
  {
    if i == |s| then Fail
    else if s[i] == DOLLAR then
      var j := UntilDquote(s, i + 1);
      var data := lib.unb64(s[i + 1..j]);
      if j == |s| || data.None? then Fail else Got((data.value, true), SkipWs(s, j + 1))
    else
      var val := if s[i] == DQUOTE then Got([], i) else Ident(s, i);
      if val.Fail? then Fail
      else
        match Accept(s, val.next, DQUOTE)
        case Fail => Fail
        case Got(_, j) => if HexDecode(val.value).None? then Fail else Got((HexDecode(val.value).value, false), j)
  }

  predicate IsDigit(c: Byte) { 0x30 <= c <= 0x39 }

  predicate IsPlain(t: seq<Byte>) {
    t != [] && (t[0] == 0x30 ==> |t| == 1) && forall i :: 0 <= i < |t| ==> IsDigit(t[i])
  }

  function DecimalValue(t: seq<Byte>): nat
    requires forall i :: 0 <= i < |t| ==> IsDigit(t[i])
  {
    if t == [] then 0 else assert IsDigit(t[|t| - 1]); 10 * DecimalValue(t[..|t| - 1]) + t[|t| - 1] - 0x30
  }

  /** ParseUint: a 64-bit number. */
  function ParseUint(t: seq<Byte>, lib: Lib): Option<nat> {
    if IsPlain(t) then if DecimalValue(t) < TWO64 then Some(DecimalValue(t)) else None
    else lib.number(t)
  }

  /** An explicit size, as large as memory at most. */
  function ReadSize(s: seq<Byte>, i: nat, maxMem: nat, strict: bool, lib: Lib): (r: Parsed<nat>)
    requires i <= |s|
    ensures r.Got? ==> i < r.next <= |s|
  {
    match Accept(s, i, SLASH)
    case Fail => Fail
    case Got(_, j) =>
      match Ident(s, j)
      case Fail => Fail
      case Got(t, k) =>
        var size := ParseUint(t, lib);
        if size.None? || (size.value > maxMem && strict) then Fail
        else Got(if size.value > maxMem then maxMem else size.value, k)
  }

  function Resize(data: seq<Byte>, size: nat): (r: seq<Byte>)
    ensures |r| == size
  {
    if |data| < size then data + seq(size - |data|, _ => 0) else data[..size]
  }

  const AUTOGENERATED: seq<Byte> := [0x41, 0x55, 0x54, 0x4F, 0x47, 0x45, 0x4E, 0x45, 0x52, 0x41, 0x54, 0x45, 0x44]

  /** Strings with a fixed set of values must be one of them. */
  predicate Restricted(ty: BufferType) {
    ty.kind in {String, Glob} && ty.values != [] && !(AUTOGENERATED <= ty.values[0])
  }

  function Finish(ty: BufferType, data: seq<Byte>, size: nat, out: bool, strict: bool): Option<DataArg> {
    if out then Some(DataOut(size))
    else
      var full := Resize(data, size);
      if !Restricted(ty) || full in ty.values then Some(DataIn(full))
      else if strict then None
      else Some(DataIn(ty.values[0]))
  }

  /** parseArgString for a buffer type. */
  function ParseArg(s: seq<Byte>, i: nat, ty: BufferType, out: bool, maxMem: nat, strict: bool,
                    lib: Lib): (r: Parsed<DataArg>)
    requires i <= |s|
    ensures r.Got? ==> i < r.next <= |s|
  {
    match ReadData(s, i, lib)
    case Fail => Fail
    case Got(d, j) =>
      if ty.kind == Compressed && !Decompresses(d.0, lib) && strict then Fail
      else if j == |s| then Fail
      else
        var data := if ty.kind == Compressed && !Decompresses(d.0, lib) then lib.empty else d.0;
        var sized := s[j] == SLASH && !d.1;
        var size := if sized then ReadSize(s, j, maxMem, strict, lib) else Got(|data|, j);
        if size.Fail? then Fail
        else
          var arg := Finish(ty, data, if ty.varlen then size.value else ty.size, out, strict);
          if arg.None? then Fail else Got(arg.value, size.next)
  }
}
