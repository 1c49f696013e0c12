/** Data arguments as text: two encodings of bytes, trailing zeros left out, sizes in decimal. */
module DataText {
  import opened Common

  const QUOTE: Byte := 0x27
  const DQUOTE: Byte := 0x22
  const BACKSLASH: Byte := 0x5C
  const DOLLAR: Byte := 0x24
  const SLASH: Byte := 0x2F
  const NEWLINE: Byte := 0x0A
  const LOWER_X: Byte := 0x78
  const TWO64: nat := 0x1_0000_0000_0000_0000

  datatype Kind = Blob | String | Filename | Glob | Text | Compressed
  datatype BufferType = BufferType(kind: Kind, varlen: bool, size: nat, values: seq<seq<Byte>>)
  datatype DataArg = DataIn(data: seq<Byte>) | DataOut(size: nat)

  predicate IsPrintable(v: Byte) { 0x20 <= v < 0x7F }

  /** The letter a byte is escaped with, if it has one. */
  function EscapeOf(v: Byte): Option<Byte> {
    if v == 0x07 then Some(0x61)
    else if v == 0x08 then Some(0x62)
    else if v == 0x0C then Some(0x66)
    else if v == 0x0A then Some(0x6E)
    else if v == 0x0D then Some(0x72)
    else if v == 0x09 then Some(0x74)
    else if v == 0x0B then Some(0x76)
    else if v == QUOTE || v == DQUOTE || v == BACKSLASH then Some(v)
    else None
  }

  function ToHexChar(v: nat): (c: Byte)
    requires v < 16
    ensures 0x30 <= c <= 0x39 || 0x61 <= c <= 0x66
  {
    if v < 10 then 0x30 + v else 0x61 + v - 10
  }

  /** The text of one byte of readable data. */
  function EncodeByte(v: Byte): (t: seq<Byte>)
    ensures t != []
  {
    if EscapeOf(v).Some? then [BACKSLASH, EscapeOf(v).value]
    else if IsPrintable(v) then [v]
    else [BACKSLASH, LOWER_X, ToHexChar(v / 16), ToHexChar(v % 16)]
  }

  function Encode(data: seq<Byte>): seq<Byte> {
    if data == [] then [] else Encode(data[..|data| - 1]) + EncodeByte(data[|data| - 1])
  }

  function HexEncode(data: seq<Byte>): (t: seq<Byte>)
    ensures |t| == 2 * |data|
  {
    if data == [] then []
    else HexEncode(data[..|data| - 1]) + [ToHexChar(data[|data| - 1] / 16), ToHexChar(data[|data| - 1] % 16)]
  }

  predicate IsReadable(v: Byte) { IsPrintable(v) || v in {0, 0x07, 0x08, 0x0C, 0x0A, 0x0D, 0x09, 0x0B} }

  predicate IsReadableData(data: seq<Byte>) { data != [] && forall i :: 0 <= i < |data| ==> IsReadable(data[i]) }

  predicate IsReadableKind(k: Kind) { k in {String, Filename, Glob} }

  function QuotedText(data: seq<Byte>, readable: bool): seq<Byte> {
    if !readable && !IsReadableData(data) then [DQUOTE] + HexEncode(data) + [DQUOTE]
    else [QUOTE] + Encode(data) + [QUOTE]
  }

  /** All but one of the trailing zeros go. */
  function Trim(data: seq<Byte>): (t: seq<Byte>)
    ensures |t| <= |data|
  {
    if |data| >= 2 && data[|data| - 1] == 0 && data[|data| - 2] == 0 then Trim(data[..|data| - 1]) else data
  }

  /** What is printed: a variable size buffer is trimmed only if that saves more than eight bytes. */
  function Shown(data: seq<Byte>, varlen: bool): (t: seq<Byte>)
    ensures |t| <= |data|
  {
    if varlen && |Trim(data)| + 8 >= |data| then data else Trim(data)
  }

  function Decimal(n: nat): (t: seq<Byte>)
    ensures t != []
  {
    if n < 10 then [0x30 + n] else Decimal(n / 10) + [0x30 + n % 10]
  }

  /** DataArg.serialize; b64 encodes compressed data. */
  function Print(ty: BufferType, arg: DataArg, b64: seq<Byte> -> seq<Byte>): seq<Byte> {
    match arg
    case DataOut(size) => [DQUOTE, DQUOTE, SLASH] + Decimal(size)
    case DataIn(data) =>
      if ty.kind == Compressed then [DQUOTE, DOLLAR] + b64(data) + [DQUOTE]
      else
        var shown := Shown(data, ty.varlen);
        QuotedText(shown, IsReadableKind(ty.kind)) +
        if ty.varlen && |data| != |shown| then [SLASH] + Decimal(|data|) else []
  }
}
