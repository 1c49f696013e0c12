/** The text of data arguments, character by character, and what the parser makes of texts that no
    argument prints to. */
module DataForms {
  import opened Common
  import opened DataText
  import opened DataParse
  import opened DataRoundTrip

  predicate IsAscii(t: string) { forall i :: 0 <= i < |t| ==> t[i] as int < 128 }

  function Ascii(t: string): (s: seq<Byte>)
    requires IsAscii(t)
    ensures |s| == |t|
  {
    seq(|t|, i requires 0 <= i < |t| => t[i] as int)
  }

  // ----- readable data -----

  /** The escapes of the C language that the text uses: the byte, and the letter behind the backslash. */
  const ESCAPES: seq<(nat, char)> :=
    [(7, 'a'), (8, 'b'), (9, 't'), (10, 'n'), (11, 'v'), (12, 'f'), (13, 'r'), (34, '\"'), (39, '\''), (92, '\\')]

  const LOWER: string := "0123456789abcdef"
  const UPPER: string := "0123456789ABCDEF"

  ghost predicate HasEscape(v: Byte) { exists k :: 0 <= k < |ESCAPES| && ESCAPES[k].0 == v }

  ghost predicate IsEscape(c: Byte) { exists k :: 0 <= k < |ESCAPES| && ESCAPES[k].1 as int == c }

  /** What every byte is printed as: its escape, itself, or two hex digits, the high one first. */
  lemma ByteText(v: Byte)
    ensures forall k :: 0 <= k < |ESCAPES| && ESCAPES[k].0 == v ==> EncodeByte(v) == ['\\' as int, ESCAPES[k].1 as int]
    ensures !HasEscape(v) && ' ' as int <= v <= '~' as int ==> EncodeByte(v) == [v]
    ensures !HasEscape(v) && !(' ' as int <= v <= '~' as int) ==>
      EncodeByte(v) == ['\\' as int, 'x' as int, LOWER[v / 16] as int, LOWER[v % 16] as int]
  {
    if !HasEscape(v) {
      forall k | 0 <= k < |ESCAPES| ensures ESCAPES[k].0 != v {}
      assert ESCAPES[0].0 != v && ESCAPES[1].0 != v && ESCAPES[2].0 != v && ESCAPES[3].0 != v && ESCAPES[4].0 != v;
      assert ESCAPES[5].0 != v && ESCAPES[6].0 != v && ESCAPES[7].0 != v && ESCAPES[8].0 != v && ESCAPES[9].0 != v;
      HexLetter(v / 16);
      HexLetter(v % 16);
    }
  }

  lemma HexLetter(v: nat)
    requires v < 16
    ensures ToHexChar(v) == LOWER[v] as int && FromHexChar(LOWER[v] as int) == Some(v)
    ensures HexDigit(LOWER[v] as int) == HexDigit(UPPER[v] as int) == Some(v)
  {
  }

  predicate IsHexEscape(s: seq<Byte>, i: nat, h: int, l: int) {
    && 0 <= h < 16 && 0 <= l < 16 && i + 3 < |s|
    && s[i + 1] == 'x' as int && s[i + 2] == LOWER[h] as int && s[i + 3] == LOWER[l] as int
  }

  /** What every escape is read as; anything else behind a backslash is refused. */
  lemma EscapeRead(s: seq<Byte>, i: nat)
    requires i < |s| && s[i] == '\\' as int
    ensures forall k :: 0 <= k < |ESCAPES| && i + 1 < |s| && s[i + 1] == ESCAPES[k].1 as int ==>
      ReadByte(s, i) == Got(ESCAPES[k].0, i + 2)
    ensures forall h, l :: IsHexEscape(s, i, h, l) ==> ReadByte(s, i) == Got(16 * h + l, i + 4)
    ensures i + 1 == |s| ==> ReadByte(s, i) == Fail
    ensures i + 1 < |s| && s[i + 1] != 'x' as int && !IsEscape(s[i + 1]) ==> ReadByte(s, i) == Fail
  {
    if i + 1 < |s| && s[i + 1] != 'x' as int && !IsEscape(s[i + 1]) {
      var c := s[i + 1];
      assert c != ESCAPES[0].1 as int && c != ESCAPES[1].1 as int && c != ESCAPES[2].1 as int;
      assert c != ESCAPES[3].1 as int && c != ESCAPES[4].1 as int && c != ESCAPES[5].1 as int;
      assert c != ESCAPES[6].1 as int && c != ESCAPES[7].1 as int && c != ESCAPES[8].1 as int;
      assert c != ESCAPES[9].1 as int;
    }
    forall h, l | IsHexEscape(s, i, h, l) ensures ReadByte(s, i) == Got(16 * h + l, i + 4) {
      HexLetter(h);
      HexLetter(l);
    }
  }

  // ----- hex -----

  /** Byte k of the data is the pair of digits 2k and 2k + 1, the high one first. */
  lemma {:induction false} HexText(data: seq<Byte>, k: nat)
    requires k < |data|
    ensures HexEncode(data)[2 * k] == LOWER[data[k] / 16] as int
    ensures HexEncode(data)[2 * k + 1] == LOWER[data[k] % 16] as int
    decreases |data|
  {
    hide ToHexChar;
    var n := |data| - 1;
    if k < n {
      HexText(data[..n], k);
    } else {
      HexLetter(data[k] / 16);
      HexLetter(data[k] % 16);
    }
  }

  /** c is a digit of value v, in either case. */
  predicate DigitIs(c: Byte, v: nat) { v < 16 && (c == LOWER[v] as int || c == UPPER[v] as int) }

  lemma DigitIff(c: Byte)
    ensures forall v: nat :: DigitIs(c, v) ==> HexDigit(c) == Some(v)
    ensures HexDigit(c).Some? ==> DigitIs(c, HexDigit(c).value)
  {
    forall v: nat | DigitIs(c, v) ensures HexDigit(c) == Some(v) { HexLetter(v); }
  }

  /** t reads as data: two digits a byte, the high one first. */
  ghost predicate HexReads(t: seq<Byte>, data: seq<Byte>) {
    && |t| == 2 * |data|
    && forall k :: 0 <= k < |data| ==> DigitIs(t[2 * k], data[k] / 16) && DigitIs(t[2 * k + 1], data[k] % 16)
  }

  /** Hex text is read exactly by the values of its digits. */
  lemma {:induction false} HexValue(t: seq<Byte>, data: seq<Byte>)
    ensures HexDecode(t) == Some(data) <==> HexReads(t, data)
    decreases |t|
  {
    hide HexDecode, HexReads, HexDigit, DigitIs;
    if |t| < 2 || data == [] {
      HexShort(t, data);
    } else {
      var n, m := |t| - 2, |data| - 1;
      HexValue(t[..n], data[..m]);
      HexStep(t, data);
      HexLast(t, data);
      DigitIff(t[n]);
      DigitIff(t[n + 1]);
    }
  }

  lemma HexShort(t: seq<Byte>, data: seq<Byte>)
    requires |t| < 2 || data == []
    ensures HexDecode(t) == Some(data) <==> HexReads(t, data)
  {
    hide HexDigit, DigitIs;
  }

  lemma HexStep(t: seq<Byte>, data: seq<Byte>)
    requires |t| >= 2 && data != []
    ensures var n, m := |t| - 2, |data| - 1;
      HexDecode(t) == Some(data) <==>
        && HexDecode(t[..n]) == Some(data[..m])
        && HexDigit(t[n]) == Some(data[m] / 16) && HexDigit(t[n + 1]) == Some(data[m] % 16)
  {
    hide HexDigit;
    var n, m := |t| - 2, |data| - 1;
    if HexDecode(t[..n]).Some? && HexDigit(t[n]).Some? && HexDigit(t[n + 1]).Some? {
      var h, l := HexDigit(t[n]).value, HexDigit(t[n + 1]).value;
      PairIs(h, l, data[m]);
      SnocIs(HexDecode(t[..n]).value, 16 * h + l, data);
    }
  }

  lemma PairIs(h: nat, l: nat, v: Byte)
    requires h < 16 && l < 16
    ensures 16 * h + l == v <==> h == v / 16 && l == v % 16
  {
  }

  lemma SnocIs(s: seq<Byte>, b: Byte, t: seq<Byte>)
    requires t != []
    ensures s + [b] == t <==> s == t[..|t| - 1] && b == t[|t| - 1]
  {
    if s + [b] == t { assert (s + [b])[|s|] == b && t[..|t| - 1] == s; }
    if s == t[..|t| - 1] && b == t[|t| - 1] { assert s + [b] == t; }
  }

  lemma HexLast(t: seq<Byte>, data: seq<Byte>)
    requires |t| >= 2 && data != []
    ensures var n, m := |t| - 2, |data| - 1;
      HexReads(t, data) <==>
        HexReads(t[..n], data[..m]) && DigitIs(t[n], data[m] / 16) && DigitIs(t[n + 1], data[m] % 16)
  {
  }

  // ----- whole arguments -----

  /** Readable data: printable characters, zeros, and the control characters that have an escape. */
  ghost predicate LooksLikeText(data: seq<Byte>) {
    data != [] && forall k :: 0 <= k < |data| ==>
      ' ' as int <= data[k] <= '~' as int || data[k] == 0 || 7 <= data[k] <= 13
  }

  lemma QuotedForm(data: seq<Byte>, readable: bool)
    ensures QuotedText(data, readable) ==
      if readable || LooksLikeText(data) then Ascii("'") + Encode(data) + Ascii("'")
      else Ascii("\"") + HexEncode(data) + Ascii("\"")
  {
    assert IsReadableData(data) <==> LooksLikeText(data) by {
      forall k | 0 <= k < |data|
        ensures IsReadable(data[k]) <==>
          ' ' as int <= data[k] <= '~' as int || data[k] == 0 || 7 <= data[k] <= 13
      {
      }
    }
    assert Ascii("'") == [QUOTE] && Ascii("\"") == [DQUOTE];
  }

  function Zeros(data: seq<Byte>): (n: nat)
    ensures n <= |data|
  {
    if data != [] && data[|data| - 1] == 0 then 1 + Zeros(data[..|data| - 1]) else 0
  }

  lemma {:induction false} TrimIs(data: seq<Byte>)
    ensures Trim(data) == if Zeros(data) < 2 then data else data[..|data| - Zeros(data) + 1]
    decreases |data|
  {
    if |data| >= 2 && data[|data| - 1] == 0 && data[|data| - 2] == 0 {
      var t := data[..|data| - 1];
      TrimIs(t);
      assert t[|t| - 1] == 0;
      assert Zeros(t) >= 1 && Zeros(data) == 1 + Zeros(t);
    } else if data != [] && data[|data| - 1] == 0 {
      assert Zeros(data[..|data| - 1]) == 0;
    }
  }

  /** The zeros that may go, and what is left without them. */
  function Spare(data: seq<Byte>): (n: nat)
    ensures n <= |data|
  {
    if Zeros(data) == 0 then 0 else Zeros(data) - 1
  }

  function Kept(data: seq<Byte>): seq<Byte> { data[..|data| - Spare(data)] }

  lemma KeptIs(data: seq<Byte>)
    ensures Trim(data) == Kept(data) && |Trim(data)| == |data| - Spare(data)
  {
    TrimIs(data);
    if Spare(data) == 0 { assert data[..|data|] == data; }
  }

  /** A fixed size buffer loses all but one of its trailing zeros; a variable size one only if more than
      eight go, and then, and only then, its size is printed. */
  lemma DataForm(ty: BufferType, data: seq<Byte>, b64: seq<Byte> -> seq<Byte>, readable: bool)
    requires ty.kind != Compressed
    requires readable <==> ty.kind == String || ty.kind == Filename || ty.kind == Glob
    ensures !ty.varlen ==> Print(ty, DataIn(data), b64) == QuotedText(Kept(data), readable)
    ensures ty.varlen && Spare(data) <= 8 ==> Print(ty, DataIn(data), b64) == QuotedText(data, readable)
    ensures ty.varlen && Spare(data) > 8 ==>
      Print(ty, DataIn(data), b64) == QuotedText(Kept(data), readable) + (Ascii("/") + Decimal(|data|))
  {
    hide QuotedText, Trim, Decimal, Print, Ascii, Kept, Spare;
    KeptIs(data);
    var t := QuotedText(Shown(data, ty.varlen), readable);
    if ty.varlen && Spare(data) > 8 {
      PrintSized(ty, data, b64, t, Decimal(|data|));
      SlashText();
    } else {
      PrintUnsized(ty, data, b64, t);
    }
  }

  lemma SlashText()
    ensures Ascii("/") == [SLASH]
  {
  }

  lemma OtherForms(ty: BufferType, size: nat, data: seq<Byte>, b64: seq<Byte> -> seq<Byte>)
    ensures Print(ty, DataOut(size), b64) == Ascii("\"\"/") + Decimal(size)
    ensures ty.kind == Compressed ==> Print(ty, DataIn(data), b64) == Ascii("\"$") + b64(data) + Ascii("\"")
  {
    assert Ascii("\"\"/") == [DQUOTE, DQUOTE, SLASH];
    assert Ascii("\"$") == [DQUOTE, DOLLAR] && Ascii("\"") == [DQUOTE];
  }

  // ----- texts no argument prints to -----

  /** A size beyond memory is refused in strict mode and cut down to memory otherwise. */
  lemma Oversize(s: seq<Byte>, i: nat, ty: BufferType, size: nat, maxMem: nat, strict: bool, lib: Lib)
    requires ty.varlen && ty.kind != Compressed && maxMem < size < 0x1_0000_0000_0000_0000
    requires At(s, i, Ascii("\"\"/") + Decimal(size)) && Delimited(s, i + 3 + |Decimal(size)|)
    ensures ParseArg(s, i, ty, true, maxMem, strict, lib) ==
      if strict then Fail else Got(DataOut(maxMem), i + 3 + |Decimal(size)|)
  {
    hide Decimal, ReadSize, ReadData, At, Delimited;
    var t := Decimal(size);
    assert Ascii("\"\"/") + t == [DQUOTE, DQUOTE] + ([SLASH] + t);
    AtSplit(s, i, [DQUOTE, DQUOTE], [SLASH] + t);
    SlashAt(s, i + 2, t);
    NoText(s, i, lib);
    SizeBack(s, i + 2, size, maxMem, strict, lib);
  }

  /** A string outside the values its type lists is refused in strict mode, and the first value otherwise. */
  lemma NotListed(s: seq<Byte>, i: nat, ty: BufferType, maxMem: nat, strict: bool, lib: Lib, data: seq<Byte>, j: nat)
    requires (ty.kind == String || ty.kind == Glob) && ty.varlen && ty.values != [] && data !in ty.values
    requires !(Ascii("AUTOGENERATED") <= ty.values[0])
    requires i <= |s| && ReadData(s, i, lib) == Got((data, false), j) && j < |s| && s[j] != '/' as int
    ensures ParseArg(s, i, ty, false, maxMem, strict, lib) == if strict then Fail else Got(DataIn(ty.values[0]), j)
  {
    hide ReadData;
    assert Ascii("AUTOGENERATED") == AUTOGENERATED;
    assert Resize(data, |data|) == data;
  }

  /** Compressed data that does not decompress is refused in strict mode, and empty otherwise. */
  lemma NotCompressed(s: seq<Byte>, i: nat, ty: BufferType, maxMem: nat, strict: bool, lib: Lib,
                      data: seq<Byte>, j: nat)
    requires ty.kind == Compressed && ty.varlen && data != [] && !lib.zlibReads(data)
    requires i <= |s| && ReadData(s, i, lib) == Got((data, true), j) && j < |s|
    ensures ParseArg(s, i, ty, false, maxMem, strict, lib) == if strict then Fail else Got(DataIn(lib.empty), j)
  {
    hide ReadData;
    assert Resize(lib.empty, |lib.empty|) == lib.empty;
  }

  /** White space and identifiers. */
  lemma Letters(c: Byte)
    ensures IsWs(c) <==> c == ' ' as int || c == '\t' as int
    ensures IsIdent(c) <==>
      || 'a' as int <= c <= 'z' as int || 'A' as int <= c <= 'Z' as int || '0' as int <= c <= '9' as int
      || c == '_' as int || c == '$' as int
  {
  }
}
