/** Printing a data argument and parsing the text gives the argument back. */
module DataRoundTrip {
  import opened Common
  import opened DataText
  import opened DataParse

  /** t stands at position i of s. */
  ghost predicate At(s: seq<Byte>, i: nat, t: seq<Byte>) { i + |t| <= |s| && s[i..i + |t|] == t }

  lemma AtSplit(s: seq<Byte>, i: nat, a: seq<Byte>, b: seq<Byte>)
    requires At(s, i, a + b)
    ensures At(s, i, a) && At(s, i + |a|, b)
  {
    var d := s[i..i + |a + b|];
    assert s[i..i + |a|] == d[..|a|];
    assert s[i + |a|..i + |a| + |b|] == d[|a|..];
  }

  lemma AtIndex(s: seq<Byte>, i: nat, t: seq<Byte>, k: nat)
    requires At(s, i, t) && k < |t|
    ensures s[i + k] == t[k]
  {
    assert s[i..i + |t|][k] == t[k];
  }

  // ----- readable data -----

  lemma HexCharBack(v: nat)
    requires v < 16
    ensures FromHexChar(ToHexChar(v)) == Some(v) && HexDigit(ToHexChar(v)) == Some(v) && IsIdent(ToHexChar(v))
  {
  }

  lemma EscapeBack(v: Byte)
    ensures EscapeOf(v).Some? ==> Unescape(EscapeOf(v).value) == Some(v) && EscapeOf(v).value != LOWER_X
    ensures EscapeOf(v).None? ==> v != BACKSLASH && v != QUOTE
  {
  }

  /** No encoded byte looks like the end of the data. */
  lemma {:induction false} ByteBack(s: seq<Byte>, i: nat, v: Byte)
    requires At(s, i, EncodeByte(v))
    ensures s[i] != 0 && s[i] != QUOTE && ReadByte(s, i) == Got(v, i + |EncodeByte(v)|)
  {
    var t := EncodeByte(v);
    EscapeBack(v);
    AtIndex(s, i, t, 0);
    if EscapeOf(v).Some? {
      AtIndex(s, i, t, 1);
    } else if !IsPrintable(v) {
      AtIndex(s, i, t, 1);
      AtIndex(s, i, t, 2);
      AtIndex(s, i, t, 3);
      HexCharBack(v / 16);
      HexCharBack(v % 16);
      assert 16 * (v / 16) + v % 16 == v;
    }
  }

  lemma ReadStep(s: seq<Byte>, i: nat, acc: seq<Byte>, b: Byte, j: nat)
    requires i < |s| && s[i] != 0 && s[i] != QUOTE && ReadByte(s, i) == Got(b, j)
    ensures ReadReadable(s, i, acc) == ReadReadable(s, j, acc + [b])
  {
    hide ReadByte, SkipWs;
  }

  lemma {:induction false} ReadableBack(s: seq<Byte>, i: nat, data: seq<Byte>)
    requires At(s, i, Encode(data))
    ensures ReadReadable(s, i, []) == ReadReadable(s, i + |Encode(data)|, data)
    decreases |data|
  {
    hide EncodeByte, ReadByte, ReadReadable;
    if data != [] {
      var n := |data| - 1;
      AtSplit(s, i, Encode(data[..n]), EncodeByte(data[n]));
      ReadableBack(s, i, data[..n]);
      var j := i + |Encode(data[..n])|;
      ByteBack(s, j, data[n]);
      ReadStep(s, j, data[..n], data[n], j + |EncodeByte(data[n])|);
      assert data[..n] + [data[n]] == data;
    }
  }

  // ----- hex -----

  lemma {:induction false} HexBack(data: seq<Byte>)
    ensures HexDecode(HexEncode(data)) == Some(data)
    decreases |data|
  {
    hide ToHexChar, FromHexChar, HexDigit;
    if data != [] {
      var n := |data| - 1;
      HexBack(data[..n]);
      var t := HexEncode(data);
      assert t[..|t| - 2] == HexEncode(data[..n]);
      HexCharBack(data[n] / 16);
      HexCharBack(data[n] % 16);
      assert data[..n] + [data[n]] == data;
    }
  }

  lemma {:induction false} HexIdent(data: seq<Byte>, k: nat)
    requires k < |HexEncode(data)|
    ensures IsIdent(HexEncode(data)[k]) && HexEncode(data)[k] != DOLLAR && HexEncode(data)[k] != DQUOTE
    decreases |data|
  {
    var n := |data| - 1;
    if k < 2 * n { HexIdent(data[..n], k); }
  }

  /** An identifier reaches to the first character that cannot be part of it. */
  lemma {:induction false} IdentEndAt(s: seq<Byte>, i: nat, j: nat)
    requires i <= j < |s| && !IsIdent(s[j]) && forall k :: i <= k < j ==> IsIdent(s[k])
    ensures IdentEnd(s, i) == j
    decreases j - i
  {
    if i < j { IdentEndAt(s, i + 1, j); }
  }

  lemma NoWs(s: seq<Byte>, i: nat)
    requires i <= |s| && (i < |s| ==> !IsWs(s[i]))
    ensures SkipWs(s, i) == i
  {
  }

  lemma {:induction false} UntilAt(s: seq<Byte>, i: nat, j: nat)
    requires i <= j < |s| && s[j] == DQUOTE && forall k :: i <= k < j ==> s[k] != DQUOTE
    ensures UntilDquote(s, i) == j
    decreases j - i
  {
    if i < j { UntilAt(s, i + 1, j); }
  }

  /** Something follows, and it is not white space. */
  ghost predicate Goes(s: seq<Byte>, i: nat) { i < |s| && !IsWs(s[i]) }

  lemma {:induction false} HexTextBack(s: seq<Byte>, i: nat, data: seq<Byte>, lib: Lib)
    requires At(s, i, [DQUOTE] + HexEncode(data) + [DQUOTE]) && Goes(s, i + 2 * |data| + 2)
    ensures ReadData(s, i, lib) == Got((data, false), i + 2 * |data| + 2)
  {
    hide HexEncode, HexDecode, SkipWs, IdentEnd, UntilDquote;
    var t := HexEncode(data);
    AtSplit(s, i, [DQUOTE] + t, [DQUOTE]);
    AtSplit(s, i, [DQUOTE], t);
    AtIndex(s, i, [DQUOTE], 0);
    var j := i + 1 + |t|;
    AtIndex(s, j, [DQUOTE], 0);
    HexBack(data);
    forall k | i + 1 <= k < j ensures IsIdent(s[k]) && s[k] != DOLLAR && s[k] != DQUOTE {
      AtIndex(s, i + 1, t, k - i - 1);
      HexIdent(data, k - i - 1);
    }
    IdentEndAt(s, i + 1, j);
    NoWs(s, i + 1);
    NoWs(s, j);
    NoWs(s, j + 1);
  }

  lemma {:induction false} ReadableTextBack(s: seq<Byte>, i: nat, data: seq<Byte>, lib: Lib)
    requires At(s, i, [QUOTE] + Encode(data) + [QUOTE]) && Goes(s, i + |Encode(data)| + 2)
    ensures ReadData(s, i, lib) == Got((data, false), i + |Encode(data)| + 2)
  {
    hide Encode, SkipWs, ReadByte;
    AtSplit(s, i, [QUOTE] + Encode(data), [QUOTE]);
    AtSplit(s, i, [QUOTE], Encode(data));
    AtIndex(s, i, [QUOTE], 0);
    var j := i + 1 + |Encode(data)|;
    AtIndex(s, j, [QUOTE], 0);
    ReadableBack(s, i + 1, data);
    NoWs(s, j + 1);
  }

  lemma {:induction false} TextBack(s: seq<Byte>, i: nat, data: seq<Byte>, readable: bool, lib: Lib)
    requires At(s, i, QuotedText(data, readable)) && Goes(s, i + |QuotedText(data, readable)|)
    ensures ReadData(s, i, lib) == Got((data, false), i + |QuotedText(data, readable)|)
  {
    hide ReadData, HexEncode, Encode, At, Goes, IsReadableData;
    if !readable && !IsReadableData(data) {
      assert |[DQUOTE] + HexEncode(data) + [DQUOTE]| == 2 * |data| + 2;
      HexTextBack(s, i, data, lib);
    } else {
      assert |[QUOTE] + Encode(data) + [QUOTE]| == |Encode(data)| + 2;
      ReadableTextBack(s, i, data, lib);
    }
  }

  // ----- sizes -----

  lemma {:induction false} DecimalBack(n: nat)
    ensures forall k :: 0 <= k < |Decimal(n)| ==> IsDigit(Decimal(n)[k])
    ensures DecimalValue(Decimal(n)) == n && (Decimal(n)[0] == 0x30 <==> n == 0) && (n == 0 ==> |Decimal(n)| == 1)
    decreases n
  {
    if n >= 10 {
      DecimalBack(n / 10);
      var t := Decimal(n);
      assert t[..|t| - 1] == Decimal(n / 10);
    } else {
      assert Decimal(n)[..0] == [];
    }
  }

  /** What may follow an argument: no white space, no size, and nothing that would extend a number. */
  ghost predicate Delimited(s: seq<Byte>, i: nat) { i < |s| && !IsWs(s[i]) && s[i] != SLASH && !IsIdent(s[i]) }

  lemma {:induction false} SizeBack(s: seq<Byte>, i: nat, n: nat, maxMem: nat, strict: bool, lib: Lib)
    requires At(s, i, [SLASH] + Decimal(n)) && Delimited(s, i + 1 + |Decimal(n)|)
    ensures ReadSize(s, i, maxMem, strict, lib) ==
      if n >= TWO64 || (n > maxMem && strict) then Fail
      else Got(if n > maxMem then maxMem else n, i + 1 + |Decimal(n)|)
  {
    hide Decimal, SkipWs, IdentEnd, DecimalValue;
    var t := Decimal(n);
    AtSplit(s, i, [SLASH], t);
    AtIndex(s, i, [SLASH], 0);
    DecimalBack(n);
    var j := i + 1 + |t|;
    forall k | i + 1 <= k < j ensures IsIdent(s[k]) && IsDigit(s[k]) {
      AtIndex(s, i + 1, t, k - i - 1);
      assert IsDigit(t[k - i - 1]);
    }
    IdentEndAt(s, i + 1, j);
    NoWs(s, i + 1);
    NoWs(s, j);
    assert s[i + 1..j] == t;
  }

  // ----- trimming -----

  /** Padding a trimmed buffer to its length restores it. */
  lemma {:induction false} TrimBack(data: seq<Byte>)
    ensures Resize(Trim(data), |data|) == data
    decreases |data|
  {
    if |data| >= 2 && data[|data| - 1] == 0 && data[|data| - 2] == 0 {
      var n := |data| - 1;
      TrimBack(data[..n]);
      var t := Trim(data[..n]);
      assert Resize(t, n) == data[..n];
      assert Resize(t, n + 1) == Resize(t, n) + [0];
    }
  }

  lemma {:induction false} ShownBack(data: seq<Byte>, varlen: bool)
    ensures Resize(Shown(data, varlen), |data|) == data
  {
    hide Trim;
    TrimBack(data);
  }

  // ----- the round trip -----

  /** Arguments that fit their type and memory. */
  ghost predicate ArgOk(ty: BufferType, arg: DataArg, maxMem: nat, b64: seq<Byte> -> seq<Byte>, lib: Lib) {
    match arg
    case DataOut(size) => size <= maxMem && size < TWO64 && (!ty.varlen ==> size == ty.size)
    case DataIn(data) =>
      && |data| <= maxMem && |data| < TWO64 && (!ty.varlen ==> |data| == ty.size)
      && (Restricted(ty) ==> data in ty.values)
      && (ty.kind == Compressed ==>
            lib.unb64(b64(data)) == Some(data) && Decompresses(data, lib) &&
            DQUOTE !in b64(data) && NEWLINE !in b64(data))
  }

  /** What is read before the type has its say: data without a size, or with one. */
  lemma ParseUnsized(s: seq<Byte>, i: nat, ty: BufferType, out: bool, maxMem: nat, strict: bool, lib: Lib,
                     data: seq<Byte>, b64: bool, j: nat)
    requires i <= |s| && ReadData(s, i, lib) == Got((data, b64), j) && j < |s| && (s[j] != SLASH || b64)
    requires ty.kind == Compressed ==> Decompresses(data, lib)
    ensures var arg := Finish(ty, data, if ty.varlen then |data| else ty.size, out, strict);
      ParseArg(s, i, ty, out, maxMem, strict, lib) == if arg.None? then Fail else Got(arg.value, j)
  {
    hide ReadData, Finish, ReadSize, Decompresses;
  }

  lemma ParseSized(s: seq<Byte>, i: nat, ty: BufferType, out: bool, maxMem: nat, strict: bool, lib: Lib,
                   data: seq<Byte>, j: nat, size: nat, k: nat)
    requires i <= |s| && ReadData(s, i, lib) == Got((data, false), j) && j < |s| && s[j] == SLASH
    requires ReadSize(s, j, maxMem, strict, lib) == Got(size, k) && (ty.kind == Compressed ==> Decompresses(data, lib))
    ensures var arg := Finish(ty, data, if ty.varlen then size else ty.size, out, strict);
      ParseArg(s, i, ty, out, maxMem, strict, lib) == if arg.None? then Fail else Got(arg.value, k)
  {
    hide ReadData, Finish, ReadSize, Decompresses;
  }

  lemma FinishIn(ty: BufferType, shown: seq<Byte>, data: seq<Byte>, strict: bool)
    requires Resize(shown, |data|) == data && (Restricted(ty) ==> data in ty.values)
    ensures Finish(ty, shown, |data|, false, strict) == Some(DataIn(data))
  {
    hide Resize, Restricted;
  }

  lemma {:induction false} OutBack(s: seq<Byte>, i: nat, ty: BufferType, size: nat, maxMem: nat, strict: bool,
                                   b64: seq<Byte> -> seq<Byte>, lib: Lib)
    requires ArgOk(ty, DataOut(size), maxMem, b64, lib)
    requires At(s, i, Print(ty, DataOut(size), b64)) && Delimited(s, i + |Print(ty, DataOut(size), b64)|)
    ensures ParseArg(s, i, ty, true, maxMem, strict, lib) == Got(DataOut(size), i + |Print(ty, DataOut(size), b64)|)
  {
    hide Decimal, ReadSize, ReadData, ParseArg, At, Delimited;
    var t := Decimal(size);
    assert [DQUOTE, DQUOTE, SLASH] + t == [DQUOTE, DQUOTE] + ([SLASH] + t);
    AtSplit(s, i, [DQUOTE, DQUOTE], [SLASH] + t);
    SlashAt(s, i + 2, t);
    NoText(s, i, lib);
    SizeBack(s, i + 2, size, maxMem, strict, lib);
    ParseSized(s, i, ty, true, maxMem, strict, lib, [], i + 2, size, i + 3 + |t|);
  }

  /** Two double quotes are no data. */
  lemma {:induction false} NoText(s: seq<Byte>, i: nat, lib: Lib)
    requires At(s, i, [DQUOTE, DQUOTE]) && Goes(s, i + 2)
    ensures ReadData(s, i, lib) == Got(([], false), i + 2)
  {
    hide ReadData, At, Goes;
    assert HexEncode([]) == [];
    assert [DQUOTE] + HexEncode([]) + [DQUOTE] == [DQUOTE, DQUOTE];
    HexTextBack(s, i, [], lib);
  }

  /** Base 64 between its quotes. */
  lemma {:induction false} B64Back(s: seq<Byte>, i: nat, t: seq<Byte>, data: seq<Byte>, lib: Lib)
    requires At(s, i, [DQUOTE, DOLLAR] + t + [DQUOTE]) && Goes(s, i + |t| + 3)
    requires DQUOTE !in t && lib.unb64(t) == Some(data)
    ensures ReadData(s, i, lib) == Got((data, true), i + |t| + 3)
  {
    hide UntilDquote, SkipWs, HexDecode, Ident;
    var j := i + 2 + |t|;
    B64Place(s, i, t);
    UntilAt(s, i + 2, j);
    NoWs(s, i + 1);
    NoWs(s, j + 1);
  }

  lemma {:induction false} B64Place(s: seq<Byte>, i: nat, t: seq<Byte>)
    requires At(s, i, [DQUOTE, DOLLAR] + t + [DQUOTE]) && DQUOTE !in t
    ensures var j := i + 2 + |t|;
      && j < |s| && s[i] == DQUOTE && s[i + 1] == DOLLAR && s[j] == DQUOTE && s[i + 2..j] == t
      && forall k :: i + 2 <= k < j ==> s[k] != DQUOTE
  {
    var j := i + 2 + |t|;
    AtSplit(s, i, [DQUOTE, DOLLAR] + t, [DQUOTE]);
    AtSplit(s, i, [DQUOTE, DOLLAR], t);
    AtIndex(s, i, [DQUOTE, DOLLAR], 0);
    AtIndex(s, i, [DQUOTE, DOLLAR], 1);
    AtIndex(s, j, [DQUOTE], 0);
    forall k | i + 2 <= k < j ensures s[k] != DQUOTE { AtIndex(s, i + 2, t, k - i - 2); }
  }

  lemma {:induction false} CompressedBack(s: seq<Byte>, i: nat, ty: BufferType, data: seq<Byte>, maxMem: nat,
                                          strict: bool, b64: seq<Byte> -> seq<Byte>, lib: Lib)
    requires ty.kind == Compressed && ArgOk(ty, DataIn(data), maxMem, b64, lib)
    requires At(s, i, Print(ty, DataIn(data), b64)) && Delimited(s, i + |Print(ty, DataIn(data), b64)|)
    ensures ParseArg(s, i, ty, false, maxMem, strict, lib) == Got(DataIn(data), i + |Print(ty, DataIn(data), b64)|)
  {
    hide ReadData, ParseArg, At, Decompresses, Restricted, Finish;
    B64Back(s, i, b64(data), data, lib);
    assert Resize(data, |data|) == data;
    FinishIn(ty, data, data, strict);
    ParseUnsized(s, i, ty, false, maxMem, strict, lib, data, true, i + |b64(data)| + 3);
  }

  /** A text t for the data, followed by a size. */
  lemma {:induction false} SizedBack(s: seq<Byte>, i: nat, ty: BufferType, data: seq<Byte>, shown: seq<Byte>,
                                     t: seq<Byte>, d: seq<Byte>, maxMem: nat, strict: bool, lib: Lib)
    requires ty.kind != Compressed && ty.varlen && |data| <= maxMem && |data| < TWO64
    requires (Restricted(ty) ==> data in ty.values) && Resize(shown, |data|) == data
    requires t == QuotedText(shown, IsReadableKind(ty.kind)) && d == Decimal(|data|)
    requires At(s, i, t + ([SLASH] + d)) && Delimited(s, i + |t| + 1 + |d|)
    ensures ParseArg(s, i, ty, false, maxMem, strict, lib) == Got(DataIn(data), i + |t| + 1 + |d|)
  {
    hide QuotedText, Decimal, ReadSize, ReadData, Resize, ParseArg, Finish, At, Restricted, IsReadableKind, Delimited;
    FinishIn(ty, shown, data, strict);
    AtSplit(s, i, t, [SLASH] + d);
    SlashAt(s, i + |t|, d);
    TextBack(s, i, shown, IsReadableKind(ty.kind), lib);
    SizeBack(s, i + |t|, |data|, maxMem, strict, lib);
    ParseSized(s, i, ty, false, maxMem, strict, lib, shown, i + |t|, |data|, i + |t| + 1 + |d|);
  }

  lemma SlashAt(s: seq<Byte>, i: nat, d: seq<Byte>)
    requires At(s, i, [SLASH] + d)
    ensures i < |s| && s[i] == SLASH && Goes(s, i)
  {
    AtIndex(s, i, [SLASH] + d, 0);
  }

  /** A text t for the data, and nothing more. */
  lemma {:induction false} UnsizedBack(s: seq<Byte>, i: nat, ty: BufferType, data: seq<Byte>, shown: seq<Byte>,
                                       t: seq<Byte>, maxMem: nat, strict: bool, lib: Lib)
    requires ty.kind != Compressed && |data| == (if ty.varlen then |shown| else ty.size)
    requires (Restricted(ty) ==> data in ty.values) && Resize(shown, |data|) == data
    requires t == QuotedText(shown, IsReadableKind(ty.kind)) && At(s, i, t) && Delimited(s, i + |t|)
    ensures ParseArg(s, i, ty, false, maxMem, strict, lib) == Got(DataIn(data), i + |t|)
  {
    hide QuotedText, ReadData, Resize, ParseArg, Finish, At, Restricted, IsReadableKind;
    FinishIn(ty, shown, data, strict);
    TextBack(s, i, shown, IsReadableKind(ty.kind), lib);
    ParseUnsized(s, i, ty, false, maxMem, strict, lib, shown, false, i + |t|);
  }

  lemma PrintSized(ty: BufferType, data: seq<Byte>, b64: seq<Byte> -> seq<Byte>, t: seq<Byte>, d: seq<Byte>)
    requires ty.kind != Compressed && ty.varlen && |data| != |Shown(data, true)|
    requires t == QuotedText(Shown(data, true), IsReadableKind(ty.kind)) && d == Decimal(|data|)
    ensures Print(ty, DataIn(data), b64) == t + ([SLASH] + d) && |t + ([SLASH] + d)| == |t| + 1 + |d|
  {
    hide QuotedText, Shown, Decimal, IsReadableKind;
  }

  lemma PrintUnsized(ty: BufferType, data: seq<Byte>, b64: seq<Byte> -> seq<Byte>, t: seq<Byte>)
    requires ty.kind != Compressed && !(ty.varlen && |data| != |Shown(data, true)|)
    requires t == QuotedText(Shown(data, ty.varlen), IsReadableKind(ty.kind))
    ensures Print(ty, DataIn(data), b64) == t
  {
    hide QuotedText, Shown, Decimal, IsReadableKind;
    assert t + [] == t;
  }

  lemma ArgOkIn(ty: BufferType, data: seq<Byte>, maxMem: nat, b64: seq<Byte> -> seq<Byte>, lib: Lib)
    requires ArgOk(ty, DataIn(data), maxMem, b64, lib)
    ensures |data| <= maxMem && |data| < TWO64 && (!ty.varlen ==> |data| == ty.size)
    ensures Restricted(ty) ==> data in ty.values
  {
    hide Restricted, Decompresses;
  }

  lemma {:induction false} PlainBack(s: seq<Byte>, i: nat, ty: BufferType, data: seq<Byte>, maxMem: nat, strict: bool,
                                     b64: seq<Byte> -> seq<Byte>, lib: Lib)
    requires ty.kind != Compressed && ArgOk(ty, DataIn(data), maxMem, b64, lib)
    requires At(s, i, Print(ty, DataIn(data), b64)) && Delimited(s, i + |Print(ty, DataIn(data), b64)|)
    ensures ParseArg(s, i, ty, false, maxMem, strict, lib) == Got(DataIn(data), i + |Print(ty, DataIn(data), b64)|)
  {
    hide QuotedText, Decimal, Resize, Shown, ParseArg, At, Restricted, IsReadableKind, Print, Delimited, ArgOk;
    var shown := Shown(data, ty.varlen);
    var t := QuotedText(shown, IsReadableKind(ty.kind));
    ArgOkIn(ty, data, maxMem, b64, lib);
    ShownBack(data, ty.varlen);
    if ty.varlen && |data| != |shown| {
      var d := Decimal(|data|);
      PrintSized(ty, data, b64, t, d);
      SizedBack(s, i, ty, data, shown, t, d, maxMem, strict, lib);
    } else {
      PrintUnsized(ty, data, b64, t);
      UnsizedBack(s, i, ty, data, shown, t, maxMem, strict, lib);
    }
  }

  /** The text of an argument, followed by a delimiter, is parsed to the argument, and parsing stops
      at the delimiter, strictly or not. */
  lemma {:induction false} RoundTrip(s: seq<Byte>, i: nat, ty: BufferType, arg: DataArg, maxMem: nat, strict: bool,
                                     b64: seq<Byte> -> seq<Byte>, lib: Lib)
    requires ArgOk(ty, arg, maxMem, b64, lib) && At(s, i, Print(ty, arg, b64))
    requires Delimited(s, i + |Print(ty, arg, b64)|)
    ensures ParseArg(s, i, ty, arg.DataOut?, maxMem, strict, lib) == Got(arg, i + |Print(ty, arg, b64)|)
  {
    hide ParseArg, Print;
    match arg
    case DataOut(size) => OutBack(s, i, ty, size, maxMem, strict, b64, lib);
    case DataIn(data) =>
      if ty.kind == Compressed {
        CompressedBack(s, i, ty, data, maxMem, strict, b64, lib);
      } else {
        PlainBack(s, i, ty, data, maxMem, strict, b64, lib);
      }
  }

  // ----- one line -----

  lemma ByteOneLine(v: Byte)
    ensures NEWLINE !in EncodeByte(v)
  {
  }

  lemma {:induction false} EncodeOneLine(data: seq<Byte>)
    ensures NEWLINE !in Encode(data)
    decreases |data|
  {
    hide EncodeByte;
    if data != [] {
      EncodeOneLine(data[..|data| - 1]);
      ByteOneLine(data[|data| - 1]);
    }
  }

  lemma {:induction false} HexOneLine(data: seq<Byte>)
    ensures NEWLINE !in HexEncode(data)
  {
    hide HexEncode;
    forall k | 0 <= k < |HexEncode(data)| ensures HexEncode(data)[k] != NEWLINE { HexIdent(data, k); }
  }

  lemma {:induction false} DecimalOneLine(n: nat)
    ensures NEWLINE !in Decimal(n)
  {
    hide Decimal, DecimalValue;
    DecimalBack(n);
  }

  /** The text of an argument stays on one line. */
  lemma {:induction false} PrintOneLine(ty: BufferType, arg: DataArg, maxMem: nat, b64: seq<Byte> -> seq<Byte>,
                                        lib: Lib)
    requires ArgOk(ty, arg, maxMem, b64, lib)
    ensures NEWLINE !in Print(ty, arg, b64)
  {
    hide Decimal, Encode, HexEncode, Shown;
    match arg
    case DataOut(size) => DecimalOneLine(size);
    case DataIn(data) =>
      var shown := Shown(data, ty.varlen);
      DecimalOneLine(|data|);
      EncodeOneLine(shown);
      HexOneLine(shown);
  }
}
