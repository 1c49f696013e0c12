/** The serializer's buffer and the parser's cursor. */
module DataImpl {
  import opened Common
  import opened DataText
  import opened DataParse

  /** isReadableData. */
  method CheckReadable(data: seq<Byte>) returns (b: bool)
    ensures b <==> IsReadableData(data)
  {
    if |data| == 0 { return false; }
    for i := 0 to |data|
      invariant forall k :: 0 <= k < i ==> IsReadable(data[k])
    {
      if !IsReadable(data[i]) { return false; }
    }
    return true;
  }

  /** The loop that strips zeros. */
  method StripZeros(data: seq<Byte>) returns (t: seq<Byte>)
    ensures t == Trim(data)
  {
    t := data;
    while |t| >= 2 && t[|t| - 1] == 0 && t[|t| - 2] == 0
      invariant |t| <= |data| && Trim(t) == Trim(data)
    {
      t := t[..|t| - 1];
    }
  }

  class Serializer {
    var buf: seq<Byte>

    constructor ()
      ensures buf == []
    {
      buf := [];
    }

    /** encodeData, for readable data. */
    method EncodeData(data: seq<Byte>)
      modifies this
      ensures buf == old(buf) + Encode(data)
    {
      hide EncodeByte;
      ghost var b := buf;
      for i := 0 to |data|
        invariant buf == b + Encode(data[..i])
      {
        assert data[..i + 1][..i] == data[..i];
        WriteEncoded(data[i]);
      }
      assert data[..|data|] == data;
    }

    method WriteEncoded(v: Byte)
      modifies this
      ensures buf == old(buf) + EncodeByte(v)
    {
      if EscapeOf(v).Some? {
        buf := buf + [BACKSLASH, EscapeOf(v).value];
      } else if IsPrintable(v) {
        buf := buf + [v];
      } else {
        var lo, hi := ToHexChar(v % 16), ToHexChar(v / 16);
        buf := buf + [BACKSLASH, LOWER_X, hi, lo];
      }
    }

    /** serializeData. */
    method SerializeData(data: seq<Byte>, readable: bool)
      modifies this
      ensures buf == old(buf) + QuotedText(data, readable)
    {
      hide Encode, HexEncode, IsReadableData;
      var plain := CheckReadable(data);
      if !readable && !plain {
        buf := buf + ([DQUOTE] + HexEncode(data) + [DQUOTE]);
        return;
      }
      buf := buf + [QUOTE];
      EncodeData(data);
      buf := buf + [QUOTE];
    }

    /** DataArg.serialize. */
    method Serialize(ty: BufferType, arg: DataArg, b64: seq<Byte> -> seq<Byte>)
      modifies this
      ensures buf == old(buf) + Print(ty, arg, b64)
    {
      hide QuotedText, Decimal, Trim;
      match arg
      case DataOut(size) => buf := buf + ([DQUOTE, DQUOTE, SLASH] + Decimal(size));
      case DataIn(full) =>
        if ty.kind == Compressed {
          buf := buf + ([DQUOTE, DOLLAR] + b64(full) + [DQUOTE]);
        } else {
          var sz := |full|;
          var data := StripZeros(full);
          if ty.varlen && |data| + 8 >= sz { data := full; }
          SerializeData(data, IsReadableKind(ty.kind));
          if ty.varlen && sz != |data| { buf := buf + ([SLASH] + Decimal(sz)); }
        }
    }
  }

  class Parser {
    const s: seq<Byte>
    const lib: Lib
    const strict: bool
    const maxMem: nat
    var i: nat
    var e: bool

    constructor (s: seq<Byte>, lib: Lib, strict: bool, maxMem: nat)
      ensures this.s == s && this.lib == lib && this.strict == strict && this.maxMem == maxMem && i == 0 && !e
    {
      this.s, this.lib, this.strict, this.maxMem := s, lib, strict, maxMem;
      i, e := 0, false;
    }

    method Char() returns (c: Byte)
      requires i <= |s|
      modifies `e
      ensures if !old(e) && i < |s| then !e && c == s[i] else e && c == 0
    {
      if e { return 0; }
      if i == |s| {
        e := true;
        return 0;
      }
      return s[i];
    }

    method SkipSpace()
      requires i <= |s|
      modifies `i
      ensures i == SkipWs(s, old(i))
    {
      while i < |s| && IsWs(s[i])
        invariant i <= |s| && SkipWs(s, i) == SkipWs(s, old(i))
      {
        i := i + 1;
      }
    }

    /** Parse. */
    method Parse(c: Byte)
      requires i <= |s|
      modifies this
      ensures i <= |s| && (old(e) ==> e)
      ensures !old(e) ==> match Accept(s, old(i), c)
        case Fail => e
        case Got(_, j) => !e && i == j
    {
      hide SkipWs;
      if e { return; }
      if i == |s| || s[i] != c {
        e := true;
        return;
      }
      i := i + 1;
      SkipSpace();
    }

    method Consume() returns (c: Byte)
      requires i <= |s|
      modifies this
      ensures i <= |s|
      ensures if !old(e) && old(i) < |s| then !e && c == s[old(i)] && i == old(i) + 1 else e && c == 0 && i == old(i)
    {
      if e { return 0; }
      if i == |s| {
        e := true;
        return 0;
      }
      c := s[i];
      i := i + 1;
    }

    method ParseIdent() returns (t: seq<Byte>)
      requires i <= |s|
      modifies this
      ensures i <= |s| && (old(e) ==> e)
      ensures !old(e) ==> match Ident(s, old(i))
        case Fail => e
        case Got(v, j) => !e && t == v && i == j
    {
      hide SkipWs;
      var start := i;
      while i < |s| && IsIdent(s[i])
        invariant start <= i <= |s| && IdentEnd(s, i) == IdentEnd(s, start) && e == old(e)
      {
        i := i + 1;
      }
      if start == i {
        e := true;
        return [];
      }
      t := s[start..i];
      SkipSpace();
    }

    /** The escape behind a backslash. */
    method ReadEscape() returns (ok: bool, b: Byte)
      requires 0 < i <= |s| && !e && s[i - 1] == BACKSLASH
      modifies this
      ensures i <= |s|
      ensures match ReadByte(s, old(i) - 1)
        case Fail => !ok
        case Got(v, j) => ok && !e && b == v && i == j
    {
      var v := Consume();
      if v == LOWER_X {
        var hi := Consume();
        var lo := Consume();
        var h, l := FromHexChar(hi), FromHexChar(lo);
        if h.None? || l.None? { return false, 0; }
        return true, 16 * h.value + l.value;
      }
      if Unescape(v).None? { return false, 0; }
      return true, Unescape(v).value;
    }

    method ReadReadableData() returns (ok: bool, data: seq<Byte>)
      requires i <= |s| && !e
      modifies this
      ensures i <= |s|
      ensures match ReadReadable(s, old(i), [])
        case Fail => !ok || e
        case Got(d, j) => ok && !e && data == d && i == j
    {
      hide ReadByte, SkipWs;
      ghost var want := ReadReadable(s, i, []);
      data := [];
      while true
        invariant i <= |s| && !e && want == ReadReadable(s, i, data)
        decreases |s| - i
      {
        ghost var here := i;
        var c := Char();
        if e { return true, data; }
        if c == QUOTE || c == 0 { break; }
        var v := Consume();
        assert v == s[here];
        PlainByte(here);
        if v != BACKSLASH {
          data := data + [v];
        } else {
          var b;
          ok, b := ReadEscape();
          if !ok { return; }
          data := data + [b];
        }
      }
      Parse(QUOTE);
      ok := true;
    }

    lemma PlainByte(j: nat)
      requires j < |s|
      ensures s[j] != BACKSLASH ==> ReadByte(s, j) == Got(s[j], j + 1)
    {
    }

    /** Everything up to the next double quote. */
    method ReadRaw() returns (raw: seq<Byte>)
      requires i <= |s| && !e
      modifies this
      ensures !e && i == UntilDquote(s, old(i)) && raw == s[old(i)..i]
    {
      raw := [];
      ghost var start := i;
      while i < |s| && s[i] != DQUOTE
        invariant start <= i <= |s| && !e && raw == s[start..i] && UntilDquote(s, i) == UntilDquote(s, start)
      {
        ghost var k := i;
        var v := Consume();
        raw := raw + [v];
        assert s[start..k + 1] == s[start..k] + [s[k]];
      }
    }

    method ReadQuotedData() returns (ok: bool, data: seq<Byte>, b64: bool)
      requires i <= |s| && !e
      modifies this
      ensures i <= |s|
      ensures match ReadQuoted(s, old(i), lib)
        case Fail => !ok || e
        case Got(d, j) => ok && !e && data == d.0 && b64 == d.1 && i == j
    {
      hide SkipWs, HexDecode, Ident;
      var c := Char();
      if e { return true, [], false; }
      if c == DOLLAR {
        c := Consume();
        var raw := ReadRaw();
        Parse(DQUOTE);
        var decoded := lib.unb64(raw);
        if decoded.None? { return false, [], false; }
        return true, decoded.value, true;
      }
      var val: seq<Byte> := [];
      if c != DQUOTE { val := ParseIdent(); }
      Parse(DQUOTE);
      var decoded := HexDecode(val);
      if decoded.None? { return false, [], false; }
      return true, decoded.value, false;
    }

    /** deserializeData. */
    method DeserializeData() returns (ok: bool, data: seq<Byte>, b64: bool)
      requires i <= |s| && !e
      modifies this
      ensures i <= |s|
      ensures match ReadData(s, old(i), lib)
        case Fail => !ok || e
        case Got(d, j) => ok && !e && data == d.0 && b64 == d.1 && i == j
    {
      hide ReadQuoted, ReadReadable, SkipWs;
      var c := Char();
      if e { return true, [], false; }
      if c == DQUOTE {
        Parse(DQUOTE);
        ok, data, b64 := ReadQuotedData();
        return;
      }
      c := Consume();
      if c != QUOTE { return false, [], false; }
      ok, data := ReadReadableData();
      b64 := false;
    }

    method ParseSize() returns (ok: bool, size: nat)
      requires i <= |s| && !e
      modifies this
      ensures i <= |s|
      ensures match ReadSize(s, old(i), maxMem, strict, lib)
        case Fail => !ok || e
        case Got(n, j) => ok && !e && size == n && i == j
    {
      hide Accept, Ident, ParseUint;
      Parse(SLASH);
      var sizeStr := ParseIdent();
      if e { return true, 0; }
      var n := ParseUint(sizeStr, lib);
      if n.None? { return false, 0; }
      size := n.value;
      if size > maxMem {
        if strict { e := true; }
        size := maxMem;
      }
      ok := true;
    }

    /** parseArgString. */
    method ParseArgString(ty: BufferType, out: bool) returns (ok: bool, arg: DataArg)
      requires i <= |s| && !e
      modifies this
      ensures i <= |s|
      ensures match ParseArg(s, old(i), ty, out, maxMem, strict, lib)
        case Fail => !ok || e
        case Got(a, j) => ok && !e && arg == a && i == j
    {
      hide ReadData, ReadSize, Resize;
      var data, b64;
      ok, data, b64 := DeserializeData();
      if !ok || e { return ok, DataOut(0); }
      if ty.kind == Compressed && !Decompresses(data, lib) {
        if strict { e := true; }
        data := lib.empty;
      }
      var sized: Option<nat> := None;
      var c := Char();
      if e { return true, DataOut(0); }
      if c == SLASH && !b64 {
        var size;
        ok, size := ParseSize();
        if !ok { return false, DataOut(0); }
        sized := Some(size);
      }
      var size := if !ty.varlen then ty.size else if sized.None? then |data| else sized.value;
      if out { return true, DataOut(size); }
      data := Resize(data, size);
      if Restricted(ty) && data !in ty.values {
        if strict { e := true; }
        data := ty.values[0];
      }
      return true, DataIn(data);
    }
  }
}
