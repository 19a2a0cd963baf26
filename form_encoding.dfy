/**
 * The value encoding used for query parameters: `URLEncoder.encode(value, "UTF-8")`, which is the
 * application/x-www-form-urlencoded byte serializer of section 5.2 of the WHATWG URL Standard
 * applied to the UTF-8 bytes of the value. The UTF-8 decoder and the form decoder here are the
 * partners against which the encoder is proved lossless.
 */
module FormEncoding {
  import opened Common

  type byte = x: int | 0 <= x < 256

  // ---------------------------------------------------------------- UTF-8

  /** The UTF-8 bytes of one Unicode scalar value. */
  function Utf8OfChar(c: char): (r: seq<byte>)
    ensures 1 <= |r| <= 4
    ensures (c as int < 0x80) <==> |r| == 1
  {
    var v := c as int;
    if v < 0x80 then [v]
    else if v < 0x800 then [0xC0 + v / 64, 0x80 + v % 64]
    else if v < 0x1_0000 then [0xE0 + v / 4096, 0x80 + (v / 64) % 64, 0x80 + v % 64]
    else [0xF0 + v / 262144, 0x80 + (v / 4096) % 64, 0x80 + (v / 64) % 64, 0x80 + v % 64]
  }

  function Utf8(s: string): seq<byte>
  {
    if |s| == 0 then [] else Utf8OfChar(s[0]) + Utf8(s[1..])
  }

  /** How many bytes a sequence that starts with lead byte `b` takes, or 0 when `b` cannot lead. */
  function LeadLength(b: byte): nat
  {
    if b < 0x80 then 1
    else if 0xC0 <= b < 0xE0 then 2
    else if 0xE0 <= b < 0xF0 then 3
    else if 0xF0 <= b < 0xF8 then 4
    else 0
  }

  predicate IsContinuation(b: byte) { 0x80 <= b < 0xC0 }

  predicate IsScalarValue(v: int) { 0 <= v < 0xD800 || 0xE000 <= v < 0x11_0000 }

  /** Decodes one complete UTF-8 sequence; overlong forms and surrogates are refused. */
  function DecodeChar(b: seq<byte>): Option<char>
    requires 1 <= |b| <= 4 && |b| == LeadLength(b[0])
  {
    if |b| == 1 then Some(b[0] as char)
    else if exists i :: 1 <= i < |b| && !IsContinuation(b[i]) then None
    else
      var v: int :=
        if |b| == 2 then (b[0] as int - 0xC0) * 64 + (b[1] as int - 0x80)
        else if |b| == 3 then (b[0] as int - 0xE0) * 4096 + (b[1] as int - 0x80) * 64 + (b[2] as int - 0x80)
        else (b[0] as int - 0xF0) * 262144 + (b[1] as int - 0x80) * 4096 + (b[2] as int - 0x80) * 64 + (b[3] as int - 0x80);
      var least: int := if |b| == 2 then 0x80 else if |b| == 3 then 0x800 else 0x1_0000;
      if least <= v && IsScalarValue(v) then Some(v as char) else None
  }

  function DecodeUtf8(b: seq<byte>): Option<string>
  {
    if |b| == 0 then Some([])
    else
      var n := LeadLength(b[0]);
      if n == 0 || |b| < n then None
      else match (DecodeChar(b[..n]), DecodeUtf8(b[n..]))
        case (Some(c), Some(rest)) => Some([c] + rest)
        case _ => None
  }

  lemma TwoByteChar(c: char)
    requires 0x80 <= c as int < 0x800
    ensures var b := Utf8OfChar(c); LeadLength(b[0]) == |b| && DecodeChar(b) == Some(c)
  {
    var v := c as int;
    var b := Utf8OfChar(c);
    assert (v / 64) * 64 + v % 64 == v;
    assert b == [0xC0 + v / 64, 0x80 + v % 64];
    assert IsContinuation(b[1]);
  }

  lemma ThreeByteChar(c: char)
    requires 0x800 <= c as int < 0x1_0000
    ensures var b := Utf8OfChar(c); LeadLength(b[0]) == |b| && DecodeChar(b) == Some(c)
  {
    var v := c as int;
    var b := Utf8OfChar(c);
    assert v / 4096 == (v / 64) / 64;
    assert (v / 4096) * 4096 + ((v / 64) % 64) * 64 + v % 64 == v;
    assert b == [0xE0 + v / 4096, 0x80 + (v / 64) % 64, 0x80 + v % 64];
    assert IsContinuation(b[1]) && IsContinuation(b[2]);
  }

  lemma FourByteChar(c: char)
    requires 0x1_0000 <= c as int
    ensures var b := Utf8OfChar(c); LeadLength(b[0]) == |b| && DecodeChar(b) == Some(c)
  {
    var v := c as int;
    var b := Utf8OfChar(c);
    assert v / 4096 == (v / 64) / 64;
    assert v / 262144 == (v / 4096) / 64;
    assert (v / 262144) * 262144 + ((v / 4096) % 64) * 4096 + ((v / 64) % 64) * 64 + v % 64 == v;
    assert b == [0xF0 + v / 262144, 0x80 + (v / 4096) % 64, 0x80 + (v / 64) % 64, 0x80 + v % 64];
    assert IsContinuation(b[1]) && IsContinuation(b[2]) && IsContinuation(b[3]);
  }

  /** Each character's UTF-8 sequence announces its own length and decodes back to the character. */
  lemma CharRoundTrip(c: char)
    ensures var b := Utf8OfChar(c); LeadLength(b[0]) == |b| && DecodeChar(b) == Some(c)
  {
    var v := c as int;
    if v < 0x80 {
    } else if v < 0x800 {
      TwoByteChar(c);
    } else if v < 0x1_0000 {
      ThreeByteChar(c);
    } else {
      FourByteChar(c);
    }
  }

  /** UTF-8 loses nothing: decoding the encoding of any string gives the string back. */
  lemma {:induction false} Utf8RoundTrip(s: string)
    ensures DecodeUtf8(Utf8(s)) == Some(s)
  {
    if |s| > 0 {
      var head := Utf8OfChar(s[0]);
      var b := Utf8(s);
      assert b == head + Utf8(s[1..]);
      CharRoundTrip(s[0]);
      assert b[0] == head[0];
      assert b[..|head|] == head;
      assert b[|head|..] == Utf8(s[1..]);
      Utf8RoundTrip(s[1..]);
      assert [s[0]] + s[1..] == s;
    }
  }

  // ------------------------------------------------ form encoding (URLEncoder)

  /** Bytes that the encoder copies unchanged: ASCII letters and digits and `.` `-` `*` `_`. */
  predicate Unreserved(b: byte)
  {
    ('a' as int <= b <= 'z' as int) || ('A' as int <= b <= 'Z' as int) || ('0' as int <= b <= '9' as int)
    || b == '.' as int || b == '-' as int || b == '*' as int || b == '_' as int
  }

  /** The upper-case hexadecimal digit of `n`. */
  function HexDigit(n: int): (c: char)
    requires 0 <= n < 16
  {
    if n < 10 then ('0' as int + n) as char else ('A' as int + n - 10) as char
  }

  /** What one byte becomes: itself, `+` for a space, `%HH` otherwise. */
  function EncodeByte(b: byte): string
  {
    if Unreserved(b) then [b as char]
    else if b == 0x20 then "+"
    else ['%', HexDigit(b / 16), HexDigit(b % 16)]
  }

  function EncodeBytes(b: seq<byte>): string
  {
    if |b| == 0 then "" else EncodeByte(b[0]) + EncodeBytes(b[1..])
  }

  /** `URLEncoder.encode(s, "UTF-8")`. */
  function FormEncode(s: string): string
  {
    EncodeBytes(Utf8(s))
  }

  /** The characters the encoder can emit. */
  predicate FormChar(c: char)
  {
    ('a' <= c <= 'z') || ('A' <= c <= 'Z') || ('0' <= c <= '9')
    || c == '.' || c == '-' || c == '*' || c == '_' || c == '+' || c == '%'
  }

  predicate IsHex(c: char) { ('0' <= c <= '9') || ('A' <= c <= 'F') || ('a' <= c <= 'f') }

  /** The hexadecimal digits the encoder writes after `%`. */
  predicate UpperHex(c: char) { ('0' <= c <= '9') || ('A' <= c <= 'F') }

  function HexValue(c: char): (n: int)
    requires IsHex(c)
    ensures 0 <= n < 16
  {
    if '0' <= c <= '9' then c as int - '0' as int
    else if 'A' <= c <= 'F' then c as int - 'A' as int + 10
    else c as int - 'a' as int + 10
  }

  /** The inverse of `EncodeBytes`: `+` is a space, `%HH` a byte, an unreserved character itself. */
  function DecodeBytes(s: string): Option<seq<byte>>
  {
    if |s| == 0 then Some([])
    else if s[0] == '+' then
      match DecodeBytes(s[1..])
      case Some(rest) => Some([0x20] + rest)
      case None => None
    else if s[0] == '%' then
      if |s| < 3 || !IsHex(s[1]) || !IsHex(s[2]) then None
      else match DecodeBytes(s[3..])
        case Some(rest) => Some([HexValue(s[1]) * 16 + HexValue(s[2])] + rest)
        case None => None
    else if s[0] as int < 256 && Unreserved(s[0] as int) then
      match DecodeBytes(s[1..])
      case Some(rest) => Some([s[0] as int] + rest)
      case None => None
    else None
  }

  /** `URLDecoder.decode(s, "UTF-8")`, refusing input the encoder never produces. */
  function FormDecode(s: string): Option<string>
  {
    match DecodeBytes(s)
    case Some(b) => DecodeUtf8(b)
    case None => None
  }

  lemma ByteRoundTrip(b: byte, rest: string)
    ensures DecodeBytes(EncodeByte(b) + rest) ==
      (match DecodeBytes(rest) case Some(r) => Some([b] + r) case None => None)
  {
    var e := EncodeByte(b);
    if Unreserved(b) {
      assert (e + rest)[1..] == rest;
    } else if b == 0x20 {
      assert (e + rest)[1..] == rest;
    } else {
      assert (e + rest)[3..] == rest;
      assert HexValue(HexDigit(b / 16)) * 16 + HexValue(HexDigit(b % 16)) == b;
    }
  }

  lemma {:induction false} BytesRoundTrip(b: seq<byte>)
    ensures DecodeBytes(EncodeBytes(b)) == Some(b)
  {
    if |b| > 0 {
      BytesRoundTrip(b[1..]);
      ByteRoundTrip(b[0], EncodeBytes(b[1..]));
      assert [b[0]] + b[1..] == b;
    }
  }

  /** Form encoding loses nothing: decoding the encoding of any value gives the value back. */
  lemma FormRoundTrip(s: string)
    ensures FormDecode(FormEncode(s)) == Some(s)
  {
    BytesRoundTrip(Utf8(s));
    Utf8RoundTrip(s);
  }

  lemma {:induction false} EncodeBytesAlphabet(b: seq<byte>)
    ensures forall i :: 0 <= i < |EncodeBytes(b)| ==> FormChar(EncodeBytes(b)[i])
  {
    if |b| > 0 {
      EncodeBytesAlphabet(b[1..]);
      var e := EncodeByte(b[0]);
      var r := EncodeBytes(b);
      assert r == e + EncodeBytes(b[1..]);
      forall i | 0 <= i < |r| ensures FormChar(r[i]) {
        if i >= |e| {
          assert r[i] == EncodeBytes(b[1..])[i - |e|];
        }
      }
    }
  }

  /** Every `%` the byte encoder writes starts an escape: two upper-case hexadecimal digits follow. */
  lemma {:induction false} EncodeBytesEscapes(b: seq<byte>)
    ensures forall i :: 0 <= i < |EncodeBytes(b)| && EncodeBytes(b)[i] == '%' ==>
      i + 2 < |EncodeBytes(b)| && UpperHex(EncodeBytes(b)[i + 1]) && UpperHex(EncodeBytes(b)[i + 2])
  {
    if |b| > 0 {
      EncodeBytesEscapes(b[1..]);
      var e := EncodeByte(b[0]);
      var rest := EncodeBytes(b[1..]);
      var r := EncodeBytes(b);
      assert r == e + rest;
      forall i | 0 <= i < |r| && r[i] == '%'
        ensures i + 2 < |r| && UpperHex(r[i + 1]) && UpperHex(r[i + 2])
      {
        if i >= |e| {
          assert r[i] == rest[i - |e|];
          assert r[i + 1] == rest[i - |e| + 1] && r[i + 2] == rest[i - |e| + 2];
        } else {
          assert !Unreserved(b[0]) && b[0] != 0x20;
          assert i == 0 && |e| == 3;
        }
      }
    }
  }

  /**
   * The encoder emits only ASCII letters and digits, `.` `-` `*` `_` `+` and `%`; in particular
   * never `&` or `=`, the two characters that structure a query string. Each `%` is followed by
   * two upper-case hexadecimal digits.
   */
  lemma FormEncodeAlphabet(s: string)
    ensures forall i :: 0 <= i < |FormEncode(s)| ==> FormChar(FormEncode(s)[i])
    ensures '&' !in FormEncode(s) && '=' !in FormEncode(s)
    ensures forall i :: 0 <= i < |FormEncode(s)| && FormEncode(s)[i] == '%' ==>
      i + 2 < |FormEncode(s)| && UpperHex(FormEncode(s)[i + 1]) && UpperHex(FormEncode(s)[i + 2])
  {
    EncodeBytesAlphabet(Utf8(s));
    EncodeBytesEscapes(Utf8(s));
  }

  /** A string of unreserved ASCII characters only (a decimal number, say) is left as it is. */
  lemma {:induction false} FormEncodeKeepsUnreserved(s: string)
    requires forall i :: 0 <= i < |s| ==> s[i] as int < 0x80 && Unreserved(s[i] as int)
    ensures FormEncode(s) == s
  {
    if |s| > 0 {
      FormEncodeKeepsUnreserved(s[1..]);
      assert Utf8(s) == [s[0] as int] + Utf8(s[1..]);
      assert EncodeBytes(Utf8(s)) == [s[0]] + EncodeBytes(Utf8(s[1..]));
      assert [s[0]] + s[1..] == s;
    }
  }
}
