/**
 * `encodeURIComponent` and `decodeURIComponent` (ECMAScript sections 19.2.6.4
 * and 19.2.6.2) over strings of Unicode code points, with UTF-8 as in RFC 3629
 * and percent-encoding as in section 2.1 of RFC 3986. The server builds its
 * checkout back-links with the encoder; the success page reads them back with
 * the decoder.
 */
module UriCodec {
  import opened Base

  type Byte = b: int | 0 <= b < 256

  /** Characters `encodeURIComponent` leaves unescaped. */
  predicate IsUnreserved(c: char) {
    ('A' <= c <= 'Z') || ('a' <= c <= 'z') || ('0' <= c <= '9')
    || c == '-' || c == '_' || c == '.' || c == '!' || c == '~' || c == '*'
    || c == '\'' || c == '(' || c == ')'
  }

  /** UTF-8 encoding of one code point. */
  function Utf8(c: char): (bs: seq<Byte>)
    ensures 1 <= |bs| <= 4
  {
    var cp := c as int;
    if cp < 0x80 then [cp]
    else if cp < 0x800 then [0xC0 + cp / 64, 0x80 + cp % 64]
    else if cp < 0x10000 then [0xE0 + cp / 4096, 0x80 + (cp / 64) % 64, 0x80 + cp % 64]
    else [0xF0 + cp / 262144, 0x80 + (cp / 4096) % 64, 0x80 + (cp / 64) % 64, 0x80 + cp % 64]
  }

  /** Upper-case hexadecimal digit, as the encoder writes it. */
  function HexDigit(d: int): (c: char)
    requires 0 <= d < 16
    ensures IsUnreserved(c)
  {
    if d < 10 then ('0' as int + d) as char else ('A' as int + d - 10) as char
  }

  /** Value of a hexadecimal digit of either case, as the decoder reads it. */
  function HexValue(c: char): Option<int>
  {
    if '0' <= c <= '9' then Some(c as int - '0' as int)
    else if 'A' <= c <= 'F' then Some(c as int - 'A' as int + 10)
    else if 'a' <= c <= 'f' then Some(c as int - 'a' as int + 10)
    else None
  }

  function PercentByte(b: Byte): string
  {
    ['%', HexDigit(b / 16), HexDigit(b % 16)]
  }

  function PercentBytes(bs: seq<Byte>): (r: string)
    ensures |r| == 3 * |bs|
    ensures forall i :: 0 <= i < |r| ==> IsUnreserved(r[i]) || r[i] == '%'
  {
    if bs == [] then [] else PercentByte(bs[0]) + PercentBytes(bs[1..])
  }

  function EncodeChar(c: char): (r: string)
    ensures 1 <= |r|
    ensures forall i :: 0 <= i < |r| ==> IsUnreserved(r[i]) || r[i] == '%'
  {
    if IsUnreserved(c) then [c] else PercentBytes(Utf8(c))
  }

  /** `encodeURIComponent`: its output holds only unreserved characters and
      `%`, so never `&`, `#`, `+`, `=` or whitespace. */
  function EncodeURIComponent(s: string): (r: string)
    ensures forall i :: 0 <= i < |r| ==> IsUnreserved(r[i]) || r[i] == '%'
  {
    if s == [] then [] else EncodeChar(s[0]) + EncodeURIComponent(s[1..])
  }

  /** The byte written as `%XY` at the start of `s`, if there is one. */
  function EscapedByte(s: string): Option<Byte>
  {
    if |s| >= 3 && s[0] == '%' && HexValue(s[1]).Some? && HexValue(s[2]).Some?
    then Some(HexValue(s[1]).value * 16 + HexValue(s[2]).value)
    else None
  }

  /** Length of the UTF-8 sequence a first byte announces; 0 if it announces none. */
  function SequenceLength(b: Byte): nat
  {
    if b < 0x80 then 1
    else if 0xC0 <= b < 0xE0 then 2
    else if 0xE0 <= b < 0xF0 then 3
    else if 0xF0 <= b < 0xF8 then 4
    else 0
  }

  /** The payload bits of the `k`-th escape of `s`, if it is a continuation byte. */
  function ContinuationAt(s: string, k: nat): Option<int>
  {
    if |s| < 3 * k + 3 then None
    else match EscapedByte(s[3 * k..])
      case Some(b) => if 0x80 <= b < 0xC0 then Some(b - 0x80) else None
      case None => None
  }

  /** Decodes the first character of `s`: the character and how much of `s` it
      used, or None where `decodeURIComponent` throws a URIError (a malformed
      escape, a stray continuation byte, an overlong form, a surrogate, or a
      code point beyond U+10FFFF). */
  function DecodeStep(s: string): (r: Option<(char, nat)>)
    requires s != []
    ensures r.Some? ==> 1 <= r.value.1 <= |s|
  {
    if s[0] != '%' then Some((s[0], 1))
    else match EscapedByte(s)
      case None => None
      case Some(b0) =>
        var n := SequenceLength(b0);
        if n == 0 then None
        else if n == 1 then Some((b0 as char, 3))
        else if n == 2 then
          match ContinuationAt(s, 1)
          case None => None
          case Some(c1) =>
            var cp := (b0 - 0xC0) * 64 + c1;
            if 0x80 <= cp then Some((cp as char, 6)) else None
        else if n == 3 then
          match (ContinuationAt(s, 1), ContinuationAt(s, 2))
          case (Some(c1), Some(c2)) =>
            var cp := (b0 - 0xE0) * 4096 + c1 * 64 + c2;
            if 0x800 <= cp && !(0xD800 <= cp < 0xE000) then Some((cp as char, 9)) else None
          case _ => None
        else
          match (ContinuationAt(s, 1), ContinuationAt(s, 2), ContinuationAt(s, 3))
          case (Some(c1), Some(c2), Some(c3)) =>
            var cp := (b0 - 0xF0) * 262144 + c1 * 4096 + c2 * 64 + c3;
            if 0x10000 <= cp < 0x110000 then Some((cp as char, 12)) else None
          case _ => None
  }

  /** `decodeURIComponent`; None stands for the URIError it throws. */
  function DecodeURIComponent(s: string): Option<string>
    decreases |s|
  {
    if s == [] then Some([])
    else match DecodeStep(s)
      case None => None
      case Some((c, n)) =>
        match DecodeURIComponent(s[n..])
        case None => None
        case Some(rest) => Some([c] + rest)
  }

  lemma {:induction false} HexRoundTrip(b: Byte, rest: string)
    ensures EscapedByte(PercentByte(b) + rest) == Some(b)
  {
    var s := PercentByte(b) + rest;
    assert s[1] == HexDigit(b / 16) && s[2] == HexDigit(b % 16);
  }

  lemma {:induction false} PercentBytesSplit(bs: seq<Byte>, rest: string, k: nat)
    requires k < |bs|
    ensures (PercentBytes(bs) + rest)[3 * k..] == PercentByte(bs[k]) + (PercentBytes(bs[k + 1..]) + rest)
  {
    var s := PercentBytes(bs) + rest;
    var t := PercentBytes(bs[1..]) + rest;
    assert s == PercentByte(bs[0]) + t;
    if k == 0 {
      assert bs[1..] == bs[k + 1..];
    } else {
      assert s[3..] == t;
      assert s[3 * k..] == t[3 * (k - 1)..];
      PercentBytesSplit(bs[1..], rest, k - 1);
      assert bs[1..][k - 1] == bs[k];
      assert bs[1..][k..] == bs[k + 1..];
    }
  }

  lemma {:induction false} ContinuationOf(bs: seq<Byte>, rest: string, k: nat)
    requires 0 < k < |bs| && 0x80 <= bs[k] < 0xC0
    ensures ContinuationAt(PercentBytes(bs) + rest, k) == Some(bs[k] - 0x80)
  {
    PercentBytesSplit(bs, rest, k);
    HexRoundTrip(bs[k], PercentBytes(bs[k + 1..]) + rest);
  }

  lemma {:induction false} LeadOf(bs: seq<Byte>, rest: string)
    requires 0 < |bs|
    ensures var s := PercentBytes(bs) + rest; s != [] && s[0] == '%' && EscapedByte(s) == Some(bs[0])
  {
    var s := PercentBytes(bs) + rest;
    assert s == PercentByte(bs[0]) + (PercentBytes(bs[1..]) + rest);
    HexRoundTrip(bs[0], PercentBytes(bs[1..]) + rest);
  }

  lemma {:induction false} DivMod64(cp: int)
    requires 0 <= cp
    ensures cp == (cp / 64) * 64 + cp % 64
    ensures cp / 64 == (cp / 4096) * 64 + (cp / 64) % 64
    ensures cp / 4096 == (cp / 262144) * 64 + (cp / 4096) % 64
  {
  }

  lemma {:induction false} EncodeTwoBytes(c: char, rest: string)
    requires 0x80 <= c as int < 0x800
    ensures DecodeStep(PercentBytes(Utf8(c)) + rest) == Some((c, 6))
  {
    var cp := c as int;
    var bs := Utf8(c);
    var s := PercentBytes(bs) + rest;
    LeadOf(bs, rest);
    ContinuationOf(bs, rest, 1);
    assert cp == (cp / 64) * 64 + cp % 64;
  }

  /** The three bytes of a character from U+0800 to U+FFFF: a lead byte
      announcing three, two continuation bytes, and the code point rebuilt
      from their payloads. */
  lemma {:induction false} ThreeByteLayout(c: char)
    requires 0x800 <= c as int < 0x10000
    ensures var bs, cp := Utf8(c), c as int;
      && |bs| == 3 && SequenceLength(bs[0]) == 3
      && 0x80 <= bs[1] < 0xC0 && 0x80 <= bs[2] < 0xC0
      && (bs[0] as int - 0xE0) * 4096 + (bs[1] as int - 0x80) * 64 + (bs[2] as int - 0x80) == cp
  {
    var cp := c as int;
    DivMod64(cp);
    var q1, q2 := cp / 64, cp / 4096;
    assert q1 == q2 * 64 + q1 % 64;
    assert cp == q2 * 4096 + (q1 % 64) * 64 + cp % 64;
    assert q2 < 16;
  }

  /** The four bytes of a character from U+10000 on, likewise. */
  lemma {:induction false} FourByteLayout(c: char)
    requires 0x10000 <= c as int
    ensures var bs, cp := Utf8(c), c as int;
      && |bs| == 4 && SequenceLength(bs[0]) == 4
      && 0x80 <= bs[1] < 0xC0 && 0x80 <= bs[2] < 0xC0 && 0x80 <= bs[3] < 0xC0
      && (bs[0] as int - 0xF0) * 262144 + (bs[1] as int - 0x80) * 4096 + (bs[2] as int - 0x80) * 64 + (bs[3] as int - 0x80) == cp
  {
    var cp := c as int;
    DivMod64(cp);
    var q1, q2, q3 := cp / 64, cp / 4096, cp / 262144;
    assert q1 == q2 * 64 + q1 % 64;
    assert q2 == q3 * 64 + q2 % 64;
    assert cp == q2 * 4096 + (q1 % 64) * 64 + cp % 64;
    assert cp == q3 * 262144 + (q2 % 64) * 4096 + (q1 % 64) * 64 + cp % 64;
    assert q3 < 8;
  }

  /** How the decoder reads a three-byte sequence once its escapes are known. */
  lemma {:induction false} DecodeThree(s: string, b0: Byte, c1: int, c2: int)
    requires s != [] && s[0] == '%' && EscapedByte(s) == Some(b0) && SequenceLength(b0) == 3
    requires ContinuationAt(s, 1) == Some(c1) && ContinuationAt(s, 2) == Some(c2)
    requires 0x800 <= (b0 - 0xE0) * 4096 + c1 * 64 + c2 < 0xD800
      || 0xE000 <= (b0 - 0xE0) * 4096 + c1 * 64 + c2 < 0x10000
    ensures DecodeStep(s) == Some((((b0 - 0xE0) * 4096 + c1 * 64 + c2) as char, 9))
  {
  }

  /** How the decoder reads a four-byte sequence once its escapes are known. */
  lemma {:induction false} DecodeFour(s: string, b0: Byte, c1: int, c2: int, c3: int)
    requires s != [] && s[0] == '%' && EscapedByte(s) == Some(b0) && SequenceLength(b0) == 4
    requires ContinuationAt(s, 1) == Some(c1) && ContinuationAt(s, 2) == Some(c2) && ContinuationAt(s, 3) == Some(c3)
    requires 0x10000 <= (b0 - 0xF0) * 262144 + c1 * 4096 + c2 * 64 + c3 < 0x110000
    ensures DecodeStep(s) == Some((((b0 - 0xF0) * 262144 + c1 * 4096 + c2 * 64 + c3) as char, 12))
  {
  }

  /** Three escaped bytes forming a valid sequence decode to one character. */
  lemma {:induction false} DecodeThreeEscapes(bs: seq<Byte>, rest: string)
    requires |bs| == 3 && SequenceLength(bs[0]) == 3
    requires 0x80 <= bs[1] < 0xC0 && 0x80 <= bs[2] < 0xC0
    requires var cp := (bs[0] as int - 0xE0) * 4096 + (bs[1] as int - 0x80) * 64 + (bs[2] as int - 0x80);
      0x800 <= cp < 0xD800 || 0xE000 <= cp < 0x10000
    ensures DecodeStep(PercentBytes(bs) + rest)
      == Some((((bs[0] as int - 0xE0) * 4096 + (bs[1] as int - 0x80) * 64 + (bs[2] as int - 0x80)) as char, 9))
  {
    var s := PercentBytes(bs) + rest;
    LeadOf(bs, rest);
    ContinuationOf(bs, rest, 1);
    ContinuationOf(bs, rest, 2);
    DecodeThree(s, bs[0], bs[1] - 0x80, bs[2] - 0x80);
  }

  /** Four escaped bytes forming a valid sequence decode to one character. */
  lemma {:induction false} DecodeFourEscapes(bs: seq<Byte>, rest: string)
    requires |bs| == 4 && SequenceLength(bs[0]) == 4
    requires 0x80 <= bs[1] < 0xC0 && 0x80 <= bs[2] < 0xC0 && 0x80 <= bs[3] < 0xC0
    requires 0x10000 <= (bs[0] as int - 0xF0) * 262144 + (bs[1] as int - 0x80) * 4096 + (bs[2] as int - 0x80) * 64 + (bs[3] as int - 0x80) < 0x110000
    ensures DecodeStep(PercentBytes(bs) + rest)
      == Some((((bs[0] as int - 0xF0) * 262144 + (bs[1] as int - 0x80) * 4096 + (bs[2] as int - 0x80) * 64 + (bs[3] as int - 0x80)) as char, 12))
  {
    var s := PercentBytes(bs) + rest;
    LeadOf(bs, rest);
    ContinuationOf(bs, rest, 1);
    ContinuationOf(bs, rest, 2);
    ContinuationOf(bs, rest, 3);
    DecodeFour(s, bs[0], bs[1] - 0x80, bs[2] - 0x80, bs[3] - 0x80);
  }

  lemma {:induction false} EncodeThreeBytes(c: char, rest: string)
    requires 0x800 <= c as int < 0x10000
    ensures DecodeStep(PercentBytes(Utf8(c)) + rest) == Some((c, 9))
  {
    ThreeByteLayout(c);
    DecodeThreeEscapes(Utf8(c), rest);
  }

  lemma {:induction false} EncodeFourBytes(c: char, rest: string)
    requires 0x10000 <= c as int
    ensures DecodeStep(PercentBytes(Utf8(c)) + rest) == Some((c, 12))
  {
    FourByteLayout(c);
    DecodeFourEscapes(Utf8(c), rest);
  }

  /** Decoding the encoding of a character gives the character back and uses
      exactly its encoding. */
  lemma {:induction false} DecodeStepOfEncoded(c: char, rest: string)
    ensures DecodeStep(EncodeChar(c) + rest) == Some((c, |EncodeChar(c)|))
  {
    var cp := c as int;
    if !IsUnreserved(c) {
      var bs := Utf8(c);
      if cp < 0x80 {
        assert PercentBytes(bs) == PercentByte(bs[0]);
        HexRoundTrip(bs[0], rest);
      } else if cp < 0x800 {
        EncodeTwoBytes(c, rest);
      } else if cp < 0x10000 {
        EncodeThreeBytes(c, rest);
      } else {
        EncodeFourBytes(c, rest);
      }
    }
  }

  /** Round trip: `decodeURIComponent(encodeURIComponent(s)) === s`. */
  lemma {:induction false} DecodeEncode(s: string)
    ensures DecodeURIComponent(EncodeURIComponent(s)) == Some(s)
  {
    if s != [] {
      var e := EncodeChar(s[0]);
      var tail := EncodeURIComponent(s[1..]);
      DecodeStepOfEncoded(s[0], tail);
      assert (e + tail)[|e|..] == tail;
      DecodeEncode(s[1..]);
      assert [s[0]] + s[1..] == s;
    }
  }

  /** A string without `%` decodes to itself. */
  lemma {:induction false} DecodePlain(s: string)
    requires '%' !in s
    ensures DecodeURIComponent(s) == Some(s)
  {
    if s != [] {
      DecodePlain(s[1..]);
      assert [s[0]] + s[1..] == s;
    }
  }
}
