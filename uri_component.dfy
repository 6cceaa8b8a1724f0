/**
 * `encodeURIComponent`, which the OAuth callback uses to put a message into
 * the error page's query string, and the decoding the error page applies when
 * it reads that parameter back (`URLSearchParams.get`: application/x-www-
 * form-urlencoded, i.e. percent-decoding, '+' as space, then UTF-8).
 */
module UriComponent {
  import opened Wrappers

  type Byte = b: int | 0 <= b < 256

  /** The characters `encodeURIComponent` leaves alone: A-Z a-z 0-9 - _ . ! ~ * ' ( ) */
  predicate IsUnreserved(c: char) {
    ('A' <= c <= 'Z') || ('a' <= c <= 'z') || ('0' <= c <= '9')
    || c == '-' || c == '_' || c == '.' || c == '!' || c == '~' || c == '*' || c == '\'' || c == '(' || c == ')'
  }

  /** The upper-case hexadecimal digit for 0 .. 15: '0' .. '9', then 'A' .. 'F'. */
  function HexDigit(d: int): (c: char)
    requires 0 <= d < 16
    ensures ('0' <= c <= '9') || ('A' <= c <= 'F')
  {
    if d < 10 then ('0' as int + d) as char else ('A' as int + d - 10) as char
  }

  /** The UTF-8 encoding of one code point: one to four bytes. */
  function Utf8Char(c: char): (bs: seq<Byte>)
    ensures 1 <= |bs| <= 4
    ensures |bs| == 1 <==> c as int < 0x80
  {
    var n := c as int;
    if n < 0x80 then [n]
    else if n < 0x800 then [0xC0 + n / 64, 0x80 + n % 64]
    else if n < 0x10000 then [0xE0 + n / 4096, 0x80 + (n / 64) % 64, 0x80 + n % 64]
    else [0xF0 + n / 0x40000, 0x80 + (n / 4096) % 64, 0x80 + (n / 64) % 64, 0x80 + n % 64]
  }

  /** The UTF-8 encoding of a string. */
  function Utf8(s: string): seq<Byte>
  {
    if s == "" then [] else Utf8Char(s[0]) + Utf8(s[1..])
  }

  predicate IsContinuation(b: Byte) {
    0x80 <= b < 0xC0
  }

  /**
   * The first code point of a UTF-8 byte sequence and how many bytes it
   * takes; None for an ill-formed sequence (a stray continuation byte, an
   * overlong form, a surrogate, or a value beyond U+10FFFF).
   */
  function Utf8DecodeFirst(bs: seq<Byte>): (r: Option<(char, nat)>)
    requires |bs| > 0
    ensures r.Some? ==> 1 <= r.value.1 <= |bs|
  {
    var b0 := bs[0] as int;
    if b0 < 0x80 then Some((b0 as char, 1))
    else if 0xC2 <= b0 < 0xE0 && |bs| >= 2 && IsContinuation(bs[1]) then
      Some((((b0 - 0xC0) * 64 + (bs[1] as int - 0x80)) as char, 2))
    else if 0xE0 <= b0 < 0xF0 && |bs| >= 3 && IsContinuation(bs[1]) && IsContinuation(bs[2]) then
      var cp := ((b0 - 0xE0) * 64 + (bs[1] as int - 0x80)) * 64 + (bs[2] as int - 0x80);
      if 0x800 <= cp && !(0xD800 <= cp < 0xE000) then Some((cp as char, 3)) else None
    else if 0xF0 <= b0 < 0xF5 && |bs| >= 4 && IsContinuation(bs[1]) && IsContinuation(bs[2]) && IsContinuation(bs[3]) then
      var cp := (((b0 - 0xF0) * 64 + (bs[1] as int - 0x80)) * 64 + (bs[2] as int - 0x80)) * 64 + (bs[3] as int - 0x80);
      if 0x10000 <= cp <= 0x10FFFF then Some((cp as char, 4)) else None
    else None
  }

  /** Strict UTF-8 decoding; None when the bytes are not well-formed UTF-8. */
  function Utf8Decode(bs: seq<Byte>): Option<string>
    decreases |bs|
  {
    if bs == [] then Some("")
    else match Utf8DecodeFirst(bs)
      case None => None
      case Some((c, len)) =>
        match Utf8Decode(bs[len..])
        case None => None
        case Some(rest) => Some([c] + rest)
  }

  /** Decoding the UTF-8 form of a code point gives the code point back, whatever follows it. */
  lemma Utf8CharRoundTrip(c: char, rest: seq<Byte>)
    ensures Utf8DecodeFirst(Utf8Char(c) + rest) == Some((c, |Utf8Char(c)|))
  {
    var n := c as int;
    var bs := Utf8Char(c) + rest;
    if n < 0x80 {
    } else if n < 0x800 {
      assert (n / 64) * 64 + n % 64 == n;
    } else if n < 0x10000 {
      Split3(n);
    } else {
      Split4(n);
    }
  }

  lemma Split3(n: int)
    requires 0x800 <= n < 0x10000
    ensures ((n / 4096) * 64 + (n / 64) % 64) * 64 + n % 64 == n
  {
    assert n / 4096 == (n / 64) / 64;
  }

  lemma Split4(n: int)
    requires 0x10000 <= n < 0x110000
    ensures (((n / 0x40000) * 64 + (n / 4096) % 64) * 64 + (n / 64) % 64) * 64 + n % 64 == n
  {
    assert n / 0x40000 == (n / 4096) / 64;
    assert n / 4096 == (n / 64) / 64;
  }

  /** UTF-8 decoding undoes UTF-8 encoding. */
  lemma {:induction false} Utf8RoundTrip(s: string)
    ensures Utf8Decode(Utf8(s)) == Some(s)
  {
    if s != "" {
      var head := Utf8Char(s[0]);
      Utf8CharRoundTrip(s[0], Utf8(s[1..]));
      assert (head + Utf8(s[1..]))[|head|..] == Utf8(s[1..]);
      Utf8RoundTrip(s[1..]);
      assert [s[0]] + s[1..] == s;
    }
  }

  /** "%XY" for one byte, with upper-case hexadecimal digits. */
  function PercentByte(b: Byte): string
  {
    ['%', HexDigit(b / 16), HexDigit(b % 16)]
  }

  function PercentBytes(bs: seq<Byte>): string
  {
    if bs == [] then "" else PercentByte(bs[0]) + PercentBytes(bs[1..])
  }

  /** The characters `encodeURIComponent` can produce. */
  predicate IsEncodedChar(c: char) {
    IsUnreserved(c) || c == '%'
  }

  /**
   * `encodeURIComponent(s)`: every character outside the unreserved set is
   * replaced by the percent-escapes of its UTF-8 bytes.
   */
  function EncodeUriComponent(s: string): (r: string)
  {
    if s == "" then "" else EncodeChar(s[0]) + EncodeUriComponent(s[1..])
  }

  /** One character: itself when unreserved, else the escapes of its UTF-8 bytes. */
  function EncodeChar(c: char): (r: string)
  {
    if IsUnreserved(c) then [c] else PercentBytes(Utf8Char(c))
  }

  lemma {:induction false} PercentBytesAlphabet(bs: seq<Byte>)
    ensures forall i :: 0 <= i < |PercentBytes(bs)| ==> IsEncodedChar(PercentBytes(bs)[i])
  {
    if bs != [] {
      PercentBytesAlphabet(bs[1..]);
    }
  }

  /** `encodeURIComponent` only ever produces unreserved characters (the hexadecimal digits among them) and '%'. */
  lemma {:induction false} EncodedAlphabet(s: string)
    ensures forall i :: 0 <= i < |EncodeUriComponent(s)| ==> IsEncodedChar(EncodeUriComponent(s)[i])
  {
    if s != "" {
      EncodedAlphabet(s[1..]);
      PercentBytesAlphabet(Utf8Char(s[0]));
      var h := EncodeChar(s[0]);
      var t := EncodeUriComponent(s[1..]);
      forall i | 0 <= i < |h + t| ensures IsEncodedChar((h + t)[i]) {
        if i < |h| { assert (h + t)[i] == h[i]; } else { assert (h + t)[i] == t[i - |h|]; }
      }
    }
  }

  /** The value of a hexadecimal digit of either case, or -1. */
  function HexValue(c: char): (v: int)
    ensures -1 <= v < 16
  {
    if '0' <= c <= '9' then c as int - '0' as int
    else if 'A' <= c <= 'F' then c as int - 'A' as int + 10
    else if 'a' <= c <= 'f' then c as int - 'a' as int + 10
    else -1
  }

  /**
   * The bytes a form-urlencoded value stands for: "%XY" with two hexadecimal
   * digits is that byte, '+' is a space, and any other character stands for
   * its own UTF-8 bytes.
   */
  function FormBytes(t: string): seq<Byte>
  {
    if t == "" then []
    else if |t| >= 3 && t[0] == '%' && HexValue(t[1]) >= 0 && HexValue(t[2]) >= 0 then
      [HexValue(t[1]) * 16 + HexValue(t[2])] + FormBytes(t[3..])
    else if t[0] == '+' then [0x20] + FormBytes(t[1..])
    else Utf8Char(t[0]) + FormBytes(t[1..])
  }

  /** The string the error page reads back from a query parameter value. */
  function FormDecode(t: string): Option<string>
  {
    Utf8Decode(FormBytes(t))
  }

  /** One escape "%XY" reads back as its byte. */
  lemma FormBytesOneEscape(b: Byte, tail: string)
    ensures FormBytes(PercentByte(b) + tail) == [b] + FormBytes(tail)
  {
    assert HexValue(HexDigit(b / 16)) == b / 16;
    assert HexValue(HexDigit(b % 16)) == b % 16;
    var t := PercentByte(b) + tail;
    assert t[0] == '%' && t[1] == HexDigit(b / 16) && t[2] == HexDigit(b % 16);
    assert t[3..] == tail;
  }

  lemma {:induction false} FormBytesPercent(bs: seq<Byte>, rest: string)
    ensures FormBytes(PercentBytes(bs) + rest) == bs + FormBytes(rest)
  {
    if bs != [] {
      PercentBytesCons(bs, rest);
      FormBytesOneEscape(bs[0], PercentBytes(bs[1..]) + rest);
      FormBytesPercent(bs[1..], rest);
      assert [bs[0]] + bs[1..] == bs;
    } else {
      assert PercentBytes(bs) + rest == rest;
    }
  }

  lemma PercentBytesCons(bs: seq<Byte>, rest: string)
    requires bs != []
    ensures PercentBytes(bs) + rest == PercentByte(bs[0]) + (PercentBytes(bs[1..]) + rest)
  {
  }

  lemma {:induction false} FormBytesOfEncoding(s: string)
    ensures FormBytes(EncodeUriComponent(s)) == Utf8(s)
  {
    if s != "" {
      var c := s[0];
      FormBytesOfEncoding(s[1..]);
      if IsUnreserved(c) {
        var t := [c] + EncodeUriComponent(s[1..]);
        assert t[1..] == EncodeUriComponent(s[1..]);
      } else {
        FormBytesPercent(Utf8Char(c), EncodeUriComponent(s[1..]));
      }
    }
  }

  /** What the error page reads back is exactly the message that was encoded. */
  lemma EncodeDecodeRoundTrip(s: string)
    ensures FormDecode(EncodeUriComponent(s)) == Some(s)
  {
    FormBytesOfEncoding(s);
    Utf8RoundTrip(s);
  }

  /**
   * An encoded value holds none of the characters that end or split a query
   * parameter, so it is read back whole.
   */
  lemma EncodedValueStaysOneParameter(s: string)
    ensures '&' !in EncodeUriComponent(s) && '#' !in EncodeUriComponent(s)
    ensures '=' !in EncodeUriComponent(s) && '+' !in EncodeUriComponent(s)
  {
    var r := EncodeUriComponent(s);
    EncodedAlphabet(s);
    forall i | 0 <= i < |r| ensures r[i] != '&' && r[i] != '#' && r[i] != '=' && r[i] != '+' {
      assert IsEncodedChar(r[i]);
    }
  }

  /** Encoding works character by character. */
  lemma {:induction false} EncodeConcat(a: string, b: string)
    ensures EncodeUriComponent(a + b) == EncodeUriComponent(a) + EncodeUriComponent(b)
  {
    if a == "" {
      assert a + b == b;
    } else {
      var ab := a + b;
      assert ab[0] == a[0] && ab[1..] == a[1..] + b;
      EncodeConcat(a[1..], b);
      calc {
        EncodeUriComponent(ab);
        EncodeChar(a[0]) + EncodeUriComponent(a[1..] + b);
        EncodeChar(a[0]) + (EncodeUriComponent(a[1..]) + EncodeUriComponent(b));
        (EncodeChar(a[0]) + EncodeUriComponent(a[1..])) + EncodeUriComponent(b);
      }
    }
  }

  /** A string of unreserved characters is its own encoding. */
  lemma {:induction false} EncodeUnreserved(s: string)
    requires forall i :: 0 <= i < |s| ==> IsUnreserved(s[i])
    ensures EncodeUriComponent(s) == s
  {
    if s != "" {
      EncodeUnreserved(s[1..]);
      assert [s[0]] + s[1..] == s;
    }
  }
}
