/**
 * `Number.parseInt(s)` (no radix argument) and `n.toString()` for integers,
 * as ECMAScript defines them; the admin screens use the pair to turn form
 * values into numbers.
 */
module JsNumber {
  import opened Wrappers
  import JsText

  /** The value of `c` as a digit in `radix` (10 or 16), or -1 when it is not one. */
  function DigitValue(c: char, radix: nat): (v: int)
    requires radix == 10 || radix == 16
    ensures -1 <= v < radix
  {
    if '0' <= c <= '9' then c as int - '0' as int
    else if radix == 16 && 'a' <= c <= 'f' then c as int - 'a' as int + 10
    else if radix == 16 && 'A' <= c <= 'F' then c as int - 'A' as int + 10
    else -1
  }

  /** The longest prefix of `s` made of digits of `radix`. */
  function DigitPrefix(s: string, radix: nat): (r: string)
    requires radix == 10 || radix == 16
    ensures |r| <= |s| && r == s[..|r|]
    ensures forall i :: 0 <= i < |r| ==> DigitValue(r[i], radix) >= 0
    ensures |r| == |s| || DigitValue(s[|r|], radix) < 0
  {
    if |s| > 0 && DigitValue(s[0], radix) >= 0 then [s[0]] + DigitPrefix(s[1..], radix) else ""
  }

  /** The number a digit string denotes in `radix`, most significant digit first. */
  function DigitsValue(ds: string, radix: nat): (n: nat)
    requires radix == 10 || radix == 16
    requires forall i :: 0 <= i < |ds| ==> DigitValue(ds[i], radix) >= 0
  {
    if |ds| == 0 then 0
    else DigitsValue(ds[..|ds| - 1], radix) * radix + DigitValue(ds[|ds| - 1], radix)
  }

  /**
   * `Number.parseInt(s)`: skip leading whitespace, take an optional sign, then
   * read the magnitude. None stands for NaN.
   */
  function ParseInt(s: string): (r: Option<int>)
  {
    var t := JsText.TrimStart(s);
    var negative := |t| > 0 && t[0] == '-';
    var unsigned := if |t| > 0 && (t[0] == '-' || t[0] == '+') then t[1..] else t;
    match ParseMagnitude(unsigned)
    case None => None
    case Some(n) => Some(if negative then -(n as int) else n)
  }

  /**
   * The unsigned part of `parseInt`: hexadecimal after a "0x"/"0X" prefix and
   * decimal otherwise, stopping at the first character that is not a digit;
   * None (NaN) when not even one digit is there.
   */
  function ParseMagnitude(u: string): (r: Option<nat>)
  {
    var hex := |u| >= 2 && u[0] == '0' && (u[1] == 'x' || u[1] == 'X');
    var radix := if hex then 16 else 10;
    var digits := DigitPrefix(if hex then u[2..] else u, radix);
    if digits == "" then None else Some(DigitsValue(digits, radix))
  }

  /** The decimal digit for 0..9. */
  function DigitChar(d: nat): (c: char)
    requires d < 10
    ensures DigitValue(c, 10) == d
  {
    (d + '0' as int) as char
  }

  /** The decimal numeral of a natural number, without leading zeros. */
  function NatToString(n: nat): (s: string)
    ensures |s| >= 1
    ensures forall i :: 0 <= i < |s| ==> DigitValue(s[i], 10) >= 0
    ensures DigitsValue(s, 10) == n
    ensures |s| > 1 ==> s[0] != '0'
  {
    if n < 10 then [DigitChar(n)]
    else
      var s := NatToString(n / 10) + [DigitChar(n % 10)];
      assert s[..|s| - 1] == NatToString(n / 10);
      s
  }

  /** `n.toString()` for an integer `n`: its decimal numeral, with "-" when negative. */
  function IntToString(n: int): (s: string)
    ensures |s| >= 1
  {
    if n < 0 then "-" + NatToString(-n) else NatToString(n)
  }

  /** Parsing the numeral an integer prints as gives the integer back. */
  lemma ParseIntToString(n: int)
    ensures ParseInt(IntToString(n)) == Some(n)
  {
    var m: nat := if n < 0 then -n else n;
    var ds := NatToString(m);
    ParseMagnitudeNumeral(m);
    assert DigitValue(ds[0], 10) >= 0;
    var s := IntToString(n);
    assert s[0] == '-' || s[0] == ds[0];
    SignOrDigitNotWhitespace(s[0]);
    assert JsText.TrimStart(s) == s;
    if n < 0 {
      assert s[1..] == ds;
    }
  }

  lemma SignOrDigitNotWhitespace(c: char)
    requires c == '-' || '0' <= c <= '9'
    ensures !JsText.IsJsWhitespace(c)
  {
    if JsText.IsJsWhitespace(c) {
      JsText.WhitespaceRange(c);
    }
  }

  /** The magnitude of a printed natural number parses back to it. */
  lemma ParseMagnitudeNumeral(m: nat)
    ensures ParseMagnitude(NatToString(m)) == Some(m)
  {
    var ds := NatToString(m);
    assert !(|ds| >= 2 && ds[0] == '0');
    DigitPrefixAll(ds, 10);
  }

  lemma DigitPrefixAll(s: string, radix: nat)
    requires radix == 10 || radix == 16
    requires forall i :: 0 <= i < |s| ==> DigitValue(s[i], radix) >= 0
    ensures DigitPrefix(s, radix) == s
  {
  }
}
