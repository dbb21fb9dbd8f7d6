/** The JavaScript number conversions the program relies on, for integer
    values: `String(n)`, `Number(s)`, `parseInt(s)`, `Math.round`,
    `Math.ceil` of a quotient and `toFixed` of a byte count in MiB. */
module JsNumber {
  import opened Wrappers
  import opened JsString

  const Digits := "0123456789"

  predicate IsDigit(c: char) {
    '0' <= c <= '9'
  }

  predicate AllDigits(s: string) {
    forall i :: 0 <= i < |s| ==> IsDigit(s[i])
  }

  function DigitValue(c: char): nat
    requires IsDigit(c)
  {
    (c as int) - ('0' as int)
  }

  function DigitChar(d: nat): (c: char)
    requires d < 10
    ensures IsDigit(c) && DigitValue(c) == d
  {
    Digits[d]
  }

  /** The value of a run of decimal digits, most significant first. */
  function DigitsValue(s: string): nat
    requires AllDigits(s)
  {
    if s == [] then 0 else DigitsValue(s[..|s| - 1]) * 10 + DigitValue(s[|s| - 1])
  }

  /** `String(n)` for a non-negative integer: its shortest decimal digits,
      which read back as `n`. */
  function NatToDecimal(n: nat): (r: string)
    ensures |r| >= 1 && AllDigits(r)
    ensures DigitsValue(r) == n
    ensures |r| > 1 ==> r[0] != '0'
  {
    if n < 10 then [DigitChar(n)]
    else
      var r := NatToDecimal(n / 10) + [DigitChar(n % 10)];
      assert r[..|r| - 1] == NatToDecimal(n / 10);
      r
  }

  /** `String(i)` for an integer. */
  function IntToDecimal(i: int): (r: string)
    ensures |r| >= 1 && IsDigit(r[|r| - 1])
    ensures r[0] == '-' || IsDigit(r[0])
    ensures forall k :: 0 <= k < |r| ==> r[k] == '-' || IsDigit(r[k])
  {
    if i < 0 then "-" + NatToDecimal(-i) else NatToDecimal(i)
  }

  /** A JavaScript number restricted to the integers the program handles,
      the two infinities, or NaN. */
  datatype Number = NaN | Num(value: int) | Infinity(negative: bool)

  predicate IsHexDigit(c: char) {
    IsDigit(c) || 'a' <= c <= 'f' || 'A' <= c <= 'F'
  }

  predicate IsOctalDigit(c: char) {
    '0' <= c <= '7'
  }

  predicate IsBinaryDigit(c: char) {
    c == '0' || c == '1'
  }

  function HexDigitValue(c: char): nat
    requires IsHexDigit(c)
  {
    if IsDigit(c) then DigitValue(c)
    else if 'a' <= c <= 'f' then (c as int) - ('a' as int) + 10
    else (c as int) - ('A' as int) + 10
  }

  /** The value of a run of digits in base `base`, most significant first. */
  function BaseValue(s: string, base: nat): nat
    requires forall i :: 0 <= i < |s| ==> IsHexDigit(s[i])
  {
    if s == [] then 0 else BaseValue(s[..|s| - 1], base) * base + HexDigitValue(s[|s| - 1])
  }

  /** An unsigned "0x", "0o" or "0b" literal (either case of the letter)
      with at least one digit of its base, and its value. */
  function RadixLiteral(t: string): Option<nat> {
    if |t| > 2 && t[0] == '0' then
      var digits := t[2..];
      if (t[1] == 'x' || t[1] == 'X') && forall i :: 0 <= i < |digits| ==> IsHexDigit(digits[i]) then
        Some(BaseValue(digits, 16))
      else if (t[1] == 'o' || t[1] == 'O') && forall i :: 0 <= i < |digits| ==> IsOctalDigit(digits[i]) then
        Some(BaseValue(digits, 8))
      else if (t[1] == 'b' || t[1] == 'B') && forall i :: 0 <= i < |digits| ==> IsBinaryDigit(digits[i]) then
        Some(BaseValue(digits, 2))
      else None
    else None
  }

  /** `Number(s)`: white space around the text is ignored and the empty text
      is 0; "Infinity" with an optional sign is an infinity; an unsigned
      "0x"/"0o"/"0b" literal is its value; an optionally signed run of
      decimal digits is its value; anything else is NaN. */
  function ToNumber(s: string): Number {
    var t := Trim(s);
    if t == [] then Num(0)
    else if t == "Infinity" || t == "+Infinity" then Infinity(false)
    else if t == "-Infinity" then Infinity(true)
    else if RadixLiteral(t).Some? then Num(RadixLiteral(t).value)
    else if |t| > 1 && (t[0] == '-' || t[0] == '+') && AllDigits(t[1..]) then
      var magnitude: int := DigitsValue(t[1..]);
      Num(if t[0] == '-' then -magnitude else magnitude)
    else if AllDigits(t) then Num(DigitsValue(t))
    else NaN
  }

  /** `Number` reads a hexadecimal literal. */
  lemma HexLiteral()
    ensures ToNumber("0x10") == Num(16)
  {
    TrimUnpadded("0x10");
    assert RadixLiteral("0x10") == Some(16) by {
      var d := "0x10"[2..];
      assert d == "10" && d[..1] == "1";
      assert BaseValue(d, 16) == 16;
    }
  }

  /** `Number` does not read a signed hexadecimal literal. */
  lemma SignedHexLiteral()
    ensures ToNumber("-0x10") == NaN
  {
    var t := "-0x10";
    TrimUnpadded(t);
    assert RadixLiteral(t).None? by { assert t[0] == '-'; }
    assert !AllDigits(t[1..]) by { assert t[1..][1] == 'x'; }
    assert !AllDigits(t) by { assert t[0] == '-'; }
  }

  /** `Number` reads "-Infinity" as negative infinity. */
  lemma InfinityLiteral()
    ensures ToNumber("-Infinity") == Infinity(true)
  {
    TrimUnpadded("-Infinity");
  }

  /** `Number(String(i)) == i`. */
  lemma ToNumberOfDecimal(i: int)
    ensures ToNumber(IntToDecimal(i)) == Num(i)
  {
    var r := IntToDecimal(i);
    assert !IsSpace(r[0]) && !IsSpace(r[|r| - 1]);
    TrimUnpadded(r);
    NotSpecialLiteral(r);
    if i < 0 {
      var m := NatToDecimal(-i);
      assert r == "-" + m && r[1..] == m;
      assert |r| > 1 && r[0] == '-' && AllDigits(r[1..]);
    } else {
      assert IsDigit(r[0]);
      assert AllDigits(r);
    }
  }

  /** Decimal text is neither an infinity nor a "0x"/"0o"/"0b" literal. */
  lemma NotSpecialLiteral(r: string)
    requires |r| >= 1 && IsDigit(r[|r| - 1])
    requires forall k :: 0 <= k < |r| ==> r[k] == '-' || IsDigit(r[k])
    ensures r != "Infinity" && r != "+Infinity" && r != "-Infinity"
    ensures RadixLiteral(r).None?
  {
    assert r != "Infinity" by { assert "Infinity"[0] == 'I'; }
    assert r != "+Infinity" by { assert "+Infinity"[0] == '+'; }
    assert r != "-Infinity" by { assert "-Infinity"[8] == 'y'; }
    if |r| > 2 {
      assert r[1] == '-' || IsDigit(r[1]);
    }
  }

  /** The longest run of characters satisfying `p` at the start of `s`. */
  function LeadingRun(s: string, p: char -> bool): (r: string)
    ensures |r| <= |s| && r == s[..|r|]
    ensures forall i :: 0 <= i < |r| ==> p(r[i])
    ensures |r| < |s| ==> !p(s[|r|])
  {
    if s != [] && p(s[0]) then [s[0]] + LeadingRun(s[1..], p) else []
  }

  /** `parseInt(s)` without a radix: leading white space and one sign are
      skipped, a "0x"/"0X" prefix selects hexadecimal, and the longest run of
      digits that follows is read; no digits at all is NaN (`None`). */
  function ParseInt(s: string): Option<int> {
    var t := TrimStart(s);
    var negative := t != [] && t[0] == '-';
    var body := if t != [] && (t[0] == '-' || t[0] == '+') then t[1..] else t;
    if StartsWith(body, "0x") || StartsWith(body, "0X") then
      var h := LeadingRun(body[2..], IsHexDigit);
      if h == [] then None
      else
        var magnitude: int := BaseValue(h, 16);
        Some(if negative then -magnitude else magnitude)
    else
      var d := LeadingRun(body, IsDigit);
      if d == [] then None
      else
        var magnitude: int := DigitsValue(d);
        Some(if negative then -magnitude else magnitude)
  }

  /** A run that holds only characters satisfying `p` is its own leading run. */
  lemma {:induction false} LeadingRunAll(s: string, p: char -> bool)
    requires forall i :: 0 <= i < |s| ==> p(s[i])
    ensures LeadingRun(s, p) == s
  {
    if s != [] {
      LeadingRunAll(s[1..], p);
    }
  }

  /** `parseInt(String(n)) == n` for a non-negative integer. */
  lemma ParseIntOfDecimal(n: nat)
    ensures ParseInt(NatToDecimal(n)) == Some(n)
  {
    var r := NatToDecimal(n);
    assert !IsSpace(r[0]);
    assert TrimStart(r) == r;
    assert r[0] != '-' && r[0] != '+';
    assert !StartsWith(r, "0x") && !StartsWith(r, "0X") by {
      if |r| >= 2 {
        assert IsDigit(r[1]);
        assert r[..2][1] == r[1];
      }
    }
    LeadingRunAll(r, IsDigit);
  }

  /** `Math.ceil(a / b)` for a positive divisor. */
  function CeilDiv(a: int, b: int): (r: int)
    requires b > 0
    ensures b * (r - 1) < a <= b * r
  {
    -((-a) / b)
  }

  /** `Math.round(a / b)` for a positive divisor: the nearest integer, halves rounded up. */
  function RoundDiv(a: int, b: int): (r: int)
    requires b > 0
    ensures 2 * b * r - b <= 2 * a < 2 * b * r + b
  {
    (2 * a + b) / (2 * b)
  }

  function Pow10(k: nat): (r: nat)
    ensures r >= 1
  {
    if k == 0 then 1 else 10 * Pow10(k - 1)
  }

  function PadLeft(s: string, width: nat): (r: string)
    ensures |r| == if |s| < width then width else |s|
  {
    if |s| < width then seq(width - |s|, _ => '0') + s else s
  }

  const MiB := 1024 * 1024

  lemma QuotientOfNats(a: nat, b: nat)
    requires b > 0
    ensures a / b >= 0
  {
  }

  /** `(bytes / 1024 / 1024).toFixed(digits)`: the quotient is exact in binary,
      so the text is the quotient rounded half up to `digits` decimals. */
  function MiBToFixed(bytes: nat, digits: nat): string {
    var unit := Pow10(digits);
    var scaled: nat := (bytes * unit + MiB / 2) / MiB;
    assert scaled / unit >= 0 by { QuotientOfNats(scaled, unit); }
    var whole := NatToDecimal(scaled / unit);
    if digits == 0 then whole
    else whole + "." + PadLeft(NatToDecimal(scaled % unit), digits)
  }
}
