/**
 * The few JavaScript values the bridge and the web app rely on: an optional
 * value (null / undefined), JavaScript numbers with NaN and the infinities,
 * `Number(string)` for the string forms that reach it, and `String(n)` for
 * integers, printed in decimal.
 */
module JsValues {

  datatype Option<+T> = None | Some(value: T)

  /** A JavaScript number: a finite value (kept as an exact real), NaN or an infinity. */
  datatype JsNumber = Finite(v: real) | NaN | PosInf | NegInf {
    /** `Number.isFinite` */
    predicate IsFinite() { Finite? }

    /** ToBoolean on a number: 0 and NaN are falsy, everything else is truthy. */
    predicate Truthy() { (Finite? && v != 0.0) || PosInf? || NegInf? }
  }

  function Negate(n: JsNumber): JsNumber {
    match n
    case Finite(v) => Finite(-v)
    case NaN => NaN
    case PosInf => NegInf
    case NegInf => PosInf
  }

  predicate IsDigit(c: char) { '0' <= c <= '9' }

  predicate AllDigits(s: string) { forall i | 0 <= i < |s| :: IsDigit(s[i]) }

  function DigitValue(c: char): nat
    requires IsDigit(c)
  {
    (c as int) - ('0' as int)
  }

  function DigitChar(d: nat): (c: char)
    requires d < 10
    ensures IsDigit(c) && DigitValue(c) == d
  {
    ('0' as int + d) as char
  }

  /** The value of a string of decimal digits, most significant digit first. */
  function DigitsValue(s: string): nat
    requires AllDigits(s)
  {
    if s == [] then 0 else DigitsValue(s[..|s| - 1]) * 10 + DigitValue(s[|s| - 1])
  }

  function Pow10(k: nat): (p: nat)
    ensures p >= 1
  {
    if k == 0 then 1 else 10 * Pow10(k - 1)
  }

  /** The position of the first '.' in `s`, or `|s|` when there is none. */
  function DotIndex(s: string): (k: nat)
    ensures k <= |s|
    ensures forall i | 0 <= i < k :: s[i] != '.'
    ensures k < |s| ==> s[k] == '.'
  {
    if s == [] || s[0] == '.' then 0 else 1 + DotIndex(s[1..])
  }

  /** Digits, optionally followed by '.' and more digits, with at least one digit in all ("7", "7.", ".5", "2.25"). */
  predicate IsDecimalLiteral(s: string) {
    var k := DotIndex(s);
    && AllDigits(s[..k])
    && (k < |s| ==> AllDigits(s[k + 1..]))
    && (if k < |s| then |s| - 1 else |s|) > 0
  }

  function DecimalValue(s: string): real
    requires IsDecimalLiteral(s)
  {
    var k := DotIndex(s);
    var frac := if k < |s| then s[k + 1..] else "";
    (DigitsValue(s[..k]) as real) + (DigitsValue(frac) as real) / (Pow10(|frac|) as real)
  }

  function UnsignedToNumber(s: string): JsNumber {
    if s == "Infinity" then PosInf
    else if IsDecimalLiteral(s) then Finite(DecimalValue(s))
    else NaN
  }

  /**
   * `Number(s)` for a string: "" is 0, an optional sign may precede a decimal
   * literal or "Infinity", and every other string is NaN in this model.
   */
  function StringToNumber(s: string): JsNumber {
    if s == "" then Finite(0.0)
    else if s[0] == '-' then Negate(UnsignedToNumber(s[1..]))
    else if s[0] == '+' then UnsignedToNumber(s[1..])
    else UnsignedToNumber(s)
  }

  /** The decimal digits of `n`, without leading zeros. */
  function NatToDecimal(n: nat): (s: string)
    ensures |s| > 0 && AllDigits(s)
    ensures DigitsValue(s) == n
    ensures s[0] == '0' ==> n == 0
  {
    if n < 10 then [DigitChar(n)]
    else
      var s := NatToDecimal(n / 10) + [DigitChar(n % 10)];
      assert s[..|s| - 1] == NatToDecimal(n / 10);
      s
  }

  /** `String(i)` for an integer `i` (JavaScript prints integers below 10^21 this way). */
  function IntToDecimal(i: int): string {
    if i < 0 then "-" + NatToDecimal(-i) else NatToDecimal(i)
  }

  lemma DigitsHaveNoDot(s: string)
    requires AllDigits(s)
    ensures DotIndex(s) == |s|
  {
  }

  /** `Number(String(n))` is `n` for a natural number: decimal printing and parsing are inverse. */
  lemma {:induction false} NatDecimalRoundTrip(n: nat)
    ensures UnsignedToNumber(NatToDecimal(n)) == Finite(n as real)
  {
    var s := NatToDecimal(n);
    DigitsHaveNoDot(s);
    assert s[..|s|] == s;
    assert IsDecimalLiteral(s);
    assert s != "Infinity" by { assert IsDigit(s[0]); }
  }

  /** `Number(String(i)) === i` for every integer `i`. */
  lemma {:induction false} IntDecimalRoundTrip(i: int)
    ensures StringToNumber(IntToDecimal(i)) == Finite(i as real)
  {
    if i < 0 {
      var t := NatToDecimal(-i);
      NatDecimalRoundTrip(-i);
      assert ("-" + t)[1..] == t;
    } else {
      var s := NatToDecimal(i);
      NatDecimalRoundTrip(i);
      assert IsDigit(s[0]);
    }
  }
}
