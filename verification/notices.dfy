/** The toast notifications both views raise through their `onMessage`
    callback, and the decimal rendering of numbers inside them. */
module Notices {
  import opened Wrappers

  datatype Level = Success | Error | Info

  /** One `onMessage(level, text)` call. */
  datatype Notice = Notice(level: Level, text: string)

  predicate IsDigit(c: char) {
    '0' as int <= c as int <= '9' as int
  }

  /** The decimal text JavaScript produces when a non-negative integer is
      interpolated into a template literal. */
  function Decimal(n: nat): (r: string)
    ensures |r| >= 1
    ensures forall k :: 0 <= k < |r| ==> IsDigit(r[k])
    ensures |r| > 1 ==> r[0] != '0'
    decreases n
  {
    if n < 10 then [DigitChar(n)] else Decimal(n / 10) + [DigitChar(n % 10)]
  }

  function DigitChar(d: nat): (c: char)
    requires d < 10
    ensures IsDigit(c)
  {
    ('0' as int + d) as char
  }

  /** The number a string of decimal digits denotes. */
  function DigitsValue(s: string): nat
    requires forall k :: 0 <= k < |s| ==> IsDigit(s[k])
  {
    if s == [] then 0
    else
      assert IsDigit(s[|s| - 1]);
      DigitsValue(s[..|s| - 1]) * 10 + (s[|s| - 1] as int - '0' as int)
  }

  /** Reading back the rendered digits gives the number again. */
  lemma {:induction false} DecimalRoundTrip(n: nat)
    ensures DigitsValue(Decimal(n)) == n
  {
    if n >= 10 {
      DecimalRoundTrip(n / 10);
      var r := Decimal(n);
      assert r[..|r| - 1] == Decimal(n / 10);
    }
  }

  /** A value interpolated into a template literal when the server may omit
      it: `undefined` when absent. */
  function OptionalNumber(t: Option<nat>): (r: string)
    ensures t.Some? ==> r == Decimal(t.value)
    ensures t.None? ==> r == "undefined"
  {
    match t
    case Some(n) => Decimal(n)
    case None => "undefined"
  }
}
