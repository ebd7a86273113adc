/**
 * How Java renders an `Integer` when it is concatenated onto a string:
 * decimal digits with a leading '-' when negative, and "null" for a null
 * reference. The controller builds its update redirect this way.
 */
module JavaText {
  import opened Optional

  predicate IsDigit(c: char)
  {
    '0' <= c <= '9'
  }

  predicate AllDigits(s: string)
  {
    forall i :: 0 <= i < |s| ==> IsDigit(s[i])
  }

  function DigitChar(d: nat): (c: char)
    requires d < 10
    ensures IsDigit(c) && c as int - '0' as int == d
  {
    (d + '0' as int) as char
  }

  /** The decimal digits of `n`, most significant first, without leading zeros. */
  function Digits(n: nat): (s: string)
    ensures |s| >= 1 && AllDigits(s)
  {
    if n < 10 then [DigitChar(n)] else Digits(n / 10) + [DigitChar(n % 10)]
  }

  /** The number a string of decimal digits denotes. */
  function DigitsValue(s: string): nat
    requires AllDigits(s)
  {
    if s == [] then 0 else 10 * DigitsValue(s[..|s| - 1]) + (s[|s| - 1] as int - '0' as int)
  }

  /** Reading the digits back gives the number they were rendered from. */
  lemma {:induction false} DigitsValueOfDigits(n: nat)
    ensures DigitsValue(Digits(n)) == n
  {
    if n >= 10 {
      var s := Digits(n / 10);
      DigitsValueOfDigits(n / 10);
      assert (s + [DigitChar(n % 10)])[..|s|] == s;
    }
  }

  /** Integer.toString. */
  function IntText(n: int): (s: string)
    ensures |s| >= 1
    ensures n < 0 <==> s[0] == '-'
    ensures n >= 0 ==> s == Digits(n)
    ensures n < 0 ==> s[1..] == Digits(-n)
  {
    if n < 0 then "-" + Digits(-n) else Digits(n)
  }

  /** String.valueOf of a possibly-null Integer. */
  function IntegerText(id: Option<int>): (s: string)
    ensures id.None? <==> s == "null"
  {
    match id
    case None => "null"
    case Some(n) => IntText(n)
  }

  /** Two ids that render to the same text are the same id. */
  lemma {:induction false} IntegerTextInjective(a: Option<int>, b: Option<int>)
    requires IntegerText(a) == IntegerText(b)
    ensures a == b
  {
    if a.Some? && b.Some? {
      var x, y := a.value, b.value;
      if x < 0 {
        DigitsValueOfDigits(-x);
        DigitsValueOfDigits(-y);
      } else {
        DigitsValueOfDigits(x);
        DigitsValueOfDigits(y);
      }
    }
  }
}
