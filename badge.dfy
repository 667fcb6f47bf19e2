/**
 * The cart badge on the product screen: hidden when the cart is empty, the
 * decimal item count up to 99, and "99+" above that.
 */
module Badge {
  import opened Wrappers

  predicate IsDigit(c: char) {
    '0' <= c <= '9'
  }

  function DigitChar(d: nat): (c: char)
    requires d < 10
    ensures IsDigit(c) && c as int - '0' as int == d
  {
    ('0' as int + d) as char
  }

  /** Kotlin `Int.toString()` for a non-negative value: decimal digits, no leading zero. */
  function Decimal(n: nat): (s: string)
    ensures |s| >= 1 && forall i :: 0 <= i < |s| ==> IsDigit(s[i])
    ensures |s| > 1 ==> s[0] != '0'
    ensures n < 10 <==> |s| == 1
    ensures 10 <= n < 100 <==> |s| == 2
    decreases n
  {
    if n < 10 then [DigitChar(n)] else Decimal(n / 10) + [DigitChar(n % 10)]
  }

  /** The number a string of decimal digits denotes. */
  function DecimalValue(s: string): nat
    requires forall i :: 0 <= i < |s| ==> IsDigit(s[i])
  {
    if s == [] then 0
    else
      assert IsDigit(s[|s| - 1]);
      DecimalValue(s[..|s| - 1]) * 10 + (s[|s| - 1] as int - '0' as int)
  }

  /** Reading the rendered count back gives the count. */
  lemma {:induction false} DecimalRoundTrip(n: nat)
    ensures DecimalValue(Decimal(n)) == n
    decreases n
  {
    if n >= 10 {
      DecimalRoundTrip(n / 10);
      var s := Decimal(n);
      assert s[..|s| - 1] == Decimal(n / 10);
    }
  }

  /** The badge label for a total item count; `None` when the badge is not shown. */
  function BadgeText(total: int): (text: Option<string>)
    ensures text.None? <==> total <= 0
    ensures total > 99 ==> text == Some("99+")
    ensures 0 < total <= 99 ==>
      text.Some? && 1 <= |text.value| <= 2 &&
      (forall i :: 0 <= i < |text.value| ==> IsDigit(text.value[i])) &&
      (|text.value| > 1 ==> text.value[0] != '0') &&
      DecimalValue(text.value) == total
  {
    if total > 0 then
      DecimalRoundTrip(total);
      Some(if total > 99 then "99+" else Decimal(total))
    else None
  }
}
