/** The text of a client order id. Two legs of different names or runs never share one, which is what lets
    the execution model use the triple itself as the key. */
module ClientOrderIds {
  import opened Broker

  const UUID_LENGTH: nat := 36

  function Digit(d: nat): char
    requires d < 10
  {
    ['0', '1', '2', '3', '4', '5', '6', '7', '8', '9'][d]
  }

  function Decimal(n: nat): (s: string)
    ensures |s| > 0
  {
    if n < 10 then [Digit(n)] else Decimal(n / 10) + [Digit(n % 10)]
  }

  function LegText(l: LegName): (s: string)
    ensures |s| == 3
  {
    if l == Lim then "lim" else "mkt"
  }

  function ClientOrderId(run: string, security: nat, leg: LegName): string {
    run + "-" + Decimal(security) + "-" + LegText(leg)
  }

  lemma {:induction false} DecimalIsInjective(m: nat, n: nat)
    requires Decimal(m) == Decimal(n)
    ensures m == n
    decreases m + n
  {
    var s := Decimal(m);
    assert s[|s| - 1] == Digit(m % 10) && s[|s| - 1] == Digit(n % 10);
    assert (m >= 10 <==> |s| >= 2) && (n >= 10 <==> |s| >= 2);
    if m >= 10 && n >= 10 {
      assert s[..|s| - 1] == Decimal(m / 10) && s[..|s| - 1] == Decimal(n / 10);
      DecimalIsInjective(m / 10, n / 10);
    }
  }

  /** Stable per run, security and leg, and different for any two of them. */
  lemma IdsAreDistinct(r1: string, s1: nat, l1: LegName, r2: string, s2: nat, l2: LegName)
    requires |r1| == |r2| == UUID_LENGTH
    requires ClientOrderId(r1, s1, l1) == ClientOrderId(r2, s2, l2)
    ensures r1 == r2 && s1 == s2 && l1 == l2
  {
    hide Decimal;
    var a, b := ClientOrderId(r1, s1, l1), ClientOrderId(r2, s2, l2);
    var n := |a|;
    assert a[..UUID_LENGTH] == r1 && b[..UUID_LENGTH] == r2;
    assert a[n - 3..] == LegText(l1) && b[n - 3..] == LegText(l2);
    assert LegText(l1)[0] == LegText(l2)[0];
    assert a[UUID_LENGTH + 1..n - 4] == Decimal(s1) && b[UUID_LENGTH + 1..n - 4] == Decimal(s2);
    DecimalIsInjective(s1, s2);
  }
}
