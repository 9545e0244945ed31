/** Pairwise error correlation and the effective number of agents. With unit error vectors the whole formula
    is the squared length of their sum, which is why none of its guards can bite in exact arithmetic except
    the one for vectors that cancel out. */
module EffectiveAgents {
  import opened RealArith
  import opened Wrappers

  const CONSTANT_ERRORS: real := 1.0 / 1_000_000_000_000.0

  // ----- vectors

  function Dot(x: seq<real>, y: seq<real>): real
    requires |x| == |y|
  {
    if x == [] then 0.0 else Dot(x[..|x| - 1], y[..|y| - 1]) + Times(x[|x| - 1], y[|y| - 1])
  }

  function Add(x: seq<real>, y: seq<real>): (z: seq<real>)
    requires |x| == |y|
    ensures |z| == |x|
  {
    seq(|x|, i requires 0 <= i < |x| => x[i] + y[i])
  }

  function Scaled(x: seq<real>, c: real): (y: seq<real>)
    ensures |y| == |x|
  {
    seq(|x|, i requires 0 <= i < |x| => Times(c, x[i]))
  }

  function Zeros(m: nat): (z: seq<real>)
    ensures |z| == m
  {
    seq(m, _ => 0.0)
  }

  lemma {:induction false} DotAdd(x: seq<real>, y: seq<real>, z: seq<real>)
    requires |x| == |y| == |z|
    ensures Dot(x, Add(y, z)) == Dot(x, y) + Dot(x, z)
    ensures Dot(Add(y, z), x) == Dot(y, x) + Dot(z, x)
  {
    hide Times;
    if x != [] {
      var n := |x| - 1;
      DotAdd(x[..n], y[..n], z[..n]);
      assert Add(y, z)[..n] == Add(y[..n], z[..n]);
      TimesAdd(y[n], z[n], x[n]);
    }
  }

  lemma {:induction false} DotCommutes(x: seq<real>, y: seq<real>)
    requires |x| == |y|
    ensures Dot(x, y) == Dot(y, x)
  {
    if x != [] { DotCommutes(x[..|x| - 1], y[..|y| - 1]); }
  }

  lemma {:induction false} DotScaled(x: seq<real>, y: seq<real>, c: real)
    requires |x| == |y|
    ensures Dot(Scaled(x, c), y) == Times(c, Dot(x, y))
    ensures Dot(y, Scaled(x, c)) == Times(c, Dot(y, x))
  {
    hide Times;
    if x == [] {
      TimesZero(c);
    } else {
      var n := |x| - 1;
      DotScaled(x[..n], y[..n], c);
      assert Scaled(x, c)[..n] == Scaled(x[..n], c);
      TimesAssociates(c, x[n], y[n]);
      TimesAssociates(c, y[n], x[n]);
      TimesCommutes(y[n], Times(c, x[n]));
      TimesCommutes(y[n], x[n]);
      TimesAdd(Dot(x[..n], y[..n]), Times(x[n], y[n]), c);
      TimesAdd(Dot(y[..n], x[..n]), Times(y[n], x[n]), c);
    }
  }

  lemma {:induction false} DotSelf(x: seq<real>)
    ensures Dot(x, x) >= 0.0
    ensures Dot(x, x) == 0.0 <==> forall i | 0 <= i < |x| :: x[i] == 0.0
  {
    hide Times;
    if x != [] {
      var n := |x| - 1;
      DotSelf(x[..n]);
      if x[n] != 0.0 { NonzeroSquare(x[n]); } else { TimesZero(0.0); }
      assert forall i | 0 <= i < n :: x[i] == x[..n][i];
    }
  }

  lemma {:induction false} DotZeros(x: seq<real>)
    ensures Dot(x, Zeros(|x|)) == 0.0
  {
    hide Times;
    if x != [] {
      DotZeros(x[..|x| - 1]);
      assert Zeros(|x|)[..|x| - 1] == Zeros(|x| - 1);
      TimesZero(x[|x| - 1]);
    }
  }

  /** Cauchy-Schwarz for unit vectors. */
  lemma UnitDot(u: seq<real>, v: seq<real>)
    requires |u| == |v| && Dot(u, u) == 1.0 && Dot(v, v) == 1.0
    ensures -1.0 <= Dot(u, v) <= 1.0
  {
    hide Times;
    var w := Scaled(v, -1.0);
    DotSelf(Add(u, v));
    DotSelf(Add(u, w));
    SquaredSum(u, v);
    SquaredSum(u, w);
    DotScaled(v, u, -1.0);
    DotScaled(v, w, -1.0);
    DotScaled(v, v, -1.0);
    TimesMinusOne(Dot(u, v));
    TimesMinusOne(Dot(v, v));
    TimesMinusOne(-1.0);
  }

  lemma TimesMinusOne(x: real)
    ensures Times(-1.0, x) == -x
  {
  }

  lemma SquaredSum(x: seq<real>, y: seq<real>)
    requires |x| == |y|
    ensures Dot(Add(x, y), Add(x, y)) == Dot(x, x) + 2.0 * Dot(x, y) + Dot(y, y)
  {
    DotAdd(Add(x, y), x, y);
    DotAdd(x, x, y);
    DotAdd(y, x, y);
    DotCommutes(x, y);
  }

  // ----- error vectors

  function Centered(p: seq<real>, y: seq<real>): (c: seq<real>)
    requires |p| == |y| > 0
    ensures |c| == |p|
  {
    var errors := seq(|p|, i requires 0 <= i < |p| => p[i] - y[i]);
    var mean := Sum(errors) / |p| as real;
    seq(|p|, i requires 0 <= i < |p| => errors[i] - mean)
  }

  /** What an agent got wrong, moved as a whole to mean zero. */
  lemma CenteredIsExact(p: seq<real>, y: seq<real>)
    requires |p| == |y| > 0
    ensures Sum(Centered(p, y)) == 0.0
    ensures forall i, j | 0 <= i < |p| && 0 <= j < |p| ::
              Centered(p, y)[i] - Centered(p, y)[j] == (p[i] - y[i]) - (p[j] - y[j])
  {
    var errors := seq(|p|, i requires 0 <= i < |p| => p[i] - y[i]);
    var mean := Sum(errors) / |p| as real;
    DivMul(Sum(errors), |p| as real);
    ShiftedSum(errors, Centered(p, y), mean);
  }

  lemma {:induction false} ShiftedSum(x: seq<real>, d: seq<real>, m: real)
    requires |d| == |x| && forall i | 0 <= i < |x| :: d[i] == x[i] - m
    ensures Sum(d) == Sum(x) - |x| as real * m
  {
    if x != [] {
      var k := |x| - 1;
      ShiftedSum(x[..k], d[..k], m);
      assert |x| as real * m == k as real * m + m;
    }
  }

  function Norm(root: real -> real, c: seq<real>): real { Root(root, Dot(c, c)) }

  function Unit(root: real -> real, c: seq<real>): (u: seq<real>)
    requires Norm(root, c) != 0.0
    ensures |u| == |c|
  {
    Scaled(c, 1.0 / Norm(root, c))
  }

  lemma UnitLength(root: real -> real, c: seq<real>)
    requires IsRoot(root) && Norm(root, c) > 0.0
    ensures Dot(Unit(root, c), Unit(root, c)) == 1.0
  {
    hide Times;
    var n := Norm(root, c);
    DotSelf(c);
    DotScaled(c, Unit(root, c), 1.0 / n);
    DotScaled(c, c, 1.0 / n);
    TimesDiv(1.0, n);
    TimesAssociates(1.0 / n, n, n);
    TimesOne(n);
    TimesCommutes(1.0 / n, Times(n, n));
  }

  function Correlation(root: real -> real, c: seq<real>, d: seq<real>): real
    requires |c| == |d| && Norm(root, c) > 0.0 && Norm(root, d) > 0.0
  {
    MulPositive(Norm(root, c), Norm(root, d));
    Dot(c, d) / (Norm(root, c) * Norm(root, d))
  }

  lemma CorrelationIsUnitDot(root: real -> real, c: seq<real>, d: seq<real>)
    requires |c| == |d| && Norm(root, c) > 0.0 && Norm(root, d) > 0.0
    ensures Correlation(root, c, d) == Dot(Unit(root, c), Unit(root, d))
  {
    hide Norm;
    var m, n := Norm(root, c), Norm(root, d);
    DotScaled(c, Unit(root, d), 1.0 / m);
    DotScaled(d, c, 1.0 / n);
    DotCommutes(c, d);
    QuotientOfProduct(Dot(c, d), m, n);
  }

  lemma QuotientOfProduct(x: real, m: real, n: real)
    requires m > 0.0 && n > 0.0
    ensures m * n > 0.0 && x / (m * n) == Times(1.0 / m, Times(1.0 / n, x))
  {
    MulPositive(m, n);
    var q := Times(1.0 / m, Times(1.0 / n, x));
    TimesDiv(1.0, m);
    TimesDiv(1.0, n);
    assert q * (m * n) == x * ((1.0 / m) * m) * ((1.0 / n) * n);
    assert q * (m * n) == x;
  }

  // ----- the sum of the unit vectors

  /** The sum of the vectors from i on. */
  function SumFrom(us: seq<seq<real>>, m: nat, i: nat): (w: seq<real>)
    requires i <= |us| && forall u | u in us :: |u| == m
    ensures |w| == m
    decreases |us| - i
  {
    if i == |us| then Zeros(m) else Add(us[i], SumFrom(us, m, i + 1))
  }

  lemma LengthStep(us: seq<seq<real>>, m: nat, i: nat)
    requires i < |us| && forall u | u in us :: |u| == m && Dot(u, u) == 1.0
    ensures var w, v := SumFrom(us, m, i), SumFrom(us, m, i + 1);
            Dot(w, w) == 1.0 + 2.0 * Dot(us[i], v) + Dot(v, v)
  {
    SquaredSum(us[i], SumFrom(us, m, i + 1));
  }

  /** The number of pairs whose first member is before i. */
  function Pairs(n: nat, i: nat): int { if i == 0 then 0 else Pairs(n, i - 1) + (n - i) }

  lemma {:induction false} AllPairs(n: nat, i: nat)
    requires i <= n
    ensures 2 * Pairs(n, i) == i * (2 * n - i - 1)
  {
    if i > 0 { AllPairs(n, i - 1); }
  }

  lemma TwicePairs(n: nat, total: real)
    requires total <= Pairs(n, n) as real
    ensures 2.0 * total <= (n * (n - 1)) as real
  {
    AllPairs(n, n);
    assert n * (2 * n - n - 1) == n * (n - 1);
  }

  function Clamp(x: real): real {
    var low := if x < 1.0 then x else 1.0;
    if low > -1.0 then low else -1.0
  }

  datatype Refusal = TOO_FEW_AGENTS | BAD_LENGTHS | CONSTANT | CANCELLING

  datatype Effective = Effective(rho: real, nEff: real)

  /** One agent against the later ones. */
  method AddRow(
    root: real -> real, cs: seq<seq<real>>, m: nat, i: nat, total: real, ghost us: seq<seq<real>>)
    returns (after: real)
    requires IsRoot(root) && i < |cs| == |us| && forall c | c in cs :: |c| == m && Norm(root, c) > 0.0
    requires forall k | 0 <= k < |cs| :: us[k] == Unit(root, cs[k])
    ensures forall u | u in us :: |u| == m
    ensures after == total + Dot(us[i], SumFrom(us, m, i + 1))
    ensures total - (|cs| - i - 1) as real <= after <= total + (|cs| - i - 1) as real
  {
    hide Times, Dot, Norm, Unit, Correlation, IsRoot;
    assert forall u | u in us :: |u| == m;
    after := total;
    for j := i + 1 to |cs|
      invariant after + Dot(us[i], SumFrom(us, m, j)) == total + Dot(us[i], SumFrom(us, m, i + 1))
      invariant total - (j - i - 1) as real <= after <= total + (j - i - 1) as real
    {
      UnitLength(root, cs[i]);
      UnitLength(root, cs[j]);
      UnitDot(us[i], us[j]);
      CorrelationIsUnitDot(root, cs[i], cs[j]);
      after := after + Clamp(Correlation(root, cs[i], cs[j]));
      DotAdd(us[i], us[j], SumFrom(us, m, j + 1));
    }
    DotZeros(us[i]);
  }

  /** The clamp to [-1, 1] never changes a correlation. */
  lemma ClampNeverBites(root: real -> real, c: seq<real>, d: seq<real>)
    requires IsRoot(root) && |c| == |d| && Norm(root, c) > 0.0 && Norm(root, d) > 0.0
    ensures Clamp(Correlation(root, c, d)) == Correlation(root, c, d)
  {
    hide Norm, Dot, Times, Unit, Correlation;
    UnitLength(root, c);
    UnitLength(root, d);
    UnitDot(Unit(root, c), Unit(root, d));
    CorrelationIsUnitDot(root, c, d);
  }

  // ----- the result

  ghost predicate WellShaped(forecasts: seq<seq<real>>, outcomes: seq<real>) {
    |outcomes| >= 2 && forall f | f in forecasts :: |f| == |outcomes|
  }

  function AllCentered(forecasts: seq<seq<real>>, outcomes: seq<real>): (cs: seq<seq<real>>)
    requires outcomes != [] && forall f | f in forecasts :: |f| == |outcomes|
    ensures |cs| == |forecasts| && forall c | c in cs :: |c| == |outcomes|
  {
    seq(|forecasts|, k requires 0 <= k < |forecasts| => Centered(forecasts[k], outcomes))
  }

  predicate Spread(root: real -> real, cs: seq<seq<real>>) {
    forall c | c in cs :: Norm(root, c) > CONSTANT_ERRORS
  }

  function Units(root: real -> real, cs: seq<seq<real>>): (us: seq<seq<real>>)
    requires forall c | c in cs :: Norm(root, c) != 0.0
    ensures |us| == |cs| && forall k | 0 <= k < |cs| :: |us[k]| == |cs[k]|
  {
    seq(|cs|, k requires 0 <= k < |cs| => Unit(root, cs[k]))
  }

  /** The squared length of the sum of the unit error vectors. */
  function Resultant(root: real -> real, cs: seq<seq<real>>, m: nat): real
    requires forall c | c in cs :: |c| == m && Norm(root, c) != 0.0
  {
    var us := Units(root, cs);
    Dot(SumFrom(us, m, 0), SumFrom(us, m, 0))
  }

  lemma UnitsAreUnits(root: real -> real, cs: seq<seq<real>>, m: nat)
    requires IsRoot(root) && forall c | c in cs :: |c| == m && Norm(root, c) > 0.0
    ensures forall u | u in Units(root, cs) :: |u| == m && Dot(u, u) == 1.0
  {
    hide Dot, Norm, Unit, IsRoot;
    var us := Units(root, cs);
    forall u | u in us ensures |u| == m && Dot(u, u) == 1.0 {
      var k :| 0 <= k < |us| && us[k] == u;
      UnitLength(root, cs[k]);
    }
  }

  lemma NothingLeft(us: seq<seq<real>>, m: nat)
    requires forall u | u in us :: |u| == m
    ensures Dot(SumFrom(us, m, |us|), SumFrom(us, m, |us|)) == 0.0
  {
    hide Dot;
    DotZeros(Zeros(m));
  }

  /** One more agent: the squared length left over shrinks by one and twice the correlations just added. */
  method RowStep(
    root: real -> real, cs: seq<seq<real>>, m: nat, i: nat, total: real, ghost us: seq<seq<real>>)
    returns (after: real)
    requires IsRoot(root) && i < |cs| == |us| && forall c | c in cs :: |c| == m && Norm(root, c) > 0.0
    requires forall k | 0 <= k < |cs| :: us[k] == Unit(root, cs[k])
    requires forall u | u in us :: |u| == m && Dot(u, u) == 1.0
    requires total <= Pairs(|cs|, i) as real
    ensures 2.0 * after + 1.0 + Dot(SumFrom(us, m, i + 1), SumFrom(us, m, i + 1))
            == 2.0 * total + Dot(SumFrom(us, m, i), SumFrom(us, m, i))
    ensures after <= Pairs(|cs|, i + 1) as real
  {
    hide Times, Dot, Norm, Unit, IsRoot;
    LengthStep(us, m, i);
    after := AddRow(root, cs, m, i, total, us);
  }

  /** Sum of all correlations; with A agents, twice it plus A is the resultant. */
  method AddRows(root: real -> real, cs: seq<seq<real>>, m: nat) returns (total: real)
    requires IsRoot(root) && forall c | c in cs :: |c| == m && Norm(root, c) > 0.0
    ensures |cs| as real + 2.0 * total == Resultant(root, cs, m)
    ensures 2.0 * total <= (|cs| * (|cs| - 1)) as real
  {
    hide Times, Dot, Norm, Unit, IsRoot, SumFrom;
    ghost var us := Units(root, cs);
    UnitsAreUnits(root, cs, m);
    NothingLeft(us, m);
    total := 0.0;
    for i := 0 to |cs|
      invariant Dot(SumFrom(us, m, 0), SumFrom(us, m, 0))
             == i as real + 2.0 * total + Dot(SumFrom(us, m, i), SumFrom(us, m, i))
      invariant total <= Pairs(|cs|, i) as real
    {
      total := RowStep(root, cs, m, i, total, us);
    }
    TwicePairs(|cs|, total);
  }

  /** What a result means for n agents whose unit error vectors have resultant s. */
  ghost predicate Means(r: Result<Effective, Refusal>, n: nat, s: real) {
    && s >= 0.0 && (r == Err(CANCELLING) <==> s == 0.0) && (r.Err? ==> r.error == CANCELLING)
    && (r.Ok? ==>
          && r.value.nEff >= 1.0 && Times(r.value.nEff, s) == n as real * n as real
          && r.value.rho <= 1.0 && 1.0 + Times((n - 1) as real, r.value.rho) > 0.0)
  }

  method Combine(root: real -> real, cs: seq<seq<real>>, m: nat) returns (r: Result<Effective, Refusal>)
    requires IsRoot(root) && |cs| >= 2 && forall c | c in cs :: |c| == m && Norm(root, c) > 0.0
    ensures Means(r, |cs|, Resultant(root, cs, m))
  {
    hide Times, Dot, Norm, Unit, IsRoot;
    var total := AddRows(root, cs, m);
    DotSelf(SumFrom(Units(root, cs), m, 0));
    r := Finish(|cs|, total, Resultant(root, cs, m));
  }

  method Finish(n: nat, total: real, ghost s: real) returns (r: Result<Effective, Refusal>)
    requires n >= 2 && s >= 0.0 && n as real + 2.0 * total == s && 2.0 * total <= (n * (n - 1)) as real
    ensures Means(r, n, s)
  {
    Denominator(n, total);
    hide Times;
    var rho := total / ((n * (n - 1)) as real / 2.0);
    var denom := 1.0 + Times((n - 1) as real, rho);
    ResultantBound(n, total, s, denom);
    if denom <= 0.0 { return Err(CANCELLING); }
    return Ok(Effective(rho, n as real / denom));
  }

  /** Refused only for too little data, constant errors, or unit error vectors that cancel out exactly;
      otherwise N_eff is at least one and is A squared over the squared length of their sum. */
  method EffectiveNumber(root: real -> real, forecasts: seq<seq<real>>, outcomes: seq<real>)
    returns (r: Result<Effective, Refusal>)
    requires IsRoot(root)
    ensures r == Err(TOO_FEW_AGENTS) <==> |forecasts| < 2
    ensures r == Err(BAD_LENGTHS) <==> |forecasts| >= 2 && !WellShaped(forecasts, outcomes)
    ensures |forecasts| >= 2 && WellShaped(forecasts, outcomes) ==>
              var cs := AllCentered(forecasts, outcomes);
              && (r == Err(CONSTANT) <==> !Spread(root, cs))
              && (Spread(root, cs) ==> Means(r, |forecasts|, Resultant(root, cs, |outcomes|)))
  {
    hide Times, Dot, Norm, Resultant, IsRoot, Centered;
    var m := |outcomes|;
    if |forecasts| < 2 { return Err(TOO_FEW_AGENTS); }
    if m < 2 || exists f | f in forecasts :: |f| != m { return Err(BAD_LENGTHS); }
    var cs := AllCentered(forecasts, outcomes);
    if !Spread(root, cs) { return Err(CONSTANT); }
    r := Combine(root, cs, m);
  }

  /** A times the denominator is A plus twice the total correlation. */
  lemma Denominator(n: nat, total: real)
    requires n >= 2 && 2.0 * total <= (n * (n - 1)) as real
    ensures (n * (n - 1)) as real / 2.0 != 0.0
    ensures var rho := total / ((n * (n - 1)) as real / 2.0);
            && rho <= 1.0 && Times(n as real, 1.0 + Times((n - 1) as real, rho)) == n as real + 2.0 * total
  {
    assert n * (n - 1) >= 2;
    var p := (n * (n - 1)) as real;
    assert p == n as real * (n - 1) as real;
    var rho := total / (p / 2.0);
    assert rho * p == 2.0 * total;
    assert n as real * ((n - 1) as real * rho) == rho * p;
    if rho > 1.0 { MulPositive(rho - 1.0, p); }
  }

  lemma ResultantBound(n: nat, total: real, s: real, denom: real)
    requires n >= 2 && s >= 0.0 && 2.0 * total <= (n * (n - 1)) as real
    requires n as real + 2.0 * total == s && Times(n as real, denom) == s
    ensures denom >= 0.0 && (denom == 0.0 <==> s == 0.0)
    ensures denom > 0.0 ==> n as real / denom >= 1.0 && Times(n as real / denom, s) == n as real * n as real
  {
    var a := n as real;
    assert a * a == (n * (n - 1)) as real + a;
    assert denom <= a;
    if denom > 0.0 {
      var q := a / denom;
      DivMul(a, denom);
      assert q * s == a * (q * denom);
    }
  }
}
