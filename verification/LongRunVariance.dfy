/** The Bartlett long-run variance: the weighted autocovariance sum the code accumulates is a sum of
    squares in disguise, so it is never negative, whatever the series and the bandwidth. */
module LongRunVariance {
  import opened RealArith
  import opened Wrappers

  function Demeaned(x: seq<real>): (d: seq<real>)
    requires x != []
    ensures |d| == |x|
  {
    var m := Sum(x) / |x| as real;
    seq(|x|, i requires 0 <= i < |x| => x[i] - m)
  }

  /** The series is moved as a whole, to mean zero. */
  lemma DemeanedSumsToZero(x: seq<real>)
    requires x != []
    ensures Sum(Demeaned(x)) == 0.0
    ensures forall i, j | 0 <= i < |x| && 0 <= j < |x| :: Demeaned(x)[i] - Demeaned(x)[j] == x[i] - x[j]
  {
    var m := Sum(x) / |x| as real;
    DivMul(Sum(x), |x| as real);
    ShiftedSum(x, Demeaned(x), m);
  }

  lemma {:induction false} ShiftedSum(x: seq<real>, d: seq<real>, m: real)
    requires |d| == |x| && forall i | 0 <= i < |x| :: d[i] == x[i] - m
    ensures Sum(d) == Sum(x) - |x| as real * m
  {
    if x != [] {
      var k := |x| - 1;
      ShiftedSum(x[..k], d[..k], m);
      assert |x| as real * m == k as real * m + m;
    }
  }

  /** The series padded with zeros on both sides. */
  function At(d: seq<real>, t: int): real { if 0 <= t < |d| then d[t] else 0.0 }

  /** Sum of At(d, t) * At(d, t - j) for j <= t < hi: n times the lag-j autocovariance once hi reaches n. */
  function Products(d: seq<real>, j: int, hi: int): real
    decreases hi - j
  {
    if hi <= j then 0.0 else Products(d, j, hi - 1) + At(d, hi - 1) * At(d, hi - 1 - j)
  }

  function Gamma(d: seq<real>, j: int): real { Products(d, j, |d|) }

  /** Position by position. */
  function Inner(x: seq<real>, y: seq<real>): real
    requires |x| == |y|
  {
    if x == [] then 0.0 else x[0] * y[0] + Inner(x[1..], y[1..])
  }

  lemma {:induction false} InnerSnoc(x: seq<real>, y: seq<real>, a: real, b: real)
    requires |x| == |y|
    ensures Inner(x + [a], y + [b]) == Inner(x, y) + a * b
  {
    if x == [] {
      assert Inner([a][1..], [b][1..]) == 0.0;
    } else {
      assert (x + [a])[1..] == x[1..] + [a] && (y + [b])[1..] == y[1..] + [b];
      InnerSnoc(x[1..], y[1..], a, b);
    }
  }

  /** The series against itself j places earlier. */
  lemma {:induction false} GammaIsInner(d: seq<real>, j: nat)
    requires j <= |d|
    ensures Gamma(d, j) == Inner(d[j..], d[..|d| - j])
  {
    ProductsAreInner(d, j, |d|);
    assert d[j..|d|] == d[j..];
  }

  lemma {:induction false} ProductsAreInner(d: seq<real>, j: nat, hi: nat)
    requires j <= hi <= |d|
    ensures Products(d, j, hi) == Inner(d[j..hi], d[..hi - j])
  {
    if hi > j {
      ProductsAreInner(d, j, hi - 1);
      InnerSnoc(d[j..hi - 1], d[..hi - 1 - j], d[hi - 1], d[hi - 1 - j]);
      assert d[j..hi] == d[j..hi - 1] + [d[hi - 1]] && d[..hi - j] == d[..hi - 1 - j] + [d[hi - 1 - j]];
    }
  }

  /** Sum of the `width` padded values ending at s. */
  function Window(d: seq<real>, width: nat, s: int): real {
    if width == 0 then 0.0 else Window(d, width - 1, s) + At(d, s - (width - 1))
  }

  /** Sum over 0 <= s < hi of the squared windows. */
  function WindowSquares(d: seq<real>, width: nat, hi: nat): real {
    if hi == 0 then 0.0
    else WindowSquares(d, width, hi - 1) + Window(d, width, hi - 1) * Window(d, width, hi - 1)
  }

  lemma {:induction false} WindowSquaresNonNegative(d: seq<real>, width: nat, hi: nat)
    ensures WindowSquares(d, width, hi) >= 0.0
  {
    if hi > 0 {
      WindowSquaresNonNegative(d, width, hi - 1);
      SquareNonNeg(Window(d, width, hi - 1));
    }
  }

  /** Sum over 0 <= s < hi of At(s - a) * At(s - b). */
  function Shifted(d: seq<real>, a: int, b: int, hi: nat): real {
    if hi == 0 then 0.0 else Shifted(d, a, b, hi - 1) + At(d, hi - 1 - a) * At(d, hi - 1 - b)
  }

  /** Sum over 0 <= s < hi of the window ending at s times At(s - b). */
  function WindowTimes(d: seq<real>, width: nat, b: int, hi: nat): real {
    if hi == 0 then 0.0 else WindowTimes(d, width, b, hi - 1) + Window(d, width, hi - 1) * At(d, hi - 1 - b)
  }

  lemma {:induction false} ShiftedIsProducts(d: seq<real>, a: nat, b: nat, hi: nat)
    requires a <= b
    ensures Shifted(d, a, b, hi) == Products(d, b - a, hi - a)
  {
    if hi > 0 {
      ShiftedIsProducts(d, a, b, hi - 1);
      if hi - 1 < b {
        assert At(d, hi - 1 - b) == 0.0;
        assert At(d, hi - 1 - a) * At(d, hi - 1 - b) == 0.0;
      }
    }
  }

  lemma {:induction false} ProductsStop(d: seq<real>, j: nat, hi: int)
    requires hi >= |d|
    ensures Products(d, j, hi) == Gamma(d, j)
    decreases hi
  {
    if hi > |d| {
      ProductsStop(d, j, hi - 1);
      assert At(d, hi - 1) * At(d, hi - 1 - j) == 0.0;
    }
  }

  lemma {:induction false} WidenTimes(d: seq<real>, width: nat, b: int, hi: nat)
    ensures WindowTimes(d, width + 1, b, hi) == WindowTimes(d, width, b, hi) + Shifted(d, width, b, hi)
  {
    hide At;
    if hi > 0 {
      WidenTimes(d, width, b, hi - 1);
      var w, u, v := Window(d, width, hi - 1), At(d, hi - 1 - width), At(d, hi - 1 - b);
      assert (w + u) * v == w * v + u * v;
    }
  }

  lemma {:induction false} WidenSquares(d: seq<real>, width: nat, hi: nat)
    ensures WindowSquares(d, width + 1, hi)
         == WindowSquares(d, width, hi) + 2.0 * WindowTimes(d, width, width, hi) + Shifted(d, width, width, hi)
  {
    if hi > 0 {
      WidenSquares(d, width, hi - 1);
      var w, u := Window(d, width, hi - 1), At(d, hi - 1 - width);
      assert (w + u) * (w + u) == w * w + 2.0 * (w * u) + u * u;
    }
  }

  /** Sum of Gamma(d, j) for 1 <= j <= last. */
  function Gammas(d: seq<real>, last: nat): real { if last == 0 then 0.0 else Gammas(d, last - 1) + Gamma(d, last) }

  /** Sum of Gamma(d, j) for first <= j <= last, taken from the top. */
  function GammasDown(d: seq<real>, first: int, last: nat): real
    decreases last - first
  {
    if first > last then 0.0 else Gamma(d, first) + GammasDown(d, first + 1, last)
  }

  lemma {:induction false} GammasAgree(d: seq<real>, first: nat, last: nat)
    requires 1 <= first <= last + 1
    ensures Gammas(d, last) == Gammas(d, first - 1) + GammasDown(d, first, last)
    decreases last - first
  {
    if first <= last { GammasAgree(d, first + 1, last); }
  }

  lemma {:induction false} WindowTimesIsGammas(d: seq<real>, width: nat, b: nat, hi: nat)
    requires width <= b && hi >= |d| + b
    ensures WindowTimes(d, width, b, hi) == GammasDown(d, b - width + 1, b)
  {
    if width == 0 {
      NoWindow(d, b, hi);
    } else {
      WindowTimesIsGammas(d, width - 1, b, hi);
      WidenTimes(d, width - 1, b, hi);
      ShiftedIsProducts(d, width - 1, b, hi);
      ProductsStop(d, b - width + 1, hi - (width - 1));
    }
  }

  lemma {:induction false} NoWindow(d: seq<real>, b: int, hi: nat)
    ensures WindowTimes(d, 0, b, hi) == 0.0 && WindowSquares(d, 0, hi) == 0.0
  {
    if hi > 0 { NoWindow(d, b, hi - 1); }
  }

  /** Sum of (m - j) * Gamma(d, j) for 1 <= j <= last. */
  function Weighted(d: seq<real>, m: int, last: nat): real {
    if last == 0 then 0.0 else Weighted(d, m, last - 1) + (m - last) as real * Gamma(d, last)
  }

  lemma {:induction false} WeightedStep(d: seq<real>, m: int, last: nat)
    ensures Weighted(d, m + 1, last) == Weighted(d, m, last) + Gammas(d, last)
  {
    if last > 0 {
      WeightedStep(d, m, last - 1);
      var g, k := Gamma(d, last), (m - last) as real;
      assert (k + 1.0) * g == k * g + g;
    }
  }

  /** m Gamma(0) + 2 sum (m - j) Gamma(j) is the sum of the squared windows of width m. */
  lemma {:induction false} WeightedIsSquares(d: seq<real>, m: nat, hi: nat)
    requires hi >= |d| + m
    ensures WindowSquares(d, m, hi) == m as real * Gamma(d, 0) + 2.0 * Weighted(d, m, if m == 0 then 0 else m - 1)
  {
    hide WindowSquares, WindowTimes, Shifted, Products, GammasDown, Window;
    if m == 0 {
      NoWindow(d, 0, hi);
    } else {
      var w := m - 1;
      WeightedIsSquares(d, w, hi);
      WidenSquares(d, w, hi);
      ShiftedIsProducts(d, w, w, hi);
      ProductsStop(d, 0, hi - w);
      WindowTimesIsGammas(d, w, w, hi);
      GammasAgree(d, 1, w);
      WeightedStep(d, w, w);
      var g := Gamma(d, 0);
      assert (w as real + 1.0) * g == w as real * g + g;
    }
  }

  /** What the loop has accumulated, scaled by n m: m Gamma(0) + 2 sum over j <= last of (m - j) Gamma(j). */
  function Accumulated(d: seq<real>, m: int, last: nat): real {
    m as real * Gamma(d, 0) + 2.0 * Weighted(d, m, last)
  }

  ghost predicate ScalesTo(v: real, n: nat, m: nat, acc: real) { v * n as real * m as real == acc }

  lemma FirstTerm(d: seq<real>, n: nat, m: nat)
    requires n > 0
    ensures ScalesTo(Gamma(d, 0) / n as real, n, m, Accumulated(d, m, 0))
  {
    DivMul(Gamma(d, 0), n as real);
  }

  lemma LagTerm(n: real, m: real, j: real, gamma: real, lrv: real, acc: real)
    requires n > 0.0 && m > 0.0
    requires lrv * n * m == acc
    ensures (lrv + 2.0 * (1.0 - j / m) * (gamma / n)) * n * m == acc + 2.0 * ((m - j) * gamma)
  {
    var q, r := gamma / n, j / m;
    DivMul(gamma, n);
    DivMul(j, m);
    var c := 2.0 * (1.0 - r) * q;
    assert (lrv + c) * n * m == lrv * n * m + c * n * m by {
      assert (lrv + c) * n == lrv * n + c * n;
      assert (lrv * n + c * n) * m == lrv * n * m + c * n * m;
    }
    assert c * n == 2.0 * (1.0 - r) * (q * n);
    assert c * n * m == 2.0 * ((1.0 - r) * m) * gamma;
    assert (1.0 - r) * m == m - r * m;
  }

  lemma AddLag(d: seq<real>, n: nat, m: nat, j: nat, gamma: real, lrv: real, next: real)
    requires n > 0 && 1 <= j < m
    requires gamma == Gamma(d, j) / n as real
    requires next == lrv + 2.0 * (1.0 - j as real / m as real) * gamma
    requires ScalesTo(lrv, n, m, Accumulated(d, m, j - 1))
    ensures ScalesTo(next, n, m, Accumulated(d, m, j))
  {
    hide Gamma;
    LagTerm(n as real, m as real, j as real, Gamma(d, j), lrv, Accumulated(d, m, j - 1));
    assert (m - j) as real == m as real - j as real;
  }

  lemma SignOfScaled(v: real, n: real, m: real)
    requires n > 0.0 && m > 0.0 && v * n * m >= 0.0
    ensures v >= 0.0
  {
    if v < 0.0 {
      MulNegPos(v, n);
      MulNegPos(v * n, m);
    }
  }

  lemma MulNegPos(a: real, b: real)
    requires a < 0.0 && b > 0.0
    ensures a * b < 0.0
  {
  }

  lemma ClosedForm(d: seq<real>, n: nat, m: nat, lrv: real)
    requires n == |d| && 1 <= m && n > 0
    requires ScalesTo(lrv, n, m, Accumulated(d, m, m - 1))
    ensures lrv * n as real * m as real == WindowSquares(d, m, n + m)
    ensures lrv >= 0.0
  {
    WeightedIsSquares(d, m, n + m);
    WindowSquaresNonNegative(d, m, n + m);
    SignOfScaled(lrv, n as real, m as real);
  }

  datatype BandwidthError = BandwidthError

  /** The weighted autocovariance sum as it is accumulated, with every bandwidth it accepts. */
  method BartlettLrv(x: seq<real>, bandwidth: int) returns (r: Result<real, BandwidthError>)
    ensures r.Ok? <==> 1 <= bandwidth <= |x|
    ensures r.Ok? ==>
              r.value * |x| as real * bandwidth as real == WindowSquares(Demeaned(x), bandwidth, |x| + bandwidth)
    ensures r.Ok? ==> r.value >= 0.0
  {
    hide ScalesTo, Accumulated;
    var n := |x|;
    if bandwidth < 1 || bandwidth > n {
      return Err(BandwidthError);
    }
    var d := Demeaned(x);
    var lrv := Gamma(d, 0) / n as real;
    FirstTerm(d, n, bandwidth);
    for j := 1 to bandwidth
      invariant ScalesTo(lrv, n, bandwidth, Accumulated(d, bandwidth, j - 1))
    {
      var gamma := Gamma(d, j) / n as real;
      var next := lrv + 2.0 * (1.0 - j as real / bandwidth as real) * gamma;
      AddLag(d, n, bandwidth, j, gamma, lrv, next);
      lrv := next;
    }
    ClosedForm(d, n, bandwidth, lrv);
    return Ok(lrv);
  }
}
