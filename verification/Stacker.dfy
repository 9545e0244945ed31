/** Fitting an intercept and a slope to resolved forecasts under a ridge. The logistic function and its
    integral are parameters; all that is used of them is that probabilities lie in [0, 1]. */
module Stacker {
  import opened RealArith
  import opened Wrappers

  const MAX_ITER: nat := 100
  const TOL: real := 1.0 / 10_000_000_000.0
  const SINGULAR: real := 1.0 / 100_000_000_000_000.0
  const SMALLEST_STEP: real := 1.0 / 1_000_000_000_000.0
  const ARMIJO: real := 1.0 / 10_000.0

  datatype Observation = Observation(logit: real, outcome: real, weight: real)

  /** The calibrated logit. */
  function Score(a: real, b: real, l: real): real { a + Times(b, l) }

  /** The two link functions and the ridge. */
  datatype Problem = Problem(
    obs: seq<Observation>, anchor: real, gammaA: real, gammaB: real, sigmoid: real -> real, softplus: real -> real)
  {
    ghost predicate Valid() {
      && obs != [] && gammaA >= 0.0 && gammaB >= 0.0
      && (forall o | o in obs :: o.weight >= 0.0)
      && (forall x :: 0.0 <= Sigmoid(x) <= 1.0)
    }

    function Sigmoid(x: real): real { sigmoid(x) }

    function Softplus(x: real): real { softplus(x) }

    /** The softplus lies above its tangents, whose slopes are the sigmoid. */
    ghost predicate Convex() {
      forall x, y :: Softplus(y) >= Softplus(x) + Times(Sigmoid(x), y - x)
    }

    /** The sigmoid is differentiable, with derivative s (1 - s) and a bounded second one. */
    ghost predicate Smooth() {
      forall x, y :: Within(Remainder(Sigmoid(x), Sigmoid(y), y - x), Times(y - x, y - x) / 20.0)
    }

    /** The weighted negative log-likelihood of one observation. */
    function Cost(a: real, b: real, o: Observation): real {
      o.weight * (Softplus(Score(a, b, o.logit)) - o.outcome * Score(a, b, o.logit))
    }

    /** The weighted negative log-likelihood of a prefix of the observations. */
    function Loss(a: real, b: real, k: nat): real
      requires k <= |obs|
    {
      if k == 0 then 0.0 else Loss(a, b, k - 1) + Cost(a, b, obs[k - 1])
    }

    function Objective(a: real, b: real): real
      requires obs != []
    {
      Loss(a, b, |obs|) / |obs| as real
      + 0.5 * gammaA * (a - anchor) * (a - anchor) + 0.5 * gammaB * (b - 1.0) * (b - 1.0)
    }
  }

  /** What is left of a change from s to t over u after the linear part with slope s (1 - s). */
  function Remainder(s: real, t: real, u: real): real { t - s - s * (1.0 - s) * u }

  predicate Within(x: real, bound: real) { -bound <= x <= bound }

  // ----- positive semidefinite two by two matrices

  datatype Sym = Sym(aa: real, ab: real, bb: real)
  {
    function Det(): real { aa * bb - ab * ab }

    predicate Psd() { aa >= 0.0 && bb >= 0.0 && Det() >= 0.0 }

    function Form(x: real, y: real): real { aa * x * x + 2.0 * ab * x * y + bb * y * y }
  }

  lemma CompleteSquare(m: Sym, x: real, y: real)
    ensures Times(m.aa, m.Form(x, y))
            == Times(m.aa * x + m.ab * y, m.aa * x + m.ab * y) + Times(m.Det(), y * y)
  {
    var u, v := m.aa * x, m.ab * y;
    assert (u + v) * (u + v) == u * u + 2.0 * (u * v) + v * v;
    assert u * u == m.aa * (m.aa * x * x);
    assert u * v == m.aa * (m.ab * x * y);
    assert v * v == m.ab * m.ab * (y * y);
    assert m.Det() * (y * y) == m.aa * (m.bb * y * y) - m.ab * m.ab * (y * y);
  }

  lemma FormIsNonNegative(m: Sym, x: real, y: real)
    requires m.Psd()
    ensures m.Form(x, y) >= 0.0
  {
    SquareNonNeg(y);
    if m.aa > 0.0 {
      CompleteSquare(m, x, y);
      SquareAtLeastZero(m.aa * x + m.ab * y);
      ProductAtLeastZero(m.Det(), y * y);
      PositiveFactor(m.aa, m.Form(x, y));
    } else {
      assert m.aa * m.bb == 0.0;
      assert Times(m.ab, m.ab) <= 0.0;
      ZeroSquare(m.ab);
      assert m.aa * x * x == 0.0 && 2.0 * m.ab * x * y == 0.0;
      MulNonNeg(m.bb, y * y);
    }
  }

  lemma ZeroSquare(x: real)
    requires Times(x, x) <= 0.0
    ensures x == 0.0
  {
    hide Times;
    if x != 0.0 { NonzeroSquare(x); }
  }

  lemma PositiveFactor(a: real, f: real)
    requires a > 0.0 && Times(a, f) >= 0.0
    ensures f >= 0.0
  {
    hide Times;
    if f < 0.0 {
      TimesStrict(f, 0.0, a);
      TimesZero(a);
    }
  }

  lemma SquareAtLeastZero(x: real)
    ensures Times(x, x) >= 0.0
  {
  }

  lemma ProductAtLeastZero(x: real, y: real)
    requires x >= 0.0 && y >= 0.0
    ensures Times(x, y) >= 0.0
  {
  }

  /** Adding s times (1, l; l, l*l) keeps a matrix positive semidefinite. */
  lemma RankOneUpdate(m: Sym, s: real, l: real)
    requires m.Psd() && s >= 0.0
    ensures Sym(m.aa + s, m.ab + s * l, m.bb + s * (l * l)).Psd()
  {
    var n := Sym(m.aa + s, m.ab + s * l, m.bb + s * (l * l));
    FormIsNonNegative(m, l, -1.0);
    SquareNonNeg(l);
    MulNonNeg(s, l * l);
    MulNonNeg(s, m.Form(l, -1.0));
    UpdatedDet(m, s, l);
  }

  lemma UpdatedDet(m: Sym, s: real, l: real)
    ensures Sym(m.aa + s, m.ab + s * l, m.bb + s * (l * l)).Det() == m.Det() + s * m.Form(l, -1.0)
  {
    var t := s * l;
    var q := s * (l * l);
    assert (m.aa + s) * (m.bb + q) == m.aa * m.bb + m.aa * q + s * m.bb + s * q;
    assert (m.ab + t) * (m.ab + t) == m.ab * m.ab + 2.0 * (m.ab * t) + t * t;
    assert s * q == t * t by { assert s * (s * (l * l)) == (s * l) * (s * l); }
    assert m.Form(l, -1.0) == m.aa * (l * l) - 2.0 * (m.ab * l) + m.bb by { assert m.aa * l * l == m.aa * (l * l); }
    assert s * (m.aa * (l * l)) == m.aa * q;
    assert s * (m.ab * l) == m.ab * t;
    assert s * (m.aa * (l * l) - 2.0 * (m.ab * l) + m.bb)
        == s * (m.aa * (l * l)) - 2.0 * (s * (m.ab * l)) + s * m.bb;
  }

  // ----- the search direction

  /** The Newton step where the matrix is usable, steepest descent otherwise. */
  function Direction(m: Sym, ga: real, gb: real): (real, real) {
    if m.Det() > SINGULAR
    then (-(m.bb * ga - m.ab * gb) / m.Det(), -(m.aa * gb - m.ab * ga) / m.Det())
    else (-ga, -gb)
  }

  /** Every search direction points downhill. */
  lemma DirectionDescends(m: Sym, ga: real, gb: real)
    requires m.Psd()
    ensures ga * Direction(m, ga, gb).0 + gb * Direction(m, ga, gb).1 <= 0.0
  {
    if m.Det() > SINGULAR {
      var d := m.Det();
      var u, v := m.bb * ga - m.ab * gb, m.aa * gb - m.ab * ga;
      FormIsNonNegative(m, gb, -ga);
      NewtonSlope(m, ga, gb);
      DivNonNeg(ga * u + gb * v, d);
      assert ga * (-u / d) == -(ga * u / d) by { QuotientTimes(ga, u, d); }
      assert gb * (-v / d) == -(gb * v / d) by { QuotientTimes(gb, v, d); }
      assert (ga * u + gb * v) / d == ga * u / d + gb * v / d;
    } else {
      SquareNonNeg(ga);
      SquareNonNeg(gb);
    }
  }

  lemma QuotientTimes(g: real, u: real, d: real)
    requires d != 0.0
    ensures g * (-u / d) == -(g * u / d)
  {
    var q := u / d;
    assert -u / d == -q;
    assert g * u / d == g * q;
  }

  lemma NewtonSlope(m: Sym, ga: real, gb: real)
    ensures ga * (m.bb * ga - m.ab * gb) + gb * (m.aa * gb - m.ab * ga) == m.Form(gb, -ga)
  {
    assert ga * (m.bb * ga - m.ab * gb) == m.bb * ga * ga - m.ab * gb * ga;
    assert gb * (m.aa * gb - m.ab * ga) == m.aa * gb * gb - m.ab * gb * ga;
    assert m.Form(gb, -ga) == m.aa * gb * gb - 2.0 * m.ab * gb * ga + m.bb * ga * ga;
  }

  // ----- one Newton iteration

  function Residual(p: Problem, a: real, b: real, o: Observation): real
    requires p.obs != []
  {
    Share(o.weight, p.Sigmoid(Score(a, b, o.logit)), o.outcome, |p.obs| as real)
  }

  function Share(w: real, q: real, outcome: real, n: real): real
    requires n != 0.0
  {
    w * (q - outcome) / n
  }

  function Spread(w: real, q: real, n: real): real
    requires n != 0.0
  {
    w * q * (1.0 - q) / n
  }

  function Curvature(p: Problem, a: real, b: real, o: Observation): real
    requires p.obs != []
  {
    Spread(o.weight, p.Sigmoid(Score(a, b, o.logit)), |p.obs| as real)
  }

  /** Gradient and Hessian sums over a prefix of the observations. */
  function GradientSum(p: Problem, a: real, b: real, k: nat): (real, real)
    requires p.obs != [] && k <= |p.obs|
  {
    if k == 0 then (Times(p.gammaA, a - p.anchor), Times(p.gammaB, b - 1.0))
    else
      var g, o := GradientSum(p, a, b, k - 1), p.obs[k - 1];
      var r := Residual(p, a, b, o);
      (g.0 + r, g.1 + Times(r, o.logit))
  }

  function HessianSum(p: Problem, a: real, b: real, k: nat): Sym
    requires p.obs != [] && k <= |p.obs|
  {
    if k == 0 then Sym(p.gammaA, 0.0, p.gammaB)
    else
      var m, o := HessianSum(p, a, b, k - 1), p.obs[k - 1];
      var s := Curvature(p, a, b, o);
      Sym(m.aa + s, m.ab + Times(s, o.logit), m.bb + Times(s, Times(o.logit, o.logit)))
  }

  lemma CurvatureNonNegative(p: Problem, a: real, b: real, o: Observation)
    requires p.Valid() && o in p.obs
    ensures Curvature(p, a, b, o) >= 0.0
  {
    hide Spread, Times;
    SpreadNonNegative(o.weight, p.Sigmoid(Score(a, b, o.logit)), |p.obs| as real);
  }

  lemma SpreadNonNegative(w: real, q: real, n: real)
    requires w >= 0.0 && 0.0 <= q <= 1.0 && n > 0.0
    ensures Spread(w, q, n) >= 0.0
  {
    MulNonNeg(w, q);
    MulNonNeg(w * q, 1.0 - q);
    DivNonNeg(w * q * (1.0 - q), n);
  }

  /** The accumulated Hessian is positive semidefinite, so its determinant is never negative. */
  lemma {:induction false} HessianIsPsd(p: Problem, a: real, b: real, k: nat)
    requires p.Valid() && k <= |p.obs|
    ensures HessianSum(p, a, b, k).Psd()
  {
    hide Curvature;
    if k == 0 {
      MulNonNeg(p.gammaA, p.gammaB);
    } else {
      HessianIsPsd(p, a, b, k - 1);
      CurvatureNonNegative(p, a, b, p.obs[k - 1]);
      RankOneUpdate(HessianSum(p, a, b, k - 1), Curvature(p, a, b, p.obs[k - 1]), p.obs[k - 1].logit);
    }
  }

  // ----- the sums are the derivatives of the objective

  function Gradient(p: Problem, x: (real, real)): (real, real)
    requires p.obs != []
  {
    GradientSum(p, x.0, x.1, |p.obs|)
  }

  function Hessian(p: Problem, x: (real, real)): Sym
    requires p.obs != []
  {
    HessianSum(p, x.0, x.1, |p.obs|)
  }

  function Slope(g: (real, real), d: (real, real)): real { g.0 * d.0 + g.1 * d.1 }

  /** The gradient is as good as zero. */
  ghost predicate Flat(p: Problem, x: (real, real))
    requires p.obs != []
  {
    Slope(Gradient(p, x), Gradient(p, x)) < TOL * TOL
  }

  /** The share of the first k observations in the gradient. */
  function DataGradient(p: Problem, x: (real, real), k: nat): (real, real)
    requires p.obs != [] && k <= |p.obs|
  {
    var g, r := GradientSum(p, x.0, x.1, k), GradientSum(p, x.0, x.1, 0);
    (g.0 - r.0, g.1 - r.1)
  }

  lemma OneTangent(p: Problem, x: (real, real), y: (real, real), o: Observation)
    requires p.obs != [] && p.Convex() && o.weight >= 0.0
    ensures p.Cost(y.0, y.1, o) - p.Cost(x.0, x.1, o)
            >= Times(Times(|p.obs| as real, Residual(p, x.0, x.1, o)), (y.0 - x.0) + Times(y.1 - x.1, o.logit))
  {
    var zx, zy := Score(x.0, x.1, o.logit), Score(y.0, y.1, o.logit);
    var s := p.Sigmoid(zx);
    TimesAdd(y.1 - x.1, x.1, o.logit);
    assert zy - zx == (y.0 - x.0) + Times(y.1 - x.1, o.logit);
    hide Times, Score;
    CostTangent(o.weight, o.outcome, p.Softplus(zx), p.Softplus(zy), s, zx, zy);
    ResidualTimes(p, x, o);
    hide Residual, Problem.Convex;
  }

  lemma ResidualTimes(p: Problem, x: (real, real), o: Observation)
    requires p.obs != []
    ensures Times(|p.obs| as real, Residual(p, x.0, x.1, o))
         == o.weight * (p.Sigmoid(Score(x.0, x.1, o.logit)) - o.outcome)
  {
    hide Score;
    var n, top := |p.obs| as real, o.weight * (p.Sigmoid(Score(x.0, x.1, o.logit)) - o.outcome);
    DivMul(top, n);
    assert n * (top / n) == top;
  }

  lemma CostTangent(w: real, o: real, below: real, above: real, s: real, x: real, y: real)
    requires w >= 0.0 && above >= below + Times(s, y - x)
    ensures w * (above - o * y) - w * (below - o * x) >= Times(w * (s - o), y - x)
  {
    var gap := above - below - s * (y - x);
    MulNonNeg(w, gap);
    assert w * gap == w * above - w * below - w * s * (y - x);
    assert w * (above - o * y) - w * (below - o * x) == w * above - w * below - w * o * (y - x);
    assert w * (s - o) * (y - x) == w * s * (y - x) - w * o * (y - x);
  }

  lemma {:induction false} LossTangent(p: Problem, x: (real, real), y: (real, real), k: nat)
    requires p.Valid() && p.Convex() && k <= |p.obs|
    ensures var g := DataGradient(p, x, k);
            p.Loss(y.0, y.1, k) - p.Loss(x.0, x.1, k)
            >= Times(Times(|p.obs| as real, g.0), y.0 - x.0) + Times(Times(|p.obs| as real, g.1), y.1 - x.1)
  {
    if k == 0 {
      NoLoss(p, x, y);
    } else {
      hide *;
      LossTangent(p, x, y, k - 1);
      var n, o, g := |p.obs| as real, p.obs[k - 1], DataGradient(p, x, k - 1);
      var r, da, db := Residual(p, x.0, x.1, o), y.0 - x.0, y.1 - x.1;
      Observed(p, o);
      OneTangent(p, x, y, o);
      OneMore(p, x, k);
      OneMore(p, y, k);
      SplitTangent(n, g.0, g.1, r, o.logit, da, db);
    }
  }

  lemma Observed(p: Problem, o: Observation)
    requires p.Valid() && o in p.obs
    ensures p.obs != [] && o.weight >= 0.0 && |p.obs| as real > 0.0
  {
  }

  lemma NoLoss(p: Problem, x: (real, real), y: (real, real))
    requires p.obs != []
    ensures var g := DataGradient(p, x, 0);
            p.Loss(y.0, y.1, 0) - p.Loss(x.0, x.1, 0)
            >= Times(Times(|p.obs| as real, g.0), y.0 - x.0) + Times(Times(|p.obs| as real, g.1), y.1 - x.1)
  {
    hide Times;
    TimesZero(|p.obs| as real);
    TimesZero(y.0 - x.0);
    TimesZero(y.1 - x.1);
  }

  lemma OneMore(p: Problem, x: (real, real), k: nat)
    requires p.obs != [] && 0 < k <= |p.obs|
    ensures p.Loss(x.0, x.1, k) == p.Loss(x.0, x.1, k - 1) + p.Cost(x.0, x.1, p.obs[k - 1])
    ensures var g, r := DataGradient(p, x, k - 1), Residual(p, x.0, x.1, p.obs[k - 1]);
            DataGradient(p, x, k) == (g.0 + r, g.1 + Times(r, p.obs[k - 1].logit))
  {
    hide Times, Problem.Cost, Residual;
  }

  lemma SplitTangent(n: real, ga: real, gb: real, r: real, l: real, da: real, db: real)
    ensures Times(Times(n, ga + r), da) + Times(Times(n, gb + Times(r, l)), db)
         == Times(Times(n, ga), da) + Times(Times(n, gb), db) + Times(Times(n, r), da + Times(db, l))
  {
    assert n * (ga + r) * da == n * ga * da + n * r * da;
    assert n * (gb + r * l) * db == n * gb * db + n * r * (db * l);
    assert n * r * (da + db * l) == n * r * da + n * r * (db * l);
  }

  lemma RidgeTangent(gamma: real, c: real, x: real, y: real)
    requires gamma >= 0.0
    ensures Ridge(gamma, c, y) - Ridge(gamma, c, x) >= Times(Times(gamma, x - c), y - x)
  {
    var d, e := y - x, x - c;
    SquareNonNeg(d);
    MulNonNeg(gamma, d * d);
    assert y - c == d + e;
    assert 0.5 * gamma * (d + e) * (d + e) == 0.5 * (gamma * (d * d)) + gamma * e * d + 0.5 * gamma * e * e;
  }

  /** The objective lies above its tangent planes, and the accumulated gradient is their slope. */
  lemma GradientIsTangent(p: Problem, x: (real, real), y: (real, real))
    requires p.Valid() && p.Convex()
    ensures p.Objective(y.0, y.1)
         >= p.Objective(x.0, x.1) + Slope(Gradient(p, x), (y.0 - x.0, y.1 - x.1))
  {
    hide *;
    var n, k, da, db := |p.obs| as real, |p.obs|, y.0 - x.0, y.1 - x.1;
    ProblemHasObservations(p);
    var g := DataGradient(p, x, k);
    ObjectiveParts(p, x);
    ObjectiveParts(p, y);
    RidgeTangent(p.gammaA, p.anchor, x.0, y.0);
    RidgeTangent(p.gammaB, 1.0, x.1, y.1);
    LossTangent(p, x, y, k);
    AverageTangent(p.Loss(x.0, x.1, k), p.Loss(y.0, y.1, k), n, g.0, g.1, da, db);
    SlopeParts(p, x, (da, db));
  }

  function Ridge(gamma: real, c: real, x: real): real { 0.5 * gamma * (x - c) * (x - c) }

  function Mean(loss: real, n: real): real
    requires n != 0.0
  {
    loss / n
  }

  lemma ObjectiveParts(p: Problem, x: (real, real))
    requires p.Valid()
    ensures p.obs != [] && p.gammaA >= 0.0 && p.gammaB >= 0.0
    ensures p.Objective(x.0, x.1)
         == Mean(p.Loss(x.0, x.1, |p.obs|), |p.obs| as real) + Ridge(p.gammaA, p.anchor, x.0)
            + Ridge(p.gammaB, 1.0, x.1)
  {
    hide Problem.Loss;
  }

  lemma SlopeParts(p: Problem, x: (real, real), d: (real, real))
    requires p.obs != []
    ensures Slope(Gradient(p, x), d)
         == Slope(DataGradient(p, x, |p.obs|), d)
            + Times(Times(p.gammaA, x.0 - p.anchor), d.0) + Times(Times(p.gammaB, x.1 - 1.0), d.1)
  {
    var g, r := DataGradient(p, x, |p.obs|), GradientSum(p, x.0, x.1, 0);
    assert Gradient(p, x) == (g.0 + r.0, g.1 + r.1);
    Distribute(g.0, r.0, d.0);
    Distribute(g.1, r.1, d.1);
    hide GradientSum, DataGradient, Gradient;
  }

  lemma Distribute(a: real, b: real, c: real)
    ensures (a + b) * c == a * c + b * c
  {
  }

  lemma AverageTangent(u: real, v: real, n: real, ga: real, gb: real, da: real, db: real)
    requires n > 0.0 && v - u >= Times(Times(n, ga), da) + Times(Times(n, gb), db)
    ensures Mean(v, n) - Mean(u, n) >= Slope((ga, gb), (da, db))
  {
    var t := ga * da + gb * db;
    assert Times(Times(n, ga), da) + Times(Times(n, gb), db) == n * t;
    var mean := (v - u) / n;
    DivMul(v - u, n);
    assert v / n - u / n == mean;
    if mean < t { MulPositive(t - mean, n); }
  }

  /** Where the gradient is as good as zero, nowhere within a distance is the objective lower by more than the
      tolerance times that distance. */
  lemma FlatIsNearlyBest(p: Problem, x: (real, real), y: (real, real), distance: real)
    requires p.Valid() && p.Convex() && Flat(p, x) && distance >= 0.0
    requires Slope((y.0 - x.0, y.1 - x.1), (y.0 - x.0, y.1 - x.1)) <= distance * distance
    ensures p.Objective(x.0, x.1) <= p.Objective(y.0, y.1) + TOL * distance
  {
    GradientIsTangent(p, x, y);
    SmallSlope(Gradient(p, x), (y.0 - x.0, y.1 - x.1), TOL, distance);
  }

  /** Cauchy and Schwarz. */
  lemma SmallSlope(g: (real, real), d: (real, real), tol: real, distance: real)
    requires tol > 0.0 && Slope(g, g) < tol * tol && distance >= 0.0 && Slope(d, d) <= distance * distance
    ensures -(tol * distance) <= Slope(g, d)
  {
    var s, t := Slope(g, d), tol * distance;
    var gg, dd := Slope(g, g), Slope(d, d);
    SquareNonNeg(g.0 * d.1 - g.1 * d.0);
    LagrangeIdentity(g, d);
    SquareNonNeg(g.0);
    SquareNonNeg(g.1);
    SquareNonNeg(d.0);
    SquareNonNeg(d.1);
    var q, e := tol * tol, distance * distance;
    MulMono(gg, q, dd);
    MulMono(dd, e, q);
    assert q * e == t * t by { SquaredProduct(tol, distance); }
    MulNonNeg(tol, distance);
    if s < -t { LargerSquare(-s, t); }
  }

  lemma SquaredProduct(a: real, b: real)
    ensures a * a * (b * b) == a * b * (a * b)
  {
  }

  lemma LargerSquare(a: real, b: real)
    requires a > b >= 0.0
    ensures a * a > b * b
  {
    MulPositive(a - b, a + b);
    assert (a - b) * (a + b) == a * a - b * b;
  }

  lemma LagrangeIdentity(g: (real, real), d: (real, real))
    ensures var z := g.0 * d.1 - g.1 * d.0;
            Slope(g, g) * Slope(d, d) == Slope(g, d) * Slope(g, d) + z * z
  {
    var a, b, c, e := g.0, g.1, d.0, d.1;
    assert (a * a + b * b) * (c * c + e * e) == a * a * (c * c) + a * a * (e * e) + b * b * (c * c) + b * b * (e * e);
    assert (a * c + b * e) * (a * c + b * e) == a * a * (c * c) + 2.0 * (a * c * (b * e)) + b * b * (e * e);
    assert (a * e - b * c) * (a * e - b * c) == a * a * (e * e) - 2.0 * (a * c * (b * e)) + b * b * (c * c);
  }

  /** The score's second-order error bounds, summed over the first k observations. */
  function ErrorSum(p: Problem, d: (real, real), k: nat): (real, real)
    requires p.obs != [] && k <= |p.obs|
  {
    if k == 0 then (0.0, 0.0)
    else
      var e, o := ErrorSum(p, d, k - 1), p.obs[k - 1];
      var b := OneError(p, d, o);
      (e.0 + b, e.1 + Times(b, Abs(o.logit)))
  }

  function Abs(x: real): real { if x < 0.0 then -x else x }

  function OneError(p: Problem, d: (real, real), o: Observation): real
    requires p.obs != []
  {
    var u := Score(d.0, d.1, o.logit);
    Bound(o.weight, Times(u, u) / 20.0, |p.obs| as real)
  }

  function Bound(w: real, e: real, n: real): real
    requires n != 0.0
  {
    w * e / n
  }

  lemma OneDerivative(p: Problem, x: (real, real), y: (real, real), o: Observation)
    requires p.obs != [] && p.Smooth() && o.weight >= 0.0
    ensures var d := (y.0 - x.0, y.1 - x.1);
            Within(Residual(p, y.0, y.1, o) - Residual(p, x.0, x.1, o)
                   - Times(Curvature(p, x.0, x.1, o), Score(d.0, d.1, o.logit)),
                   OneError(p, d, o))
  {
    hide *;
    var d := (y.0 - x.0, y.1 - x.1);
    var n, zx, zy := |p.obs| as real, Score(x.0, x.1, o.logit), Score(y.0, y.1, o.logit);
    ScoreDifference(x, y, o.logit);
    var u := Score(d.0, d.1, o.logit);
    SmoothAt(p, zx, zy, u);
    OneShare(p, x, o);
    OneShare(p, y, o);
    TheError(p, d, o, u);
    ScaledError(o.weight, n, p.Sigmoid(zx), p.Sigmoid(zy), o.outcome, u, Times(u, u) / 20.0);
  }

  lemma ScoreDifference(x: (real, real), y: (real, real), l: real)
    ensures Score(y.0, y.1, l) - Score(x.0, x.1, l) == Score(y.0 - x.0, y.1 - x.1, l)
  {
    TimesAdd(y.1 - x.1, x.1, l);
    hide Times;
  }

  lemma SmoothAt(p: Problem, x: real, y: real, u: real)
    requires p.Smooth() && u == y - x
    ensures Within(Remainder(p.Sigmoid(x), p.Sigmoid(y), u), Times(u, u) / 20.0)
  {
    hide Times, Within, Remainder;
  }

  lemma OneShare(p: Problem, x: (real, real), o: Observation)
    requires p.obs != []
    ensures |p.obs| as real > 0.0
    ensures Residual(p, x.0, x.1, o)
         == Share(o.weight, p.Sigmoid(Score(x.0, x.1, o.logit)), o.outcome, |p.obs| as real)
    ensures Curvature(p, x.0, x.1, o) == Spread(o.weight, p.Sigmoid(Score(x.0, x.1, o.logit)), |p.obs| as real)
  {
    hide Times, Share, Spread, Score;
  }

  lemma TheError(p: Problem, d: (real, real), o: Observation, u: real)
    requires p.obs != [] && u == Score(d.0, d.1, o.logit)
    ensures OneError(p, d, o) == Bound(o.weight, Times(u, u) / 20.0, |p.obs| as real)
  {
    hide Times, Bound, Score;
  }

  lemma ScaledError(w: real, n: real, s: real, t: real, o: real, u: real, e: real)
    requires w >= 0.0 && n > 0.0 && Within(Remainder(s, t, u), e)
    ensures Within(Share(w, t, o, n) - Share(w, s, o, n) - Times(Spread(w, s, n), u), Bound(w, e, n))
  {
    var z := t - s - s * (1.0 - s) * u;
    MulNonNeg(w, e - z);
    MulNonNeg(w, e + z);
    assert w * (e - z) == w * e - w * z && w * (e + z) == w * e + w * z;
    var p, q, r := w * (t - o) / n, w * (s - o) / n, w * s * (1.0 - s) / n;
    DivMul(w * (t - o), n);
    DivMul(w * (s - o), n);
    DivMul(w * s * (1.0 - s), n);
    DivMul(w * e, n);
    assert (p - q - r * u) * n == w * z by {
      assert (p - q - r * u) * n == p * n - q * n - r * n * u;
      assert w * z == w * (t - o) - w * (s - o) - w * s * (1.0 - s) * u;
    }
    BoundedQuotient(p - q - r * u, w * e / n, n);
  }

  lemma BoundedQuotient(x: real, b: real, n: real)
    requires n > 0.0 && Within(x * n, b * n)
    ensures Within(x, b)
  {
    if x > b { MulPositive(x - b, n); }
    if x < -b { MulPositive(-b - x, n); }
  }

  lemma ErrorTimes(x: real, b: real, l: real)
    requires Within(x, b)
    ensures Within(Times(x, l), Times(b, Abs(l)))
  {
    if l < 0.0 {
      MulNonNeg(b - x, -l);
      MulNonNeg(b + x, -l);
    } else {
      MulNonNeg(b - x, l);
      MulNonNeg(b + x, l);
    }
  }

  /** To first order the gradient changes by the accumulated matrix: it is the derivative of the gradient. */
  lemma {:induction false} HessianIsTheDerivative(p: Problem, x: (real, real), y: (real, real), k: nat)
    requires p.Valid() && p.Smooth() && k <= |p.obs|
    ensures var g, h, m := GradientSum(p, x.0, x.1, k), GradientSum(p, y.0, y.1, k), HessianSum(p, x.0, x.1, k);
            var d := (y.0 - x.0, y.1 - x.1);
            && Within(h.0 - g.0 - (Times(m.aa, d.0) + Times(m.ab, d.1)), ErrorSum(p, d, k).0)
            && Within(h.1 - g.1 - (Times(m.ab, d.0) + Times(m.bb, d.1)), ErrorSum(p, d, k).1)
  {
    var d := (y.0 - x.0, y.1 - x.1);
    hide *;
    if k == 0 {
      ProblemHasObservations(p);
      FirstDerivatives(p, x, y);
      RidgeDerivative(p.gammaA, p.anchor, x.0, y.0);
      RidgeDerivative(p.gammaB, 1.0, x.1, y.1);
      TimesZero(d.0);
      TimesZero(d.1);
      WithinNothing();
    } else {
      HessianIsTheDerivative(p, x, y, k - 1);
      var o := p.obs[k - 1];
      Observed(p, o);
      NextDerivatives(p, x, y, k);
      OneDerivative(p, x, y, o);
      var r, t, c := Residual(p, x.0, x.1, o), Residual(p, y.0, y.1, o), Curvature(p, x.0, x.1, o);
      ErrorTimes(t - r - Times(c, Score(d.0, d.1, o.logit)), OneError(p, d, o), o.logit);
      var m := HessianSum(p, x.0, x.1, k - 1);
      AddRank(m, c, o.logit, d);
      DerivativeTimes(t, r, c, o.logit, d);
      var e, b := ErrorSum(p, d, k - 1), OneError(p, d, o);
      var g, h := GradientSum(p, x.0, x.1, k - 1), GradientSum(p, y.0, y.1, k - 1);
      var u := Times(c, Score(d.0, d.1, o.logit));
      WithinSum(h.0 - g.0 - (Times(m.aa, d.0) + Times(m.ab, d.1)), e.0, t - r - u, b);
      WithinSum(h.1 - g.1 - (Times(m.ab, d.0) + Times(m.bb, d.1)), e.1,
                Times(t - r - u, o.logit), Times(b, Abs(o.logit)));
    }
  }

  lemma WithinNothing()
    ensures Within(0.0, 0.0)
  {
  }

  lemma WithinSum(x: real, a: real, y: real, b: real)
    requires Within(x, a) && Within(y, b)
    ensures Within(x + y, a + b)
  {
  }

  lemma FirstDerivatives(p: Problem, x: (real, real), y: (real, real))
    requires p.obs != []
    ensures GradientSum(p, x.0, x.1, 0) == (Times(p.gammaA, x.0 - p.anchor), Times(p.gammaB, x.1 - 1.0))
    ensures GradientSum(p, y.0, y.1, 0) == (Times(p.gammaA, y.0 - p.anchor), Times(p.gammaB, y.1 - 1.0))
    ensures HessianSum(p, x.0, x.1, 0) == Sym(p.gammaA, 0.0, p.gammaB)
    ensures forall d :: ErrorSum(p, d, 0) == (0.0, 0.0)
  {
    hide Times;
  }

  lemma NextDerivatives(p: Problem, x: (real, real), y: (real, real), k: nat)
    requires p.obs != [] && 0 < k <= |p.obs|
    ensures var o, g, m := p.obs[k - 1], GradientSum(p, x.0, x.1, k - 1), HessianSum(p, x.0, x.1, k - 1);
            var h, r, t := GradientSum(p, y.0, y.1, k - 1), Residual(p, x.0, x.1, o), Residual(p, y.0, y.1, o);
            var c := Curvature(p, x.0, x.1, o);
            && GradientSum(p, x.0, x.1, k) == (g.0 + r, g.1 + Times(r, o.logit))
            && GradientSum(p, y.0, y.1, k) == (h.0 + t, h.1 + Times(t, o.logit))
            && HessianSum(p, x.0, x.1, k)
               == Sym(m.aa + c, m.ab + Times(c, o.logit), m.bb + Times(c, Times(o.logit, o.logit)))
            && var d := (y.0 - x.0, y.1 - x.1);
               var e, b := ErrorSum(p, d, k - 1), OneError(p, d, o);
               ErrorSum(p, d, k) == (e.0 + b, e.1 + Times(b, Abs(o.logit)))
  {
    hide Times, Residual, Curvature, OneError;
  }

  lemma RidgeDerivative(gamma: real, c: real, x: real, y: real)
    ensures Times(gamma, y - c) - Times(gamma, x - c) == Times(gamma, y - x)
  {
  }

  lemma AddRank(m: Sym, c: real, l: real, d: (real, real))
    ensures Times(m.aa + c, d.0) + Times(m.ab + Times(c, l), d.1)
         == Times(m.aa, d.0) + Times(m.ab, d.1) + Times(c, Score(d.0, d.1, l))
    ensures Times(m.ab + Times(c, l), d.0) + Times(m.bb + Times(c, Times(l, l)), d.1)
         == Times(m.ab, d.0) + Times(m.bb, d.1) + Times(Times(c, Score(d.0, d.1, l)), l)
  {
    assert (m.aa + c) * d.0 == m.aa * d.0 + c * d.0;
    assert (m.ab + c * l) * d.1 == m.ab * d.1 + c * (d.1 * l);
    assert c * (d.0 + d.1 * l) == c * d.0 + c * (d.1 * l);
    assert (m.ab + c * l) * d.0 == m.ab * d.0 + c * d.0 * l;
    assert (m.bb + c * (l * l)) * d.1 == m.bb * d.1 + c * (d.1 * l) * l;
    assert c * (d.0 + d.1 * l) * l == c * d.0 * l + c * (d.1 * l) * l;
  }

  lemma DerivativeTimes(t: real, r: real, c: real, l: real, d: (real, real))
    ensures Times(t - r - Times(c, Score(d.0, d.1, l)), l)
         == Times(t, l) - Times(r, l) - Times(Times(c, Score(d.0, d.1, l)), l)
  {
    hide Score;
    var v := c * Score(d.0, d.1, l);
    assert (t - r - v) * l == t * l - r * l - v * l;
  }

  /** One pass over the observations. */
  method Accumulate(p: Problem, a: real, b: real) returns (ga: real, gb: real, m: Sym)
    requires p.Valid()
    ensures (ga, gb) == GradientSum(p, a, b, |p.obs|) && m == HessianSum(p, a, b, |p.obs|)
  {
    hide Problem.Valid, Residual, Curvature, Times;
    ProblemHasObservations(p);
    ga, gb := Times(p.gammaA, a - p.anchor), Times(p.gammaB, b - 1.0);
    var haa, hab, hbb := p.gammaA, 0.0, p.gammaB;
    for k := 0 to |p.obs|
      invariant (ga, gb) == GradientSum(p, a, b, k) && Sym(haa, hab, hbb) == HessianSum(p, a, b, k)
    {
      var o := p.obs[k];
      var r, s := Residual(p, a, b, o), Curvature(p, a, b, o);
      ga, gb := ga + r, gb + Times(r, o.logit);
      haa, hab, hbb := haa + s, hab + Times(s, o.logit), hbb + Times(s, Times(o.logit, o.logit));
    }
    m := Sym(haa, hab, hbb);
  }

  /** The step after k halvings. */
  function Half(k: nat): real { if k == 0 then 1.0 else Half(k - 1) * 0.5 }

  /** After k halvings the objective falls by enough along this direction. */
  ghost predicate Enough(p: Problem, x: (real, real), d: (real, real), slope: real, k: nat)
    requires p.obs != []
  {
    p.Objective(x.0 + Times(Half(k), d.0), x.1 + Times(Half(k), d.1))
    <= p.Objective(x.0, x.1) + Times(ARMIJO * Half(k), slope)
  }

  /** Halve the step until the objective falls by enough, at the first step that does; give up below the
      smallest step. */
  method LineSearch(p: Problem, a: real, b: real, f: real, da: real, db: real, slope: real)
    returns (accepted: bool, step: real, next: real, ghost k: nat)
    requires p.Valid() && slope <= 0.0 && f == p.Objective(a, b)
    ensures accepted ==> step == Half(k) > SMALLEST_STEP && Enough(p, (a, b), (da, db), slope, k)
    ensures accepted ==> forall j | 0 <= j < k :: !Enough(p, (a, b), (da, db), slope, j)
    ensures !accepted ==> forall j: nat | Half(j) > SMALLEST_STEP :: !Enough(p, (a, b), (da, db), slope, j)
    ensures accepted ==> next == p.Objective(a + Times(step, da), b + Times(step, db)) <= f
  {
    hide Problem.Objective, Times, Enough;
    step, k := 1.0, 0;
    while step > SMALLEST_STEP
      invariant 0.0 < step == Half(k) && forall j | 0 <= j < k :: !Enough(p, (a, b), (da, db), slope, j)
      decreases 2_000_000_000_000.0 * step
    {
      next := p.Objective(a + Times(step, da), b + Times(step, db));
      EnoughNow(p, a, b, da, db, slope, k);
      if next <= f + Times(ARMIJO * step, slope) {
        ArmijoDescends(step, slope);
        return true, step, next, k;
      }
      step := step * 0.5;
      k := k + 1;
    }
    forall j: nat | Half(j) > SMALLEST_STEP ensures j < k {
      if j >= k { HalvesShrink(k, j); }
    }
    return false, step, f, k;
  }

  lemma EnoughNow(p: Problem, a: real, b: real, da: real, db: real, slope: real, k: nat)
    requires p.obs != []
    ensures Enough(p, (a, b), (da, db), slope, k) <==>
              p.Objective(a + Times(Half(k), da), b + Times(Half(k), db))
              <= p.Objective(a, b) + Times(ARMIJO * Half(k), slope)
  {
  }

  lemma {:induction false} HalvesShrink(k: nat, j: nat)
    requires k <= j
    ensures 0.0 < Half(j) <= Half(k)
  {
    if k < j {
      HalvesShrink(k, j - 1);
    } else if k > 0 {
      HalvesShrink(k - 1, k - 1);
    }
  }

  lemma ArmijoDescends(step: real, slope: real)
    requires step > 0.0 && slope <= 0.0
    ensures Times(ARMIJO * step, slope) <= 0.0
  {
    MulNonNeg(ARMIJO * step, -slope);
  }

  /** The direction of one iteration: it solves the Newton equations if the matrix is usable, and is the steepest
      descent otherwise. */
  ghost predicate Heads(m: Sym, g: (real, real), d: (real, real)) {
    if m.Det() > SINGULAR
    then m.aa * d.0 + m.ab * d.1 == -g.0 && m.ab * d.0 + m.bb * d.1 == -g.1
    else d == (-g.0, -g.1)
  }

  lemma DirectionHeads(m: Sym, ga: real, gb: real)
    ensures Heads(m, (ga, gb), Direction(m, ga, gb))
  {
    if m.Det() > SINGULAR {
      var d := m.Det();
      var u, v := m.bb * ga - m.ab * gb, m.aa * gb - m.ab * ga;
      assert m.aa * u + m.ab * v == d * ga by { CrossTerms(m, ga, gb); }
      assert m.ab * u + m.bb * v == d * gb by { CrossTerms(m, ga, gb); }
      Scaled(m.aa, m.ab, u, v, d, ga);
      Scaled(m.ab, m.bb, u, v, d, gb);
    }
  }

  lemma CrossTerms(m: Sym, ga: real, gb: real)
    ensures m.aa * (m.bb * ga - m.ab * gb) + m.ab * (m.aa * gb - m.ab * ga) == m.Det() * ga
    ensures m.ab * (m.bb * ga - m.ab * gb) + m.bb * (m.aa * gb - m.ab * ga) == m.Det() * gb
  {
  }

  lemma Scaled(p: real, q: real, u: real, v: real, d: real, g: real)
    requires d > 0.0 && p * u + q * v == d * g
    ensures p * (-u / d) + q * (-v / d) == -g
  {
    var x, y := u / d, v / d;
    DivMul(u, d);
    DivMul(v, d);
    assert -u / d == -x && -v / d == -y;
    assert d * (p * x + q * y) == p * (x * d) + q * (y * d);
    assert d * (p * x + q * y - g) == 0.0;
    if p * x + q * y != g { NoZeroProduct(d, p * x + q * y - g); }
  }

  lemma NoZeroProduct(d: real, z: real)
    requires d > 0.0 && z != 0.0
    ensures d * z != 0.0
  {
    if z > 0.0 { MulPositive(d, z); } else { MulPositive(d, -z); }
  }

  /** One iteration: along the direction of x, by the first halving that lowers the objective enough. */
  ghost predicate Stepped(p: Problem, x: (real, real), y: (real, real))
    requires p.obs != []
  {
    exists d: (real, real), k: nat ::
      && Heads(Hessian(p, x), Gradient(p, x), d) && Half(k) > SMALLEST_STEP
      && Enough(p, x, d, Slope(Gradient(p, x), d), k)
      && (forall j | 0 <= j < k :: !Enough(p, x, d, Slope(Gradient(p, x), d), j))
      && y == (x.0 + Times(Half(k), d.0), x.1 + Times(Half(k), d.1))
  }

  /** No step along the direction of x lowers the objective enough. */
  ghost predicate Stuck(p: Problem, x: (real, real))
    requires p.obs != []
  {
    exists d: (real, real) ::
      && Heads(Hessian(p, x), Gradient(p, x), d)
      && forall k: nat | Half(k) > SMALLEST_STEP :: !Enough(p, x, d, Slope(Gradient(p, x), d), k)
  }

  lemma IsStuck(p: Problem, x: (real, real), d: (real, real), slope: real)
    requires p.obs != [] && Heads(Hessian(p, x), Gradient(p, x), d) && slope == Slope(Gradient(p, x), d)
    requires forall k: nat | Half(k) > SMALLEST_STEP :: !Enough(p, x, d, slope, k)
    ensures Stuck(p, x)
  {
    hide Heads, Enough, Half, Hessian, Gradient;
  }

  lemma HasStepped(p: Problem, x: (real, real), d: (real, real), slope: real, k: nat, step: real, y: (real, real))
    requires p.obs != [] && Heads(Hessian(p, x), Gradient(p, x), d) && slope == Slope(Gradient(p, x), d)
    requires step == Half(k) > SMALLEST_STEP && Enough(p, x, d, slope, k)
    requires forall j | 0 <= j < k :: !Enough(p, x, d, slope, j)
    requires y == (x.0 + Times(step, d.0), x.1 + Times(step, d.1))
    ensures Stepped(p, x, y)
  {
    hide Heads, Enough, Half, Hessian, Gradient;
  }

  /** The i-th point needed another iteration, and the next one is where it led. */
  ghost predicate Linked(p: Problem, path: seq<(real, real)>, i: nat)
    requires p.obs != [] && i + 1 < |path|
  {
    !Flat(p, path[i]) && Stepped(p, path[i], path[i + 1])
  }

  /** From the anchor, one iteration after the other, to a point where it has to stop. */
  ghost predicate Descent(p: Problem, path: seq<(real, real)>)
    requires p.obs != []
  {
    && 0 < |path| <= MAX_ITER + 1 && path[0] == (p.anchor, 1.0)
    && (forall i | 0 <= i < |path| - 1 :: Linked(p, path, i))
    && (|path| == MAX_ITER + 1 || Flat(p, path[|path| - 1]) || Stuck(p, path[|path| - 1]))
  }

  /** Damped Newton from (anchor, 1): it always ends, after the last allowed iteration or where the gradient is as
      good as zero or no step helps, and never at a worse point than it started. */
  method Solve(p: Problem) returns (a: real, b: real, ghost path: seq<(real, real)>)
    requires p.Valid()
    ensures p.Objective(a, b) <= p.Objective(p.anchor, 1.0)
    ensures Descent(p, path) && path[|path| - 1] == (a, b)
  {
    hide Problem.Objective, Problem.Valid, GradientSum, HessianSum, Times, Heads, Enough, Half, Direction;
    hide Stuck, Stepped, Linked;
    a, b := p.anchor, 1.0;
    path := [(a, b)];
    ProblemHasObservations(p);
    var f := p.Objective(a, b);
    for i := 0 to MAX_ITER
      invariant f == p.Objective(a, b) <= p.Objective(p.anchor, 1.0)
      invariant |path| == i + 1 && path[0] == (p.anchor, 1.0) && path[i] == (a, b)
      invariant forall j | 0 <= j < |path| - 1 :: Linked(p, path, j)
    {
      var ga, gb, m := Accumulate(p, a, b);
      if ga * ga + gb * gb < TOL * TOL { return; }
      var (da, db) := Direction(m, ga, gb);
      HessianIsPsd(p, a, b, |p.obs|);
      DirectionDescends(m, ga, gb);
      DirectionHeads(m, ga, gb);
      var accepted, step, next, k := LineSearch(p, a, b, f, da, db, ga * da + gb * db);
      if !accepted {
        IsStuck(p, (a, b), (da, db), ga * da + gb * db);
        return;
      }
      a, b, f := a + Times(step, da), b + Times(step, db), next;
      HasStepped(p, path[i], (da, db), ga * da + gb * db, k, step, (a, b));
      LinkedMore(p, path, (a, b));
      path := path + [(a, b)];
    }
  }

  lemma LinkedMore(p: Problem, path: seq<(real, real)>, y: (real, real))
    requires p.obs != [] && path != [] && forall i | 0 <= i < |path| - 1 :: Linked(p, path, i)
    requires !Flat(p, path[|path| - 1]) && Stepped(p, path[|path| - 1], y)
    ensures forall i | 0 <= i < |path| :: Linked(p, path + [y], i)
  {
    hide Flat, Stepped;
    forall i | 0 <= i < |path| ensures Linked(p, path + [y], i) {
      if i < |path| - 1 { assert Linked(p, path, i); }
    }
  }

  lemma ProblemHasObservations(p: Problem)
    requires p.Valid()
    ensures p.obs != []
  {
  }

  // ----- the fit of one horizon

  datatype Fit = Fit(alpha: real, beta: real, active: bool, baseRate: Option<real>)

  datatype FitError = NO_OBSERVATIONS | NO_WEIGHT

  function WeightSum(obs: seq<Observation>): real {
    if obs == [] then 0.0 else WeightSum(obs[..|obs| - 1]) + obs[|obs| - 1].weight
  }

  function OutcomeSum(obs: seq<Observation>): real {
    if obs == [] then 0.0
    else OutcomeSum(obs[..|obs| - 1]) + Times(obs[|obs| - 1].weight, obs[|obs| - 1].outcome)
  }

  function Clip(x: real, lo: real, hi: real): real {
    var up := if x < lo then lo else x;
    if up > hi then hi else up
  }

  /** The base rate is the weighted mean outcome, so it lies between the outcomes. */
  lemma {:induction false} OutcomeMean(obs: seq<Observation>, least: real, most: real)
    requires forall o | o in obs :: o.weight >= 0.0 && least <= o.outcome <= most
    ensures Times(least, WeightSum(obs)) <= OutcomeSum(obs) <= Times(most, WeightSum(obs))
  {
    hide Times;
    if obs == [] {
      TimesZero(least);
      TimesZero(most);
    } else {
      var o := obs[|obs| - 1];
      OutcomeMean(obs[..|obs| - 1], least, most);
      assert o in obs;
      TimesMono(least, o.outcome, o.weight);
      TimesMono(o.outcome, most, o.weight);
      TimesCommutes(o.weight, o.outcome);
      TimesAdd(WeightSum(obs[..|obs| - 1]), o.weight, least);
      TimesAdd(WeightSum(obs[..|obs| - 1]), o.weight, most);
    }
  }

  /** Pass-through until enough independent periods; then a fit no worse than staying at the base rate. */
  method FitStacker(p: Problem, periods: int, activation: int, lo: real, hi: real, logit: real -> real)
    returns (r: Result<Fit, FitError>)
    requires p.obs != [] ==> p.Valid()
    requires lo <= hi
    ensures r.Err? <==> p.obs == [] || (periods >= activation && WeightSum(p.obs) <= 0.0)
    ensures p.obs == [] <==> r == Err(NO_OBSERVATIONS)
    ensures r.Ok? && periods < activation ==> r.value == Fit(0.0, 1.0, false, None)
    ensures r.Ok? && periods >= activation ==>
              && r.value.active && r.value.baseRate.Some? && lo <= r.value.baseRate.value <= hi
              && r.value.baseRate.value == Clip(OutcomeSum(p.obs) / WeightSum(p.obs), lo, hi)
              && var q := p.(anchor := logit(r.value.baseRate.value));
                 && q.Objective(r.value.alpha, r.value.beta) <= q.Objective(q.anchor, 1.0)
                 && exists path :: Descent(q, path) && path[|path| - 1] == (r.value.alpha, r.value.beta)
  {
    if p.obs == [] { return Err(NO_OBSERVATIONS); }
    if periods < activation { return Ok(Fit(0.0, 1.0, false, None)); }
    var total := WeightSum(p.obs);
    if total <= 0.0 { return Err(NO_WEIGHT); }
    var base := Clip(OutcomeSum(p.obs) / total, lo, hi);
    var q := p.(anchor := logit(base));
    assert q.Valid() by {
      assert forall x :: q.Sigmoid(x) == p.Sigmoid(x);
    }
    var a, b, path := Solve(q);
    return Ok(Fit(a, b, true, Some(base)));
  }
}
