/** The sizes are not only within the limits, they are the largest ones the rules allow: what each sum, weight and
    scale is, said without the formula that computes it. */
module SizingExactness {
  import opened RealArith
  import opened Sizing

  // ----- the three sums

  lemma SumsOfOne(p: Position, s: int)
    ensures Gross([p]) == p.weight && SectorSum([p], s) == (if p.sector == s then p.weight else 0.0)
    ensures Squares([p]) == (p.weight * p.sigma) * (p.weight * p.sigma)
  {
    assert [p][..0] == [];
  }

  lemma {:induction false} SumsSplit(ps: seq<Position>, qs: seq<Position>, s: int)
    ensures Gross(ps + qs) == Gross(ps) + Gross(qs)
    ensures SectorSum(ps + qs, s) == SectorSum(ps, s) + SectorSum(qs, s)
    ensures Squares(ps + qs) == Squares(ps) + Squares(qs)
  {
    hide Square;
    if qs == [] {
      assert ps + qs == ps;
    } else {
      var n := |qs| - 1;
      assert (ps + qs)[..|ps| + n] == ps + qs[..n];
      SumsSplit(ps, qs[..n], s);
    }
  }

  // ----- weights before any cap

  /** A name without a known volatility, below the entry probability, or without an edge gets nothing, and neither
      does one whose agents disagree too much; any other gets its edge per unit of volatility, shrunk. */
  lemma BaselineIsExact(d: Decision, vols: map<int, real>, cfg: Baseline)
    ensures var w, shrink := BaselineRaw(d, vols, cfg), 1.0 - cfg.lambda * d.dispersion;
            if d.id !in vols || vols[d.id] <= 0.0 || d.pooledP < cfg.entry || d.pooledP <= 0.5 || shrink <= 0.0
            then w == 0.0
            else w * vols[d.id] == cfg.k * (d.pooledP - 0.5) * shrink * d.bear
  {
    var shrink := 1.0 - cfg.lambda * d.dispersion;
    if d.id in vols && vols[d.id] > 0.0 && d.pooledP >= cfg.entry && d.pooledP > 0.5 {
      var sigma, part := vols[d.id], cfg.k * (d.pooledP - 0.5);
      DivMul(part, sigma);
      PerUnit(part, sigma, AtLeastZero(shrink), d.bear);
    }
  }

  lemma PerUnit(part: real, sigma: real, shrink: real, bear: real)
    requires sigma > 0.0
    ensures part / sigma * (shrink * bear) * sigma == part * shrink * bear
    ensures part / sigma * shrink * bear * sigma == part * shrink * bear
    ensures shrink == 0.0 ==> part / sigma * (shrink * bear) == 0.0 && part / sigma * shrink * bear == 0.0
  {
    var q := part / sigma;
    DivMul(part, sigma);
    assert q * (shrink * bear) * sigma == (q * sigma) * (shrink * bear);
    assert q * shrink * bear * sigma == (q * sigma) * (shrink * bear);
    if shrink == 0.0 { assert shrink * bear == 0.0 && q * shrink == 0.0; }
  }

  lemma EdgeWeightIsExact(edge: real, sigma: real, dispersion: real, bear: real, cfg: Committee)
    requires sigma > 0.0
    ensures var w, shrink := EdgeWeight(edge, sigma, dispersion, bear, cfg), 1.0 - cfg.lambda * dispersion;
            if shrink <= 0.0 then w == 0.0 else w * sigma == cfg.k * edge * shrink * bear
  {
    PerUnit(cfg.k * edge, sigma, AtLeastZero(1.0 - cfg.lambda * dispersion), bear);
  }

  ghost predicate Rising(f: real -> real) { forall x, y | x < y :: At(f, x) < At(f, y) }

  function At(f: real -> real, x: real): real { f(x) }

  /** With a positive slope the calibrated probability keeps the order of the logits. */
  lemma CalibrationKeepsOrder(fit: Calibration, sigmoid: real -> real, l: real, m: real)
    requires Rising(sigmoid) && fit.beta > 0.0
    ensures Probability(fit, sigmoid, l) < Probability(fit, sigmoid, m) <==> l < m
    ensures Probability(fit, sigmoid, 0.0) == sigmoid(fit.alpha)
  {
    AtZero(fit, sigmoid);
    hide *;
    if l < m {
      HigherIsLikelier(fit, sigmoid, l, m);
    } else if m < l {
      HigherIsLikelier(fit, sigmoid, m, l);
    }
  }

  lemma AtZero(fit: Calibration, sigmoid: real -> real)
    ensures Probability(fit, sigmoid, 0.0) == sigmoid(fit.alpha)
  {
    TimesZero(fit.beta);
    hide Times;
  }

  lemma HigherIsLikelier(fit: Calibration, sigmoid: real -> real, l: real, m: real)
    requires Rising(sigmoid) && fit.beta > 0.0 && l < m
    ensures Probability(fit, sigmoid, l) < Probability(fit, sigmoid, m)
  {
    TimesStrict(l, m, fit.beta);
    hide Times;
    assert At(sigmoid, fit.alpha + Times(fit.beta, l)) < At(sigmoid, fit.alpha + Times(fit.beta, m));
  }

  /** With one multiplier for all, the chosen names together weigh exactly that. */
  lemma RankWeightsFill(raw: map<int, real>, top: seq<Scored>, vols: map<int, real>, cfg: Committee, bear: real)
    requires RankWeighted(raw, top, vols, cfg) && top != [] && forall x | x in top :: BearOf(cfg, x.id) == bear
    ensures WeightSum(raw, top) == bear
  {
    var total := Inverses(top, vols);
    hide Inverses, WeightSum, RankWeight, BearOf, Times;
    WeightSumIs(raw, top, vols, total, cfg, bear);
    SelfQuotient(total);
    TimesOne(bear);
  }

  lemma {:induction false} WeightSumIs(
    raw: map<int, real>, part: seq<Scored>, vols: map<int, real>, total: real, cfg: Committee, bear: real)
    requires total > 0.0 && forall x | x in part :: x.id in vols && vols[x.id] > 0.0
    requires forall x | x in part ::
               x.id in raw && raw[x.id] == RankWeight(vols[x.id], total, BearOf(cfg, x.id)) && BearOf(cfg, x.id) == bear
    ensures WeightSum(raw, part) == Times(bear, Inverses(part, vols) / total)
  {
    if part == [] {
      TimesZero(bear);
      assert 0.0 / total == 0.0;
    } else {
      hide Times, RankWeight, BearOf;
      var n := |part| - 1;
      var x := part[n];
      WeightSumIs(raw, part[..n], vols, total, cfg, bear);
      var share := 1.0 / vols[x.id] / total;
      assert x in part;
      TimesAdd(Inverses(part[..n], vols) / total, share, bear);
      QuotientAdd(Inverses(part[..n], vols), 1.0 / vols[x.id], total);
      TimesCommutes(share, bear);
      RankWeightShare(vols[x.id], total, bear);
    }
  }

  // ----- limits on one name

  function Gap(x: real, y: real): real { if x < y then y - x else x - y }

  /** A raw weight is moved to the nearest allowed one. */
  lemma BoundedIsNearest(raw: real, most: real, w: real)
    requires 0.0 <= w <= most
    ensures 0.0 <= Bounded(raw, most) <= most && Gap(raw, Bounded(raw, most)) <= Gap(raw, w)
  {
  }

  /** Too small a weight is dropped, any other is moved to the nearest allowed one. */
  lemma ClippedIsNearest(raw: real, lim: Limits, w: real)
    requires lim.Valid() && lim.minPosition <= w <= lim.maxPosition
    ensures if raw < lim.minPosition then Clipped(raw, lim) == 0.0
            else lim.minPosition <= Clipped(raw, lim) <= lim.maxPosition && Gap(raw, Clipped(raw, lim)) <= Gap(raw, w)
  {
  }

  // ----- scales

  /** No larger factor would bring the sector under its cap. */
  lemma SectorScaleIsLargest(total: real, cap: real, c: real)
    requires total >= 0.0 && cap >= 0.0 && c <= 1.0 && Times(total, c) <= cap
    ensures c <= SectorScale(total, cap)
  {
    if total > 0.0 { AtMostQuotient(c, cap, total); }
  }

  lemma AtMostQuotient(c: real, a: real, b: real)
    requires b > 0.0 && Times(b, c) <= a
    ensures c <= a / b
  {
    DivMul(a, b);
    if c > a / b { TimesStrict(a / b, c, b); }
  }

  /** No larger factor would meet the volatility target and the gross limit. */
  lemma RiskScaleIsLargest(ps: seq<Position>, target: real, root: real -> real, c: real)
    requires Long(ps) && target > 0.0 && IsRoot(root) && 0.0 <= c <= 1.0
    requires Times(Gross(ps), c) <= 1.0 && Times(Squares(ps), Times(c, c)) <= Times(target, target)
    ensures c <= RiskScale(ps, target, root)
  {
    LongSums(ps, 0);
    var g, q := Gross(ps), Squares(ps);
    var vol := Root(root, q);
    hide Gross, Squares, Square, Root, Times;
    if g > 0.0 { AtMostQuotient(c, 1.0, g); }
    if vol > 0.0 {
      SquaresOrdered(q, vol, c, target);
      AtMostQuotient(c, target, vol);
    }
  }

  lemma SquaresOrdered(q: real, vol: real, c: real, target: real)
    requires vol > 0.0 && c >= 0.0 && target > 0.0 && Times(vol, vol) == q
    requires Times(q, Times(c, c)) <= Times(target, target)
    ensures Times(vol, c) <= target
  {
    var v := vol * c;
    assert q * (c * c) == v * v;
    if v > target {
      MulMono(target, v, target);
      MulPositive(v - target, v);
      assert (v - target) * v == v * v - target * v;
    }
  }

  // ----- the whole book

  /** The name's weight after its sector's cap. */
  function AfterCap(q: Position, raw: seq<Position>, lim: Limits): real {
    Times(q.weight, SectorScale(SectorSum(raw, q.sector), lim.maxSector))
  }

  /** The one scale of the whole book. */
  function BookScale(raw: seq<Position>, lim: Limits, root: real -> real, early: bool): real {
    var capped := Capped(raw, lim.maxSector);
    RiskScale(if early then Dusted(capped, 1.0, lim.minPosition) else capped, lim.volTarget, root)
  }

  /** The name keeps weight w: its own, under its sector's cap and at the scale of the book, and not dust; in the early
      form it must not be dust after the cap either. */
  ghost predicate Keeps(q: Position, w: real, raw: seq<Position>, lim: Limits, root: real -> real, early: bool) {
    && (early ==> AfterCap(q, raw, lim) >= lim.minPosition)
    && w == Times(AfterCap(q, raw, lim), BookScale(raw, lim, root, early)) && w >= lim.minPosition
  }

  /** The book is exactly the names that keep a weight, with that weight. */
  lemma BookIsExact(raw: seq<Position>, lim: Limits, root: real -> real, early: bool, p: Position)
    requires lim.Valid()
    ensures p in LayeredBook(raw, lim, root, early) <==>
            exists q :: q in raw && p == q.(weight := p.weight) && Keeps(q, p.weight, raw, lim, root, early)
  {
    var c := BookScale(raw, lim, root, early);
    var capped := Capped(raw, lim.maxSector);
    var floored := if early then Dusted(capped, 1.0, lim.minPosition) else capped;
    var last := Dusted(floored, c, lim.minPosition);
    HeldMembers(last);
    hide RiskScale, SectorScale, SectorSum, Held, Times;
    forall i | 0 <= i < |raw|
      ensures last[i] == raw[i].(weight := last[i].weight)
      ensures last[i].weight > 0.0 <==> Keeps(raw[i], Times(AfterCap(raw[i], raw, lim), c), raw, lim, root, early)
      ensures last[i].weight > 0.0 ==> last[i].weight == Times(AfterCap(raw[i], raw, lim), c)
    {
      TimesOne(capped[i].weight);
      TimesZero(c);
    }
    if p in last && p.weight > 0.0 {
      var i :| 0 <= i < |last| && last[i] == p;
      assert raw[i] in raw && Keeps(raw[i], p.weight, raw, lim, root, early);
    }
    if q :| q in raw && p == q.(weight := p.weight) && Keeps(q, p.weight, raw, lim, root, early) {
      var i :| 0 <= i < |raw| && raw[i] == q;
      assert last[i] == p && last[i] in last;
    }
  }
}
