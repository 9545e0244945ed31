/** The anytime-valid sequential test: two betting e-processes, a mirrored one for the failure side,
    and the terminal rule that turns their wealth into PASS, FAIL or INCONCLUSIVE. */
module SequentialTest {
  import opened RealArith
  import opened Wrappers

  const E_THRESHOLD: real := 20.0
  const C_X: real := 0.05
  const LAMBDA_CAP: real := 0.5
  const MIN_WEEK: nat := 26
  const MAX_WEEK: nat := 104

  function Min(a: real, b: real): real { if a <= b then a else b }

  function Max(a: real, b: real): real { if a >= b then a else b }

  /** The bounded betting variable. */
  type Unit = y: real | -1.0 <= y <= 1.0 witness 0.0

  /** What a week's excess counts for in the bet, at most one either way. */
  function ClippedY(x: real): (y: Unit)
    ensures -C_X <= x <= C_X ==> y * C_X == x
    ensures x >= C_X ==> y == 1.0
    ensures x <= -C_X ==> y == -1.0
  {
    Max(-C_X, Min(C_X, x)) / C_X
  }

  lemma ClippedYIsOdd(x: real)
    ensures ClippedY(-x) == -ClippedY(x)
  {
  }

  // ----- one e-process

  datatype BettingState = BettingState(
    t: nat, wealth: real, sumY: real, sumSqDev: real, mu: real, variance: real)

  const FRESH: BettingState := BettingState(0, 1.0, 0.0, 0.0, 0.0, 1.0)

  /** What every reachable state satisfies; it keeps every denominator positive. */
  predicate WellFormed(s: BettingState) {
    && s.wealth > 0.0
    && s.sumSqDev >= 0.0
    && s.variance > 0.0
  }

  /** The aGRAPA bet: a function of the past only. */
  function NextLambda(s: BettingState): (lambda: real)
    requires s.variance > 0.0
    ensures 0.0 <= lambda <= LAMBDA_CAP
    ensures s.mu <= 0.0 ==> lambda == 0.0
    ensures s.mu > 0.0 ==> lambda > 0.0
  {
    DenominatorIsPositive(s);
    Max(0.0, Min(LAMBDA_CAP, s.mu / (s.variance + s.mu * s.mu)))
  }

  /** The bet that a mean and a variance call for: none below zero, mean over second moment, at most the cap. */
  ghost predicate IsStake(lambda: real, mu: real, variance: real) {
    var second := variance + mu * mu;
    if mu <= 0.0 then lambda == 0.0
    else if mu <= LAMBDA_CAP * second then lambda * second == mu
    else lambda == LAMBDA_CAP
  }

  lemma BetIsTheStake(s: BettingState)
    requires s.variance > 0.0
    ensures IsStake(NextLambda(s), s.mu, s.variance)
  {
    DenominatorIsPositive(s);
    var second := s.variance + s.mu * s.mu;
    var ratio := s.mu / second;
    DivMul(s.mu, second);
    if ratio <= LAMBDA_CAP {
      MulMono(ratio, LAMBDA_CAP, second);
    } else {
      MulPositive(ratio - LAMBDA_CAP, second);
      assert (ratio - LAMBDA_CAP) * second == ratio * second - LAMBDA_CAP * second;
    }
  }

  lemma StakeIsUnique(a: real, b: real, mu: real, variance: real)
    requires variance > 0.0 && IsStake(a, mu, variance) && IsStake(b, mu, variance)
    ensures a == b
  {
    var second := variance + mu * mu;
    SquareNonNeg(mu);
    if a * second == b * second {
      assert (a - b) * second == 0.0;
      if a != b { NonZeroProduct(a - b, second); }
    }
  }

  lemma NonZeroProduct(a: real, b: real)
    requires a != 0.0 && b > 0.0
    ensures a * b != 0.0
  {
    if a > 0.0 { MulPositive(a, b); } else { MulPositive(-a, b); }
  }

  lemma DenominatorIsPositive(s: BettingState)
    requires s.variance > 0.0
    ensures s.variance + s.mu * s.mu > 0.0
    ensures s.mu / (s.variance + s.mu * s.mu) > 0.0 <==> s.mu > 0.0
  {
    SquareNonNeg(s.mu);
    DivSign(s.mu, s.variance + s.mu * s.mu);
  }

  /** The bet was chosen before y was seen; only then do the moments take y in. */
  function Book(s: BettingState, y: real): BettingState
    requires s.variance > 0.0
  {
    var t := s.t + 1;
    var sumY := s.sumY + y;
    var mu := sumY / (t + 1) as real;
    var sumSqDev := s.sumSqDev + (y - mu) * (y - mu);
    BettingState(t, s.wealth * (1.0 + NextLambda(s) * y), sumY, sumSqDev, mu, (1.0 + sumSqDev) / (t + 1) as real)
  }

  /** The guarded form: a value outside [-1, 1] is refused. */
  function Bet(s: BettingState, y: real): (r: Option<BettingState>)
    requires WellFormed(s)
    ensures r.Some? <==> -1.0 <= y <= 1.0
    ensures r.Some? ==> WellFormed(r.value)
  {
    if -1.0 <= y <= 1.0 then BookKeepsWellFormed(s, y); Some(Book(s, y)) else None
  }

  lemma FactorBounds(lambda: real, y: Unit)
    requires 0.0 <= lambda <= LAMBDA_CAP
    ensures 0.5 <= 1.0 + lambda * y <= 1.5
  {
    MulNonNeg(lambda, 1.0 - y);
    MulNonNeg(lambda, 1.0 + y);
    assert lambda * (1.0 - y) == lambda - lambda * y;
    assert lambda * (1.0 + y) == lambda + lambda * y;
  }

  lemma GrowthBounds(w: real, lambda: real, y: Unit, grown: real)
    requires w > 0.0 && 0.0 <= lambda <= LAMBDA_CAP
    requires grown == w * (1.0 + lambda * y)
    ensures 0.5 * w <= grown <= 1.5 * w
  {
    FactorBounds(lambda, y);
    MulMono(0.5, 1.0 + lambda * y, w);
    MulMono(1.0 + lambda * y, 1.5, w);
  }

  lemma MomentsStayPositive(s: BettingState, y: Unit)
    requires WellFormed(s)
    ensures Book(s, y).sumSqDev >= 0.0 && Book(s, y).variance > 0.0
  {
    var n := (s.t + 2) as real;
    SquareNonNeg(y - (s.sumY + y) / n);
    DivSign(1.0 + Book(s, y).sumSqDev, n);
  }

  lemma WealthStep(s: BettingState, y: Unit)
    requires WellFormed(s)
    ensures 0.5 * s.wealth <= Book(s, y).wealth <= 1.5 * s.wealth
  {
    GrowthBounds(s.wealth, NextLambda(s), y, Book(s, y).wealth);
  }

  lemma BookKeepsWellFormed(s: BettingState, y: Unit)
    requires WellFormed(s)
    ensures WellFormed(Book(s, y))
  {
    WealthStep(s, y);
    MomentsStayPositive(s, y);
  }

  // ----- the two-comparison test

  datatype Status = RUNNING | PASS | FAIL | INCONCLUSIVE

  datatype Reason = BothEProcesses | MirroredEProcess | ConflictingEvidence | NoCrossing

  /** One observed week: net excess against the exposure-matched benchmark and against the quant baseline. */
  datatype Week = Week(spy: real, quant: real)

  datatype Test = Test(
    week: nat, spy: BettingState, quant: BettingState, mirror: BettingState,
    quantExcess: seq<real>, status: Status, terminalWeek: Option<nat>, reason: Option<Reason>)

  const FRESH_TEST: Test := Test(0, FRESH, FRESH, FRESH, [], RUNNING, None, None)

  datatype Observation = Observed(test: Test) | Closed

  predicate TestWellFormed(t: Test) {
    WellFormed(t.spy) && WellFormed(t.quant) && WellFormed(t.mirror)
  }

  predicate Passed(t: Test) { t.spy.wealth >= E_THRESHOLD && t.quant.wealth >= E_THRESHOLD }

  predicate Failed(t: Test) { t.mirror.wealth >= E_THRESHOLD }

  /** The three processes after one more week, before any decision. A clipped value is never refused. */
  function Accumulate(t: Test, x: Week): (n: Test)
    requires TestWellFormed(t)
    ensures TestWellFormed(n) && n.week == t.week + 1 && n.status == RUNNING
  {
    Test(t.week + 1, Bet(t.spy, ClippedY(x.spy)).value, Bet(t.quant, ClippedY(x.quant)).value,
         Bet(t.mirror, -ClippedY(x.quant)).value, t.quantExcess + [x.quant], RUNNING, None, None)
  }

  function Terminal(t: Test, status: Status, reason: Reason): Test {
    t.(status := status, terminalWeek := Some(t.week), reason := Some(reason))
  }

  /** The decision taken at the end of a week, on the current wealth only. */
  function Decide(n: Test): Test {
    if n.week >= MIN_WEEK && Passed(n) && Failed(n) then Terminal(n, INCONCLUSIVE, ConflictingEvidence)
    else if n.week >= MIN_WEEK && Passed(n) then Terminal(n, PASS, BothEProcesses)
    else if n.week >= MIN_WEEK && Failed(n) then Terminal(n, FAIL, MirroredEProcess)
    else if n.week < MAX_WEEK then n
    else Terminal(n, INCONCLUSIVE, NoCrossing)
  }

  function Observe(t: Test, x: Week): (o: Observation)
    requires TestWellFormed(t)
    ensures o.Observed? ==> TestWellFormed(o.test)
    ensures o.Closed? <==> t.status != RUNNING && t.reason == Some(NoCrossing)
    ensures t.status != RUNNING && o.Observed? ==> o.test == t
    ensures t.status == RUNNING && o.Observed? ==> o.test.week == t.week + 1
  {
    if t.status != RUNNING then
      if t.reason == Some(NoCrossing) then Closed else Observed(t)
    else
      Observed(Decide(Accumulate(t, x)))
  }

  /** The test after a whole series; a closed window keeps its last state. */
  function Run(xs: seq<Week>): (t: Test)
    ensures TestWellFormed(t)
  {
    if xs == [] then FRESH_TEST
    else
      var before := Run(xs[..|xs| - 1]);
      match Observe(before, xs[|xs| - 1])
      case Observed(t) => t
      case Closed => before
  }

  // ----- the terminal rule, stated without the step function

  /** The undecided states after 0, 1, ..., |xs| weeks: plain accumulation, no stopping. */
  function Trace(xs: seq<Week>): (ws: seq<Test>)
    ensures |ws| == |xs| + 1
    ensures forall k | 0 <= k < |ws| :: TestWellFormed(ws[k]) && ws[k].week == k && ws[k].status == RUNNING
  {
    if xs == [] then [FRESH_TEST]
    else
      var before := Trace(xs[..|xs| - 1]);
      before + [Accumulate(before[|xs| - 1], xs[|xs| - 1])]
  }

  predicate Crosses(t: Test) { Passed(t) || Failed(t) }

  /** Week n is the first week of the decision window on which the current wealth decides. */
  ghost predicate FirstCrossing(ws: seq<Test>, n: nat) {
    && MIN_WEEK <= n <= MAX_WEEK && n < |ws|
    && Crosses(ws[n])
    && forall m: nat | MIN_WEEK <= m < n :: !Crosses(ws[m])
  }

  ghost predicate NoCrossingThrough(ws: seq<Test>, n: nat) {
    forall m: nat | MIN_WEEK <= m <= n && m < |ws| :: !Crosses(ws[m])
  }

  /** The terminal result as the rule states it. It mentions neither Observe nor Decide. */
  ghost predicate IsOutcome(t: Test, ws: seq<Test>)
    requires |ws| > 0
  {
    match t.status
    case RUNNING => |ws| <= MAX_WEEK && NoCrossingThrough(ws, MAX_WEEK) && t == ws[|ws| - 1]
    case PASS =>
      FirstCrossing(ws, t.week) && !Failed(ws[t.week]) && t == Terminal(ws[t.week], PASS, BothEProcesses)
    case FAIL =>
      FirstCrossing(ws, t.week) && !Passed(ws[t.week]) && t == Terminal(ws[t.week], FAIL, MirroredEProcess)
    case INCONCLUSIVE =>
      || (FirstCrossing(ws, t.week) && Passed(ws[t.week]) && Failed(ws[t.week])
          && t == Terminal(ws[t.week], INCONCLUSIVE, ConflictingEvidence))
      || (|ws| > MAX_WEEK && NoCrossingThrough(ws, MAX_WEEK)
          && t == Terminal(ws[MAX_WEEK], INCONCLUSIVE, NoCrossing))
  }

  /** Over every series the step-by-step test reports exactly the first decisive week, or none. */
  lemma {:induction false} RunIsTheTerminalRule(xs: seq<Week>)
    ensures IsOutcome(Run(xs), Trace(xs))
  {
    if xs != [] {
      var init := xs[..|xs| - 1];
      RunIsTheTerminalRule(init);
      if Run(init).status == RUNNING {
        DecideOneWeek(Run(init), Trace(init), Accumulate(Run(init), xs[|xs| - 1]));
      } else {
        OutcomeIsFrozen(Run(init), Trace(init), Trace(xs)[|xs|]);
      }
    }
  }

  lemma DecideOneWeek(before: Test, ws: seq<Test>, n: Test)
    requires |ws| > 0 && forall k | 0 <= k < |ws| :: ws[k].week == k
    requires IsOutcome(before, ws) && before.status == RUNNING
    requires n.week == |ws| && n.status == RUNNING
    ensures IsOutcome(Decide(n), ws + [n])
  {
    var next := ws + [n];
    assert next[|ws|] == n;
    assert forall m: nat | m < |ws| :: next[m] == ws[m];
  }

  lemma OutcomeIsFrozen(t: Test, ws: seq<Test>, n: Test)
    requires |ws| > 0 && IsOutcome(t, ws) && t.status != RUNNING
    ensures IsOutcome(t, ws + [n])
  {
    var next := ws + [n];
    assert forall m: nat | m < |ws| :: next[m] == ws[m];
  }

  // ----- mirror reflection and wealth bounds

  /** The e-process over a whole series of clipped values. */
  function Process(ys: seq<Unit>): (s: BettingState)
    ensures WellFormed(s) && s.t == |ys|
  {
    if ys == [] then FRESH
    else
      BookKeepsWellFormed(Process(ys[..|ys| - 1]), ys[|ys| - 1]);
      Book(Process(ys[..|ys| - 1]), ys[|ys| - 1])
  }

  function Negated(ys: seq<Unit>): (r: seq<Unit>)
    ensures |r| == |ys| && forall i | 0 <= i < |ys| :: r[i] == -ys[i]
  {
    seq(|ys|, i requires 0 <= i < |ys| => -ys[i])
  }

  ghost predicate Reflects(a: BettingState, b: BettingState) {
    && a.t == b.t && a.sumY == -b.sumY && a.mu == -b.mu
    && a.sumSqDev == b.sumSqDev && a.variance == b.variance
  }

  lemma BookReflects(a: BettingState, b: BettingState, y: real)
    requires WellFormed(a) && WellFormed(b) && Reflects(a, b)
    ensures Reflects(Book(a, y), Book(b, -y))
  {
    var n := (a.t + 2) as real;
    assert (a.sumY + y) / n == -((b.sumY - y) / n);
    var d := y - (a.sumY + y) / n;
    assert d * d == (-d) * (-d);
  }

  /** The mirror bets on the negated series: its moments are the reflected moments, its variance is the
      same, and in no week do both sides bet. */
  lemma {:induction false} MirrorReflection(ys: seq<Unit>)
    ensures Reflects(Process(ys), Process(Negated(ys)))
    ensures NextLambda(Process(ys)) == 0.0 || NextLambda(Process(Negated(ys))) == 0.0
    ensures Negated(Negated(ys)) == ys
  {
    if ys != [] {
      var init := ys[..|ys| - 1];
      MirrorReflection(init);
      assert Negated(ys)[..|ys| - 1] == Negated(init);
      BookReflects(Process(init), Process(Negated(init)), ys[|ys| - 1]);
    }
  }

  // ----- the process in closed form

  function Sum(ys: seq<real>): real { if ys == [] then 0.0 else Sum(ys[..|ys| - 1]) + ys[|ys| - 1] }

  /** The running mean, with one prior observation of zero. */
  function Mean(ys: seq<real>): real { Sum(ys) / (|ys| + 1) as real }

  /** Each value's squared distance from the mean up to and including it. */
  function Deviations(ys: seq<real>): real {
    if ys == [] then 0.0
    else
      var d := ys[|ys| - 1] - Mean(ys);
      Deviations(ys[..|ys| - 1]) + d * d
  }

  function Variance(ys: seq<real>): real { (1.0 + Deviations(ys)) / (|ys| + 1) as real }

  /** What a unit becomes under these bets. */
  function Growth(lambdas: seq<real>, ys: seq<real>): real
    requires |lambdas| == |ys|
  {
    if ys == [] then 1.0
    else
      var k := |ys| - 1;
      Times(Growth(lambdas[..k], ys[..k]), Factor(lambdas[k], ys[k]))
  }

  /** What a bet makes of a unit of wealth. */
  function Factor(lambda: real, y: real): real { 1.0 + lambda * y }

  /** After any series the moments are those of the series. */
  lemma {:induction false} MomentsAreExact(ys: seq<Unit>)
    ensures var s := Process(ys);
            s.sumY == Sum(ys) && s.mu == Mean(ys) && s.sumSqDev == Deviations(ys) && s.variance == Variance(ys)
  {
    if ys != [] {
      hide NextLambda;
      MomentsAreExact(ys[..|ys| - 1]);
    }
  }

  lemma OneBet(ys: seq<Unit>)
    requires ys != []
    ensures var init := ys[..|ys| - 1];
            && Process(init).variance > 0.0
            && Process(ys).wealth == Times(Process(init).wealth, Factor(NextLambda(Process(init)), ys[|ys| - 1]))
            && IsStake(NextLambda(Process(init)), Mean(init), Variance(init)) && Variance(init) > 0.0
  {
    var init := ys[..|ys| - 1];
    MomentsAreExact(init);
    BetIsTheStake(Process(init));
    hide Mean, Variance, IsStake, NextLambda;
  }

  lemma OneFactor(lambdas: seq<real>, ys: seq<real>)
    requires |lambdas| == |ys| && ys != []
    ensures var k := |ys| - 1;
            Growth(lambdas, ys) == Times(Growth(lambdas[..k], ys[..k]), Factor(lambdas[k], ys[k]))
  {
    hide Times, Factor;
  }

  lemma NoBetYet(ys: seq<Unit>, lambdas: seq<real>)
    requires ys == [] && lambdas == []
    ensures Process(ys).wealth == Growth(lambdas, ys)
  {
  }

  /** After any series the wealth is what the bets make of a unit, each bet the one that the moments of the
      values before it call for. */
  lemma {:induction false} WealthIsTheGrowth(ys: seq<Unit>, lambdas: seq<real>)
    requires |lambdas| == |ys|
    requires forall i | 0 <= i < |ys| :: IsStake(lambdas[i], Mean(ys[..i]), Variance(ys[..i]))
    ensures Process(ys).wealth == Growth(lambdas, ys)
  {
    hide *;
    if ys == [] {
      NoBetYet(ys, lambdas);
    } else {
      var k := |ys| - 1;
      forall i | 0 <= i < k ensures IsStake(lambdas[..k][i], Mean(ys[..k][..i]), Variance(ys[..k][..i])) {
        assert ys[..k][..i] == ys[..i];
      }
      WealthIsTheGrowth(ys[..k], lambdas[..k]);
      OneBet(ys);
      OneFactor(lambdas, ys);
      StakeIsUnique(lambdas[k], NextLambda(Process(ys[..k])), Mean(ys[..k]), Variance(ys[..k]));
    }
  }

  function Power(b: real, n: nat): real { if n == 0 then 1.0 else b * Power(b, n - 1) }

  lemma {:induction false} WealthStaysInBounds(ys: seq<Unit>)
    ensures Power(0.5, |ys|) <= Process(ys).wealth <= Power(1.5, |ys|)
  {
    if ys != [] {
      var init := ys[..|ys| - 1];
      WealthStaysInBounds(init);
      WealthStep(Process(init), ys[|ys| - 1]);
    }
  }

  /** The undecided state after the whole series. */
  function LastState(xs: seq<Week>): Test { Trace(xs)[|xs|] }

  function SpySeries(xs: seq<Week>): (ys: seq<Unit>)
    ensures |ys| == |xs| && forall i | 0 <= i < |xs| :: ys[i] == ClippedY(xs[i].spy)
  {
    seq(|xs|, i requires 0 <= i < |xs| => ClippedY(xs[i].spy))
  }

  function QuantSeries(xs: seq<Week>): (ys: seq<Unit>)
    ensures |ys| == |xs| && forall i | 0 <= i < |xs| :: ys[i] == ClippedY(xs[i].quant)
  {
    seq(|xs|, i requires 0 <= i < |xs| => ClippedY(xs[i].quant))
  }

  lemma FreshStates(xs: seq<Week>)
    requires xs == []
    ensures LastState(xs).spy == Process(SpySeries(xs))
    ensures LastState(xs).quant == Process(QuantSeries(xs))
    ensures LastState(xs).mirror == Process(Negated(QuantSeries(xs)))
  {
    hide WellFormed, Book, ClippedY;
  }

  lemma ProcessStep(ys: seq<Unit>, init: seq<Unit>, y: Unit)
    requires ys == init + [y]
    ensures Process(ys) == Book(Process(init), y)
  {
    assert ys[..|ys| - 1] == init;
  }

  lemma StateStep(init: seq<Week>, x: Week)
    ensures LastState(init + [x]).spy == Book(LastState(init).spy, ClippedY(x.spy))
    ensures LastState(init + [x]).quant == Book(LastState(init).quant, ClippedY(x.quant))
    ensures LastState(init + [x]).mirror == Book(LastState(init).mirror, -ClippedY(x.quant))
  {
    hide Book, WellFormed, ClippedY;
    assert (init + [x])[..|init|] == init;
  }

  lemma SeriesStep(init: seq<Week>, x: Week)
    ensures SpySeries(init + [x]) == SpySeries(init) + [ClippedY(x.spy)]
    ensures QuantSeries(init + [x]) == QuantSeries(init) + [ClippedY(x.quant)]
    ensures Negated(QuantSeries(init + [x])) == Negated(QuantSeries(init)) + [-ClippedY(x.quant)]
  {
    hide *;
  }

  /** The test's states are the process on the two clipped series and on the negation of the second. */
  lemma {:induction false} TestStatesAreProcesses(xs: seq<Week>)
    ensures LastState(xs).spy == Process(SpySeries(xs))
    ensures LastState(xs).quant == Process(QuantSeries(xs))
    ensures LastState(xs).mirror == Process(Negated(QuantSeries(xs)))
  {
    hide *;
    if xs == [] {
      FreshStates(xs);
    } else {
      var init, x := xs[..|xs| - 1], xs[|xs| - 1];
      assert xs == init + [x];
      TestStatesAreProcesses(init);
      StateStep(init, x);
      SeriesStep(init, x);
      ProcessStep(SpySeries(xs), SpySeries(init), ClippedY(x.spy));
      ProcessStep(QuantSeries(xs), QuantSeries(init), ClippedY(x.quant));
      ProcessStep(Negated(QuantSeries(xs)), Negated(QuantSeries(init)), -ClippedY(x.quant));
    }
  }

  // ----- the verdict in terms of the series

  /** After n weeks both comparisons have multiplied their stake by the threshold. */
  ghost predicate BothCross(xs: seq<Week>, n: nat)
    requires n <= |xs|
  {
    && Process(SpySeries(xs[..n])).wealth >= E_THRESHOLD
    && Process(QuantSeries(xs[..n])).wealth >= E_THRESHOLD
  }

  /** After n weeks the bet against the quant comparison has. */
  ghost predicate MirrorCrosses(xs: seq<Week>, n: nat)
    requires n <= |xs|
  {
    Process(Negated(QuantSeries(xs[..n]))).wealth >= E_THRESHOLD
  }

  /** Week n is the first one of the window that decides. */
  ghost predicate Decides(xs: seq<Week>, n: nat) {
    && MIN_WEEK <= n <= MAX_WEEK && n <= |xs| && (BothCross(xs, n) || MirrorCrosses(xs, n))
    && forall m: nat | MIN_WEEK <= m < n :: !BothCross(xs, m) && !MirrorCrosses(xs, m)
  }

  lemma {:induction false} TraceIsLastState(xs: seq<Week>, n: nat)
    requires n <= |xs|
    ensures Trace(xs)[n] == LastState(xs[..n])
  {
    if n == |xs| {
      assert xs[..n] == xs;
    } else {
      var init := xs[..|xs| - 1];
      TraceIsLastState(init, n);
      assert init[..n] == xs[..n];
    }
  }

  lemma CrossingsAgree(xs: seq<Week>, n: nat)
    requires n <= |xs|
    ensures (Passed(Trace(xs)[n]) <==> BothCross(xs, n)) && (Failed(Trace(xs)[n]) <==> MirrorCrosses(xs, n))
  {
    hide Process, SpySeries, QuantSeries, Negated, Trace, LastState;
    TraceIsLastState(xs, n);
    TestStatesAreProcesses(xs[..n]);
  }

  /** The first deciding week settles the status for good: PASS if only both comparisons crossed, FAIL if only the
      mirror did, inconclusive if all did. Without one the test runs until the window is over. */
  lemma VerdictIsExact(xs: seq<Week>)
    ensures forall n: nat | Decides(xs, n) ::
              && Run(xs).terminalWeek == Some(n)
              && Run(xs).status ==
                 if !MirrorCrosses(xs, n) then PASS else if !BothCross(xs, n) then FAIL else INCONCLUSIVE
    ensures (forall n: nat :: !Decides(xs, n)) ==>
              && Run(xs).status == (if |xs| < MAX_WEEK then RUNNING else INCONCLUSIVE)
              && Run(xs).terminalWeek == (if |xs| < MAX_WEEK then None else Some(MAX_WEEK))
  {
    hide Run, BothCross, MirrorCrosses, Passed, Failed;
    RunIsTheTerminalRule(xs);
    var t, ws := Run(xs), Trace(xs);
    forall n: nat | n <= |xs| ensures Passed(ws[n]) <==> BothCross(xs, n)
                              ensures Failed(ws[n]) <==> MirrorCrosses(xs, n)
    {
      CrossingsAgree(xs, n);
    }
    assert forall n: nat :: Decides(xs, n) <==> FirstCrossing(ws, n);
    if t.status == RUNNING || t.reason == Some(NoCrossing) {
      assert forall n: nat :: !Decides(xs, n);
    } else {
      assert Decides(xs, t.week);
      forall n: nat | Decides(xs, n) ensures n == t.week { OneDecides(xs, n, t.week); }
    }
  }

  lemma OneDecides(xs: seq<Week>, m: nat, n: nat)
    requires Decides(xs, m) && Decides(xs, n)
    ensures m == n
  {
  }

  function NegatedWeeks(xs: seq<Week>): (r: seq<Week>)
    ensures |r| == |xs| && forall i | 0 <= i < |xs| :: r[i] == Week(xs[i].spy, -xs[i].quant)
  {
    seq(|xs|, i requires 0 <= i < |xs| => Week(xs[i].spy, -xs[i].quant))
  }

  /** Negating the quant comparison swaps the quant and mirror processes and leaves the other alone. */
  lemma {:induction false} NegatingSwapsQuantAndMirror(xs: seq<Week>)
    ensures LastState(NegatedWeeks(xs)).quant == LastState(xs).mirror
    ensures LastState(NegatedWeeks(xs)).mirror == LastState(xs).quant
    ensures LastState(NegatedWeeks(xs)).spy == LastState(xs).spy
  {
    if xs != [] {
      var k := |xs| - 1;
      NegatingSwapsQuantAndMirror(xs[..k]);
      assert NegatedWeeks(xs)[..k] == NegatedWeeks(xs[..k]);
      ClippedYIsOdd(xs[k].quant);
    }
  }
}
