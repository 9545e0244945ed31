/** The error bound the sequential test exists for. A finite probability tree stands for any joint law
    of the two weekly excesses, however dependent: each node lists what the next week may bring, with
    conditional weights. Ville's inequality is proved on it and carried over to PASS and FAIL. */
module ErrorBound {
  import opened RealArith
  import opened SequentialTest

  datatype Tree = Leaf | Node(branches: Branches)

  datatype Branches = Done | Branch(p: real, x: Week, next: Tree, rest: Branches)

  function Mass(b: Branches): real {
    match b
    case Done => 0.0
    case Branch(p, _, _, rest) => p + Mass(rest)
  }

  /** Conditional weights: nonnegative, and summing to one at every node. */
  predicate Proper(t: Tree) { t.Node? ==> Mass(t.branches) == 1.0 && ProperBranches(t.branches) }

  predicate ProperBranches(b: Branches) {
    b.Branch? ==> b.p >= 0.0 && Proper(b.next) && ProperBranches(b.rest)
  }

  /** Which clipped series an e-process bets on. */
  datatype Side = Spy | Quant | Mirror

  function Y(side: Side, x: Week): Unit {
    match side
    case Spy => ClippedY(x.spy)
    case Quant => ClippedY(x.quant)
    case Mirror => -ClippedY(x.quant)
  }

  function Mean(b: Branches, side: Side): real {
    match b
    case Done => 0.0
    case Branch(p, x, _, rest) => Times(p, Y(side, x)) + Mean(rest, side)
  }

  /** The null hypothesis: at every node the conditional mean of the clipped excess is not positive. */
  predicate Null(t: Tree, side: Side) {
    t.Node? ==> Mean(t.branches, side) <= 0.0 && NullBranches(t.branches, side)
  }

  predicate NullBranches(b: Branches, side: Side) {
    b.Branch? ==> Null(b.next, side) && NullBranches(b.rest, side)
  }

  // ----- Ville's inequality

  /** Total weight of the paths on which the wealth reaches the level at some week, at any time. */
  function CrossWeight(t: Tree, side: Side, s: BettingState, level: real): real
    requires WellFormed(s)
    decreases t
  {
    if s.wealth >= level then 1.0
    else match t
      case Leaf => 0.0
      case Node(b) => CrossSum(b, side, s, level)
  }

  function CrossSum(b: Branches, side: Side, s: BettingState, level: real): real
    requires WellFormed(s)
    decreases b
  {
    match b
    case Done => 0.0
    case Branch(p, x, next, rest) =>
      BookKeepsWellFormed(s, Y(side, x));
      Times(p, CrossWeight(next, side, Book(s, Y(side, x)), level)) + CrossSum(rest, side, s, level)
  }

  lemma FairStep(w: real, lambda: real, mean: real)
    requires w > 0.0 && lambda >= 0.0 && mean <= 0.0
    ensures Times(w, 1.0 + Times(lambda, mean)) <= w
  {
    hide Times;
    TimesMono(mean, 0.0, lambda);
    TimesZero(lambda);
    TimesMono(1.0 + Times(lambda, mean), 1.0, w);
    TimesOne(w);
  }

  lemma BranchStep(w: real, lambda: real, p: real, y: real, grown: real, cross: real, level: real,
                   restMass: real, restMean: real, restCross: real)
    requires p >= 0.0
    requires grown == Times(w, 1.0 + Times(lambda, y))
    requires Times(level, cross) <= grown
    requires Times(level, restCross) <= Times(w, restMass + Times(lambda, restMean))
    ensures Times(level, Times(p, cross) + restCross)
            <= Times(w, (p + restMass) + Times(lambda, Times(p, y) + restMean))
  {
    hide Times;
    TimesAdd(Times(p, cross), restCross, level);
    TimesSwap(level, p, cross);
    TimesMono(Times(level, cross), grown, p);
    TimesAdd(Times(p, y), restMean, lambda);
    TimesSwap(lambda, p, y);
    TimesAdd(1.0, Times(lambda, y), p);
    TimesOne(p);
    TimesAdd(Times(p, 1.0 + Times(lambda, y)), restMass + Times(lambda, restMean), w);
    TimesSwap(w, p, 1.0 + Times(lambda, y));
  }

  lemma BookWealth(s: BettingState, y: Unit)
    requires WellFormed(s)
    ensures Book(s, y).wealth == Times(s.wealth, 1.0 + Times(NextLambda(s), y))
  {
    hide NextLambda;
  }

  /** Ville: under the null, whatever has happened so far, the chance that the wealth ever reaches a
      level is at most the current wealth over that level. */
  lemma {:induction false} Ville(t: Tree, side: Side, s: BettingState, level: real)
    requires WellFormed(s) && level > 0.0
    requires Proper(t) && Null(t, side)
    ensures Times(level, CrossWeight(t, side, s, level)) <= s.wealth
    decreases t
  {
    hide NextLambda, Book, Times, CrossSum;
    TimesZero(level);
    TimesOne(level);
    if s.wealth < level && t.Node? {
      VilleBranches(t.branches, side, s, level);
      FairStep(s.wealth, NextLambda(s), Mean(t.branches, side));
    }
  }

  lemma {:induction false} VilleBranches(b: Branches, side: Side, s: BettingState, level: real)
    requires WellFormed(s) && level > 0.0
    requires ProperBranches(b) && NullBranches(b, side)
    ensures Times(level, CrossSum(b, side, s, level)) <= Times(s.wealth, Mass(b) + Times(NextLambda(s), Mean(b, side)))
    decreases b
  {
    hide NextLambda, Book, Y, CrossWeight, Times;
    match b
    case Done =>
      TimesZero(level);
      TimesZero(s.wealth);
      TimesZero(NextLambda(s));
    case Branch(p, x, next, rest) =>
      var y := Y(side, x);
      BookKeepsWellFormed(s, y);
      BookWealth(s, y);
      Ville(next, side, Book(s, y), level);
      VilleBranches(rest, side, s, level);
      BranchStep(s.wealth, NextLambda(s), p, y, Book(s, y).wealth, CrossWeight(next, side, Book(s, y), level), level,
                 Mass(rest), Mean(rest, side), CrossSum(rest, side, s, level));
  }

  // ----- the test itself on the tree

  function After(t: Test, x: Week): (n: Test)
    requires TestWellFormed(t)
    ensures TestWellFormed(n)
  {
    match Observe(t, x)
    case Observed(n) => n
    case Closed => t
  }

  /** Total weight of the paths that end with the test in the given status. */
  function EndWeight(tree: Tree, t: Test, status: Status): real
    requires TestWellFormed(t)
    decreases tree
  {
    match tree
    case Leaf => if t.status == status then 1.0 else 0.0
    case Node(b) => EndSum(b, t, status)
  }

  function EndSum(b: Branches, t: Test, status: Status): real
    requires TestWellFormed(t)
    decreases b
  {
    match b
    case Done => 0.0
    case Branch(p, x, next, rest) => Times(p, EndWeight(next, After(t, x), status)) + EndSum(rest, t, status)
  }

  /** A terminal status is absorbing, so it carries all the weight below it. */
  lemma {:induction false} TerminalKeepsItsWeight(tree: Tree, t: Test, status: Status)
    requires TestWellFormed(t) && t.status != RUNNING && Proper(tree)
    ensures EndWeight(tree, t, status) == if t.status == status then 1.0 else 0.0
    decreases tree
  {
    if tree.Node? {
      TerminalBranches(tree.branches, t, status);
    }
  }

  lemma {:induction false} TerminalBranches(b: Branches, t: Test, status: Status)
    requires TestWellFormed(t) && t.status != RUNNING && ProperBranches(b)
    ensures EndSum(b, t, status) == if t.status == status then Mass(b) else 0.0
    decreases b
  {
    match b
    case Done =>
    case Branch(p, x, next, rest) =>
      assert After(t, x) == t;
      TimesOne(p);
      TimesZero(p);
      TerminalKeepsItsWeight(next, t, status);
      TerminalBranches(rest, t, status);
  }

  function StateOf(t: Test, side: Side): BettingState {
    match side
    case Spy => t.spy
    case Quant => t.quant
    case Mirror => t.mirror
  }

  /** The statuses that assert a crossing of one side's e-process. */
  predicate Claims(status: Status, side: Side) {
    match side
    case Spy => status == PASS
    case Quant => status == PASS
    case Mirror => status == FAIL
  }

  lemma AfterRunning(t: Test, x: Week, status: Status, side: Side)
    requires TestWellFormed(t) && t.status == RUNNING && Claims(status, side)
    ensures StateOf(After(t, x), side) == Book(StateOf(t, side), Y(side, x))
    ensures After(t, x).status == status ==> StateOf(After(t, x), side).wealth >= E_THRESHOLD
  {
  }

  lemma {:induction false} CrossWeightNonNegative(t: Tree, side: Side, s: BettingState, level: real)
    requires WellFormed(s) && Proper(t)
    ensures CrossWeight(t, side, s, level) >= 0.0
    decreases t
  {
    if t.Node? { CrossSumNonNegative(t.branches, side, s, level); }
  }

  lemma {:induction false} CrossSumNonNegative(b: Branches, side: Side, s: BettingState, level: real)
    requires WellFormed(s) && ProperBranches(b)
    ensures CrossSum(b, side, s, level) >= 0.0
    decreases b
  {
    match b
    case Done =>
    case Branch(p, x, next, rest) =>
      BookKeepsWellFormed(s, Y(side, x));
      CrossWeightNonNegative(next, side, Book(s, Y(side, x)), level);
      TimesMono(0.0, CrossWeight(next, side, Book(s, Y(side, x)), level), p);
      TimesZero(p);
      CrossSumNonNegative(rest, side, s, level);
  }

  /** Path by path, a claim needs a crossing: the claim weighs no more than the crossing does. */
  lemma {:induction false} ClaimsNeedCrossings(tree: Tree, t: Test, status: Status, side: Side)
    requires TestWellFormed(t) && Proper(tree) && Claims(status, side)
    requires t.status == status ==> StateOf(t, side).wealth >= E_THRESHOLD
    ensures EndWeight(tree, t, status) <= CrossWeight(tree, side, StateOf(t, side), E_THRESHOLD)
    ensures EndWeight(tree, t, status) <= 1.0
    decreases tree
  {
    CrossWeightNonNegative(tree, side, StateOf(t, side), E_THRESHOLD);
    if t.status != RUNNING {
      TerminalKeepsItsWeight(tree, t, status);
    } else if tree.Node? {
      ClaimBranches(tree.branches, t, status, side);
    }
  }

  lemma {:induction false} ClaimBranches(b: Branches, t: Test, status: Status, side: Side)
    requires TestWellFormed(t) && ProperBranches(b) && Claims(status, side) && t.status == RUNNING
    ensures EndSum(b, t, status) <= CrossSum(b, side, StateOf(t, side), E_THRESHOLD)
    ensures EndSum(b, t, status) <= Mass(b)
    decreases b
  {
    hide NextLambda, Book, Y, After, CrossWeight, EndWeight, Times;
    match b
    case Done =>
    case Branch(p, x, next, rest) =>
      AfterRunning(t, x, status, side);
      ClaimsNeedCrossings(next, After(t, x), status, side);
      ClaimBranches(rest, t, status, side);
      var end := EndWeight(next, After(t, x), status);
      TimesMono(end, CrossWeight(next, side, StateOf(After(t, x), side), E_THRESHOLD), p);
      TimesMono(end, 1.0, p);
      TimesOne(p);
  }

  /** PASS is wrong with weight at most 1/20 as soon as either comparison satisfies its null. */
  lemma PassErrorBound(tree: Tree)
    requires Proper(tree) && (Null(tree, Spy) || Null(tree, Quant))
    ensures EndWeight(tree, FRESH_TEST, PASS) <= 1.0 / 20.0
  {
    var side := if Null(tree, Spy) then Spy else Quant;
    ClaimsNeedCrossings(tree, FRESH_TEST, PASS, side);
    Ville(tree, side, FRESH, E_THRESHOLD);
  }

  predicate QuantNotWorse(t: Tree) {
    t.Node? ==> Mean(t.branches, Quant) >= 0.0 && QuantNotWorseBranches(t.branches)
  }

  predicate QuantNotWorseBranches(b: Branches) {
    b.Branch? ==> QuantNotWorse(b.next) && QuantNotWorseBranches(b.rest)
  }

  lemma {:induction false} MirrorMeanIsNegated(b: Branches)
    ensures Mean(b, Mirror) == -Mean(b, Quant)
  {
    if b.Branch? {
      MirrorMeanIsNegated(b.rest);
      assert Times(b.p, Y(Mirror, b.x)) == -Times(b.p, Y(Quant, b.x));
    }
  }

  lemma {:induction false} MirrorNull(t: Tree)
    requires QuantNotWorse(t)
    ensures Null(t, Mirror)
    decreases t
  {
    if t.Node? {
      MirrorMeanIsNegated(t.branches);
      MirrorNullBranches(t.branches);
    }
  }

  lemma {:induction false} MirrorNullBranches(b: Branches)
    requires QuantNotWorseBranches(b)
    ensures NullBranches(b, Mirror)
    decreases b
  {
    if b.Branch? {
      MirrorNull(b.next);
      MirrorNullBranches(b.rest);
    }
  }

  /** FAIL is wrong with weight at most 1/20 when in every week the committee is expected to do at least as
      well as quant. */
  lemma FailErrorBound(tree: Tree)
    requires Proper(tree) && QuantNotWorse(tree)
    ensures EndWeight(tree, FRESH_TEST, FAIL) <= 1.0 / 20.0
  {
    MirrorNull(tree);
    ClaimsNeedCrossings(tree, FRESH_TEST, FAIL, Mirror);
    Ville(tree, Mirror, FRESH, E_THRESHOLD);
  }
}
