/** What the verdicts and the reference prices are, in terms of the trades alone: no flags, no order of judging,
    no step function. Nothing is left undecided without a cause, and what is ambiguous really is. */
module ReferenceExactness {
  import opened Wrappers
  import opened TradeConditions
  import opened ReferenceRules
  import opened ReferenceSoundness

  // ----- verdicts

  predicate Contender(t: Trade, m: ProviderCodeMap) { Eligibility0(t, m) != INELIGIBLE }

  /** No other trade at this instant or before might set the price. */
  ghost predicate Alone(gs: seq<seq<Trade>>, k: nat, i: nat, m: ProviderCodeMap)
    requires k < |gs| && i < |gs[k]|
  {
    && (forall a, b | 0 <= a < k && 0 <= b < |gs[a]| :: !Contender(gs[a][b], m))
    && (forall j | 0 <= j < |gs[k]| && j != i :: !Contender(gs[k][j], m))
  }

  /** The trade sets the price beyond doubt: it is eligible, or it would be if it were the first and it is. */
  ghost predicate Counts(gs: seq<seq<Trade>>, k: nat, i: nat, m: ProviderCodeMap)
    requires k < |gs| && i < |gs[k]|
  {
    var e := Eligibility0(gs[k][i], m);
    e.ELIGIBLE? || (e.CONDITIONAL? && Alone(gs, k, i, m))
  }

  /** A price is in force for certain before instant k. */
  ghost predicate InForce(gs: seq<seq<Trade>>, k: nat, m: ProviderCodeMap)
    requires k <= |gs|
  {
    exists a, b :: 0 <= a < k && 0 <= b < |gs[a]| && Counts(gs, a, b, m)
  }

  /** Some earlier trade might have set a price. */
  ghost predicate Contested(gs: seq<seq<Trade>>, k: nat, m: ProviderCodeMap)
    requires k <= |gs|
  {
    exists a, b :: 0 <= a < k && 0 <= b < |gs[a]| && Contender(gs[a][b], m)
  }

  /** What a trade means for the price. */
  ghost function Meant(gs: seq<seq<Trade>>, k: nat, i: nat, m: ProviderCodeMap): Kind
    requires k < |gs| && i < |gs[k]|
  {
    match Eligibility0(gs[k][i], m)
    case ELIGIBLE => QUALIFIES
    case INELIGIBLE => NOT
    case UNDECIDED(reason) => UNKNOWN(reason)
    case CONDITIONAL(note3) =>
      if Alone(gs, k, i, m) then QUALIFIES
      else if InForce(gs, k, m) then (if note3 then UNKNOWN(UNKNOWN_CONDITION) else NOT)
      else if exists j :: 0 <= j < |gs[k]| && j != i && Contender(gs[k][j], m) then UNKNOWN(AMBIGUOUS_ORDER)
      else UNKNOWN(UNKNOWN_CONDITION)
  }

  lemma NoFlagYet(gs: seq<seq<Trade>>, m: ProviderCodeMap)
    ensures !SeenQualifying([]) && !SeenUnknown([]) && !InForce(gs, 0, m) && !Contested(gs, 0, m)
  {
  }

  /** The two flags are: a price is in force for certain, or one might be. */
  lemma {:induction false} FlagsAreExact(gs: seq<seq<Trade>>, k: nat, m: ProviderCodeMap)
    requires k <= |gs|
    ensures var vgs := VerdictGroups(gs[..k], m);
            && (SeenQualifying(vgs) <==> InForce(gs, k, m))
            && (SeenQualifying(vgs) || SeenUnknown(vgs) <==> Contested(gs, k, m))
  {
    NoFlagYet(gs, m);
    hide *;
    if k == 0 {
      NoGroupYet(gs, m);
    } else {
      FlagsAreExact(gs, k - 1, m);
      var before := VerdictGroups(gs[..k - 1], m);
      var vs := GroupVerdicts(gs[k - 1], m, SeenQualifying(before), SeenUnknown(before));
      OneMoreGroup(gs, k - 1, m, vs);
      GroupIsExact(gs, k - 1, m);
      InForceNext(gs, k - 1, m);
    }
  }

  lemma InForceNext(gs: seq<seq<Trade>>, k: nat, m: ProviderCodeMap)
    requires k < |gs|
    ensures InForce(gs, k + 1, m) <==> InForce(gs, k, m) || exists i :: 0 <= i < |gs[k]| && Counts(gs, k, i, m)
    ensures Contested(gs, k + 1, m) <==>
              Contested(gs, k, m) || exists i :: 0 <= i < |gs[k]| && Contender(gs[k][i], m)
  {
    hide Counts, Contender;
  }

  /** One instant, if the flags are right when it starts. */
  lemma GroupIsExact(gs: seq<seq<Trade>>, k: nat, m: ProviderCodeMap)
    requires k < |gs|
    requires var vgs := VerdictGroups(gs[..k], m);
             && (SeenQualifying(vgs) <==> InForce(gs, k, m))
             && (SeenQualifying(vgs) || SeenUnknown(vgs) <==> Contested(gs, k, m))
    ensures var vgs := VerdictGroups(gs[..k], m);
            var vs := GroupVerdicts(gs[k], m, SeenQualifying(vgs), SeenUnknown(vgs));
            && (forall i | 0 <= i < |gs[k]| :: vs[i] == Verdict(gs[k][i], Meant(gs, k, i, m)))
            && (SomeQualifies(vs) <==> exists i :: 0 <= i < |gs[k]| && Counts(gs, k, i, m))
            && (SeenQualifying(vgs) || SeenUnknown(vgs) || SomeQualifies(vs) || SomeUnknown(vs) <==>
                  Contested(gs, k, m) || exists i :: 0 <= i < |gs[k]| && Contender(gs[k][i], m))
  {
    hide Eligibility0, VerdictGroups, SeenQualifying, SeenUnknown, InForce;
    var vgs := VerdictGroups(gs[..k], m);
    var vs := GroupVerdicts(gs[k], m, SeenQualifying(vgs), SeenUnknown(vgs));
    InForceIsContested(gs, k, m);
    forall i | 0 <= i < |gs[k]| ensures vs[i] == Verdict(gs[k][i], Meant(gs, k, i, m)) && vs[i] in vs {
      KindIsMeant(gs, k, i, m, SeenQualifying(vgs), SeenUnknown(vgs));
    }
    forall i | 0 <= i < |gs[k]| ensures Meant(gs, k, i, m).QUALIFIES? <==> Counts(gs, k, i, m) {}
    forall i | 0 <= i < |gs[k]| && Contender(gs[k][i], m)
      ensures InForce(gs, k, m) || vs[i].kind.QUALIFIES? || vs[i].kind.UNKNOWN?
    {
    }
  }

  lemma InForceIsContested(gs: seq<seq<Trade>>, k: nat, m: ProviderCodeMap)
    requires k <= |gs|
    ensures InForce(gs, k, m) ==> Contested(gs, k, m)
  {
  }

  lemma KindIsMeant(gs: seq<seq<Trade>>, k: nat, i: nat, m: ProviderCodeMap, seenQ: bool, seenU: bool)
    requires k < |gs| && i < |gs[k]|
    requires (seenQ <==> InForce(gs, k, m)) && (seenQ || seenU <==> Contested(gs, k, m))
    ensures KindOf(gs[k], i, m, seenQ, seenU) == Meant(gs, k, i, m)
  {
    hide Eligibility0, InForce;
    assert Alone(gs, k, i, m) <==> !Contested(gs, k, m) && !Tied(gs[k], i, m);
  }

  /** Every verdict of a session is what the trade means. */
  lemma VerdictsAreMeant(gs: seq<seq<Trade>>, k: nat, i: nat, m: ProviderCodeMap)
    requires k < |gs| && i < |gs[k]|
    ensures VerdictGroups(gs, m)[k][i] == Verdict(gs[k][i], Meant(gs, k, i, m))
  {
    hide Eligibility0, Meant;
    FlagsAreExact(gs, k, m);
    GroupIsExact(gs, k, m);
    GroupOf(gs, k, m);
  }

  lemma {:induction false} GroupOf(gs: seq<seq<Trade>>, k: nat, m: ProviderCodeMap)
    requires k < |gs|
    ensures var vgs := VerdictGroups(gs[..k], m);
            VerdictGroups(gs, m)[k] == GroupVerdicts(gs[k], m, SeenQualifying(vgs), SeenUnknown(vgs))
  {
    hide GroupVerdicts;
    if k < |gs| - 1 {
      var init := gs[..|gs| - 1];
      GroupOf(init, k, m);
      assert init[..k] == gs[..k];
    }
  }

  // ----- resolution

  /** Something at this instant sets the price or might. */
  ghost predicate Matters(gs: seq<seq<Trade>>, k: nat, m: ProviderCodeMap)
    requires k < |gs|
  {
    exists i :: 0 <= i < |gs[k]| && !Meant(gs, k, i, m).NOT?
  }

  /** Nothing at this instant is undecided, and what sets the price sets this one. */
  ghost predicate Settles(gs: seq<seq<Trade>>, k: nat, m: ProviderCodeMap, price: real)
    requires k < |gs|
  {
    && (forall i | 0 <= i < |gs[k]| :: !Meant(gs, k, i, m).UNKNOWN?)
    && (exists i :: 0 <= i < |gs[k]| && Meant(gs, k, i, m).QUALIFIES?)
    && (forall i | 0 <= i < |gs[k]| && Meant(gs, k, i, m).QUALIFIES? :: gs[k][i].price == price)
  }

  /** Nothing at this instant is undecided, but two trades set different prices. */
  ghost predicate Clashes(gs: seq<seq<Trade>>, k: nat, m: ProviderCodeMap)
    requires k < |gs|
  {
    && (forall i | 0 <= i < |gs[k]| :: !Meant(gs, k, i, m).UNKNOWN?)
    && exists i, j :: 0 <= i < |gs[k]| && 0 <= j < |gs[k]| && Meant(gs, k, i, m).QUALIFIES?
         && Meant(gs, k, j, m).QUALIFIES? && gs[k][i].price != gs[k][j].price
  }

  /** What one instant decides. */
  ghost predicate DecidesAs(gs: seq<seq<Trade>>, k: nat, m: ProviderCodeMap, d: Option<Reference>)
    requires k < |gs|
  {
    && (d.None? <==> !Matters(gs, k, m))
    && (forall price, at ::
          d == Some(Resolved(price, at)) <==> Settles(gs, k, m, price) && gs[k] != [] && at == gs[k][0].time)
    && (Clashes(gs, k, m) ==> d == Some(Unresolved(AMBIGUOUS_ORDER)))
    && (forall i | 0 <= i < |gs[k]| && FirstDoubt(gs, k, i, m) :: d == Some(Unresolved(Meant(gs, k, i, m).reason)))
  }

  /** The first trade of the instant that is undecided. */
  ghost predicate FirstDoubt(gs: seq<seq<Trade>>, k: nat, i: nat, m: ProviderCodeMap)
    requires k < |gs| && i < |gs[k]|
  {
    Meant(gs, k, i, m).UNKNOWN? && forall j | 0 <= j < i :: !Meant(gs, k, j, m).UNKNOWN?
  }

  lemma {:induction false} FirstUnknownAt(vs: seq<Verdict>, i: nat)
    requires i < |vs| && vs[i].kind.UNKNOWN? && forall j | 0 <= j < i :: !vs[j].kind.UNKNOWN?
    ensures SomeUnknown(vs) && FirstUnknown(vs) == vs[i].kind.reason
    decreases i
  {
    assert vs[i] in vs;
    if i > 0 {
      assert vs[1..][i - 1] == vs[i];
      FirstUnknownAt(vs[1..], i - 1);
    }
  }

  /** The verdicts are what the trades of the instant mean. */
  ghost predicate Shows(gs: seq<seq<Trade>>, k: nat, m: ProviderCodeMap, vs: seq<Verdict>)
    requires k < |gs|
  {
    && |vs| == |gs[k]|
    && forall i | 0 <= i < |gs[k]| :: vs[i] == Verdict(gs[k][i], Meant(gs, k, i, m)) && vs[i] in vs
  }

  lemma DoubtDecides(gs: seq<seq<Trade>>, k: nat, m: ProviderCodeMap, vs: seq<Verdict>)
    requires k < |gs| && Shows(gs, k, m, vs) && SomeUnknown(vs)
    ensures DecidesAs(gs, k, m, GroupDecision(vs))
  {
    hide Meant;
    var v :| v in vs && v.kind.UNKNOWN?;
    var l :| 0 <= l < |vs| && vs[l] == v;
    assert Meant(gs, k, l, m).UNKNOWN?;
    forall i | 0 <= i < |gs[k]| && FirstDoubt(gs, k, i, m)
      ensures GroupDecision(vs) == Some(Unresolved(Meant(gs, k, i, m).reason))
    {
      FirstUnknownAt(vs, i);
    }
  }

  lemma NothingDecides(gs: seq<seq<Trade>>, k: nat, m: ProviderCodeMap, vs: seq<Verdict>)
    requires k < |gs| && Shows(gs, k, m, vs) && !SomeUnknown(vs) && !SomeQualifies(vs)
    ensures DecidesAs(gs, k, m, GroupDecision(vs))
  {
    hide Meant;
    assert forall i | 0 <= i < |gs[k]| :: vs[i].kind.NOT?;
  }

  lemma ClashDecides(gs: seq<seq<Trade>>, k: nat, m: ProviderCodeMap, i: nat, j: nat)
    requires k < |gs| && i < |gs[k]| && j < |gs[k]| && gs[k][i].price != gs[k][j].price
    requires forall l | 0 <= l < |gs[k]| :: !Meant(gs, k, l, m).UNKNOWN?
    requires Meant(gs, k, i, m).QUALIFIES? && Meant(gs, k, j, m).QUALIFIES?
    ensures DecidesAs(gs, k, m, Some(Unresolved(AMBIGUOUS_ORDER)))
  {
    hide Meant;
    assert Clashes(gs, k, m) && Matters(gs, k, m);
  }

  lemma OnePriceDecides(gs: seq<seq<Trade>>, k: nat, m: ProviderCodeMap, i: nat)
    requires k < |gs| && i < |gs[k]| && OneInstant(gs[k]) && Meant(gs, k, i, m).QUALIFIES?
    requires forall l | 0 <= l < |gs[k]| :: !Meant(gs, k, l, m).UNKNOWN?
    requires forall l | 0 <= l < |gs[k]| && Meant(gs, k, l, m).QUALIFIES? :: gs[k][l].price == gs[k][i].price
    ensures DecidesAs(gs, k, m, Some(Resolved(gs[k][i].price, gs[k][i].time)))
  {
    hide Meant;
    assert Settles(gs, k, m, gs[k][i].price) && Matters(gs, k, m);
    assert gs[k][i] in gs[k] && gs[k][0] in gs[k];
  }

  lemma PriceDecides(gs: seq<seq<Trade>>, k: nat, m: ProviderCodeMap, vs: seq<Verdict>)
    requires k < |gs| && OneInstant(gs[k]) && Shows(gs, k, m, vs) && !SomeUnknown(vs) && SomeQualifies(vs)
    ensures DecidesAs(gs, k, m, GroupDecision(vs))
  {
    hide Meant, DecidesAs, OneInstant;
    assert forall i | 0 <= i < |gs[k]| :: !vs[i].kind.UNKNOWN?;
    if SeveralPrices(vs) {
      var v, w :| v in vs && w in vs && v.kind.QUALIFIES? && w.kind.QUALIFIES? && v.trade.price != w.trade.price;
      var i :| 0 <= i < |vs| && vs[i] == v;
      var j :| 0 <= j < |vs| && vs[j] == w;
      ClashDecides(gs, k, m, i, j);
    } else {
      var q := FirstQualifying(vs);
      var i :| 0 <= i < |vs| && vs[i] == Verdict(q, QUALIFIES);
      OnePriceDecides(gs, k, m, i);
    }
  }

  lemma GroupDecisionIsExact(gs: seq<seq<Trade>>, k: nat, m: ProviderCodeMap)
    requires k < |gs| && OneInstant(gs[k])
    ensures DecidesAs(gs, k, m, GroupDecision(VerdictGroups(gs, m)[k]))
  {
    var vs := VerdictGroups(gs, m)[k];
    assert Shows(gs, k, m, vs) by {
      hide Meant, VerdictGroups;
      forall i | 0 <= i < |gs[k]| ensures vs[i] == Verdict(gs[k][i], Meant(gs, k, i, m)) && vs[i] in vs {
        VerdictsAreMeant(gs, k, i, m);
      }
    }
    hide *;
    if SomeUnknown(vs) {
      DoubtDecides(gs, k, m, vs);
    } else if SomeQualifies(vs) {
      PriceDecides(gs, k, m, vs);
    } else {
      NothingDecides(gs, k, m, vs);
    }
  }

  /** Listed backwards, the last instant that matters decides. */
  lemma {:induction false} LastDecides(vgs: seq<seq<Verdict>>, k: nat)
    requires k < |vgs| && GroupDecision(vgs[k]).Some?
    requires forall l | k < l < |vgs| :: GroupDecision(vgs[l]).None?
    ensures Decide(Reversed(vgs)) == GroupDecision(vgs[k])
  {
    hide GroupDecision;
    if k < |vgs| - 1 { LastDecides(vgs[..|vgs| - 1], k); }
  }

  lemma {:induction false} NoneDecides(vgs: seq<seq<Verdict>>)
    requires forall l | 0 <= l < |vgs| :: GroupDecision(vgs[l]).None?
    ensures Decide(Reversed(vgs)) == None
  {
    hide GroupDecision;
    if vgs != [] { NoneDecides(vgs[..|vgs| - 1]); }
  }

  /** k is the last instant that matters. */
  ghost predicate IsLast(gs: seq<seq<Trade>>, k: nat, m: ProviderCodeMap) {
    k < |gs| && Matters(gs, k, m) && forall l | k < l < |gs| :: !Matters(gs, l, m)
  }

  lemma {:induction false} LastOf(gs: seq<seq<Trade>>, n: nat, m: ProviderCodeMap) returns (k: nat)
    requires n <= |gs| && exists l :: 0 <= l < n && Matters(gs, l, m)
    ensures k < n && Matters(gs, k, m) && forall l | k < l < n :: !Matters(gs, l, m)
  {
    hide Matters;
    if Matters(gs, n - 1, m) { k := n - 1; } else { k := LastOf(gs, n - 1, m); }
  }

  /** The reference is the price that instant k sets if it sets one; it is ambiguous if it sets several, and
      undecided for the reason of the first trade in doubt if there is one. */
  ghost predicate AnswerAt(gs: seq<seq<Trade>>, k: nat, m: ProviderCodeMap, r: Reference)
    requires k < |gs|
  {
    && (forall price, at ::
          r == Resolved(price, at) <==> Settles(gs, k, m, price) && gs[k] != [] && at == gs[k][0].time)
    && (Clashes(gs, k, m) ==> r == Unresolved(AMBIGUOUS_ORDER))
    && (forall i | 0 <= i < |gs[k]| && FirstDoubt(gs, k, i, m) :: r == Unresolved(Meant(gs, k, i, m).reason))
  }

  lemma Answers(gs: seq<seq<Trade>>, k: nat, m: ProviderCodeMap, d: Option<Reference>)
    requires k < |gs| && DecidesAs(gs, k, m, d) && Matters(gs, k, m)
    ensures d.Some? && AnswerAt(gs, k, m, d.value)
  {
    hide Matters, Settles, Clashes;
    forall price, at
      ensures d.value == Resolved(price, at) <==> Settles(gs, k, m, price) && gs[k] != [] && at == gs[k][0].time
    {
      assert d == Some(Resolved(price, at)) <==> Settles(gs, k, m, price) && gs[k] != [] && at == gs[k][0].time;
    }
  }

  lemma AllDecided(gs: seq<seq<Trade>>, m: ProviderCodeMap)
    requires Grouped(gs)
    ensures forall k | 0 <= k < |gs| :: DecidesAs(gs, k, m, GroupDecision(VerdictGroups(gs, m)[k]))
    ensures forall k | 0 <= k < |gs| ::
              gs[k] != [] && VerdictGroups(gs, m)[k] != [] && VerdictGroups(gs, m)[k][0].trade == gs[k][0]
  {
    hide DecidesAs, GroupDecision, VerdictGroups;
    forall k | 0 <= k < |gs|
      ensures DecidesAs(gs, k, m, GroupDecision(VerdictGroups(gs, m)[k]))
      ensures gs[k] != [] && VerdictGroups(gs, m)[k] != [] && VerdictGroups(gs, m)[k][0].trade == gs[k][0]
    {
      assert OneInstant(gs[k]);
      GroupStarts(gs, k, m);
      GroupDecisionIsExact(gs, k, m);
    }
  }

  lemma NeverNoTrade(gs: seq<seq<Trade>>, m: ProviderCodeMap, vgs: seq<seq<Verdict>>)
    requires forall vs | vs in vgs :: vs in VerdictGroups(gs, m)
    ensures Decide(vgs) != Some(Unresolved(NO_ELIGIBLE_TRADE))
  {
    hide HonestReasons, VerdictGroups, Decide;
    VerdictReasons(gs, m);
    DecisionReasons(vgs);
  }

  /** The backtest reference is the price that the last instant which matters sets, if it sets one; there is no
      eligible trade exactly if no instant matters. */
  lemma BacktestIsExact(trades: seq<Trade>, session: Session, refTime: int, m: ProviderCodeMap)
    requires session.openAt <= refTime <= session.closeAt
    ensures var gs := Groups(SortByTime(Between(trades, session.openAt, refTime)));
            var r := ResolveBacktest(trades, session, refTime, m);
            && (r == Unresolved(NO_ELIGIBLE_TRADE) <==> forall k | 0 <= k < |gs| :: !Matters(gs, k, m))
            && (forall k: nat | IsLast(gs, k, m) :: AnswerAt(gs, k, m, r))
  {
    BacktestDecides(trades, session, refTime, m);
    hide *;
    var regular := Between(trades, session.openAt, refTime);
    SortedGroups(regular);
    LastAnswers(Groups(SortByTime(regular)), m);
  }

  lemma BacktestDecides(trades: seq<Trade>, session: Session, refTime: int, m: ProviderCodeMap)
    requires session.openAt <= refTime <= session.closeAt
    ensures var gs := Groups(SortByTime(Between(trades, session.openAt, refTime)));
            ResolveBacktest(trades, session, refTime, m) == OrNoTrade(Decide(Reversed(VerdictGroups(gs, m))))
  {
    hide VerdictGroups, Groups, SortByTime, Between, Decide, OrNoTrade, Reversed;
  }

  lemma LastAnswers(gs: seq<seq<Trade>>, m: ProviderCodeMap)
    requires Grouped(gs)
    ensures var r := OrNoTrade(Decide(Reversed(VerdictGroups(gs, m))));
            && (r == Unresolved(NO_ELIGIBLE_TRADE) <==> forall k | 0 <= k < |gs| :: !Matters(gs, k, m))
            && (forall k: nat | IsLast(gs, k, m) :: AnswerAt(gs, k, m, r))
  {
    hide Matters, AnswerAt, GroupDecision, VerdictGroups, Decide, Reversed, Settles, Clashes, OneInstant;
    var vgs := VerdictGroups(gs, m);
    AllDecided(gs, m);
    forall k: nat | IsLast(gs, k, m)
      ensures Decide(Reversed(vgs)).Some? && AnswerAt(gs, k, m, Decide(Reversed(vgs)).value)
    {
      LastDecides(vgs, k);
      Answers(gs, k, m, GroupDecision(vgs[k]));
    }
    ReversedMembers(vgs);
    NeverNoTrade(gs, m, Reversed(vgs));
    if k :| 0 <= k < |gs| && Matters(gs, k, m) {
      var last := LastOf(gs, |gs|, m);
      assert IsLast(gs, last, m);
    } else {
      NoneDecides(vgs);
    }
  }

  /** k is the first instant from the start that matters. */
  ghost predicate IsFirst(gs: seq<seq<Trade>>, k: nat, m: ProviderCodeMap, start: int) {
    && k < |gs| && gs[k] != [] && gs[k][0].time >= start && Matters(gs, k, m)
    && forall l | 0 <= l < k && gs[l] != [] && gs[l][0].time >= start :: !Matters(gs, l, m)
  }

  /** Of the instants from the start on, the first that matters decides. */
  lemma {:induction false} FirstDecides(vgs: seq<seq<Verdict>>, k: nat, start: int)
    requires k < |vgs| && vgs[k] != [] && vgs[k][0].trade.time >= start && GroupDecision(vgs[k]).Some?
    requires forall l | 0 <= l < k && vgs[l] != [] && vgs[l][0].trade.time >= start :: GroupDecision(vgs[l]).None?
    ensures Decide(From(vgs, start)) == GroupDecision(vgs[k])
  {
    hide GroupDecision;
    var init := vgs[..|vgs| - 1];
    DecideSnoc(From(init, start), vgs[|vgs| - 1]);
    if k < |vgs| - 1 { FirstDecides(init, k, start); } else { NoneFrom(init, start); }
  }

  lemma {:induction false} NoneFrom(vgs: seq<seq<Verdict>>, start: int)
    requires forall l | 0 <= l < |vgs| && vgs[l] != [] && vgs[l][0].trade.time >= start :: GroupDecision(vgs[l]).None?
    ensures Decide(From(vgs, start)) == None
  {
    hide GroupDecision;
    if vgs != [] {
      NoneFrom(vgs[..|vgs| - 1], start);
      DecideSnoc(From(vgs[..|vgs| - 1], start), vgs[|vgs| - 1]);
    }
  }

  lemma {:induction false} FirstOf(gs: seq<seq<Trade>>, n: nat, m: ProviderCodeMap, start: int) returns (k: nat)
    requires n <= |gs| && exists l :: 0 <= l < n && gs[l] != [] && gs[l][0].time >= start && Matters(gs, l, m)
    ensures k < n && IsFirst(gs, k, m, start)
  {
    hide Matters;
    if exists l :: 0 <= l < n - 1 && gs[l] != [] && gs[l][0].time >= start && Matters(gs, l, m) {
      k := FirstOf(gs, n - 1, m, start);
    } else {
      k := n - 1;
    }
  }

  lemma FirstAnswers(gs: seq<seq<Trade>>, m: ProviderCodeMap, start: int)
    requires Grouped(gs)
    ensures var r := OrNoTrade(Decide(From(VerdictGroups(gs, m), start)));
            && (r == Unresolved(NO_ELIGIBLE_TRADE) <==>
                  forall k | 0 <= k < |gs| && gs[k][0].time >= start :: !Matters(gs, k, m))
            && (forall k: nat | IsFirst(gs, k, m, start) :: AnswerAt(gs, k, m, r))
  {
    hide Matters, AnswerAt, GroupDecision, VerdictGroups, Decide, From, Settles, Clashes;
    var vgs := VerdictGroups(gs, m);
    AllDecided(gs, m);
    forall k: nat | IsFirst(gs, k, m, start)
      ensures Decide(From(vgs, start)).Some? && AnswerAt(gs, k, m, Decide(From(vgs, start)).value)
    {
      FirstDecides(vgs, k, start);
      Answers(gs, k, m, GroupDecision(vgs[k]));
    }
    FromMembers(vgs, start);
    NeverNoTrade(gs, m, From(vgs, start));
    if k :| 0 <= k < |gs| && gs[k][0].time >= start && Matters(gs, k, m) {
      var first := FirstOf(gs, |gs|, m, start);
      assert IsFirst(gs, first, m, start);
    } else {
      NoneFrom(vgs, start);
    }
  }

  /** The halt reference is the price that the first instant which matters, from the start on, sets, if it sets
      one; there is no eligible trade exactly if none of them matters. */
  lemma HaltIsExact(trades: seq<Trade>, tau: int, sessions: seq<Session>, m: ProviderCodeMap)
    requires NextSession(sessions, tau).Some?
    ensures var s := NextSession(sessions, tau).value;
            var start := if tau >= s.openAt then tau else s.openAt;
            var gs := Groups(SortByTime(Between(trades, s.openAt, s.closeAt)));
            var r := ReconstructHalt(trades, tau, sessions, m);
            && Grouped(gs)
            && (r == Unresolved(NO_ELIGIBLE_TRADE) <==>
                  forall k | 0 <= k < |gs| && gs[k][0].time >= start :: !Matters(gs, k, m))
            && (forall k: nat | IsFirst(gs, k, m, start) :: AnswerAt(gs, k, m, r))
  {
    hide Matters, AnswerAt, VerdictGroups, Groups, SortByTime, Between, Decide, NextSession, From;
    var s := NextSession(sessions, tau).value;
    var start := if tau >= s.openAt then tau else s.openAt;
    var regular := Between(trades, s.openAt, s.closeAt);
    SortedGroups(regular);
    FirstAnswers(Groups(SortByTime(regular)), m, start);
  }

  // ----- sessions without doubt

  /** Every trade is eligible or not, and eligible trades of one instant agree on the price. */
  ghost predicate Clear(ts: seq<Trade>, m: ProviderCodeMap) {
    && (forall t | t in ts :: Eligibility0(t, m) in {ELIGIBLE, INELIGIBLE})
    && forall t, u | t in ts && u in ts && t.time == u.time && Eligibility0(t, m) == Eligibility0(u, m) == ELIGIBLE ::
         t.price == u.price
  }

  lemma {:induction false} Placed(gs: seq<seq<Trade>>, x: Trade) returns (k: nat, i: nat)
    requires x in Flatten(gs)
    ensures k < |gs| && i < |gs[k]| && gs[k][i] == x
  {
    if x in Flatten(gs[..|gs| - 1]) {
      k, i := Placed(gs[..|gs| - 1], x);
    } else {
      k := |gs| - 1;
      i :| 0 <= i < |gs[k]| && gs[k][i] == x;
    }
  }

  lemma {:induction false} Members(gs: seq<seq<Trade>>)
    ensures forall k, i | 0 <= k < |gs| && 0 <= i < |gs[k]| :: gs[k][i] in Flatten(gs)
  {
    if gs != [] { Members(gs[..|gs| - 1]); }
  }

  lemma ClearInstants(ts: seq<Trade>, gs: seq<seq<Trade>>, m: ProviderCodeMap, x: Trade)
    returns (k: nat)
    requires Clear(ts, m) && Grouped(gs) && multiset(Flatten(gs)) == multiset(ts)
    requires x in ts && Eligibility0(x, m) == ELIGIBLE
    ensures k < |gs| && gs[k] != [] && gs[k][0].time == x.time && Settles(gs, k, m, x.price) && Matters(gs, k, m)
    ensures forall l | 0 <= l < |gs| && Matters(gs, l, m) ::
              gs[l] != [] && exists y :: y in ts && y.time == gs[l][0].time && Eligibility0(y, m) == ELIGIBLE
  {
    hide Eligibility0, Flatten;
    assert forall t :: t in ts <==> t in multiset(ts);
    assert forall t :: t in Flatten(gs) <==> t in multiset(Flatten(gs));
    Members(gs);
    var i;
    k, i := Placed(gs, x);
    forall l, j | 0 <= l < |gs| && 0 <= j < |gs[l]|
      ensures gs[l][j] in ts && gs[l][j].time == gs[l][0].time && Eligibility0(gs[l][j], m) in {ELIGIBLE, INELIGIBLE}
    {
      assert OneInstant(gs[l]) && gs[l][j] in gs[l];
    }
    assert Meant(gs, k, i, m) == QUALIFIES;
  }

  /** If nothing is in doubt, the backtest reference is the price of the latest eligible trade. */
  lemma ClearBacktest(trades: seq<Trade>, session: Session, refTime: int, m: ProviderCodeMap, x: Trade)
    requires session.openAt <= refTime <= session.closeAt
    requires var ts := Between(trades, session.openAt, refTime);
             && Clear(ts, m) && x in ts && Eligibility0(x, m) == ELIGIBLE
             && forall y | y in ts && Eligibility0(y, m) == ELIGIBLE :: y.time <= x.time
    ensures ResolveBacktest(trades, session, refTime, m) == Resolved(x.price, x.time)
  {
    hide Groups, SortByTime, Between, ResolveBacktest, Matters, Settles, Clear, Eligibility0, Flatten;
    var ts := Between(trades, session.openAt, refTime);
    var gs := Groups(SortByTime(ts));
    SortedGroups(ts);
    BacktestIsExact(trades, session, refTime, m);
    var k := ClearInstants(ts, gs, m, x);
    assert forall l | k < l < |gs| :: gs[k][0].time < gs[l][0].time;
    assert IsLast(gs, k, m);
  }

  /** If nothing is in doubt, the halt reference is the price of the first eligible trade from the start on. */
  lemma ClearHalt(trades: seq<Trade>, tau: int, sessions: seq<Session>, m: ProviderCodeMap, x: Trade)
    requires NextSession(sessions, tau).Some?
    requires var s := NextSession(sessions, tau).value;
             var start := if tau >= s.openAt then tau else s.openAt;
             var ts := Between(trades, s.openAt, s.closeAt);
             && Clear(ts, m) && x in ts && x.time >= start && Eligibility0(x, m) == ELIGIBLE
             && forall y | y in ts && y.time >= start && Eligibility0(y, m) == ELIGIBLE :: x.time <= y.time
    ensures ReconstructHalt(trades, tau, sessions, m) == Resolved(x.price, x.time)
  {
    hide Groups, SortByTime, Between, ReconstructHalt, Matters, Settles, Clear, Eligibility0, Flatten, NextSession;
    var s := NextSession(sessions, tau).value;
    var start := if tau >= s.openAt then tau else s.openAt;
    var ts := Between(trades, s.openAt, s.closeAt);
    var gs := Groups(SortByTime(ts));
    SortedGroups(ts);
    HaltIsExact(trades, tau, sessions, m);
    var k := ClearInstants(ts, gs, m, x);
    assert forall l | 0 <= l < k :: gs[l][0].time < gs[k][0].time;
    assert IsFirst(gs, k, m, start);
    assert AnswerAt(gs, k, m, ReconstructHalt(trades, tau, sessions, m));
  }

  // ----- what is ambiguous really is

  lemma QuietDecision(gs: seq<seq<Trade>>, k: nat, m: ProviderCodeMap)
    requires k < |gs| && OneInstant(gs[k]) && !Matters(gs, k, m)
    ensures GroupDecision(VerdictGroups(gs, m)[k]).None?
  {
    GroupDecisionIsExact(gs, k, m);
    hide Matters, GroupDecision, VerdictGroups;
  }

  /** An instant that does not matter changes nothing in any completion. */
  lemma QuietInstant(gs: seq<seq<Trade>>, egs: seq<seq<Entry>>, m: ProviderCodeMap, start: int, l: nat)
    requires Grouped(gs) && Completes(egs, gs, m) && l < |gs| && !Matters(gs, l, m)
    ensures Play(Flatten(egs[..l + 1]), start, BLANK) == Play(Flatten(egs[..l]), start, BLANK)
  {
    hide Matters, VerdictGroups, GroupVerdicts, GroupDecision, Play, CompletesGroup, SessionAgrees, Agrees;
    var vgs := VerdictGroups(gs[..l], m);
    var t := Play(Flatten(egs[..l]), start, BLANK);
    assert OneInstant(gs[l]);
    SessionIsSound(gs[..l], egs[..l], m, start);
    SessionSeen(vgs, start, t);
    GroupOf(gs, l, m);
    QuietDecision(gs, l, m);
    GroupIsSound(gs[l], egs[l], m, SeenQualifying(vgs), SeenUnknown(vgs), start, t);
    assert egs[..l + 1] == egs[..l] + [egs[l]];
    FlattenSnoc(egs[..l], egs[l]);
    PlayConcat(Flatten(egs[..l]), egs[l], start, BLANK);
  }

  lemma {:induction false} QuietFrom(
    gs: seq<seq<Trade>>, egs: seq<seq<Entry>>, m: ProviderCodeMap, start: int, k: nat, n: nat)
    requires Grouped(gs) && Completes(egs, gs, m) && k <= n <= |gs|
    requires forall l | k <= l < n :: !Matters(gs, l, m)
    ensures Play(Flatten(egs[..n]), start, BLANK) == Play(Flatten(egs[..k]), start, BLANK)
    decreases n
  {
    hide Matters, Play, Completes, Grouped, Flatten;
    if k < n {
      QuietFrom(gs, egs, m, start, k, n - 1);
      QuietInstant(gs, egs, m, start, n - 1);
    }
  }

  /** Before the first instant that matters from the start on, no first price is set. */
  lemma {:induction false} NoFirstYet(
    gs: seq<seq<Trade>>, egs: seq<seq<Entry>>, m: ProviderCodeMap, start: int, n: nat)
    requires Grouped(gs) && Completes(egs, gs, m) && n <= |gs|
    requires forall l | 0 <= l < n && gs[l] != [] && gs[l][0].time >= start :: !Matters(gs, l, m)
    ensures Play(Flatten(egs[..n]), start, BLANK).first == None
  {
    if n == 0 {
      NothingPlayed(start);
    } else {
      hide Matters, Play, CompletesGroup, OneInstant;
      NoFirstYet(gs, egs, m, start, n - 1);
      assert OneInstant(gs[n - 1]);
      if gs[n - 1][0].time >= start {
        QuietInstant(gs, egs, m, start, n - 1);
      } else {
        EarlyInstant(gs, egs, m, start, n - 1);
      }
    }
  }

  /** An instant before the start sets no first price. */
  lemma EarlyInstant(gs: seq<seq<Trade>>, egs: seq<seq<Entry>>, m: ProviderCodeMap, start: int, n: nat)
    requires n < |gs| && Completes(egs, gs, m) && OneInstant(gs[n]) && gs[n][0].time < start
    ensures Play(Flatten(egs[..n + 1]), start, BLANK).first == Play(Flatten(egs[..n]), start, BLANK).first
  {
    hide Play, CompletesGroup, OneInstant;
    EntriesShareInstant(gs[n], egs[n], m);
    assert egs[..n + 1] == egs[..n] + [egs[n]];
    FlattenSnoc(egs[..n], egs[n]);
    PlayConcat(Flatten(egs[..n]), egs[n], start, BLANK);
    EarlierEntriesLeaveFirst(egs[n], start, Play(Flatten(egs[..n]), start, BLANK));
  }

  /** Some truth behind a trade. */
  function Guess(t: Trade, m: ProviderCodeMap): Definite {
    match Eligibility0(t, m)
    case ELIGIBLE => Qualifies
    case CONDITIONAL(note3) => if note3 then IfFirstOrListed else IfFirst
    case _ => Disqualified
  }

  function Filled(ts: seq<Trade>, m: ProviderCodeMap): (es: seq<Entry>)
    ensures |es| == |ts| && forall i | 0 <= i < |ts| :: es[i] == Entry(ts[i], Guess(ts[i], m), false)
  {
    seq(|ts|, i requires 0 <= i < |ts| => Entry(ts[i], Guess(ts[i], m), false))
  }

  lemma FilledCompletes(ts: seq<Trade>, g: seq<Trade>, m: ProviderCodeMap)
    requires multiset(ts) == multiset(g)
    ensures CompletesGroup(Filled(ts, m), g, m)
  {
    hide Eligibility0;
    assert TradesOf(Filled(ts, m)) == ts;
  }

  /** The instants in the given arrangement, each in the order given. */
  function AllFilled(gs: seq<seq<Trade>>, m: ProviderCodeMap): (egs: seq<seq<Entry>>)
    ensures |egs| == |gs| && forall k | 0 <= k < |gs| :: egs[k] == Filled(gs[k], m)
  {
    seq(|gs|, k requires 0 <= k < |gs| => Filled(gs[k], m))
  }

  lemma TradesOfConcat(a: seq<Entry>, b: seq<Entry>)
    ensures TradesOf(a + b) == TradesOf(a) + TradesOf(b)
  {
  }

  /** Every instant-by-instant completion is a history. */
  lemma {:induction false} CompletionIsHistory(gs: seq<seq<Trade>>, egs: seq<seq<Entry>>, m: ProviderCodeMap)
    requires Grouped(gs) && Completes(egs, gs, m)
    ensures History(Flatten(egs), Flatten(gs), m)
  {
    hide Eligibility0, CompletesGroup, History, Possible;
    if gs == [] {
      EmptyIsHistory(m);
    } else {
      var n := |gs| - 1;
      CompletionIsHistory(gs[..n], egs[..n], m);
      assert OneInstant(gs[n]);
      AllBefore(gs[..n], gs[n][0].time);
      OneMoreInstant(Flatten(egs[..n]), Flatten(gs[..n]), egs[n], gs[n], m);
    }
  }

  lemma EmptyIsHistory(m: ProviderCodeMap)
    ensures History([], [], m)
  {
  }

  lemma OneMoreInstant(es: seq<Entry>, ts: seq<Trade>, eg: seq<Entry>, g: seq<Trade>, m: ProviderCodeMap)
    requires History(es, ts, m) && CompletesGroup(eg, g, m) && OneInstant(g)
    requires forall x | x in ts :: x.time < g[0].time
    ensures History(es + eg, ts + g, m)
  {
    hide Eligibility0, Possible;
    TradesOfConcat(es, eg);
    EntriesShareInstant(g, eg, m);
    var a, b := TradesOf(es), TradesOf(eg);
    assert multiset(a + b) == multiset(a) + multiset(b) && multiset(ts + g) == multiset(ts) + multiset(g);
    forall i | 0 <= i < |a| ensures a[i].time < g[0].time {
      assert a[i] in multiset(ts);
    }
    assert forall i | 0 <= i < |b| :: b[i] == eg[i].trade && eg[i] in eg;
  }

  function ToEnd(g: seq<Trade>, i: nat): (r: seq<Trade>)
    requires i < |g|
  {
    g[..i] + g[i + 1..] + [g[i]]
  }

  function ToFront(g: seq<Trade>, i: nat): (r: seq<Trade>)
    requires i < |g|
  {
    [g[i]] + g[..i] + g[i + 1..]
  }

  lemma Rearranged(g: seq<Trade>, i: nat)
    requires i < |g|
    ensures multiset(ToEnd(g, i)) == multiset(g) == multiset(ToFront(g, i))
  {
    assert g == g[..i] + [g[i]] + g[i + 1..];
  }

  /** With instant k in this arrangement. */
  function Arranged(gs: seq<seq<Trade>>, k: nat, g: seq<Trade>, m: ProviderCodeMap): seq<seq<Entry>>
    requires k < |gs|
  {
    AllFilled(gs[k := g], m)
  }

  lemma ArrangedCompletes(gs: seq<seq<Trade>>, k: nat, g: seq<Trade>, m: ProviderCodeMap)
    requires k < |gs| && Grouped(gs) && multiset(g) == multiset(gs[k])
    ensures Completes(Arranged(gs, k, g, m), gs, m) && History(Flatten(Arranged(gs, k, g, m)), Flatten(gs), m)
  {
    hide CompletesGroup, History, Filled;
    forall l | 0 <= l < |gs| ensures CompletesGroup(Arranged(gs, k, g, m)[l], gs[l], m) {
      FilledCompletes(gs[k := g][l], gs[l], m);
    }
    CompletionIsHistory(gs, Arranged(gs, k, g, m), m);
  }

  lemma LastSets(es: seq<Entry>, start: int, t: Tape2)
    requires es != [] && es[|es| - 1].truth == Qualifies
    ensures Play(es, start, t).last == Some(es[|es| - 1].trade.price)
  {
  }

  lemma FirstSets(es: seq<Entry>, start: int, t: Tape2)
    requires es != [] && es[0].truth == Qualifies && es[0].trade.time >= start && t.first == None
    ensures Play(es, start, t).first == Some(es[0].trade.price)
  {
    assert es == [es[0]] + es[1..];
    PlayConcat([es[0]], es[1..], start, t);
    assert [es[0]][..0] == [];
    LastPersists(es[1..], start, Play([es[0]], start, t));
  }

  /** The history in which trade i comes last at the last instant that matters leaves its price in force. */
  lemma PriceOfTheLast(gs: seq<seq<Trade>>, k: nat, i: nat, m: ProviderCodeMap, start: int)
    requires Grouped(gs) && IsLast(gs, k, m) && i < |gs[k]| && Eligibility0(gs[k][i], m) == ELIGIBLE
    ensures var es := Flatten(Arranged(gs, k, ToEnd(gs[k], i), m));
            History(es, Flatten(gs), m) && Play(es, start, BLANK).last == Some(gs[k][i].price)
  {
    hide Matters, Play, Completes, History, Eligibility0, Grouped, AllFilled;
    var g := ToEnd(gs[k], i);
    Rearranged(gs[k], i);
    var egs := Arranged(gs, k, g, m);
    ArrangedCompletes(gs, k, g, m);
    QuietFrom(gs, egs, m, start, k + 1, |gs|);
    assert egs[..|gs|] == egs && egs[..k + 1] == egs[..k] + [egs[k]];
    FlattenSnoc(egs[..k], egs[k]);
    PlayConcat(Flatten(egs[..k]), egs[k], start, BLANK);
    LastSets(egs[k], start, Play(Flatten(egs[..k]), start, BLANK));
  }

  /** The history in which trade i comes first at the first instant that matters sets its price first. */
  lemma PriceOfTheFirst(gs: seq<seq<Trade>>, k: nat, i: nat, m: ProviderCodeMap, start: int)
    requires Grouped(gs) && IsFirst(gs, k, m, start) && i < |gs[k]| && Eligibility0(gs[k][i], m) == ELIGIBLE
    ensures var es := Flatten(Arranged(gs, k, ToFront(gs[k], i), m));
            History(es, Flatten(gs), m) && Play(es, start, BLANK).first == Some(gs[k][i].price)
  {
    hide Matters, Play, Completes, History, Eligibility0, AllFilled;
    var g := ToFront(gs[k], i);
    Rearranged(gs[k], i);
    var egs := Arranged(gs, k, g, m);
    ArrangedCompletes(gs, k, g, m);
    NoFirstYet(gs, egs, m, start, k);
    assert OneInstant(gs[k]) && gs[k][i] in gs[k];
    assert egs[..k + 1] == egs[..k] + [egs[k]];
    FlattenSnoc(egs[..k], egs[k]);
    PlayConcat(Flatten(egs[..k]), egs[k], start, BLANK);
    FirstSets(egs[k], start, Play(Flatten(egs[..k]), start, BLANK));
    RestKeepsFirst(egs, k, start);
  }

  lemma RestKeepsFirst(egs: seq<seq<Entry>>, k: nat, start: int)
    requires k < |egs| && Play(Flatten(egs[..k + 1]), start, BLANK).first.Some?
    ensures Play(Flatten(egs), start, BLANK).first == Play(Flatten(egs[..k + 1]), start, BLANK).first
  {
    FlattenConcat(egs[..k + 1], egs[k + 1..]);
    assert egs == egs[..k + 1] + egs[k + 1..];
    PlayConcat(Flatten(egs[..k + 1]), Flatten(egs[k + 1..]), start, BLANK);
    LastPersists(Flatten(egs[k + 1..]), start, Play(Flatten(egs[..k + 1]), start, BLANK));
  }

  lemma {:induction false} FlattenConcat<T>(a: seq<seq<T>>, b: seq<seq<T>>)
    ensures Flatten(a + b) == Flatten(a) + Flatten(b)
  {
    if b == [] {
      assert a + b == a;
    } else {
      var init := b[..|b| - 1];
      assert (a + b)[..|a + b| - 1] == a + init;
      FlattenConcat(a, init);
    }
  }

  /** If the instant that decides has two prices, there are two histories that end with different ones. */
  lemma BacktestClashIsReal(trades: seq<Trade>, session: Session, refTime: int, m: ProviderCodeMap, k: nat)
    returns (es: seq<Entry>, fs: seq<Entry>)
    requires var gs := Groups(SortByTime(Between(trades, session.openAt, refTime)));
             IsLast(gs, k, m) && Clashes(gs, k, m)
    ensures var ts := Between(trades, session.openAt, refTime);
            History(es, ts, m) && History(fs, ts, m) && Play(es, refTime, BLANK).last != Play(fs, refTime, BLANK).last
  {
    hide Groups, SortByTime, Between, Play, History, Matters, Arranged, Flatten, Grouped;
    var ts := Between(trades, session.openAt, refTime);
    var gs := Groups(SortByTime(ts));
    SortedGroups(ts);
    var i, j := Clashing(gs, k, m);
    es := Flatten(Arranged(gs, k, ToEnd(gs[k], i), m));
    fs := Flatten(Arranged(gs, k, ToEnd(gs[k], j), m));
    PriceOfTheLast(gs, k, i, m, refTime);
    PriceOfTheLast(gs, k, j, m, refTime);
    SameHistory(es, Flatten(gs), ts, m);
    SameHistory(fs, Flatten(gs), ts, m);
  }

  /** Likewise for the first price after a halt. */
  lemma HaltClashIsReal(
    trades: seq<Trade>, tau: int, sessions: seq<Session>, m: ProviderCodeMap, k: nat, start: int)
    returns (es: seq<Entry>, fs: seq<Entry>)
    requires NextSession(sessions, tau).Some?
    requires var s := NextSession(sessions, tau).value;
             var gs := Groups(SortByTime(Between(trades, s.openAt, s.closeAt)));
             && start == (if tau >= s.openAt then tau else s.openAt)
             && IsFirst(gs, k, m, start) && Clashes(gs, k, m)
    ensures var s := NextSession(sessions, tau).value;
            var ts := Between(trades, s.openAt, s.closeAt);
            History(es, ts, m) && History(fs, ts, m) && Play(es, start, BLANK).first != Play(fs, start, BLANK).first
  {
    hide Groups, SortByTime, Between, Play, History, Matters, Arranged, Flatten, NextSession, Grouped;
    var s := NextSession(sessions, tau).value;
    var ts := Between(trades, s.openAt, s.closeAt);
    var gs := Groups(SortByTime(ts));
    SortedGroups(ts);
    var i, j := Clashing(gs, k, m);
    es := Flatten(Arranged(gs, k, ToFront(gs[k], i), m));
    fs := Flatten(Arranged(gs, k, ToFront(gs[k], j), m));
    PriceOfTheFirst(gs, k, i, m, start);
    PriceOfTheFirst(gs, k, j, m, start);
    SameHistory(es, Flatten(gs), ts, m);
    SameHistory(fs, Flatten(gs), ts, m);
  }

  /** Two trades that clash are both eligible outright. */
  lemma Clashing(gs: seq<seq<Trade>>, k: nat, m: ProviderCodeMap) returns (i: nat, j: nat)
    requires k < |gs| && Clashes(gs, k, m)
    ensures i < |gs[k]| && j < |gs[k]| && gs[k][i].price != gs[k][j].price
    ensures Eligibility0(gs[k][i], m) == ELIGIBLE && Eligibility0(gs[k][j], m) == ELIGIBLE
  {
    hide Eligibility0;
    i, j :| 0 <= i < |gs[k]| && 0 <= j < |gs[k]| && Meant(gs, k, i, m).QUALIFIES?
      && Meant(gs, k, j, m).QUALIFIES? && gs[k][i].price != gs[k][j].price;
    assert Contender(gs[k][i], m) && Contender(gs[k][j], m);
  }
}
