/** Which trade of a session gives the reference price. Some conditions count only for the first trade that
    sets the price, trades may share an instant, and some conditions cannot be read, so the answer has three
    values. */
module ReferenceRules {
  import opened Wrappers
  import opened TradeConditions

  datatype Trade = Trade(time: int, price: real, tape: Tape, conditions: seq<string>, tradeId: Option<string>)

  datatype Session = Session(openAt: int, closeAt: int)

  datatype Kind = QUALIFIES | NOT | UNKNOWN(reason: RefReason)

  datatype Verdict = Verdict(trade: Trade, kind: Kind)

  datatype Reference = Resolved(price: real, tradeTime: int) | Unresolved(reason: RefReason)

  function Eligibility0(t: Trade, m: ProviderCodeMap): Eligibility { Eligible(m, t.tape, t.conditions) }

  // ----- ordering and grouping

  predicate Sorted(s: seq<Trade>) { forall i, j | 0 <= i < j < |s| :: s[i].time <= s[j].time }

  /** Insert after every trade that is not later: a stable sort by time. */
  function Insert(s: seq<Trade>, x: Trade): seq<Trade> {
    if s == [] || s[|s| - 1].time <= x.time then s + [x] else Insert(s[..|s| - 1], x) + [s[|s| - 1]]
  }

  function SortByTime(s: seq<Trade>): seq<Trade> {
    if s == [] then [] else Insert(SortByTime(s[..|s| - 1]), s[|s| - 1])
  }

  /** Put x in the last run if it shares its time, else open a new run. */
  function Grow(gs: seq<seq<Trade>>, x: Trade): seq<seq<Trade>> {
    if gs != [] && gs[|gs| - 1] != [] && gs[|gs| - 1][0].time == x.time
    then gs[..|gs| - 1] + [gs[|gs| - 1] + [x]]
    else gs + [[x]]
  }

  /** Runs of equal time, as itertools.groupby splits a sequence. */
  function Groups(s: seq<Trade>): seq<seq<Trade>> {
    if s == [] then [] else Grow(Groups(s[..|s| - 1]), s[|s| - 1])
  }

  ghost predicate OneInstant(g: seq<Trade>) { g != [] && forall t | t in g :: t.time == g[0].time }

  /** Nonempty groups of one instant each, at strictly increasing instants. */
  ghost predicate Grouped(gs: seq<seq<Trade>>) {
    && (forall k | 0 <= k < |gs| :: OneInstant(gs[k]))
    && (forall k, l | 0 <= k < l < |gs| :: gs[k][0].time < gs[l][0].time)
  }

  lemma {:induction false} InsertMultiset(s: seq<Trade>, x: Trade)
    ensures multiset(Insert(s, x)) == multiset(s) + multiset{x}
  {
    if s != [] && s[|s| - 1].time > x.time {
      InsertMultiset(s[..|s| - 1], x);
      assert s == s[..|s| - 1] + [s[|s| - 1]];
    }
  }

  lemma {:induction false} InsertSorted(s: seq<Trade>, x: Trade)
    requires Sorted(s)
    ensures Sorted(Insert(s, x))
    ensures forall y | y in Insert(s, x) :: y == x || y in s
  {
    if s != [] && s[|s| - 1].time > x.time {
      var init, last := s[..|s| - 1], s[|s| - 1];
      InsertSorted(init, x);
      var rest := Insert(init, x);
      forall i | 0 <= i < |rest| ensures rest[i].time <= last.time {
        assert rest[i] in rest;
      }
    }
  }

  lemma InsertKeeps(s: seq<Trade>, x: Trade)
    requires Sorted(s)
    ensures Sorted(Insert(s, x)) && multiset(Insert(s, x)) == multiset(s) + multiset{x}
  {
    InsertSorted(s, x);
    InsertMultiset(s, x);
  }

  lemma NothingIsSorted()
    ensures Sorted([])
  {
  }

  lemma {:induction false} SortIsAStableOrder(s: seq<Trade>)
    ensures Sorted(SortByTime(s)) && multiset(SortByTime(s)) == multiset(s)
  {
    hide Insert, Sorted;
    if s == [] {
      assert Sorted([]) by { NothingIsSorted(); }
    } else {
      SortIsAStableOrder(s[..|s| - 1]);
      InsertKeeps(SortByTime(s[..|s| - 1]), s[|s| - 1]);
      assert s == s[..|s| - 1] + [s[|s| - 1]];
    }
  }

  /** The instant of the last group. */
  predicate EndsAt(gs: seq<seq<Trade>>, at: int) { gs != [] && gs[|gs| - 1] != [] && gs[|gs| - 1][0].time == at }

  lemma {:induction false} GroupsAreGrouped(s: seq<Trade>)
    requires Sorted(s)
    ensures Grouped(Groups(s))
    ensures if s == [] then Groups(s) == [] else EndsAt(Groups(s), s[|s| - 1].time)
  {
    hide Grouped, EndsAt, Grow;
    if s == [] {
      NoGroups();
    } else {
      var n := |s| - 1;
      GroupsAreGrouped(s[..n]);
      assert n > 0 ==> s[..n][n - 1] == s[n - 1] && s[n - 1].time <= s[n].time;
      GrownIsGrouped(Groups(s[..n]), if n > 0 then s[n - 1].time else 0, s[n]);
    }
  }

  lemma NoGroups()
    ensures Grouped([])
  {
  }

  lemma GrownIsGrouped(gs: seq<seq<Trade>>, at: int, x: Trade)
    requires Grouped(gs) && (gs == [] || (EndsAt(gs, at) && at <= x.time))
    ensures Grouped(Grow(gs, x)) && EndsAt(Grow(gs, x), x.time)
  {
    if gs != [] {
      if at == x.time { LongerLastGroup(gs, x); } else { NewLastGroup(gs, x); }
    }
  }

  lemma LongerLastGroup(gs: seq<seq<Trade>>, x: Trade)
    requires Grouped(gs) && gs != [] && gs[|gs| - 1][0].time == x.time
    ensures Grouped(gs[..|gs| - 1] + [gs[|gs| - 1] + [x]])
  {
    var g := gs[|gs| - 1] + [x];
    assert OneInstant(g);
    var all := gs[..|gs| - 1] + [g];
    assert forall k | 0 <= k < |gs| :: all[k] == if k < |gs| - 1 then gs[k] else g;
  }

  lemma NewLastGroup(gs: seq<seq<Trade>>, x: Trade)
    requires Grouped(gs) && gs != [] && gs[|gs| - 1][0].time < x.time
    ensures Grouped(gs + [[x]])
  {
    var all := gs + [[x]];
    assert forall k | 0 <= k < |gs| :: all[k] == gs[k];
    assert all[|gs|] == [x];
  }

  function Flatten<T>(gs: seq<seq<T>>): seq<T> { if gs == [] then [] else Flatten(gs[..|gs| - 1]) + gs[|gs| - 1] }

  lemma FlattenSnoc<T>(gs: seq<seq<T>>, g: seq<T>)
    ensures Flatten(gs + [g]) == Flatten(gs) + g
  {
    assert (gs + [g])[..|gs|] == gs;
  }

  lemma {:induction false} GroupsFlatten(s: seq<Trade>)
    ensures Flatten(Groups(s)) == s
  {
    if s != [] {
      var x := s[|s| - 1];
      GroupsFlatten(s[..|s| - 1]);
      GrowFlatten(Groups(s[..|s| - 1]), x);
      assert s == s[..|s| - 1] + [x];
    }
  }

  lemma GrowFlatten(gs: seq<seq<Trade>>, x: Trade)
    ensures Flatten(Grow(gs, x)) == Flatten(gs) + [x]
  {
    if gs != [] && gs[|gs| - 1] != [] && gs[|gs| - 1][0].time == x.time {
      var a: seq<seq<Trade>> := gs[..|gs| - 1];
      var b := gs[|gs| - 1];
      FlattenSnoc(a, b + [x]);
      FlattenSnoc(a, b);
      assert gs == a + [b];
      assert Flatten(a) + (b + [x]) == (Flatten(a) + b) + [x];
    } else {
      FlattenSnoc(gs, [x]);
    }
  }

  // ----- verdicts

  predicate SomeQualifies(vs: seq<Verdict>) { exists v | v in vs :: v.kind.QUALIFIES? }

  predicate SomeUnknown(vs: seq<Verdict>) { exists v | v in vs :: v.kind.UNKNOWN? }

  predicate SeenQualifying(vgs: seq<seq<Verdict>>) { exists k | 0 <= k < |vgs| :: SomeQualifies(vgs[k]) }

  predicate SeenUnknown(vgs: seq<seq<Verdict>>) { exists k | 0 <= k < |vgs| :: SomeUnknown(vgs[k]) }

  /** Another trade of the same instant might also update the last price. */
  predicate Tied(g: seq<Trade>, i: nat, m: ProviderCodeMap) {
    exists j | 0 <= j < |g| && j != i :: Eligibility0(g[j], m) != INELIGIBLE
  }

  function KindOf(g: seq<Trade>, i: nat, m: ProviderCodeMap, seenQ: bool, seenU: bool): Kind
    requires i < |g|
  {
    match Eligibility0(g[i], m)
    case ELIGIBLE => QUALIFIES
    case INELIGIBLE => NOT
    case UNDECIDED(reason) => UNKNOWN(reason)
    case CONDITIONAL(note3) =>
      if seenQ then (if note3 then UNKNOWN(UNKNOWN_CONDITION) else NOT)
      else if Tied(g, i, m) then UNKNOWN(AMBIGUOUS_ORDER)
      else if seenU then UNKNOWN(UNKNOWN_CONDITION)
      else QUALIFIES
  }

  function GroupVerdicts(g: seq<Trade>, m: ProviderCodeMap, seenQ: bool, seenU: bool): (vs: seq<Verdict>)
    ensures |vs| == |g|
    ensures forall i | 0 <= i < |g| :: vs[i] == Verdict(g[i], KindOf(g, i, m, seenQ, seenU))
  {
    seq(|g|, i requires 0 <= i < |g| => Verdict(g[i], KindOf(g, i, m, seenQ, seenU)))
  }

  /** The verdicts of every group, each judged against the groups before it. */
  function VerdictGroups(gs: seq<seq<Trade>>, m: ProviderCodeMap): (vgs: seq<seq<Verdict>>)
    ensures |vgs| == |gs|
    ensures forall k | 0 <= k < |gs| :: |vgs[k]| == |gs[k]|
    ensures forall k, i | 0 <= k < |gs| && 0 <= i < |gs[k]| :: vgs[k][i].trade == gs[k][i]
  {
    if gs == [] then []
    else
      var before := VerdictGroups(gs[..|gs| - 1], m);
      before + [GroupVerdicts(gs[|gs| - 1], m, SeenQualifying(before), SeenUnknown(before))]
  }

  function SessionVerdicts(trades: seq<Trade>, m: ProviderCodeMap): seq<seq<Verdict>> {
    VerdictGroups(Groups(SortByTime(trades)), m)
  }

  /** The loop with its two flags and its flat output list, group by group. */
  method SequenceVerdicts(trades: seq<Trade>, m: ProviderCodeMap) returns (out: seq<Verdict>)
    ensures out == Flatten(SessionVerdicts(trades, m))
  {
    hide VerdictGroups, GroupVerdicts, SomeQualifies, SomeUnknown;
    var ordered := SortByTime(trades);
    var groups := Groups(ordered);
    out := [];
    NoGroupYet(groups, m);
    var seenQualifying, seenUnknown := false, false;
    for k := 0 to |groups|
      invariant out == Flatten(VerdictGroups(groups[..k], m))
      invariant seenQualifying == SeenQualifying(VerdictGroups(groups[..k], m))
      invariant seenUnknown == SeenUnknown(VerdictGroups(groups[..k], m))
    {
      var verdicts := JudgeGroup(groups[k], m, seenQualifying, seenUnknown);
      OneMoreGroup(groups, k, m, verdicts);
      seenQualifying := seenQualifying || SomeQualifies(verdicts);
      seenUnknown := seenUnknown || SomeUnknown(verdicts);
      out := out + verdicts;
    }
    assert groups[..|groups|] == groups;
  }

  lemma NoGroupYet(gs: seq<seq<Trade>>, m: ProviderCodeMap)
    ensures VerdictGroups(gs[..0], m) == []
  {
  }

  lemma OneMoreGroup(gs: seq<seq<Trade>>, k: nat, m: ProviderCodeMap, vs: seq<Verdict>)
    requires k < |gs|
    requires vs == GroupVerdicts(gs[k], m, SeenQualifying(VerdictGroups(gs[..k], m)),
              SeenUnknown(VerdictGroups(gs[..k], m)))
    ensures VerdictGroups(gs[..k + 1], m) == VerdictGroups(gs[..k], m) + [vs]
    ensures Flatten(VerdictGroups(gs[..k + 1], m)) == Flatten(VerdictGroups(gs[..k], m)) + vs
    ensures SeenQualifying(VerdictGroups(gs[..k + 1], m))
            == (SeenQualifying(VerdictGroups(gs[..k], m)) || SomeQualifies(vs))
    ensures SeenUnknown(VerdictGroups(gs[..k + 1], m)) == (SeenUnknown(VerdictGroups(gs[..k], m)) || SomeUnknown(vs))
  {
    hide Eligible, GroupVerdicts;
    assert gs[..k + 1][..k] == gs[..k];
    SeenSnoc(VerdictGroups(gs[..k], m), vs);
  }

  lemma SeenSnoc(vgs: seq<seq<Verdict>>, vs: seq<Verdict>)
    ensures SeenQualifying(vgs + [vs]) == (SeenQualifying(vgs) || SomeQualifies(vs))
    ensures SeenUnknown(vgs + [vs]) == (SeenUnknown(vgs) || SomeUnknown(vs))
    ensures Flatten(vgs + [vs]) == Flatten(vgs) + vs
  {
    hide SomeQualifies, SomeUnknown;
    var all := vgs + [vs];
    assert all[..|vgs|] == vgs && all[|vgs|] == vs;
    assert forall k | 0 <= k < |vgs| :: all[k] == vgs[k];
  }

  method JudgeGroup(group: seq<Trade>, m: ProviderCodeMap, seenQualifying: bool, seenUnknown: bool)
    returns (verdicts: seq<Verdict>)
    ensures verdicts == GroupVerdicts(group, m, seenQualifying, seenUnknown)
  {
    hide Eligible;
    verdicts := [];
    for i := 0 to |group|
      invariant |verdicts| == i
      invariant forall j | 0 <= j < i ::
                verdicts[j] == Verdict(group[j], KindOf(group, j, m, seenQualifying, seenUnknown))
    {
      var kind: Kind;
      match Eligibility0(group[i], m) {
        case ELIGIBLE => kind := QUALIFIES;
        case INELIGIBLE => kind := NOT;
        case UNDECIDED(reason) => kind := UNKNOWN(reason);
        case CONDITIONAL(note3) =>
          var tied := AnyOtherContender(group, i, m);
          if seenQualifying {
            kind := if note3 then UNKNOWN(UNKNOWN_CONDITION) else NOT;
          } else if tied {
            kind := UNKNOWN(AMBIGUOUS_ORDER);
          } else if seenUnknown {
            kind := UNKNOWN(UNKNOWN_CONDITION);
          } else {
            kind := QUALIFIES;
          }
      }
      verdicts := verdicts + [Verdict(group[i], kind)];
    }
  }

  method AnyOtherContender(group: seq<Trade>, i: nat, m: ProviderCodeMap) returns (tied: bool)
    ensures tied == Tied(group, i, m)
  {
    hide Eligible;
    tied := false;
    for j := 0 to |group|
      invariant tied == exists k | 0 <= k < j && k != i :: Eligibility0(group[k], m) != INELIGIBLE
    {
      if j != i && Eligibility0(group[j], m) != INELIGIBLE {
        tied := true;
      }
    }
  }

  // ----- resolution

  /** What one group settles: nothing, an undecided result, or a price. */
  function GroupDecision(vs: seq<Verdict>): Option<Reference> {
    if SomeUnknown(vs) then Some(Unresolved(FirstUnknown(vs)))
    else if !SomeQualifies(vs) then None
    else if SeveralPrices(vs) then Some(Unresolved(AMBIGUOUS_ORDER))
    else Some(Resolved(FirstQualifying(vs).price, FirstQualifying(vs).time))
  }

  predicate SeveralPrices(vs: seq<Verdict>) {
    exists v, w | v in vs && w in vs && v.kind.QUALIFIES? && w.kind.QUALIFIES? :: v.trade.price != w.trade.price
  }

  function FirstUnknown(vs: seq<Verdict>): RefReason
    requires SomeUnknown(vs)
  {
    if vs[0].kind.UNKNOWN? then vs[0].kind.reason else FirstUnknown(vs[1..])
  }

  function FirstQualifying(vs: seq<Verdict>): (t: Trade)
    requires SomeQualifies(vs)
    ensures Verdict(t, QUALIFIES) in vs
  {
    if vs[0].kind.QUALIFIES? then vs[0].trade else FirstQualifying(vs[1..])
  }

  /** The earliest listed group that settles the matter, one way or as undecided. */
  function Decide(vgs: seq<seq<Verdict>>): Option<Reference> {
    if vgs == [] then None
    else if GroupDecision(vgs[0]).Some? then GroupDecision(vgs[0])
    else Decide(vgs[1..])
  }

  function OrNoTrade(d: Option<Reference>): Reference { if d.Some? then d.value else Unresolved(NO_ELIGIBLE_TRADE) }

  function Reversed<T>(s: seq<T>): (r: seq<T>)
    ensures |r| == |s|
  {
    if s == [] then [] else [s[|s| - 1]] + Reversed(s[..|s| - 1])
  }

  function Between(trades: seq<Trade>, lo: int, hi: int): seq<Trade> {
    if trades == [] then []
    else
      var init, x := Between(trades[..|trades| - 1], lo, hi), trades[|trades| - 1];
      if lo <= x.time <= hi then init + [x] else init
  }

  /** Latest eligible regular-session trade at or before refTime. */
  function ResolveBacktest(trades: seq<Trade>, session: Session, refTime: int, m: ProviderCodeMap): Reference {
    if !(session.openAt <= refTime <= session.closeAt) then Unresolved(NO_ELIGIBLE_TRADE)
    else OrNoTrade(Decide(Reversed(SessionVerdicts(Between(trades, session.openAt, refTime), m))))
  }

  /** Of the sessions still open or to come at tau the one that opens first; ties go to the list order. */
  function NextSession(sessions: seq<Session>, tau: int): (r: Option<Session>)
    ensures r.None? <==> forall s | s in sessions :: s.closeAt <= tau
    ensures r.Some? ==> r.value in sessions && r.value.closeAt > tau
    ensures r.Some? ==> forall s | s in sessions && s.closeAt > tau :: r.value.openAt <= s.openAt
  {
    if sessions == [] then None
    else
      var best, s := NextSession(sessions[..|sessions| - 1], tau), sessions[|sessions| - 1];
      if s.closeAt > tau && (best.None? || s.openAt < best.value.openAt) then Some(s) else best
  }

  /** The groups at or after the start instant. */
  function From(vgs: seq<seq<Verdict>>, start: int): seq<seq<Verdict>> {
    if vgs == [] then []
    else
      var init, vs := From(vgs[..|vgs| - 1], start), vgs[|vgs| - 1];
      if vs != [] && vs[0].trade.time >= start then init + [vs] else init
  }

  /** The reference for a halt at tau, looked for in the session that follows or contains it. */
  function ReconstructHalt(trades: seq<Trade>, tau: int, sessions: seq<Session>, m: ProviderCodeMap): Reference {
    match NextSession(sessions, tau)
    case None => Unresolved(CALENDAR_UNCOVERED)
    case Some(s) =>
      var start := if tau >= s.openAt then tau else s.openAt;
      OrNoTrade(Decide(From(SessionVerdicts(Between(trades, s.openAt, s.closeAt), m), start)))
  }

  // ----- the two-valued consolidated-last machine

  /** One trade of a completed history: what its conditions really mean, and whether a sold-last trade
      that is not first was printed by the listing market. */
  datatype Entry = Entry(trade: Trade, truth: Definite, listed: bool)

  /** The last price in force and the first price set at or after an instant. */
  datatype Tape2 = Tape2(last: Option<real>, first: Option<real>)

  predicate Sets(e: Entry, seen: bool) {
    match e.truth
    case Qualifies => true
    case Disqualified => false
    case IfFirst => !seen
    case IfFirstOrListed => !seen || e.listed
  }

  function Print(t: Tape2, e: Entry, start: int): Tape2 {
    if !Sets(e, t.last.Some?) then t
    else Tape2(Some(e.trade.price), if t.first.None? && e.trade.time >= start then Some(e.trade.price) else t.first)
  }

  function Play(es: seq<Entry>, start: int, t: Tape2): Tape2 {
    if es == [] then t else Print(Play(es[..|es| - 1], start, t), es[|es| - 1], start)
  }

  const BLANK: Tape2 := Tape2(None, None)

  function TradesOf(es: seq<Entry>): (ts: seq<Trade>)
    ensures |ts| == |es| && forall i | 0 <= i < |es| :: ts[i] == es[i].trade
  {
    seq(|es|, i requires 0 <= i < |es| => es[i].trade)
  }

  /** A completion of one instant: its trades in any order, each with a truth its conditions allow. */
  ghost predicate CompletesGroup(eg: seq<Entry>, g: seq<Trade>, m: ProviderCodeMap) {
    && multiset(TradesOf(eg)) == multiset(g)
    && forall e | e in eg :: Possible(Eligibility0(e.trade, m), e.truth)
  }

  ghost predicate Completes(egs: seq<seq<Entry>>, gs: seq<seq<Trade>>, m: ProviderCodeMap) {
    |egs| == |gs| && forall k | 0 <= k < |gs| :: CompletesGroup(egs[k], gs[k], m)
  }

  /** A completed history of a set of trades: any time order, ties in any order, any allowed truths. */
  ghost predicate History(es: seq<Entry>, trades: seq<Trade>, m: ProviderCodeMap) {
    && multiset(TradesOf(es)) == multiset(trades)
    && Sorted(TradesOf(es))
    && forall e | e in es :: Possible(Eligibility0(e.trade, m), e.truth)
  }
}
