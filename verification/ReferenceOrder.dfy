/** Two order properties of reference resolution: learning more about the codes never changes a resolved
    price, and trades after the deciding one never matter. */
module ReferenceOrder {
  import opened Wrappers
  import opened TradeConditions
  import opened ReferenceRules

  // ----- information order

  lemma KindPersists(g: seq<Trade>, i: nat, m: ProviderCodeMap, n: ProviderCodeMap,
                     seenQ: bool, seenU: bool, seenQ': bool, seenU': bool)
    requires i < |g| && Refines(m, n)
    requires seenQ ==> seenQ'
    requires !seenQ && !seenU ==> !seenQ' && !seenU'
    ensures !KindOf(g, i, m, seenQ, seenU).UNKNOWN? ==>
              KindOf(g, i, n, seenQ', seenU') == KindOf(g, i, m, seenQ, seenU)
  {
    hide Eligible;
    forall j | 0 <= j < |g| && !Eligibility0(g[j], m).UNDECIDED?
      ensures Eligibility0(g[j], n) == Eligibility0(g[j], m)
    {
      EligibilityPersists(m, n, g[j].tape, g[j].conditions);
    }
  }

  /** Definite verdicts of vs are the verdicts of ws. */
  ghost predicate Refined(vs: seq<Verdict>, ws: seq<Verdict>) {
    && |vs| == |ws|
    && forall i | 0 <= i < |vs| :: vs[i].trade == ws[i].trade && (!vs[i].kind.UNKNOWN? ==> ws[i] == vs[i])
  }

  ghost predicate AllRefined(vgs: seq<seq<Verdict>>, wgs: seq<seq<Verdict>>) {
    |vgs| == |wgs| && forall k | 0 <= k < |vgs| :: Refined(vgs[k], wgs[k])
  }

  lemma NoUnknownMeansSame(vs: seq<Verdict>, ws: seq<Verdict>)
    requires Refined(vs, ws)
    ensures !SomeUnknown(vs) ==> ws == vs
    ensures SomeQualifies(vs) ==> SomeQualifies(ws)
  {
    forall i | 0 <= i < |vs| ensures vs[i] in vs && ws[i] in ws {}
    if SomeQualifies(vs) {
      var v :| v in vs && v.kind.QUALIFIES?;
      var i :| 0 <= i < |vs| && vs[i] == v;
      assert ws[i] == v;
    }
  }

  lemma SeenRefined(vgs: seq<seq<Verdict>>, wgs: seq<seq<Verdict>>)
    requires AllRefined(vgs, wgs)
    ensures SeenQualifying(vgs) ==> SeenQualifying(wgs)
    ensures !SeenQualifying(vgs) && !SeenUnknown(vgs) ==> !SeenQualifying(wgs) && !SeenUnknown(wgs)
  {
    hide SomeQualifies, SomeUnknown;
    forall k | 0 <= k < |vgs| ensures !SomeUnknown(vgs[k]) ==> wgs[k] == vgs[k]
      ensures SomeQualifies(vgs[k]) ==> SomeQualifies(wgs[k])
    {
      NoUnknownMeansSame(vgs[k], wgs[k]);
    }
  }

  /** Validating map entries only ever turns UNKNOWN verdicts into definite ones. */
  lemma {:induction false} VerdictsPersist(gs: seq<seq<Trade>>, m: ProviderCodeMap, n: ProviderCodeMap)
    requires Refines(m, n)
    ensures AllRefined(VerdictGroups(gs, m), VerdictGroups(gs, n))
  {
    if gs != [] {
      var last := |gs| - 1;
      VerdictsPersist(gs[..last], m, n);
      var v, w := VerdictGroups(gs[..last], m), VerdictGroups(gs[..last], n);
      SeenRefined(v, w);
      LastGroupRefined(gs[last], m, n, SeenQualifying(v), SeenUnknown(v), SeenQualifying(w), SeenUnknown(w));
    }
  }

  lemma LastGroupRefined(g: seq<Trade>, m: ProviderCodeMap, n: ProviderCodeMap,
                         seenQ: bool, seenU: bool, seenQ': bool, seenU': bool)
    requires Refines(m, n) && (seenQ ==> seenQ') && (!seenQ && !seenU ==> !seenQ' && !seenU')
    ensures Refined(GroupVerdicts(g, m, seenQ, seenU), GroupVerdicts(g, n, seenQ', seenU'))
  {
    hide KindOf;
    forall i | 0 <= i < |g|
      ensures !KindOf(g, i, m, seenQ, seenU).UNKNOWN? ==>
                KindOf(g, i, n, seenQ', seenU') == KindOf(g, i, m, seenQ, seenU)
    {
      KindPersists(g, i, m, n, seenQ, seenU, seenQ', seenU');
    }
  }

  lemma {:induction false} DecisionPersists(vgs: seq<seq<Verdict>>, wgs: seq<seq<Verdict>>)
    requires AllRefined(vgs, wgs)
    ensures Decide(vgs).None? || Decide(vgs).value.Resolved? ==> Decide(wgs) == Decide(vgs)
  {
    if vgs != [] {
      NoUnknownMeansSame(vgs[0], wgs[0]);
      assert forall k | 0 <= k < |vgs[1..]| :: vgs[1..][k] == vgs[k + 1] && wgs[1..][k] == wgs[k + 1];
      DecisionPersists(vgs[1..], wgs[1..]);
    }
  }

  lemma {:induction false} ReversedRefined(vgs: seq<seq<Verdict>>, wgs: seq<seq<Verdict>>)
    requires AllRefined(vgs, wgs)
    ensures AllRefined(Reversed(vgs), Reversed(wgs))
  {
    if vgs != [] {
      var v, w := vgs[..|vgs| - 1], wgs[..|vgs| - 1];
      ReversedRefined(v, w);
    }
  }

  lemma {:induction false} FromRefined(vgs: seq<seq<Verdict>>, wgs: seq<seq<Verdict>>, start: int)
    requires AllRefined(vgs, wgs)
    ensures AllRefined(From(vgs, start), From(wgs, start))
  {
    if vgs != [] {
      FromRefined(vgs[..|vgs| - 1], wgs[..|vgs| - 1], start);
      assert Refined(vgs[|vgs| - 1], wgs[|vgs| - 1]);
    }
  }

  /** A resolved price, and a definite absence of one, survive any validation of further codes. */
  lemma ValidationKeepsReferences(trades: seq<Trade>, session: Session, refTime: int, tau: int,
                                  sessions: seq<Session>, m: ProviderCodeMap, n: ProviderCodeMap)
    requires Refines(m, n)
    ensures ResolveBacktest(trades, session, refTime, m).Resolved? ==>
              ResolveBacktest(trades, session, refTime, n) == ResolveBacktest(trades, session, refTime, m)
    ensures ReconstructHalt(trades, tau, sessions, m).Resolved? ==>
              ReconstructHalt(trades, tau, sessions, n) == ReconstructHalt(trades, tau, sessions, m)
  {
    var gs := Groups(SortByTime(Between(trades, session.openAt, refTime)));
    VerdictsPersist(gs, m, n);
    ReversedRefined(VerdictGroups(gs, m), VerdictGroups(gs, n));
    DecisionPersists(Reversed(VerdictGroups(gs, m)), Reversed(VerdictGroups(gs, n)));
    HaltPersists(trades, tau, sessions, m, n);
  }

  lemma HaltPersists(trades: seq<Trade>, tau: int, sessions: seq<Session>, m: ProviderCodeMap, n: ProviderCodeMap)
    requires Refines(m, n)
    ensures ReconstructHalt(trades, tau, sessions, m).Resolved? ==>
              ReconstructHalt(trades, tau, sessions, n) == ReconstructHalt(trades, tau, sessions, m)
  {
    if NextSession(sessions, tau).Some? {
      var s := NextSession(sessions, tau).value;
      var start := if tau >= s.openAt then tau else s.openAt;
      var gs := Groups(SortByTime(Between(trades, s.openAt, s.closeAt)));
      VerdictsPersist(gs, m, n);
      FromRefined(VerdictGroups(gs, m), VerdictGroups(gs, n), start);
      DecisionPersists(From(VerdictGroups(gs, m), start), From(VerdictGroups(gs, n), start));
    }
  }

  // ----- causality

  lemma {:induction false} BetweenIsBounded(s: seq<Trade>, lo: int, hi: int)
    ensures forall x | x in Between(s, lo, hi) :: lo <= x.time <= hi && x in s
  {
    if s != [] { BetweenIsBounded(s[..|s| - 1], lo, hi); }
  }

  lemma {:induction false} BetweenNests(s: seq<Trade>, lo: int, mid: int, hi: int)
    requires mid <= hi
    ensures Between(Between(s, lo, hi), lo, mid) == Between(s, lo, mid)
  {
    if s != [] {
      var init, x := s[..|s| - 1], s[|s| - 1];
      BetweenNests(init, lo, mid, hi);
      if lo <= x.time <= hi {
        assert (Between(init, lo, hi) + [x])[..|Between(init, lo, hi)|] == Between(init, lo, hi);
      }
    }
  }

  lemma BetweenSnoc(s: seq<Trade>, x: Trade, lo: int, hi: int)
    ensures Between(s + [x], lo, hi) == if lo <= x.time <= hi then Between(s, lo, hi) + [x] else Between(s, lo, hi)
  {
    assert (s + [x])[..|s|] == s;
  }

  lemma {:induction false} InsertCommutesWithBetween(s: seq<Trade>, x: Trade, lo: int, hi: int)
    requires Sorted(s)
    ensures Between(Insert(s, x), lo, hi) ==
            if lo <= x.time <= hi then Insert(Between(s, lo, hi), x) else Between(s, lo, hi)
  {
    hide Between;
    BetweenIsBounded(s, lo, hi);
    if s == [] || s[|s| - 1].time <= x.time {
      BetweenSnoc(s, x, lo, hi);
      var b := Between(s, lo, hi);
      assert b != [] ==> b[|b| - 1] in b;
    } else {
      var init, y := s[..|s| - 1], s[|s| - 1];
      assert s == init + [y];
      InsertCommutesWithBetween(init, x, lo, hi);
      BetweenSnoc(Insert(init, x), y, lo, hi);
      BetweenSnoc(init, y, lo, hi);
      InsertBelow(Between(init, lo, hi), x, y);
      InsertBelow(init, x, y);
    }
  }

  lemma InsertBelow(b: seq<Trade>, x: Trade, y: Trade)
    requires x.time < y.time
    ensures Insert(b + [y], x) == Insert(b, x) + [y]
  {
    assert (b + [y])[..|b|] == b;
  }

  lemma {:induction false} SortCommutesWithBetween(s: seq<Trade>, lo: int, hi: int)
    ensures Between(SortByTime(s), lo, hi) == SortByTime(Between(s, lo, hi))
  {
    if s != [] {
      var init, x := s[..|s| - 1], s[|s| - 1];
      SortCommutesWithBetween(init, lo, hi);
      SortIsAStableOrder(init);
      InsertCommutesWithBetween(SortByTime(init), x, lo, hi);
      assert (Between(init, lo, hi) + [x])[..|Between(init, lo, hi)|] == Between(init, lo, hi);
    }
  }

  function Later(s: seq<Trade>, at: int): seq<Trade> {
    if s == [] then []
    else if s[|s| - 1].time > at then Later(s[..|s| - 1], at) + [s[|s| - 1]]
    else Later(s[..|s| - 1], at)
  }

  lemma {:induction false} LaterIsLater(s: seq<Trade>, at: int)
    ensures forall x | x in Later(s, at) :: x.time > at
    ensures (forall x | x in s :: x.time <= at) ==> Later(s, at) == []
  {
    if s != [] { LaterIsLater(s[..|s| - 1], at); }
  }

  lemma {:induction false} SortedSplits(s: seq<Trade>, lo: int, at: int)
    requires Sorted(s) && forall x | x in s :: lo <= x.time
    ensures s == Between(s, lo, at) + Later(s, at)
  {
    if s != [] {
      var init, x := s[..|s| - 1], s[|s| - 1];
      assert s == init + [x] && x in s;
      SortedSplits(init, lo, at);
      LaterIsLater(init, at);
      if x.time <= at {
        assert Later(init, at) == [];
        assert Between(init, lo, at) == init;
      }
    }
  }

  /** gs starts with ga, and every further group is strictly later than the instant. */
  ghost predicate Extends(gs: seq<seq<Trade>>, ga: seq<seq<Trade>>, at: int) {
    && |ga| <= |gs| && gs[..|ga|] == ga
    && forall k | |ga| <= k < |gs| :: gs[k] != [] && gs[k][0].time > at
  }

  lemma GrowExtends(gs: seq<seq<Trade>>, ga: seq<seq<Trade>>, x: Trade, at: int)
    requires Extends(gs, ga, at) && x.time > at
    requires forall k | 0 <= k < |ga| :: ga[k] != [] && ga[k][0].time <= at
    ensures Extends(Grow(gs, x), ga, at)
  {
    if |gs| == |ga| { assert gs == ga; }
    var next := Grow(gs, x);
    assert forall k | 0 <= k < |gs| - 1 :: next[k] == gs[k];
    if |ga| < |gs| {
      assert next[..|ga|] == gs[..|ga|];
    }
  }

  /** Groups of a longer sequence whose extra trades are strictly later start with the same groups. */
  lemma {:induction false} GroupsOfPrefix(a: seq<Trade>, b: seq<Trade>, at: int)
    requires forall k | 0 <= k < |Groups(a)| :: Groups(a)[k] != [] && Groups(a)[k][0].time <= at
    requires forall x | x in b :: x.time > at
    ensures Extends(Groups(a + b), Groups(a), at)
  {
    hide Grow;
    if b == [] {
      assert a + b == a;
    } else {
      var init := b[..|b| - 1];
      assert (a + b)[..|a + b| - 1] == a + init;
      GroupsOfPrefix(a, init, at);
      assert b[|b| - 1] in b;
      GrowExtends(Groups(a + init), Groups(a), b[|b| - 1], at);
    }
  }

  lemma {:induction false} GroupsAreEarly(a: seq<Trade>, at: int)
    requires forall x | x in a :: x.time <= at
    ensures forall k | 0 <= k < |Groups(a)| :: Groups(a)[k] != [] && Groups(a)[k][0].time <= at
  {
    hide Grow;
    if a != [] {
      GroupsAreEarly(a[..|a| - 1], at);
      GrowIsEarly(Groups(a[..|a| - 1]), a[|a| - 1], at);
    }
  }

  lemma GrowIsEarly(gs: seq<seq<Trade>>, x: Trade, at: int)
    requires x.time <= at && forall k | 0 <= k < |gs| :: gs[k] != [] && gs[k][0].time <= at
    ensures forall k | 0 <= k < |Grow(gs, x)| :: Grow(gs, x)[k] != [] && Grow(gs, x)[k][0].time <= at
  {
  }

  lemma {:induction false} VerdictsOfPrefix(gs: seq<seq<Trade>>, k: nat, m: ProviderCodeMap)
    requires k <= |gs|
    ensures VerdictGroups(gs, m)[..k] == VerdictGroups(gs[..k], m)
    decreases |gs|
  {
    hide GroupVerdicts;
    if k < |gs| {
      VerdictsOfPrefix(gs[..|gs| - 1], k, m);
      assert gs[..|gs| - 1][..k] == gs[..k];
    } else {
      assert gs[..k] == gs;
    }
  }

  lemma {:induction false} FromConcat(a: seq<seq<Verdict>>, b: seq<seq<Verdict>>, start: int)
    ensures From(a + b, start) == From(a, start) + From(b, start)
  {
    if b == [] {
      assert a + b == a;
    } else {
      assert (a + b)[..|a + b| - 1] == a + b[..|b| - 1];
      FromConcat(a, b[..|b| - 1], start);
    }
  }

  lemma {:induction false} DecideConcat(a: seq<seq<Verdict>>, b: seq<seq<Verdict>>)
    ensures Decide(a + b) == if Decide(a).Some? then Decide(a) else Decide(b)
  {
    hide GroupDecision;
    if a == [] {
      assert a + b == b;
    } else {
      assert (a + b)[1..] == a[1..] + b;
      DecideConcat(a[1..], b);
    }
  }

  lemma {:induction false} DecidedIsLate(vgs: seq<seq<Verdict>>, start: int, at: int)
    requires forall vs, v | vs in vgs && v in vs :: v.trade.time > at
    ensures Decide(From(vgs, start)).Some? && Decide(From(vgs, start)).value.Resolved? ==>
              Decide(From(vgs, start)).value.tradeTime > at
  {
    hide SeveralPrices;
    if vgs != [] {
      var init, vs := vgs[..|vgs| - 1], vgs[|vgs| - 1];
      DecidedIsLate(init, start, at);
      FromConcat(init, [vs], start);
      assert vgs == init + [vs];
      DecideConcat(From(init, start), From([vs], start));
      assert vs in vgs;
    }
  }

  /** The decision on a session's trades, cut off after an instant. */
  function DecisionThrough(trades: seq<Trade>, s: Session, at: int, start: int, m: ProviderCodeMap): Option<Reference> {
    Decide(From(SessionVerdicts(Between(trades, s.openAt, at), m), start))
  }

  /** A price resolved at an instant is already resolved by the trades up to that instant, and a price
      those trades resolve is never taken back. */
  lemma DecisionIsCausal(trades: seq<Trade>, s: Session, start: int, at: int, m: ProviderCodeMap)
    requires at <= s.closeAt
    ensures var full := DecisionThrough(trades, s, s.closeAt, start, m);
            var cut := DecisionThrough(trades, s, at, start, m);
            && (cut.Some? ==> full == cut)
            && (full.Some? && full.value.Resolved? && full.value.tradeTime <= at ==> cut == full)
  {
    var all := Between(trades, s.openAt, s.closeAt);
    var sorted := SortByTime(all);
    SortIsAStableOrder(all);
    BetweenIsBounded(trades, s.openAt, s.closeAt);
    forall x | x in sorted ensures s.openAt <= x.time { assert x in multiset(all); }
    var early := Between(sorted, s.openAt, at);
    SortedSplits(sorted, s.openAt, at);
    LaterIsLater(sorted, at);
    BetweenIsBounded(sorted, s.openAt, at);
    SortCommutesWithBetween(all, s.openAt, at);
    BetweenNests(trades, s.openAt, at, s.closeAt);
    SortIsAStableOrder(Between(trades, s.openAt, at));
    CutVerdicts(early, Later(sorted, at), at, start, m);
  }

  lemma CutVerdicts(early: seq<Trade>, late: seq<Trade>, at: int, start: int, m: ProviderCodeMap)
    requires Sorted(early) && Sorted(early + late)
    requires forall x | x in early :: x.time <= at
    requires forall x | x in late :: x.time > at
    ensures var full := Decide(From(VerdictGroups(Groups(early + late), m), start));
            var cut := Decide(From(VerdictGroups(Groups(early), m), start));
            && (cut.Some? ==> full == cut)
            && (full.Some? && full.value.Resolved? && full.value.tradeTime <= at ==> cut == full)
  {
    hide Groups, VerdictGroups, Decide, From;
    var gs := Groups(early + late);
    var n := |Groups(early)|;
    GroupsAreEarly(early, at);
    GroupsOfPrefix(early, late, at);
    GroupsAreGrouped(early + late);
    VerdictsOfPrefix(gs, n, m);
    var vgs := VerdictGroups(gs, m);
    assert vgs == vgs[..n] + vgs[n..];
    FromConcat(vgs[..n], vgs[n..], start);
    DecideConcat(From(vgs[..n], start), From(vgs[n..], start));
    LateVerdicts(gs, n, m, at);
    DecidedIsLate(vgs[n..], start, at);
  }

  lemma LateVerdicts(gs: seq<seq<Trade>>, n: nat, m: ProviderCodeMap, at: int)
    requires Grouped(gs) && n <= |gs|
    requires forall k | n <= k < |gs| :: gs[k][0].time > at
    ensures forall vs, v: Verdict | vs in VerdictGroups(gs, m)[n..] && v in vs :: v.trade.time > at
  {
    hide VerdictGroups;
    var vgs := VerdictGroups(gs, m);
    forall vs: seq<Verdict>, v: Verdict | vs in vgs[n..] && v in vs ensures v.trade.time > at {
      var k :| n <= k < |vgs| && vgs[k] == vs;
      var i :| 0 <= i < |vs| && vs[i] == v;
      assert v.trade == gs[k][i];
      assert OneInstant(gs[k]);
      assert gs[k][i] in gs[k];
    }
  }

  /** A resolved halt reference depends only on the trades up to its own trade: any other session history
      that agrees up to that instant resolves to the same reference. */
  lemma LaterTradesNeverMatter(
    trades: seq<Trade>, other: seq<Trade>, tau: int, sessions: seq<Session>, m: ProviderCodeMap)
    requires ReconstructHalt(trades, tau, sessions, m).Resolved?
    requires NextSession(sessions, tau).Some? ==>
               var open := NextSession(sessions, tau).value.openAt;
               var at := ReconstructHalt(trades, tau, sessions, m).tradeTime;
               Between(trades, open, at) == Between(other, open, at)
    ensures ReconstructHalt(other, tau, sessions, m) == ReconstructHalt(trades, tau, sessions, m)
  {
    var s := NextSession(sessions, tau).value;
    var start := if tau >= s.openAt then tau else s.openAt;
    var at := ReconstructHalt(trades, tau, sessions, m).tradeTime;
    DecidedInSession(trades, s, start, m);
    DecisionIsCausal(trades, s, start, at, m);
    DecisionIsCausal(other, s, start, at, m);
  }

  lemma {:induction false} DecidedIsAVerdict(vgs: seq<seq<Verdict>>, bound: int)
    requires forall vs, v | vs in vgs && v in vs :: v.trade.time <= bound
    ensures Decide(vgs).Some? && Decide(vgs).value.Resolved? ==> Decide(vgs).value.tradeTime <= bound
  {
    hide SeveralPrices;
    if vgs != [] {
      assert vgs[0] in vgs;
      DecidedIsAVerdict(vgs[1..], bound);
    }
  }

  lemma DecidedInSession(trades: seq<Trade>, s: Session, start: int, m: ProviderCodeMap)
    ensures var d := DecisionThrough(trades, s, s.closeAt, start, m);
            d.Some? && d.value.Resolved? ==> d.value.tradeTime <= s.closeAt
  {
    var all := Between(trades, s.openAt, s.closeAt);
    var gs := Groups(SortByTime(all));
    BetweenIsBounded(trades, s.openAt, s.closeAt);
    SortIsAStableOrder(all);
    GroupsFlatten(SortByTime(all));
    var vgs := VerdictGroups(gs, m);
    forall vs: seq<Verdict>, v: Verdict | vs in From(vgs, start) && v in vs ensures v.trade.time <= s.closeAt {
      FromKeepsMembers(vgs, start, vs);
      var k :| 0 <= k < |vgs| && vgs[k] == vs;
      var i :| 0 <= i < |vs| && vs[i] == v;
      InFlattened(gs, k, i);
      assert gs[k][i] in multiset(all);
    }
    DecidedIsAVerdict(From(vgs, start), s.closeAt);
  }

  lemma {:induction false} FromKeepsMembers(vgs: seq<seq<Verdict>>, start: int, vs: seq<Verdict>)
    requires vs in From(vgs, start)
    ensures vs in vgs
  {
    if vgs != [] && vs in From(vgs[..|vgs| - 1], start) { FromKeepsMembers(vgs[..|vgs| - 1], start, vs); }
  }

  lemma {:induction false} InFlattened(gs: seq<seq<Trade>>, k: nat, i: nat)
    requires k < |gs| && i < |gs[k]|
    ensures gs[k][i] in Flatten(gs)
  {
    if k < |gs| - 1 { InFlattened(gs[..|gs| - 1], k, i); }
  }
}
