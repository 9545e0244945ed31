/** A resolved reference price is the price the two-valued consolidated-last machine shows, whatever the
    unreadable codes mean, however ties are ordered and whatever the listing market knew. */
module ReferenceSoundness {
  import opened Wrappers
  import opened TradeConditions
  import opened ReferenceRules

  // ----- playing a history

  lemma {:induction false} PlayConcat(a: seq<Entry>, b: seq<Entry>, start: int, t: Tape2)
    ensures Play(a + b, start, t) == Play(b, start, Play(a, start, t))
  {
    if b == [] {
      assert a + b == a;
    } else {
      PlayConcat(a, b[..|b| - 1], start, t);
      assert (a + b)[..|a + b| - 1] == a + b[..|b| - 1];
    }
  }

  lemma {:induction false} LastPersists(es: seq<Entry>, start: int, t: Tape2)
    ensures t.last.Some? ==> Play(es, start, t).last.Some?
    ensures t.first.Some? ==> Play(es, start, t).first == t.first
  {
    if es != [] { LastPersists(es[..|es| - 1], start, t); }
  }

  lemma {:induction false} DisqualifiedSetNothing(es: seq<Entry>, start: int, t: Tape2)
    requires forall e | e in es :: e.truth == Disqualified
    ensures Play(es, start, t) == t
  {
    if es != [] { DisqualifiedSetNothing(es[..|es| - 1], start, t); }
  }

  lemma {:induction false} EarlierEntriesLeaveFirst(es: seq<Entry>, start: int, t: Tape2)
    requires forall e | e in es :: e.trade.time < start
    ensures Play(es, start, t).first == t.first
  {
    if es != [] { EarlierEntriesLeaveFirst(es[..|es| - 1], start, t); }
  }

  // ----- one instant

  lemma TwoOccurrences(s: seq<Trade>, i: nat, j: nat)
    requires i < j < |s| && s[i] == s[j]
    ensures multiset(s)[s[i]] >= 2
  {
    assert s == s[..j] + s[j..];
    assert multiset(s) == multiset(s[..j]) + multiset(s[j..]);
    assert s[i] in s[..j] && s[j] in s[j..];
  }

  lemma {:induction false} AnotherOccurrence(s: seq<Trade>, i: nat) returns (j: nat)
    requires i < |s| && multiset(s)[s[i]] >= 2
    ensures j < |s| && j != i && s[j] == s[i]
  {
    var rest := s[..i] + s[i + 1..];
    assert s == s[..i] + [s[i]] + s[i + 1..];
    assert multiset(s) == multiset(rest) + multiset{s[i]};
    assert s[i] in multiset(rest);
    var k :| 0 <= k < |rest| && rest[k] == s[i];
    j := if k < i then k else k + 1;
  }

  /** When a trade is not tied, every other trade of its instant is ineligible, in any order. */
  lemma UntiedMeansAlone(g: seq<Trade>, i: nat, ts: seq<Trade>, k: nat, l: nat, m: ProviderCodeMap)
    requires i < |g| && k < |ts| && l < |ts| && k != l && ts[k] == g[i]
    requires multiset(ts) == multiset(g)
    requires !Tied(g, i, m)
    ensures Eligibility0(ts[l], m) == INELIGIBLE
  {
    hide Eligibility0;
    assert ts[l] in multiset(g);
    var j :| 0 <= j < |g| && g[j] == ts[l];
    if j == i {
      if k < l { TwoOccurrences(ts, k, l); } else { TwoOccurrences(ts, l, k); }
      var other := AnotherOccurrence(g, i);
      assert Eligibility0(g[other], m) == INELIGIBLE;
    }
  }

  /** What is known when a group starts agrees with the tape: a definite qualifier means a price is in
      force, nothing qualifying or unknown means none is. */
  ghost predicate Agrees(seenQ: bool, seenU: bool, t: Tape2) {
    (seenQ ==> t.last.Some?) && (!seenQ && !seenU ==> t.last.None?)
  }

  /** A definite verdict on a trade is right at the moment the completed history reaches it. */
  lemma EntryIsJudgedRight(g: seq<Trade>, i: nat, eg: seq<Entry>, k: nat, m: ProviderCodeMap,
                           seenQ: bool, seenU: bool, start: int, t: Tape2)
    requires CompletesGroup(eg, g, m) && Agrees(seenQ, seenU, t)
    requires i < |g| && k < |eg| && eg[k].trade == g[i]
    ensures KindOf(g, i, m, seenQ, seenU).QUALIFIES? ==> Sets(eg[k], Play(eg[..k], start, t).last.Some?)
    ensures KindOf(g, i, m, seenQ, seenU).NOT? ==> !Sets(eg[k], Play(eg[..k], start, t).last.Some?)
  {
    hide Eligibility0;
    LastPersists(eg[..k], start, t);
    assert eg[k] in eg;
    assert Possible(Eligibility0(g[i], m), eg[k].truth);
    if Eligibility0(g[i], m).CONDITIONAL? && !seenQ && !seenU && !Tied(g, i, m) {
      forall e | e in eg[..k] ensures e.truth == Disqualified {
        var l :| 0 <= l < k && eg[l] == e;
        UntiedMeansAlone(g, i, TradesOf(eg), k, l, m);
        assert e in eg;
      }
      DisqualifiedSetNothing(eg[..k], start, t);
    }
  }

  lemma IndexOf(g: seq<Trade>, eg: seq<Entry>, k: nat, m: ProviderCodeMap) returns (i: nat)
    requires CompletesGroup(eg, g, m) && k < |eg|
    ensures i < |g| && g[i] == eg[k].trade
  {
    assert TradesOf(eg)[k] in multiset(g);
    i :| 0 <= i < |g| && g[i] == eg[k].trade;
  }

  lemma EntryOf(g: seq<Trade>, eg: seq<Entry>, i: nat, m: ProviderCodeMap) returns (k: nat)
    requires CompletesGroup(eg, g, m) && i < |g|
    ensures k < |eg| && g[i] == eg[k].trade
  {
    assert g[i] in multiset(TradesOf(eg));
    k :| 0 <= k < |eg| && TradesOf(eg)[k] == g[i];
  }

  /** If every verdict of the group is NOT, playing it changes nothing. */
  lemma {:induction false} NothingSets(g: seq<Trade>, eg: seq<Entry>, n: nat, m: ProviderCodeMap,
                                       seenQ: bool, seenU: bool, start: int, t: Tape2)
    requires CompletesGroup(eg, g, m) && Agrees(seenQ, seenU, t) && n <= |eg|
    requires forall i | 0 <= i < |g| :: KindOf(g, i, m, seenQ, seenU).NOT?
    ensures Play(eg[..n], start, t) == t
  {
    if n > 0 {
      NothingSets(g, eg, n - 1, m, seenQ, seenU, start, t);
      var i := IndexOf(g, eg, n - 1, m);
      EntryIsJudgedRight(g, i, eg, n - 1, m, seenQ, seenU, start, t);
      assert eg[..n][..n - 1] == eg[..n - 1];
    }
  }

  /** If no verdict is UNKNOWN and all qualifying trades share one price, that price is what playing the
      group leaves behind as soon as a qualifying trade has been played. */
  lemma {:induction false} OnePriceIsSet(g: seq<Trade>, eg: seq<Entry>, n: nat, m: ProviderCodeMap, price: real,
                                         seenQ: bool, seenU: bool, start: int, t: Tape2)
    requires CompletesGroup(eg, g, m) && Agrees(seenQ, seenU, t) && n <= |eg| && OneInstant(g)
    requires forall i | 0 <= i < |g| :: !KindOf(g, i, m, seenQ, seenU).UNKNOWN?
    requires forall i | 0 <= i < |g| && KindOf(g, i, m, seenQ, seenU).QUALIFIES? :: g[i].price == price
    ensures var p := Play(eg[..n], start, t);
            && (p == t || (p.last == Some(price)
                           && p.first == if t.first.None? && g[0].time >= start then Some(price) else t.first))
            && ((exists k, i ::
                   && 0 <= k < n && 0 <= i < |g| && g[i] == eg[k].trade
                   && KindOf(g, i, m, seenQ, seenU).QUALIFIES?)
                ==> p.last == Some(price)
                    && p.first == if t.first.None? && g[0].time >= start then Some(price) else t.first)
  {
    if n > 0 {
      hide KindOf, Sets;
      OnePriceIsSet(g, eg, n - 1, m, price, seenQ, seenU, start, t);
      var i := IndexOf(g, eg, n - 1, m);
      EntryIsJudgedRight(g, i, eg, n - 1, m, seenQ, seenU, start, t);
      assert eg[..n][..n - 1] == eg[..n - 1];
      forall i' | 0 <= i' < |g| && g[i'] == eg[n - 1].trade && KindOf(g, i', m, seenQ, seenU).QUALIFIES?
        ensures Sets(eg[n - 1], Play(eg[..n - 1], start, t).last.Some?)
      {
        EntryIsJudgedRight(g, i', eg, n - 1, m, seenQ, seenU, start, t);
      }
    }
  }

  /** What one group settles is what playing any completion of it does. */
  lemma GroupIsSound(g: seq<Trade>, eg: seq<Entry>, m: ProviderCodeMap, seenQ: bool, seenU: bool, start: int, t: Tape2)
    requires CompletesGroup(eg, g, m) && Agrees(seenQ, seenU, t) && OneInstant(g)
    ensures var vs := GroupVerdicts(g, m, seenQ, seenU);
            var p := Play(eg, start, t);
            && Agrees(seenQ || SomeQualifies(vs), seenU || SomeUnknown(vs), p)
            && (GroupDecision(vs).None? ==> p == t)
            && (GroupDecision(vs).Some? && GroupDecision(vs).value.Resolved? ==>
                  && p.last == Some(GroupDecision(vs).value.price)
                  && p.first ==
                     if t.first.None? && g[0].time >= start then Some(GroupDecision(vs).value.price) else t.first)
  {
    hide KindOf, Sets;
    var vs := GroupVerdicts(g, m, seenQ, seenU);
    assert eg[..|eg|] == eg;
    LastPersists(eg, start, t);
    forall i | 0 <= i < |g| ensures vs[i] in vs && vs[i] == Verdict(g[i], KindOf(g, i, m, seenQ, seenU)) {}
    if SomeQualifies(vs) {
      QualifierSetsAPrice(g, eg, m, seenQ, seenU, start, t);
    }
    if !SomeUnknown(vs) && !SomeQualifies(vs) {
      NothingSets(g, eg, |eg|, m, seenQ, seenU, start, t);
    }
    if !SomeUnknown(vs) && SomeQualifies(vs) && !SeveralPrices(vs) {
      var q := FirstQualifying(vs);
      OnePriceIsSet(g, eg, |eg|, m, q.price, seenQ, seenU, start, t);
      var i :| 0 <= i < |vs| && vs[i] == Verdict(q, QUALIFIES);
      var k := EntryOf(g, eg, i, m);
    }
  }

  lemma QualifierSetsAPrice(
    g: seq<Trade>, eg: seq<Entry>, m: ProviderCodeMap, seenQ: bool, seenU: bool, start: int, t: Tape2)
    requires CompletesGroup(eg, g, m) && Agrees(seenQ, seenU, t)
    requires SomeQualifies(GroupVerdicts(g, m, seenQ, seenU))
    ensures Play(eg, start, t).last.Some?
  {
    hide KindOf, Sets, CompletesGroup, Agrees, Play;
    var vs := GroupVerdicts(g, m, seenQ, seenU);
    var v :| v in vs && v.kind.QUALIFIES?;
    var i :| 0 <= i < |vs| && vs[i] == v;
    var k := EntryOf(g, eg, i, m);
    EntryIsJudgedRight(g, i, eg, k, m, seenQ, seenU, start, t);
    SetterLeavesAPrice(eg, k, start, t);
  }

  lemma SetterLeavesAPrice(eg: seq<Entry>, k: nat, start: int, t: Tape2)
    requires k < |eg| && Sets(eg[k], Play(eg[..k], start, t).last.Some?)
    ensures Play(eg, start, t).last.Some?
  {
    hide Sets;
    assert eg == eg[..k + 1] + eg[k + 1..];
    PlayConcat(eg[..k + 1], eg[k + 1..], start, t);
    assert eg[..k + 1][..k] == eg[..k];
    LastPersists(eg[k + 1..], start, Play(eg[..k + 1], start, t));
  }

  // ----- a whole session

  lemma {:induction false} DecideSnoc(vgs: seq<seq<Verdict>>, vs: seq<Verdict>)
    ensures Decide(vgs + [vs]) == if Decide(vgs).Some? then Decide(vgs) else GroupDecision(vs)
  {
    hide GroupDecision;
    if vgs != [] {
      DecideSnoc(vgs[1..], vs);
      assert (vgs + [vs])[1..] == vgs[1..] + [vs];
    }
  }

  lemma {:induction false} NothingFrom(vgs: seq<seq<Verdict>>, start: int)
    requires forall k | 0 <= k < |vgs| :: vgs[k] != [] && vgs[k][0].trade.time < start
    ensures From(vgs, start) == []
  {
    if vgs != [] { NothingFrom(vgs[..|vgs| - 1], start); }
  }

  ghost predicate SessionAgrees(vgs: seq<seq<Verdict>>, start: int, t: Tape2) {
    && Agrees(SeenQualifying(vgs), SeenUnknown(vgs), t)
    && (Decide(Reversed(vgs)).None? ==> t.last.None?)
    && (Decide(Reversed(vgs)).Some? && Decide(Reversed(vgs)).value.Resolved? ==>
          t.last == Some(Decide(Reversed(vgs)).value.price))
    && (Decide(From(vgs, start)).None? ==> t.first.None?)
    && (Decide(From(vgs, start)).Some? && Decide(From(vgs, start)).value.Resolved? ==>
          t.first == Some(Decide(From(vgs, start)).value.price))
  }

  lemma EntriesShareInstant(g: seq<Trade>, eg: seq<Entry>, m: ProviderCodeMap)
    requires OneInstant(g) && CompletesGroup(eg, g, m)
    ensures forall e | e in eg :: e.trade.time == g[0].time
  {
    forall e | e in eg ensures e.trade.time == g[0].time {
      var k :| 0 <= k < |eg| && eg[k] == e;
      var i := IndexOf(g, eg, k, m);
      assert g[i] in g;
    }
  }

  lemma NothingAgrees(start: int)
    ensures SessionAgrees([], start, BLANK)
  {
  }

  lemma SessionSeen(vgs: seq<seq<Verdict>>, start: int, t: Tape2)
    requires SessionAgrees(vgs, start, t)
    ensures Agrees(SeenQualifying(vgs), SeenUnknown(vgs), t)
  {
  }

  /** One more group, whatever order and truths its completion has. */
  lemma SessionStep(
    before: seq<seq<Verdict>>, es: seq<Entry>, g: seq<Trade>, eg: seq<Entry>, m: ProviderCodeMap, start: int)
    requires SessionAgrees(before, start, Play(es, start, BLANK)) && OneInstant(g) && CompletesGroup(eg, g, m)
    requires forall k | 0 <= k < |before| :: before[k] != [] && before[k][0].trade.time < g[0].time
    ensures var vs := GroupVerdicts(g, m, SeenQualifying(before), SeenUnknown(before));
            SessionAgrees(before + [vs], start, Play(es + eg, start, BLANK))
  {
    hide GroupDecision, SomeQualifies, SomeUnknown, CompletesGroup, SessionAgrees, Agrees, Sets, Play, KindOf,
      SeenQualifying, SeenUnknown;
    var t := Play(es, start, BLANK);
    SessionSeen(before, start, t);
    GroupIsSound(g, eg, m, SeenQualifying(before), SeenUnknown(before), start, t);
    PlayConcat(es, eg, start, BLANK);
    EntriesShareInstant(g, eg, m);
    if g[0].time < start { EarlierEntriesLeaveFirst(eg, start, t); }
    LastPersists(eg, start, t);
    var vs := GroupVerdicts(g, m, SeenQualifying(before), SeenUnknown(before));
    assert vs[0].trade == g[0];
    OneGroupMore(before, vs, eg, start, t, Play(eg, start, t));
  }

  lemma {:induction false} SessionIsSound(gs: seq<seq<Trade>>, egs: seq<seq<Entry>>, m: ProviderCodeMap, start: int)
    requires Grouped(gs) && Completes(egs, gs, m)
    ensures SessionAgrees(VerdictGroups(gs, m), start, Play(Flatten(egs), start, BLANK))
  {
    hide CompletesGroup, SessionAgrees, Play, KindOf;
    if gs == [] {
      NothingAgrees(start);
      assert Play(Flatten(egs), start, BLANK) == BLANK by { NothingPlayed(start); }
    } else {
      var n := |gs| - 1;
      SessionIsSound(gs[..n], egs[..n], m, start);
      var before: seq<seq<Verdict>> := VerdictGroups(gs[..n], m);
      assert OneInstant(gs[n]);
      forall k | 0 <= k < n ensures before[k] != [] && before[k][0].trade.time < gs[n][0].time {
        GroupStarts(gs[..n], k, m);
        assert gs[..n][k] == gs[k] && gs[k][0].time < gs[n][0].time;
      }
      SessionStep(before, Flatten(egs[..n]), gs[n], egs[n], m, start);
    }
  }

  lemma NothingPlayed(start: int)
    ensures Play([], start, BLANK) == BLANK
  {
  }

  lemma GroupStarts(gs: seq<seq<Trade>>, k: nat, m: ProviderCodeMap)
    requires k < |gs| && OneInstant(gs[k])
    ensures VerdictGroups(gs, m)[k] != [] && VerdictGroups(gs, m)[k][0].trade == gs[k][0]
  {
  }

  lemma OneGroupMore(before: seq<seq<Verdict>>, vs: seq<Verdict>, eg: seq<Entry>, start: int, t: Tape2, p: Tape2)
    requires SessionAgrees(before, start, t) && vs != []
    requires forall k | 0 <= k < |before| :: before[k] != [] && before[k][0].trade.time < vs[0].trade.time
    requires Agrees(SeenQualifying(before) || SomeQualifies(vs), SeenUnknown(before) || SomeUnknown(vs), p)
    requires GroupDecision(vs).None? ==> p == t
    requires GroupDecision(vs).Some? && GroupDecision(vs).value.Resolved? ==>
               && p.last == Some(GroupDecision(vs).value.price)
               && p.first ==
                  if t.first.None? && vs[0].trade.time >= start then Some(GroupDecision(vs).value.price) else t.first
    requires vs[0].trade.time < start ==> p.first == t.first
    requires t.first.Some? ==> p.first == t.first
    ensures SessionAgrees(before + [vs], start, p)
  {
    hide GroupDecision, SomeQualifies, SomeUnknown;
    SeenSnoc(before, vs);
    var all := before + [vs];
    assert all[..|before|] == before && all[|before|] == vs;
    DecideSnoc(From(before, start), vs);
    if vs[0].trade.time < start { NothingFrom(before, start); }
    assert Reversed(all)[0] == vs && Reversed(all)[1..] == Reversed(before);
  }

  // ----- splitting any history into instants

  function Cut(ts: seq<Trade>, at: int): (k: nat)
    ensures k <= |ts|
    ensures forall i | 0 <= i < k :: ts[i].time < at
    ensures k < |ts| ==> ts[k].time >= at
  {
    if ts == [] then 0
    else if Cut(ts[..|ts| - 1], at) < |ts| - 1 then Cut(ts[..|ts| - 1], at)
    else if ts[|ts| - 1].time < at then |ts| else |ts| - 1
  }

  /** A sorted rearrangement of a + b, with a before the instant and b at it, is cut into
      rearrangements of a and of b. */
  lemma CutAtTopInstant(ts: seq<Trade>, a: seq<Trade>, b: seq<Trade>, at: int)
    requires Sorted(ts) && multiset(ts) == multiset(a) + multiset(b)
    requires forall x | x in a :: x.time < at
    requires forall x | x in b :: x.time == at
    ensures multiset(ts[..Cut(ts, at)]) == multiset(a) && multiset(ts[Cut(ts, at)..]) == multiset(b)
  {
    hide Cut, Sorted;
    var k := Cut(ts, at);
    var c, d := ts[..k], ts[k..];
    assert ts == c + d;
    AfterCut(ts, a, b, at);
    SameTopInstant(a, b, c, d, at);
  }

  lemma AfterCut(ts: seq<Trade>, a: seq<Trade>, b: seq<Trade>, at: int)
    requires Sorted(ts) && multiset(ts) == multiset(a) + multiset(b)
    requires (forall x | x in a :: x.time < at) && forall x | x in b :: x.time == at
    ensures forall x | x in ts[..Cut(ts, at)] :: x.time < at
    ensures forall x | x in ts[Cut(ts, at)..] :: x.time == at
  {
    var k := Cut(ts, at);
    hide Cut;
    forall i | k <= i < |ts| ensures ts[i].time == at {
      assert ts[k].time <= ts[i].time;
      MemberOfSum(ts, a, b, ts[i]);
    }
  }

  lemma MemberOfSum(ts: seq<Trade>, a: seq<Trade>, b: seq<Trade>, x: Trade)
    requires multiset(ts) == multiset(a) + multiset(b) && x in ts
    ensures x in a || x in b
  {
    assert x in multiset(ts);
    assert x in multiset(a) || x in multiset(b);
  }

  lemma SameTopInstant(a: seq<Trade>, b: seq<Trade>, c: seq<Trade>, d: seq<Trade>, at: int)
    requires multiset(a) + multiset(b) == multiset(c) + multiset(d)
    requires forall x | x in a || x in c :: x.time < at
    requires forall x | x in b || x in d :: x.time == at
    ensures multiset(c) == multiset(a) && multiset(d) == multiset(b)
  {
    forall x ensures multiset(a)[x] == multiset(c)[x] && multiset(b)[x] == multiset(d)[x] {
      assert (multiset(a) + multiset(b))[x] == (multiset(c) + multiset(d))[x];
      if x.time == at {
        assert x !in multiset(a) && x !in multiset(c);
      } else {
        assert x !in multiset(b) && x !in multiset(d);
      }
    }
  }

  lemma {:induction false} AllBefore(gs: seq<seq<Trade>>, at: int)
    requires forall k | 0 <= k < |gs| :: OneInstant(gs[k]) && gs[k][0].time < at
    ensures forall x | x in Flatten(gs) :: x.time < at
  {
    if gs != [] {
      AllBefore(gs[..|gs| - 1], at);
      assert OneInstant(gs[|gs| - 1]);
    }
  }

  lemma CutHistory(es: seq<Entry>, trades: seq<Trade>, g: seq<Trade>, m: ProviderCodeMap, at: int) returns (k: nat)
    requires History(es, trades + g, m) && OneInstant(g) && g[0].time == at
    requires forall x | x in trades :: x.time < at
    ensures k <= |es| && History(es[..k], trades, m) && CompletesGroup(es[k..], g, m)
  {
    hide Eligibility0, Cut, Possible;
    var ts := TradesOf(es);
    k := Cut(ts, at);
    CutTrades(ts, trades, g, at, k);
    assert TradesOf(es[..k]) == ts[..k] && TradesOf(es[k..]) == ts[k..];
    assert forall e | e in es[..k] :: e in es;
    assert forall e | e in es[k..] :: e in es;
  }

  lemma CutTrades(ts: seq<Trade>, trades: seq<Trade>, g: seq<Trade>, at: int, k: nat)
    requires Sorted(ts) && multiset(ts) == multiset(trades + g) && OneInstant(g) && g[0].time == at && k == Cut(ts, at)
    requires forall x | x in trades :: x.time < at
    ensures Sorted(ts[..k]) && multiset(ts[..k]) == multiset(trades) && multiset(ts[k..]) == multiset(g)
  {
    assert multiset(trades + g) == multiset(trades) + multiset(g);
    CutAtTopInstant(ts, trades, g, at);
  }

  lemma EmptyHistory(es: seq<Entry>, m: ProviderCodeMap)
    requires History(es, [], m)
    ensures es == []
  {
    assert |es| == |multiset(TradesOf(es))| == 0;
  }

  /** Any history, in any time order, is an instant-by-instant completion of the groups. */
  lemma {:induction false} HistorySplits(es: seq<Entry>, gs: seq<seq<Trade>>, m: ProviderCodeMap)
    returns (egs: seq<seq<Entry>>)
    requires Grouped(gs) && History(es, Flatten(gs), m)
    ensures Completes(egs, gs, m) && Flatten(egs) == es
    decreases gs
  {
    hide Eligibility0, CompletesGroup, History;
    if gs == [] {
      EmptyHistory(es, m);
      egs := [];
    } else {
      var n := |gs| - 1;
      AllBefore(gs[..n], gs[n][0].time);
      assert OneInstant(gs[n]);
      var k := CutHistory(es, Flatten(gs[..n]), gs[n], m, gs[n][0].time);
      var rest := HistorySplits(es[..k], gs[..n], m);
      egs := rest + [es[k..]];
      FlattenSnoc(rest, es[k..]);
      assert es == es[..k] + es[k..];
    }
  }

  // ----- main results

  lemma SameHistory(es: seq<Entry>, a: seq<Trade>, b: seq<Trade>, m: ProviderCodeMap)
    requires History(es, a, m) && multiset(a) == multiset(b)
    ensures History(es, b, m)
  {
  }

  lemma {:induction false} SortedGroups(trades: seq<Trade>)
    ensures Grouped(Groups(SortByTime(trades)))
    ensures multiset(Flatten(Groups(SortByTime(trades)))) == multiset(trades)
  {
    SortIsAStableOrder(trades);
    GroupsAreGrouped(SortByTime(trades));
    GroupsFlatten(SortByTime(trades));
  }

  /** If the backtest reference resolves to a price, every completed history of the session up to the
      reference time leaves exactly that price in force; if it reports no eligible trade, none is. */
  lemma BacktestIsSound(trades: seq<Trade>, session: Session, refTime: int, m: ProviderCodeMap, es: seq<Entry>)
    requires session.openAt <= refTime <= session.closeAt
    requires History(es, Between(trades, session.openAt, refTime), m)
    ensures var r := ResolveBacktest(trades, session, refTime, m);
            && (r.Resolved? ==> Play(es, refTime, BLANK).last == Some(r.price))
            && (r == Unresolved(NO_ELIGIBLE_TRADE) ==> Play(es, refTime, BLANK).last == None)
  {
    hide Play, VerdictGroups, Completes, Grouped, GroupDecision, Groups, SortByTime, History, Agrees,
      HonestReasons, Between, Reversed, Decide, Flatten, From;
    var regular := Between(trades, session.openAt, refTime);
    var gs := Groups(SortByTime(regular));
    SortedGroups(regular);
    SameHistory(es, regular, Flatten(gs), m);
    var egs := HistorySplits(es, gs, m);
    SessionIsSound(gs, egs, m, refTime);
    DecisionReasons(Reversed(VerdictGroups(gs, m)));
    ReversedMembers(VerdictGroups(gs, m));
    VerdictReasons(gs, m);
  }

  /** If the halt reference resolves to a price, it is the first price any completed history of the
      session sets at or after the start instant. */
  lemma HaltIsSound(trades: seq<Trade>, tau: int, sessions: seq<Session>, m: ProviderCodeMap, es: seq<Entry>)
    requires NextSession(sessions, tau).Some?
    requires var s := NextSession(sessions, tau).value; History(es, Between(trades, s.openAt, s.closeAt), m)
    ensures var s := NextSession(sessions, tau).value;
            var start := if tau >= s.openAt then tau else s.openAt;
            var r := ReconstructHalt(trades, tau, sessions, m);
            && (r.Resolved? ==> Play(es, start, BLANK).first == Some(r.price))
            && (r == Unresolved(NO_ELIGIBLE_TRADE) ==> Play(es, start, BLANK).first == None)
  {
    hide Play, VerdictGroups, Completes, Grouped, GroupDecision, Groups, SortByTime, History, Agrees,
      HonestReasons, Between, Reversed, Decide, Flatten, From, NextSession;
    var s := NextSession(sessions, tau).value;
    var start := if tau >= s.openAt then tau else s.openAt;
    var regular := Between(trades, s.openAt, s.closeAt);
    var gs := Groups(SortByTime(regular));
    SortedGroups(regular);
    SameHistory(es, regular, Flatten(gs), m);
    var egs := HistorySplits(es, gs, m);
    SessionIsSound(gs, egs, m, start);
    VerdictReasons(gs, m);
    FromMembers(VerdictGroups(gs, m), start);
    DecisionReasons(From(VerdictGroups(gs, m), start));
  }

  // ----- an undecided result never reports "no eligible trade"

  ghost predicate HonestReasons(vs: seq<Verdict>) {
    forall v | v in vs && v.kind.UNKNOWN? :: v.kind.reason != NO_ELIGIBLE_TRADE
  }

  lemma {:induction false} VerdictReasons(gs: seq<seq<Trade>>, m: ProviderCodeMap)
    ensures forall vs | vs in VerdictGroups(gs, m) :: HonestReasons(vs)
  {
    hide SomeReading;
    if gs != [] { VerdictReasons(gs[..|gs| - 1], m); }
  }

  lemma {:induction false} FirstUnknownIsHonest(vs: seq<Verdict>)
    requires SomeUnknown(vs) && HonestReasons(vs)
    ensures FirstUnknown(vs) != NO_ELIGIBLE_TRADE
  {
    if !vs[0].kind.UNKNOWN? { FirstUnknownIsHonest(vs[1..]); }
  }

  lemma {:induction false} DecisionReasons(vgs: seq<seq<Verdict>>)
    ensures (forall vs | vs in vgs :: HonestReasons(vs)) ==> Decide(vgs) != Some(Unresolved(NO_ELIGIBLE_TRADE))
  {
    hide HonestReasons;
    if vgs != [] && forall vs | vs in vgs :: HonestReasons(vs) {
      assert vgs[0] in vgs;
      DecisionReasons(vgs[1..]);
      if SomeUnknown(vgs[0]) { FirstUnknownIsHonest(vgs[0]); }
    }
  }

  lemma {:induction false} ReversedMembers<T>(s: seq<T>)
    ensures forall x :: x in Reversed(s) <==> x in s
  {
    if s != [] { ReversedMembers(s[..|s| - 1]); }
  }

  lemma {:induction false} FromMembers(vgs: seq<seq<Verdict>>, start: int)
    ensures forall vs | vs in From(vgs, start) :: vs in vgs
  {
    if vgs != [] { FromMembers(vgs[..|vgs| - 1], start); }
  }
}
