/** From the stored row to the broker and back: a committed book becomes targets, the targets are driven, and
    the row moves to executed once nothing is left to do. Any call may be the last thing a process does, and
    another call may follow while requests of the first are still on their way. */
module ExecutionStage {
  import opened Wrappers
  import opened Broker
  import opened Evidence
  import opened Halting
  import opened Executor
  import opened BookExecution
  import opened Planning
  import opened Triggers

  /** What an outcome says of the broker when the call began and now, of the store and of the switch. */
  ghost predicate Reports(o: LegOutcome, t: Target, start: Book, b: Book, recs: Records, halted: bool) {
    && o.filled <= Total(b, t)
    && (o.complete <==> t.qty - EPS <= o.filled <= t.qty + EPS)
    && (o.blocked ==> halted && t.side == BUY)
    && (!o.blocked ==>
          && LimId(t) in recs && LimId(t) in b.orders && Terminal(b.orders[LimId(t)].status)
          && o.filled <= t.qty + EPS
          && (b.orders[LimId(t)].status != REJECTED ==>
                && (o.filled >= t.qty || o.filled >= Total(start, t))
                && (b.orders[LimId(t)].filled < t.qty ==> MktId(t) in b.orders)))
  }

  ghost predicate AllReported(
    os: seq<LegOutcome>, ts: seq<Target>, start: Book, b: Book, recs: Records, halted: bool)
  {
    |os| == |ts| && forall i | 0 <= i < |ts| :: Reports(os[i], ts[i], start, b, recs, halted)
  }

  /** The run has come to its end without an error. */
  ghost predicate Ended(s: Snap) {
    Sound(s) && Traced(s) && AllFinished(s.legs, s.recs, s.stop) && ConcludedTo(s, |s.legs|) && s.errors == []
  }

  lemma OutcomeReports(s: Snap, i: nat)
    requires Ended(s) && i < |s.legs|
    ensures var v := s.legs[i];
            var o := OutcomeOf(v.target.qty, v.lim, v.mkt, v.blocked);
            Reports(o, v.target, s.origin.start, s.book, s.recs, s.halted)
  {
    var v := s.legs[i];
    assert Finished(v, s.recs, s.stop) && Consistent(v, s.book, s.recs) && ReadSince(v, s.origin.start);
    assert Concluded(v, s.recs);
    assert !s.stop && v.error.None?;
  }

  /** What was filled when the call began, if the broker did not reject it, is reported as complete. */
  lemma FilledIsComplete(o: LegOutcome, t: Target, start: Book, b: Book, recs: Records, halted: bool)
    requires Reports(o, t, start, b, recs, halted) && !o.complete && !halted
    ensures LimId(t) in b.orders
    ensures b.orders[LimId(t)].status == REJECTED || Total(start, t) < t.qty - EPS
  {
  }

  predicate FoundAs(v: LegState, t: Target) {
    v == LegState(t, v.lim, None, false, 0, false, None, None, 0)
  }

  lemma FoundIsConsistent(gw: Gateway, recs: Records, v: LegState, t: Target)
    requires gw.Valid() && FoundAs(v, t)
    requires v.lim == if LimId(t) in gw.book.orders then Some(gw.book.orders[LimId(t)]) else None
    ensures Consistent(v, gw.book, recs)
  {
  }

  lemma FoundIsRead(v: LegState, t: Target, b: Book, c: Book)
    requires FoundAs(v, t) && Progress(b, c)
    requires v.lim == if LimId(t) in c.orders then Some(c.orders[LimId(t)]) else None
    ensures ReadSince(v, b)
  {
  }

  /** One leg per target, holding the limit order the broker has already, if any. */
  method FindLegs(gw: Gateway, ghost recs: Records, targets: seq<Target>) returns (r: Outcome<seq<Leg>>)
    requires gw.Valid() && Reflects(recs, gw.book)
    modifies gw`book, gw`history, gw`faults
    ensures gw.Quiet()
    ensures !r.Done? ==> Down(r) && gw.faults > old(gw.faults)
    ensures r.Done? ==>
              && |r.value| == |targets|
              && (forall i | 0 <= i < |targets| ::
                    fresh(r.value[i]) && FoundAs(r.value[i].View(), targets[i])
                    && Consistent(r.value[i].View(), gw.book, recs) && ReadSince(r.value[i].View(), old(gw.book)))
              && (forall i, j | 0 <= i < j < |targets| :: r.value[i] != r.value[j])
  {
    hide Consistent, Reflects, Continues, Evolves, IsTrace, LogHolds, ReadSince;
    ContinuesStays(gw.Trace());
    var legs: seq<Leg> := [];
    for i := 0 to |targets|
      invariant gw.Quiet() && |legs| == i
      invariant forall j | 0 <= j < i :: fresh(legs[j]) && FoundAs(legs[j].View(), targets[j])
      invariant forall j | 0 <= j < i :: Consistent(legs[j].View(), gw.book, recs)
      invariant forall j | 0 <= j < i :: ReadSince(legs[j].View(), old(gw.book))
      invariant forall j, k | 0 <= j < k < i :: legs[j] != legs[k]
    {
      ghost var before := gw.Trace();
      ghost var was := gw.book;
      var found := gw.FindByClientId(LimId(targets[i]));
      LaterProgress(before, gw.Trace());
      ContinuesIsTransitive(old(gw.Trace()), before, gw.Trace());
      forall j | 0 <= j < i ensures Consistent(legs[j].View(), gw.book, recs) {
        ConsistentLater(legs[j].View(), was, gw.book, recs, recs);
      }
      match found
      case Crashed => return Crashed;
      case Failed(e) => return Failed(e);
      case Done(o) =>
        var leg := new Leg(targets[i], o);
        FoundIsConsistent(gw, recs, leg.View(), targets[i]);
        LaterProgress(old(gw.Trace()), gw.Trace());
        FoundIsRead(leg.View(), targets[i], old(gw.book), gw.book);
        legs := legs + [leg];
    }
    return Done(legs);
  }

  ghost function LimIds(ts: seq<Target>): seq<ClientId> { seq(|ts|, i requires 0 <= i < |ts| => LimId(ts[i])) }

  ghost function MktIds(ts: seq<Target>): seq<ClientId> { seq(|ts|, i requires 0 <= i < |ts| => MktId(ts[i])) }

  /** Once the switch was engaged, or a gate had read a durable halt event, only sells are sent. */
  ghost predicate Obedient(es: seq<Entry>, engaged: bool) {
    forall j, k | 0 <= j <= k < |es| && es[k].Submission?
      && (engaged || (j < k && (es[j].halted || (es[j].Gated? && es[j].events > 0)))) ::
      es[k].order.side == SELL
  }

  /** From before to after an execution of ts sent its requests phase by phase and obeyed the switch. */
  ghost predicate Orderly(before: seq<Entry>, after: seq<Entry>, ts: seq<Target>, engaged: bool, w: Watch) {
    && before <= after
    && Phased(after[|before|..], LimIds(ts), MktIds(ts), w) && Obedient(after[|before|..], engaged)
  }

  lemma NothingIsOrderly(before: seq<Entry>, ts: seq<Target>, engaged: bool, w: Watch)
    ensures Orderly(before, before, ts, engaged, w)
  {
    assert before[|before|..] == [];
  }

  lemma HeedsIsObedient(gw: Gateway, before: seq<Entry>, engaged: bool, later: bool)
    requires gw.Valid() && Heeds(before, engaged, gw.log, later)
    ensures Obedient(gw.log[|before|..], engaged)
  {
    var es := gw.log[|before|..];
    assert forall k | 0 <= k < |es| :: es[k] == gw.log[|before| + k] && es[k] in gw.log;
  }

  lemma {:induction false} SentAreSubmissions(es: seq<Entry>, ids: seq<ClientId>)
    requires SentAmong(es, ids)
    ensures forall k | 0 <= k < |es| :: es[k].Submission?
    decreases |ids|
  {
    if es != [] {
      var rest := ids[..|ids| - 1];
      if SentAmong(es, rest) {
        SentAreSubmissions(es, rest);
      } else {
        SentAreSubmissions(es[..|es| - 1], rest);
      }
    }
  }

  /** Each buy leaves after a gate that left the switch off on a new, calm reading of the account, with nothing
      but requests in between. */
  lemma BuysAreWatched(es: seq<Entry>, ts: seq<Target>, engaged: bool, w: Watch, k: nat) returns (g: nat)
    requires Phased(es, LimIds(ts), MktIds(ts), w) && Obedient(es, engaged)
    requires k < |es| && es[k].Submission? && es[k].order.side == BUY
    ensures g < k && Watched(es[g]) && es[g].events == 0
    ensures Calm(es[g].reading.value, w.rules) && es[g].reading.value.nth >= w.since
    ensures forall i | g < i <= k :: es[i].Submission?
  {
    hide Calm, SentAmong;
    var lims, mkts := LimIds(ts), MktIds(ts);
    var n :| 1 <= n <= |es| && SentAmong(es[1..n], lims)
      && (n == |es| || (Cleared(es[n], w) && SentAmong(es[n + 1..], mkts)));
    g := if k < n then 0 else n;
    SentAreSubmissions(es[1..n], lims);
    if n < |es| { SentAreSubmissions(es[n + 1..], mkts); }
    forall i | g < i <= k ensures es[i].Submission? {
      if k < n { assert es[i] == es[1..n][i - 1]; } else { assert es[i] == es[n + 1..][i - n - 1]; }
    }
    assert !es[g].halted && es[g].events == 0;
  }

  /** Each id at most once, and no limit request after a market request. */
  ghost predicate OnceEach(es: seq<Entry>, lims: seq<ClientId>, mkts: seq<ClientId>) {
    && (forall k | 0 <= k < |es| && es[k].Submission? :: es[k].order.cid in lims || es[k].order.cid in mkts)
    && (forall j, k | 0 <= j < k < |es| && es[j].Submission? && es[k].Submission? ::
          && es[j].order.cid != es[k].order.cid
          && (es[j].order.cid.leg == Mkt ==> es[k].order.cid.leg == Mkt))
  }

  lemma NoneOnce(lims: seq<ClientId>, mkts: seq<ClientId>)
    ensures OnceEach([], lims, mkts)
  {
  }

  lemma AllDistinct(ts: seq<Target>)
    requires forall i, j | 0 <= i < j < |ts| :: ts[i].run != ts[j].run || ts[i].security != ts[j].security
    ensures Distinct(LimIds(ts)) && Distinct(MktIds(ts))
  {
  }

  /** With distinct names, an execution sends at most one limit and one market request for each. */
  lemma OncePerTarget(es: seq<Entry>, ts: seq<Target>, w: Watch)
    requires Phased(es, LimIds(ts), MktIds(ts), w)
    requires forall i, j | 0 <= i < j < |ts| :: ts[i].run != ts[j].run || ts[i].security != ts[j].security
    ensures OnceEach(es, LimIds(ts), MktIds(ts))
  {
    var lims, mkts := LimIds(ts), MktIds(ts);
    AllDistinct(ts);
    assert (forall c | c in lims :: c.leg == Lim) && forall c | c in mkts :: c.leg == Mkt;
    hide LimIds, MktIds, SentAmong, Distinct, OnceEach, Calm;
    NoneOnce(lims, mkts);
    if es != [] {
      var n :| 1 <= n <= |es| && SentAmong(es[1..n], lims)
        && (n == |es| || (Cleared(es[n], w) && SentAmong(es[n + 1..], mkts)));
      SentOnceAt(es, 1, n, lims);
      if n < |es| {
        assert es[n + 1..|es|] == es[n + 1..];
        SentOnceAt(es, n + 1, |es|, mkts);
      }
      TwoPhases(es, n, lims, mkts);
    }
  }

  lemma TwoPhases(es: seq<Entry>, n: nat, lims: seq<ClientId>, mkts: seq<ClientId>)
    requires 1 <= n <= |es| && es[0].Gated? && (n < |es| ==> es[n].Gated?)
    requires (forall c | c in lims :: c.leg == Lim) && forall c | c in mkts :: c.leg == Mkt
    requires forall k | 1 <= k < n :: es[k].Submission? && es[k].order.cid in lims
    requires forall k | n < k < |es| :: es[k].Submission? && es[k].order.cid in mkts
    requires forall j, k | 1 <= j < k < n :: es[j].order.cid != es[k].order.cid
    requires forall j, k | n < j < k < |es| :: es[j].order.cid != es[k].order.cid
    ensures OnceEach(es, lims, mkts)
  {
  }

  lemma SentOnceAt(es: seq<Entry>, lo: nat, hi: nat, ids: seq<ClientId>)
    requires lo <= hi <= |es| && SentAmong(es[lo..hi], ids) && Distinct(ids)
    ensures forall k | lo <= k < hi :: es[k].Submission? && es[k].order.cid in ids
    ensures forall j, k | lo <= j < k < hi :: es[j].order.cid != es[k].order.cid
  {
    SentOnce(es[lo..hi], ids);
    assert forall k | lo <= k < hi :: es[k] == es[lo..hi][k - lo] && es[lo..hi][k - lo] in es[lo..hi];
  }

  /** An execution may also fail because of one name, or because a gate could not clear the account. */
  predicate OwnFailure<T>(r: Outcome<T>) { r.Failed? && (OwnError(r.error) || r.error == NoEvidence) }

  /** Drive a whole rebalance. A normal return reports every target, and then no name has failed; however it
      ends, the requests went out phase by phase and no buy followed an engaged switch. */
  method ExecuteBook(halt: HaltController, rec: Recorder, pollAttempts: nat, targets: seq<Target>)
    returns (r: Outcome<seq<LegOutcome>>)
    requires halt.gw.Valid() && rec.Valid() && Reflects(rec.recs, halt.gw.book) && halt.gw.plan == targets
    modifies halt.gw, halt.ks, rec, halt`flattened, halt.log
    ensures halt.gw.Moved() && rec.Valid() && Reflects(rec.recs, halt.gw.book) && Grew(old(rec.recs), rec.recs)
    ensures old(halt.ks.Halted()) ==> halt.ks.Halted()
    ensures Orderly(old(halt.gw.log), halt.gw.log, targets, old(halt.ks.Halted()),
                    Watch(halt.rules, |old(halt.gw.accounts)|))
    ensures old(halt.gw.accounts) <= halt.gw.accounts
    ensures r.Done? ==> AllReported(r.value, targets, old(halt.gw.book), halt.gw.book, rec.recs, halt.ks.Halted())
    ensures old(halt.log.events) <= halt.log.events
    ensures r.Done? && halt.ks.Halted() ==> old(halt.ks.Halted()) || halt.log.events != []
    ensures r == Failed(BadTarget) <==> exists t | t in targets :: t.qty <= 0
    ensures halt.gw.faults + rec.faults + halt.log.faults >= old(halt.gw.faults + rec.faults + halt.log.faults)
    ensures !r.Done? ==>
              || r == Failed(BadTarget) || OwnFailure(r)
              || halt.gw.faults + rec.faults + halt.log.faults > old(halt.gw.faults + rec.faults + halt.log.faults)
  {
    hide Continues, Evolves, IsTrace, Orderly, LogHolds, AllReported, BookRun.Steady, Traced, ReadSince, Consistent;
    var gw := halt.gw;
    ContinuesStays(gw.Trace());
    NothingIsOrderly(gw.log, targets, halt.ks.Halted(), Watch(halt.rules, |gw.accounts|));
    for i := 0 to |targets|
      invariant forall j | 0 <= j < i :: targets[j].qty > 0
    {
      if targets[i].qty <= 0 { return Failed(BadTarget); }
    }
    var found := FindLegs(gw, rec.recs, targets);
    LaterProgress(old(gw.Trace()), gw.Trace());
    ReflectsLater(rec.recs, old(gw.book), gw.book);
    match found
    case Crashed => return Crashed;
    case Failed(e) => return Failed(e);
    case Done(legs) =>
      var run := new BookRun(rec, halt, pollAttempts, legs, old(gw.book));
      ghost var mid := gw.Trace();
      FreshIsSteady(run, targets);
      r := DriveLegs(run, targets);
      ContinuesIsTransitive(old(gw.Trace()), mid, gw.Trace());
  }

  /** The phases, then the first error if any name failed. */
  method DriveLegs(run: BookRun, targets: seq<Target>) returns (r: Outcome<seq<LegOutcome>>)
    requires run.Steady() && run.gw.plan == targets && |run.legs| == |targets|
    requires run.errors == [] && forall i | 0 <= i < |targets| :: FoundAs(run.legs[i].View(), targets[i])
    modifies run.gw, run.ks, run.rec, run.halt`flattened, run.halt.log, run`errors, run`stopExposure, run.legs
    ensures run.gw.Moved() && run.rec.Valid() && Reflects(run.rec.recs, run.gw.book)
    ensures Grew(old(run.rec.recs), run.rec.recs) && (old(run.ks.Halted()) ==> run.ks.Halted())
    ensures Orderly(old(run.gw.log), run.gw.log, targets, old(run.ks.Halted()),
                    Watch(run.halt.rules, |old(run.gw.accounts)|))
    ensures old(run.gw.accounts) <= run.gw.accounts
    ensures r.Done? ==>
              AllReported(r.value, targets, run.origin.start, run.gw.book, run.rec.recs, run.ks.Halted())
    ensures old(run.halt.log.events) <= run.halt.log.events
    ensures r.Done? && run.ks.Halted() ==> old(run.ks.Halted()) || run.halt.log.events != []
    ensures !r.Done? ==> OwnFailure(r) || run.Faults() > old(run.Faults())
    ensures r != Failed(BadTarget) && run.Faults() >= old(run.Faults())
  {
    hide Onward, Sound, AllFinished, BookRun.Steady, Phased, Obedient, Heeds, Continues, Evolves, IsTrace, LogHolds;
    hide Traced, ConcludedTo;
    assert run.LimIds() == LimIds(targets) && run.MktIds() == MktIds(targets);
    var driven := run.Drive();
    OnwardFacts(old(run.Now()), run.Now());
    SteadyFacts(run);
    HeedsIsObedient(run.gw, old(run.gw.log), old(run.ks.Halted()), run.ks.Halted());
    match driven
    case Crashed => return Crashed;
    case Failed(e) => return Failed(e);
    case Done(_) =>
      if run.errors != [] { return Failed(run.errors[0]); }
      var outcomes := CollectOutcomes(run, targets);
      return Done(outcomes);
  }

  method CollectOutcomes(run: BookRun, targets: seq<Target>) returns (os: seq<LegOutcome>)
    requires var s := run.Now();
             && Ended(s) && run.origin == s.origin
             && |targets| == |s.legs| && forall i | 0 <= i < |targets| :: s.legs[i].target == targets[i]
    ensures AllReported(os, targets, run.origin.start, run.gw.book, run.rec.recs, run.ks.Halted())
  {
    hide Ended, Reports;
    os := [];
    for i := 0 to |targets|
      invariant |os| == i
      invariant forall j | 0 <= j < i ::
                  Reports(os[j], targets[j], run.origin.start, run.gw.book, run.rec.recs, run.ks.Halted())
    {
      OutcomeReports(run.Now(), i);
      os := os + [run.legs[i].Outcome()];
    }
  }

  lemma SteadyFacts(run: BookRun)
    requires run.Steady()
    ensures Sound(run.Now()) && Traced(run.Now())
    ensures run.gw.Valid() && run.rec.Valid() && Reflects(run.rec.recs, run.gw.book)
  {
  }

  lemma OnwardFacts(s: Snap, t: Snap)
    requires Onward(s, t)
    ensures t.plan == s.plan && Continues(s.trace, t.trace) && Grew(s.recs, t.recs)
    ensures Heeds(s.log, s.halted, t.log, t.halted) && s.log <= t.log && (s.halted ==> t.halted)
    ensures |t.legs| == |s.legs| && forall i | 0 <= i < |s.legs| :: t.legs[i].target == s.legs[i].target
    ensures s.errors == [] && t.errors != [] ==> OwnError(t.errors[0]) || (Outage(t.errors[0]) && t.faults > s.faults)
    ensures t.origin == s.origin && s.faults <= t.faults && s.asked <= t.asked
  {
  }

  lemma FreshIsTraced(s: Snap)
    requires s.origin.since == |s.asked| && Progress(s.origin.start, s.book)
    requires forall i | 0 <= i < |s.legs| :: s.legs[i].error.None? && ReadSince(s.legs[i], s.origin.start)
    ensures Traced(s)
  {
    hide Progress, ReadSince;
  }

  /** Legs just found make a sound run. */
  lemma FreshIsSteady(run: BookRun, targets: seq<Target>)
    requires run.halt.gw == run.gw && run.halt.ks == run.ks && run.origin.attempts == run.pollAttempts
    requires run.gw.Valid() && run.rec.Valid() && Reflects(run.rec.recs, run.gw.book) && run.gw.plan == targets
    requires run.errors == [] && !run.stopExposure && |run.legs| == |targets|
    requires run.origin.since == |run.gw.asked| && Progress(run.origin.start, run.gw.book)
    requires forall t | t in targets :: t.qty > 0
    requires forall i | 0 <= i < |targets| :: FoundAs(run.legs[i].View(), targets[i])
    requires forall i | 0 <= i < |targets| :: Consistent(run.legs[i].View(), run.gw.book, run.rec.recs)
    requires forall i | 0 <= i < |targets| :: ReadSince(run.legs[i].View(), run.origin.start)
    requires forall i, j | 0 <= i < j < |targets| :: run.legs[i] != run.legs[j]
    ensures run.Steady()
  {
    FreshIsTraced(run.Now());
    hide Consistent, Reflects, ReadSince, Progress, Traced, Gateway.Valid, Recorder.Valid;
    assert forall i | 0 <= i < |targets| :: targets[i] in targets;
  }

  // ----- the same targets, any number of times

  lemma AgreedSnoc(tr: seq<Moment>, m: Moment)
    requires Agreed(tr) && PlanAgrees(m.book, m.plan)
    ensures Agreed(tr + [m])
  {
    var more := tr + [m];
    forall i | 0 < i < |more| && more[i].plan != more[i - 1].plan ensures PlanAgrees(more[i].book, more[i].plan) {
      if i < |tr| { assert more[i] == tr[i] && more[i - 1] == tr[i - 1]; }
    }
  }

  /** Re-executing the same targets after lost answers, failures and crashes, any number of times: if the
      targets agreed with the broker at first they do for good, so the broker stays within them. */
  method Retries(
    gw: Gateway, rec: Recorder, log: HaltLog, rules: Rules, pollAttempts: nat, targets: seq<Target>, attempts: nat)
    requires gw.Valid() && rec.Valid() && Reflects(rec.recs, gw.book) && OneTargetPerName(targets)
    modifies gw, rec, log
    ensures gw.Valid() && rec.Valid() && Reflects(rec.recs, gw.book) && gw.plan == targets
    ensures Progress(old(gw.book), gw.book) && Grew(old(rec.recs), rec.recs)
    ensures Continues(old(gw.Trace()) + [Moment(old(gw.book), targets)], gw.Trace())
    ensures old(Agreed(gw.Trace()) && PlanAgrees(gw.book, targets)) ==>
              Agreed(gw.Trace()) && SafeMoment(Moment(gw.book, targets))
  {
    hide Continues, Evolves, IsTrace, Agreed, SafeMoment, Grew, PlanAgrees, LogHolds;
    gw.Begin(targets);
    ghost var first := gw.Trace();
    ContinuesStays(first);
    GrewStays(rec.recs);
    for k := 0 to attempts
      invariant gw.Valid() && rec.Valid() && Reflects(rec.recs, gw.book) && gw.plan == targets
      invariant Continues(first, gw.Trace()) && Grew(old(rec.recs), rec.recs)
    {
      ghost var before, recs := gw.Trace(), rec.recs;
      var stored := log.Load();
      if stored.Done? {
        var ks := KillSwitch.FromEvents(stored.value);
        var halt := new HaltController(gw, ks, log, rules, pollAttempts, false);
        var _ := ExecuteBook(halt, rec, pollAttempts, targets);
        ContinuesIsTransitive(first, before, gw.Trace());
        GrewIsTransitive(old(rec.recs), recs, rec.recs);
      }
    }
    LaterProgress(first, gw.Trace());
    if old(Agreed(gw.Trace()) && PlanAgrees(gw.book, targets)) {
      AgreedSnoc(old(gw.Trace()), Moment(old(gw.book), targets));
      ContinuesAgreed(first, gw.Trace());
      AgreedNow(gw);
    }
  }

  /** If every plan agreed when it was taken up, at no moment of a gateway's history was a target overfilled
      or moved the wrong way, nor a residual sent while its limit order could still fill. */
  lemma NeverOverfilled(gw: Gateway, k: nat, t: Target)
    requires gw.Valid() && Agreed(gw.Trace()) && k < |gw.Trace()|
    requires t in gw.Trace()[k].plan && t.qty >= 0
    ensures var b := gw.Trace()[k].book;
            && (Honest(b) ==> Within(b, t))
            && (MktId(t) in b.orders ==> LimId(t) in b.orders && Terminal(b.orders[LimId(t)].status))
  {
    AgreedIsSafe(gw.Trace(), k);
    NoOverfill(gw.Trace()[k].book, t);
  }

  // ----- replanning after an earlier attempt

  /** No limit request of the run is still on its way: each was accepted or will never be. */
  ghost predicate NothingTravels(b: Book, run: int) {
    forall o | o in b.inflight && o.cid.run == run && o.cid.leg == Lim :: o.cid in b.orders
  }

  /** A limit order the broker had keeps its side and quantity; the other names are planned. */
  ghost predicate Replanned(ts: seq<Target>, run: int, b: Book) {
    && (forall t | t in ts :: t.run == run && (LimId(t) in b.orders ==> IsLimitFor(b.orders[LimId(t)], t)))
    && (forall i, j | 0 <= i < j < |ts| :: ts[i].security < ts[j].security)
  }

  lemma ReplannedNames(ts: seq<Target>, run: int, b: Book)
    requires Replanned(ts, run, b)
    ensures OneTargetPerName(ts)
  {
  }

  /** The broker's limit order of the name is kept if there was one already; otherwise filling what the plan has for
      the name turns what is held into what the book wants, unless a limit order turned up. */
  ghost predicate Covers(
    ts: seq<Target>, run: int, book: map<int, real>, m: Market, equity: real, positions: map<string, int>,
    start: Book, b: Book, sid: int)
    requires sid in m.symbols
  {
    var id := ClientId(run, sid, Lim);
    || (id in b.orders && Target(run, sid, b.orders[id].side, b.orders[id].qty) in ts)
    || (id !in start.orders && Balanced(book, m, equity, positions, ts, sid))
  }

  ghost predicate AllCovered(
    ts: seq<Target>, run: int, book: map<int, real>, m: Market, equity: real, positions: map<string, int>,
    start: Book, b: Book)
  {
    forall sid | sid in m.symbols :: Covers(ts, run, book, m, equity, positions, start, b, sid)
  }

  lemma CoveredLater(
    ts: seq<Target>, run: int, book: map<int, real>, m: Market, equity: real, positions: map<string, int>,
    start: Book, later: Book, b: Book, c: Book)
    requires AllCovered(ts, run, book, m, equity, positions, later, b) && Progress(start, later) && Progress(b, c)
    ensures AllCovered(ts, run, book, m, equity, positions, start, c)
  {
    hide Balanced;
    forall sid | sid in m.symbols ensures Covers(ts, run, book, m, equity, positions, start, c, sid) {
      assert Covers(ts, run, book, m, equity, positions, later, b, sid);
    }
  }

  /** With nothing travelling, a new plan agrees. */
  lemma ReplannedAgrees(ts: seq<Target>, run: int, b: Book)
    requires Replanned(ts, run, b) && NothingTravels(b, run)
    ensures PlanAgrees(b, ts)
  {
  }

  lemma ReplannedBefore(ts: seq<Target>, run: int, b: Book, c: Book)
    requires Replanned(ts, run, c) && Progress(b, c)
    ensures Replanned(ts, run, b)
  {
  }

  /** A plan that agreed with an earlier book agrees with what became of it. */
  lemma AgreesLater(ts: seq<Target>, b: Book, c: Book)
    requires PlanAgrees(b, ts) && Evolves(b, c)
    ensures PlanAgrees(c, ts)
  {
    forall t | t in ts ensures Safe(c, t) {
      assert Safe(b, t);
      EvolvesKeepsSafe(b, c, t);
    }
  }

  /** The targets of this attempt: the broker's limit orders first, then the plan for the other names. */
  method Targets(gw: Gateway, run: int, book: map<int, real>, m: Market, sids: seq<int>)
    returns (r: Outcome<seq<Target>>)
    requires gw.Valid()
    requires Increasing(sids) && m.symbols.Keys == set s | s in sids
    modifies gw
    ensures gw.Quiet() && old(gw.accounts) <= gw.accounts
    ensures r.Done? ==> Replanned(r.value, run, old(gw.book))
    ensures r.Done? || r == Failed(BadPlan) ==>
              |gw.accounts| == |old(gw.accounts)| + 1 && |gw.holdings| == |old(gw.holdings)| + 1
    ensures r.Done? ==>
              AllCovered(r.value, run, book, m, gw.accounts[|old(gw.accounts)|].0, gw.Reported(), old(gw.book), gw.book)
    ensures r == Failed(BadPlan) ==> !CanPlan(book, m, gw.accounts[|old(gw.accounts)|].0, gw.Reported())
    ensures !r.Done? && r != Failed(BadPlan) ==> Down(r) && gw.faults > old(gw.faults)
  {
    hide Continues, IsTrace, Evolves, KeptFrom, Replanned, LogHolds, AllCovered, CanPlan, Balanced, PlannedFor;
    ContinuesStays(gw.Trace());
    var existing: map<int, Target> := map[];
    NothingKept(run, sids[..0], old(gw.book), gw.book);
    for i := 0 to |sids|
      invariant gw.Quiet() && gw.accounts == old(gw.accounts) && gw.holdings == old(gw.holdings)
      invariant KeptFrom(existing, run, sids[..i], old(gw.book), gw.book)
    {
      ghost var before, was := gw.Trace(), gw.book;
      var found := gw.FindByClientId(ClientId(run, sids[i], Lim));
      ContinuesIsTransitive(old(gw.Trace()), before, gw.Trace());
      LaterProgress(before, gw.Trace());
      LaterProgress(old(gw.Trace()), gw.Trace());
      KeptLater(existing, run, sids[..i], old(gw.book), was, gw.book);
      match found
      case Crashed => return Crashed;
      case Failed(e) => return Failed(e);
      case Done(o) =>
        KeptNext(existing, run, sids, i, old(gw.book), gw.book);
        if o.Some? {
          existing := existing[sids[i] := Target(run, sids[i], o.value.side, o.value.qty)];
        }
    }
    assert sids[..|sids|] == sids;
    ghost var kept, keptAt := gw.book, gw.Trace();
    LaterProgress(old(gw.Trace()), keptAt);
    var equity := gw.AccountEquity();
    ContinuesIsTransitive(old(gw.Trace()), keptAt, gw.Trace());
    if equity.Crashed? { return Crashed; }
    if equity.Failed? { return Failed(equity.error); }
    ghost var before := gw.Trace();
    var held := gw.Positions();
    ContinuesIsTransitive(keptAt, before, gw.Trace());
    ContinuesIsTransitive(old(gw.Trace()), keptAt, gw.Trace());
    LaterProgress(keptAt, gw.Trace());
    match held
    case Crashed => return Crashed;
    case Failed(e) => return Failed(e);
    case Done(positions) =>
      var planned := PlanTargets(run, book, m, equity.value.0, positions, sids);
      if planned.Err? { return Failed(planned.error); }
      var ts := Merge(existing, planned.value, run, sids, old(gw.book), kept);
      MergedCovers(ts, existing, planned.value, run, sids, book, m, equity.value.0, positions, old(gw.book), kept,
                   gw.book);
      return Done(ts);
  }

  /** The limit orders found so far, by security, the ones the broker had at first among them. */
  ghost predicate KeptFrom(existing: map<int, Target>, run: int, sids: seq<int>, b: Book, c: Book) {
    && (forall s | s in existing :: s in sids)
    && (forall s | s in sids ::
          var id := ClientId(run, s, Lim);
          && (id in b.orders ==> s in existing)
          && (s in existing ==> id in c.orders && existing[s] == Target(run, s, c.orders[id].side, c.orders[id].qty)))
  }

  lemma NothingKept(run: int, sids: seq<int>, b: Book, c: Book)
    requires sids == []
    ensures KeptFrom(map[], run, sids, b, c)
  {
  }

  lemma KeptLater(existing: map<int, Target>, run: int, sids: seq<int>, b: Book, c: Book, d: Book)
    requires KeptFrom(existing, run, sids, b, c) && Progress(c, d)
    ensures KeptFrom(existing, run, sids, b, d)
  {
  }

  /** One more name: kept if the broker has its limit order now, and it had none at first otherwise. */
  lemma KeptNext(existing: map<int, Target>, run: int, sids: seq<int>, i: nat, b: Book, c: Book)
    requires i < |sids| && KeptFrom(existing, run, sids[..i], b, c) && Progress(b, c) && Increasing(sids)
    ensures var id := ClientId(run, sids[i], Lim);
            if id in c.orders
            then KeptFrom(existing[sids[i] := Target(run, sids[i], c.orders[id].side, c.orders[id].qty)],
                          run, sids[..i + 1], b, c)
            else KeptFrom(existing, run, sids[..i + 1], b, c)
  {
    assert sids[..i + 1] == sids[..i] + [sids[i]];
    assert sids[i] !in sids[..i];
  }

  /** Existing targets and the planned ones of the other names, by security. */
  method Merge(
    existing: map<int, Target>, planned: seq<Target>, run: int, sids: seq<int>, ghost b: Book, ghost c: Book)
    returns (ts: seq<Target>)
    requires KeptFrom(existing, run, sids, b, c) && Progress(b, c)
    requires PlannedFor(planned, run, sids) && Increasing(sids)
    ensures Replanned(ts, run, b)
    ensures forall t | t in ts :: if t.security in existing then t == existing[t.security] else t in planned
    ensures forall s | s in existing :: existing[s] in ts
    ensures forall t | t in planned && t.security !in existing :: t in ts
  {
    hide KeptFrom, Replanned, PlannedFor, Increasing;
    ts := [];
    NothingReplanned(run, b);
    KeptAreNamed(existing, run, sids, b, c);
    for i := 0 to |sids|
      invariant Replanned(ts, run, b) && forall t | t in ts :: t.security in sids[..i]
      invariant forall t | t in ts :: if t.security in existing then t == existing[t.security] else t in planned
      invariant forall k | 0 <= k < i && sids[k] in existing :: existing[sids[k]] in ts
      invariant forall t | t in planned && t.security in sids[..i] && t.security !in existing :: t in ts
    {
      var sid := sids[i];
      assert sids[..i + 1] == sids[..i] + [sid];
      if sid in existing {
        ReplannedNext(existing, existing[sid], ts, run, sids, i, b, c);
        ts := ts + [existing[sid]];
      } else if exists t :: t in planned && t.security == sid {
        var t :| t in planned && t.security == sid;
        OnePlanned(planned, run, sids, t);
        ReplannedNext(existing, t, ts, run, sids, i, b, c);
        ts := ts + [t];
      }
    }
    assert sids[..|sids|] == sids;
    OnePlannedNames(planned, run, sids);
  }

  /** What was kept covers its name, and so does what was planned for a name without a limit order. */
  lemma MergedCovers(
    ts: seq<Target>, existing: map<int, Target>, planned: seq<Target>, run: int, sids: seq<int>,
    book: map<int, real>, m: Market, equity: real, positions: map<string, int>, b: Book, c: Book, d: Book)
    requires KeptFrom(existing, run, sids, b, c) && Progress(c, d) && m.symbols.Keys == set s | s in sids
    requires PlannedFor(planned, run, sids) && Replanned(ts, run, b)
    requires forall sid | sid in m.symbols :: Balanced(book, m, equity, positions, planned, sid)
    requires forall t | t in ts && t.security !in existing :: t in planned
    requires forall s | s in existing :: existing[s] in ts
    requires forall t | t in planned && t.security !in existing :: t in ts
    ensures AllCovered(ts, run, book, m, equity, positions, b, d)
  {
    forall sid | sid in m.symbols ensures Covers(ts, run, book, m, equity, positions, b, d, sid) {
      if sid !in existing {
        assert sid in sids;
        forall t: Target | t.security == sid ensures t in ts <==> t in planned {
          assert t in ts && t.security !in existing ==> t in planned;
        }
        SameMove(ts, planned, sid);
        assert Balanced(book, m, equity, positions, planned, sid);
      }
    }
  }

  lemma OnePlannedNames(planned: seq<Target>, run: int, sids: seq<int>)
    requires PlannedFor(planned, run, sids)
    ensures forall t | t in planned :: t.security in sids
  {
  }

  lemma KeptAreNamed(existing: map<int, Target>, run: int, sids: seq<int>, b: Book, c: Book)
    requires KeptFrom(existing, run, sids, b, c)
    ensures forall s | s in existing :: s in sids && existing[s].security == s
  {
  }

  lemma NothingReplanned(run: int, b: Book)
    ensures Replanned([], run, b)
  {
  }

  lemma OnePlanned(planned: seq<Target>, run: int, sids: seq<int>, t: Target)
    requires PlannedFor(planned, run, sids) && t in planned
    ensures t.run == run && forall u | u in planned && u.security == t.security :: u == t
  {
  }

  lemma ReplannedNext(
    existing: map<int, Target>, t: Target, ts: seq<Target>, run: int, sids: seq<int>, i: nat, b: Book, c: Book)
    requires KeptFrom(existing, run, sids, b, c) && Progress(b, c) && Increasing(sids) && i < |sids|
    requires Replanned(ts, run, b) && forall u | u in ts :: u.security in sids[..i]
    requires t.security == sids[i] && (if sids[i] in existing then t == existing[sids[i]] else t.run == run)
    ensures Replanned(ts + [t], run, b)
  {
    assert sids[i] in sids;
    assert forall k | 0 <= k < |ts| :: ts[k] in ts;
  }

  // ----- the stage

  datatype RowStatus = OTHER | ANCHORED | EXECUTED | HALTED

  /** Why a call left the row where it is; nothing is said when the run is executed. */
  datatype Reason = NoReason | RunReason | SwitchEngaged(trigger: Trigger) | Incomplete

  datatype Execution = Execution(status: RowStatus, advanced: bool, reason: Reason)

  /** The evidence of every target's limit order is stored. */
  ghost predicate Stored(plan: seq<Target>, recs: Records) { forall t | t in plan :: LimId(t) in recs }

  /** Every target is filled to a micro-share, on its own side. */
  ghost predicate Filled(plan: seq<Target>, b: Book) {
    forall t | t in plan :: FilledFor(b, t) >= t.qty - EPS
  }

  /** A target that was not yet filled at the start, or that the broker has rejected. */
  ghost predicate Lacking(plan: seq<Target>, start: Book, b: Book) {
    exists t | t in plan ::
      Total(start, t) < t.qty - EPS || (LimId(t) in b.orders && b.orders[LimId(t)].status == REJECTED)
  }

  lemma LackingBefore(plan: seq<Target>, start: Book, later: Book, b: Book)
    requires Lacking(plan, later, b) && Progress(start, later)
    ensures Lacking(plan, start, b)
  {
  }

  lemma CompleteIsFilled(os: seq<LegOutcome>, ts: seq<Target>, start: Book, b: Book, recs: Records, halted: bool)
    requires AllReported(os, ts, start, b, recs, halted) && forall o | o in os :: o.complete && !o.blocked
    requires SafeMoment(Moment(b, ts)) && forall t | t in ts :: t.qty >= 0
    ensures Filled(ts, b)
  {
    forall t | t in ts ensures FilledFor(b, t) >= t.qty - EPS {
      var i :| 0 <= i < |ts| && ts[i] == t;
      assert os[i] in os && Reports(os[i], t, start, b, recs, halted);
      NoOverfill(b, t);
    }
  }

  lemma CompleteIsStored(os: seq<LegOutcome>, ts: seq<Target>, start: Book, b: Book, recs: Records, halted: bool)
    requires AllReported(os, ts, start, b, recs, halted) && forall o | o in os :: !o.blocked
    ensures Stored(ts, recs)
  {
    forall t | t in ts ensures LimId(t) in recs {
      var i :| 0 <= i < |ts| && ts[i] == t;
      assert os[i] in os && Reports(os[i], t, start, b, recs, halted);
    }
  }

  /** With the switch off nothing is blocked, so what is not complete lacks something. */
  lemma IncompleteLacks(os: seq<LegOutcome>, ts: seq<Target>, start: Book, b: Book, recs: Records, o: LegOutcome)
    requires AllReported(os, ts, start, b, recs, false) && o in os && (!o.complete || o.blocked)
    ensures Lacking(ts, start, b)
  {
    var i :| 0 <= i < |os| && os[i] == o;
    FilledIsComplete(o, ts[i], start, b, recs, false);
    assert ts[i] in ts;
  }

  /** What one call is given: the committed book, the market view and its names, and whether the rest of what is
      stored lets the run be executed. */
  datatype Inputs = Inputs(book: map<int, real>, market: Market, sids: seq<int>, eligible: bool)

  predicate ViewFits(x: Inputs) { Increasing(x.sids) && x.market.symbols.Keys == set s | s in x.sids }

  /** The plan was made in this call: from an account and from positions read since then, it covers every name. */
  ghost predicate PlannedHere(
    ts: seq<Target>, run: int, x: Inputs, accounts: seq<(real, real)>, seen: nat, holdings: seq<map<string, int>>,
    had: nat, start: Book, b: Book)
  {
    exists i: nat, j: nat | seen <= i < |accounts| && had <= j < |holdings| ::
      AllCovered(ts, run, x.book, x.market, accounts[i].0, holdings[j], start, b)
  }

  lemma PlannedBefore(
    ts: seq<Target>, run: int, x: Inputs, accounts: seq<(real, real)>, i: nat, holdings: seq<map<string, int>>, j: nat,
    later: Book, b: Book, all: seq<(real, real)>, seen: nat, held: seq<map<string, int>>, had: nat, start: Book,
    c: Book)
    requires seen <= i < |accounts| && had <= j < |holdings|
    requires AllCovered(ts, run, x.book, x.market, accounts[i].0, holdings[j], later, b)
    requires accounts <= all && holdings <= held && Progress(start, later) && Progress(b, c)
    ensures PlannedHere(ts, run, x, all, seen, held, had, start, c)
  {
    CoveredLater(ts, run, x.book, x.market, accounts[i].0, holdings[j], start, later, b, c);
    hide AllCovered;
    assert all[i] == accounts[i] && held[j] == holdings[j];
  }

  lemma PlannedSooner(
    ts: seq<Target>, run: int, x: Inputs, accounts: seq<(real, real)>, later: nat, seen: nat,
    holdings: seq<map<string, int>>, since: nat, had: nat, start: Book, after: Book, b: Book)
    requires PlannedHere(ts, run, x, accounts, later, holdings, since, after, b)
    requires seen <= later && had <= since && Progress(start, after)
    ensures PlannedHere(ts, run, x, accounts, seen, holdings, had, start, b)
  {
    hide AllCovered;
    var i: nat, j: nat :| later <= i < |accounts| && since <= j < |holdings|
      && AllCovered(ts, run, x.book, x.market, accounts[i].0, holdings[j], after, b);
    ProgressStays(b);
    CoveredLater(ts, run, x.book, x.market, accounts[i].0, holdings[j], start, after, b, b);
  }

  lemma EvolvesIsProgress(b: Book, c: Book)
    requires Evolves(b, c)
    ensures Progress(b, c)
  {
  }

  class Stage {
    const gw: Gateway
    const rec: Recorder
    const log: HaltLog
    const rules: Rules
    const run: int
    const pollAttempts: nat
    var row: RowStatus
    ghost var faults: nat

    constructor (
      gw: Gateway, rec: Recorder, log: HaltLog, rules: Rules, run: int, pollAttempts: nat, row: RowStatus)
      ensures this.gw == gw && this.rec == rec && this.log == log && this.run == run && this.row == row
    {
      this.gw, this.rec, this.log, this.rules, this.run := gw, rec, log, rules, run;
      this.pollAttempts, this.row, faults := pollAttempts, row, 0;
    }

    /** A row stored as executed has its evidence stored; if every plan agreed when it was taken up, the
        targets are filled. */
    ghost predicate Valid()
      reads this, gw, rec
    {
      && gw.Valid() && rec.Valid() && Reflects(rec.recs, gw.book)
      && (row == EXECUTED ==> Earned())
    }

    ghost predicate Earned()
      reads gw, rec
    {
      Stored(gw.plan, rec.recs) && (Agreed(gw.Trace()) ==> Filled(gw.plan, gw.book))
    }

    /** How often something outside has failed so far. */
    ghost function Faults(): nat
      reads this, gw, rec, log
    {
      faults + gw.faults + rec.faults + log.faults
    }

    /** What an answer says is so: an executed run has earned it, a halted one and one under an engaged switch have
        nothing working, and an incomplete one lacked something when the call began. */
    ghost predicate Answers(e: Execution, start: Book)
      reads this, gw, rec, log
    {
      match e.reason
      case NoReason => e.status == EXECUTED && Earned()
      case RunReason =>
        row == HALTED && e.status == HALTED && !e.advanced && (log.events != [] ==> gw.listed == Some({}))
      case SwitchEngaged(_) => e.status in {ANCHORED, HALTED} && !e.advanced && log.events != []
      case Incomplete => e.status == ANCHORED && !e.advanced && Lacking(gw.plan, start, gw.book)
    }

    /** Without a failure outside, a call fails for a cause in what was stored, asked for, or read in the call. */
    ghost predicate Excused(r: Outcome<Execution>, x: Inputs, was: RowStatus, seen: nat, had: nat)
      reads gw
    {
      || OwnFailure(r)
      || (r == Failed(NotEligible) && (!x.eligible || was == OTHER))
      || (r == Failed(BadTarget) && exists t | t in gw.plan :: t.qty <= 0)
      || (r == Failed(BadPlan)
          && exists i: nat, j: nat | seen <= i < |gw.accounts| && had <= j < |gw.holdings| ::
               !CanPlan(x.book, x.market, gw.accounts[i].0, gw.holdings[j]))
    }

    lemma AnswersBefore(e: Execution, start: Book, later: Book)
      requires Answers(e, later) && Progress(start, later)
      ensures Answers(e, start)
    {
      hide Progress, Lacking, Earned;
      if e.reason == Incomplete { LackingBefore(gw.plan, start, later, gw.book); }
    }

    /** The row store does not answer, or the process ends there. */
    method Trouble<T>() returns (r: Outcome<T>)
      modifies this`faults
      ensures Down(r) && faults == old(faults) + 1
    {
      faults := faults + 1;
      if * { return Crashed; }
      return Failed(StoreDown);
    }

    /** Other workers may anchor the run or halt it; only the holder of the execute lock marks it executed. */
    method Others()
      modifies this`row
      ensures row == old(row) || (old(row) == OTHER && row == ANCHORED) || row == HALTED
    {
      if * {
        if row == OTHER { row := ANCHORED; }
      } else if * {
        row := HALTED;
      }
    }

    /** One conditional update; its answer may be lost. */
    method MarkExecuted() returns (r: Outcome<bool>)
      modifies this`row, this`faults
      ensures row == old(row) || (old(row) == ANCHORED && row == EXECUTED)
      ensures r.Done? ==> (r.value <==> old(row) == ANCHORED) && (r.value ==> row == EXECUTED)
      ensures old(faults) <= faults && (!r.Done? ==> Down(r) && faults > old(faults))
    {
      if * {
        r := Trouble();
        return;
      }
      var advanced := row == ANCHORED;
      if advanced { row := EXECUTED; }
      if * {
        r := Trouble();
        return;
      }
      return Done(advanced);
    }

    /** No name may lack its limit order's evidence. */
    method EvidenceStored(targets: seq<Target>) returns (r: Outcome<()>)
      modifies rec`faults
      ensures r.Done? ==> Stored(targets, rec.recs)
      ensures r == Failed(NoEvidence) ==> !Stored(targets, rec.recs)
      ensures !r.Done? ==> r == Failed(NoEvidence) || (Down(r) && rec.faults > old(rec.faults))
      ensures old(rec.faults) <= rec.faults
    {
      for i := 0 to |targets|
        invariant forall j | 0 <= j < i :: LimId(targets[j]) in rec.recs
        invariant rec.faults == old(rec.faults)
      {
        var stored := rec.FindExecution(LimId(targets[i]));
        match stored
        case Crashed => return Crashed;
        case Failed(e) => return Failed(e);
        case Done(row) =>
          if row.None? {
            assert targets[i] in targets;
            return Failed(NoEvidence);
          }
      }
      return Done(());
    }

    /** A halted run gets settled and an executed one is left alone; an anchored one is planned and driven. The
        new plan keeps the limit orders the broker had. It agrees if each request that was travelling for a
        planned name without one is for the planned side and quantity, whatever earlier calls did. */
    method ExecuteRun(x: Inputs) returns (r: Outcome<Execution>)
      requires Valid() && ViewFits(x)
      modifies this`row, this`faults, gw, rec, log
      ensures Valid() && Grew(old(rec.recs), rec.recs)
      ensures old(gw.Trace()) <= gw.Trace() && Progress(old(gw.book), gw.book)
      ensures gw.plan == old(gw.plan) || Replanned(gw.plan, run, old(gw.book))
      ensures old(Agreed(gw.Trace())) && PlanAgrees(old(gw.book), gw.plan) ==> Agreed(gw.Trace())
      ensures Orderly(old(gw.log), gw.log, gw.plan, false, Watch(rules, |old(gw.accounts)|))
      ensures old(row) in {EXECUTED, HALTED} ==> row in {old(row), HALTED} && gw.plan == old(gw.plan)
      ensures old(row) in {EXECUTED, HALTED} ==> gw.log == old(gw.log)
      ensures gw.log != old(gw.log) || (row == EXECUTED && old(row) != EXECUTED) ==>
                PlannedHere(gw.plan, run, x, gw.accounts, |old(gw.accounts)|, gw.holdings, |old(gw.holdings)|,
                            old(gw.book), gw.book)
      ensures r.Done? ==> Answers(r.value, old(gw.book))
      ensures r.Done? && r.value.advanced ==> row == EXECUTED && old(row) in {OTHER, ANCHORED}
      ensures r.Done? && old(row) == HALTED ==> r.value.reason == RunReason
      ensures r.Done? && !x.eligible ==> r.value.reason == RunReason
      ensures !r.Done? ==> Excused(r, x, old(row), |old(gw.accounts)|, |old(gw.holdings)|) || Faults() > old(Faults())
    {
      hide Continues, Evolves, IsTrace, Agreed, Orderly, Filled, PlanAgrees, Replanned, Reflects, Grew, LogHolds;
      hide Stored, PlannedHere, Lacking;
      Still(gw, rec, Watch(rules, |gw.accounts|));
      Others();
      if * {
        r := Trouble();
        return;
      }
      var status := row;
      if status == HALTED {
        r := Settle();
        return;
      }
      if status !in {ANCHORED, EXECUTED} { return Failed(NotEligible); }
      if !x.eligible { return Failed(NotEligible); }
      if status == EXECUTED { return Done(Execution(EXECUTED, false, NoReason)); }
      var loaded := log.Load();
      match loaded
      case Crashed => return Crashed;
      case Failed(e) => return Failed(e);
      case Done(events) =>
        var ks := KillSwitch.FromEvents(events);
        var halt := new HaltController(gw, ks, log, rules, pollAttempts, exists e | e in events :: e.flattened);
        r := Execute(halt, x);
    }

    /** After a halt nothing may be left working. */
    method Settle() returns (r: Outcome<Execution>)
      requires Valid() && row == HALTED
      modifies gw, log
      ensures gw.Quiet() && Valid() && Progress(old(gw.book), gw.book)
      ensures old(gw.Trace()) <= gw.Trace() && (Agreed(gw.Trace()) <==> old(Agreed(gw.Trace())))
      ensures Orderly(old(gw.log), gw.log, gw.plan, false, Watch(rules, |old(gw.accounts)|))
      ensures r.Done? ==> r.value == Execution(HALTED, false, RunReason) && (log.events != [] ==> gw.listed == Some({}))
      ensures !r.Done? ==> r == Failed(CancelNotConfirmed) || Faults() > old(Faults())
    {
      hide IsTrace, Agreed, Orderly, Reflects, Progress, LogHolds, Evolves, Continues;
      Still(gw, rec, Watch(rules, |gw.accounts|));
      ContinuesStays(gw.Trace());
      ghost var before, was := gw.Trace(), gw.book;
      var loaded := log.Load();
      match loaded
      case Crashed => return Crashed;
      case Failed(e) => return Failed(e);
      case Done(events) =>
        var ks := KillSwitch.FromEvents(events);
        var halt := new HaltController(gw, ks, log, rules, pollAttempts, exists e | e in events :: e.flattened);
        var done := halt.SettleOpenOrders();
        KeepsOn(before, gw.Trace());
        ReflectsLater(rec.recs, was, gw.book);
        match done {
          case Crashed => return Crashed;
          case Failed(e) => return Failed(e);
          case Done(_) => return Done(Execution(HALTED, false, RunReason));
        }
    }

    method Execute(halt: HaltController, x: Inputs) returns (r: Outcome<Execution>)
      requires Valid() && row == ANCHORED && halt.gw == gw && halt.log == log && halt.rules == rules && ViewFits(x)
      requires halt.ks.Halted() ==> log.events != []
      modifies this`row, this`faults, gw, rec, log, halt`flattened, halt.ks
      ensures Valid() && Grew(old(rec.recs), rec.recs)
      ensures old(gw.Trace()) <= gw.Trace() && Progress(old(gw.book), gw.book)
      ensures gw.plan == old(gw.plan) || Replanned(gw.plan, run, old(gw.book))
      ensures old(Agreed(gw.Trace())) && PlanAgrees(old(gw.book), gw.plan) ==> Agreed(gw.Trace())
      ensures Orderly(old(gw.log), gw.log, gw.plan, false, Watch(rules, |old(gw.accounts)|))
      ensures gw.log != old(gw.log) || row == EXECUTED ==>
                PlannedHere(gw.plan, run, x, gw.accounts, |old(gw.accounts)|, gw.holdings, |old(gw.holdings)|,
                            old(gw.book), gw.book)
      ensures r.Done? ==> Answers(r.value, old(gw.book)) && r.value.reason != RunReason
      ensures r.Done? && r.value.advanced ==> row == EXECUTED
      ensures !r.Done? ==> Excused(r, x, ANCHORED, |old(gw.accounts)|, |old(gw.holdings)|) || Faults() > old(Faults())
    {
      hide Continues, IsTrace, Agreed, Orderly, Filled, Stored, PlanAgrees, Reflects, Evolves, Replanned, LogHolds;
      hide Grew, Progress, PlannedHere, AllCovered, CanPlan;
      Still(gw, rec, Watch(rules, |gw.accounts|));
      ghost var t0, b0 := gw.Trace(), gw.book;
      var clear := Cleared(halt);
      KeepsOn(t0, gw.Trace());
      ReflectsLater(rec.recs, b0, gw.book);
      match clear
      case Crashed => return Crashed;
      case Failed(e) => return Failed(e);
      case Done(open) =>
        if !open { return Done(Execution(row, false, SwitchEngaged(halt.ks.trigger.value))); }
        ghost var t1, b1, w, h := gw.Trace(), gw.book, Watch(rules, |gw.accounts|), |gw.holdings|;
        r := PlanAndDrive(halt, x);
        EvolvesIsProgress(b0, b1);
        ProgressIsTransitive(b0, b1, gw.book);
        OrderlyAnyway(old(gw.log), gw.log, gw.plan, false, w, Watch(rules, |old(gw.accounts)|));
        if gw.plan != old(gw.plan) { ReplannedBefore(gw.plan, run, b0, b1); }
        if Agreed(t0) && PlanAgrees(b0, gw.plan) { AgreesLater(gw.plan, b0, b1); }
        if gw.log != old(gw.log) || row == EXECUTED {
          PlannedSooner(gw.plan, run, x, gw.accounts, w.since, |old(gw.accounts)|, gw.holdings, h, |old(gw.holdings)|,
                        b0, b1, gw.book);
        }
        if r.Done? { AnswersBefore(r.value, b0, b1); }
    }

    /** The switch before anything is sent: true when execution may go on. */
    method Cleared(halt: HaltController) returns (r: Outcome<bool>)
      requires Valid() && row == ANCHORED && halt.gw == gw && halt.log == log && halt.rules == rules
      requires halt.ks.Halted() ==> log.events != []
      modifies this`row, gw, log, halt`flattened, halt.ks
      ensures gw.Quiet() && row in {ANCHORED, HALTED} && old(gw.accounts) <= gw.accounts
      ensures r == Done(true) ==> row == ANCHORED && !halt.ks.Halted()
      ensures r.Done? && row == HALTED ==> halt.ks.Halted()
      ensures r == Done(true) ==>
                |gw.accounts| == |old(gw.accounts)| + 1 && exists last, now :: Calm(gw.Reading(last, now), rules)
      ensures r == Done(false) ==> halt.ks.Halted() && gw.listed == Some({}) && log.events != []
      ensures r.Done? && !old(halt.ks.Halted()) ==> (r.value <==> row == ANCHORED)
      ensures !r.Done? ==> row == ANCHORED && (OwnFailure(r) || Faults() > old(Faults()))
      ensures old(Faults()) <= Faults()
    {
      hide Continues, Evolves, IsTrace, LogHolds;
      ContinuesStays(gw.Trace());
      if halt.ks.Halted() {
        var settled := halt.SettleOpenOrders();
        match settled
        case Crashed => return Crashed;
        case Failed(e) => return Failed(e);
        case Done(_) => return Done(false);
      }
      var last: map<int, int>, now: int := *, *;
      var checked := halt.Check(last, now);
      match checked
      case Crashed => return Crashed;
      case Failed(e) => return Failed(e);
      case Done(fired) =>
        if fired.Some? { row := HALTED; }
        return Done(fired.None?);
    }

    /** Plan from the account and the positions, and drive the plan. */
    method PlanAndDrive(halt: HaltController, x: Inputs) returns (r: Outcome<Execution>)
      requires Valid() && row == ANCHORED && halt.gw == gw && halt.log == log && halt.rules == rules && ViewFits(x)
      requires !halt.ks.Halted()
      modifies this`row, this`faults, gw, rec, log, halt`flattened, halt.ks
      ensures Valid() && Grew(old(rec.recs), rec.recs)
      ensures old(gw.Trace()) <= gw.Trace() && Progress(old(gw.book), gw.book)
      ensures gw.plan == old(gw.plan) || Replanned(gw.plan, run, old(gw.book))
      ensures old(Agreed(gw.Trace())) && PlanAgrees(old(gw.book), gw.plan) ==> Agreed(gw.Trace())
      ensures Orderly(old(gw.log), gw.log, gw.plan, false, Watch(rules, |old(gw.accounts)|))
      ensures gw.log != old(gw.log) || row == EXECUTED ==>
                PlannedHere(gw.plan, run, x, gw.accounts, |old(gw.accounts)|, gw.holdings, |old(gw.holdings)|,
                            old(gw.book), gw.book)
      ensures r.Done? ==> Answers(r.value, old(gw.book)) && r.value.reason != RunReason
      ensures r.Done? && r.value.advanced ==> row == EXECUTED
      ensures !r.Done? ==> Excused(r, x, ANCHORED, |old(gw.accounts)|, |old(gw.holdings)|) || Faults() > old(Faults())
      ensures old(gw.accounts) <= gw.accounts
    {
      hide Continues, IsTrace, Agreed, Orderly, Filled, Stored, PlanAgrees, Reflects, Evolves, Replanned, LogHolds;
      hide Grew, Progress, PlannedHere, AllCovered, Answers, CanPlan;
      Still(gw, rec, Watch(rules, |gw.accounts|));
      ghost var t0, b0 := gw.Trace(), gw.book;
      var planned := Targets(gw, run, x.book, x.market, x.sids);
      KeepsOn(t0, gw.Trace());
      ReflectsLater(rec.recs, b0, gw.book);
      match planned
      case Crashed => return Crashed;
      case Failed(e) => return Failed(e);
      case Done(targets) =>
        ghost var t1, b1, n, h := gw.Trace(), gw.book, gw.accounts, gw.holdings;
        ReplannedNames(targets, run, b0);
        gw.Begin(targets);
        if Agreed(t0) && PlanAgrees(b0, targets) {
          AgreesLater(targets, b0, b1);
          AgreedSnoc(t1, Moment(b1, targets));
        }
        ghost var t2 := gw.Trace();
        r := DrivePlan(halt, targets);
        OrderlyAnyway(old(gw.log), gw.log, targets, false, Watch(rules, |n|), Watch(rules, |old(gw.accounts)|));
        KeepsOn(t2, gw.Trace());
        EvolvesIsProgress(b0, b1);
        ProgressIsTransitive(b0, b1, gw.book);
        ProgressStays(b0);
        PlannedBefore(targets, run, x, n, |n| - 1, h, |h| - 1, b0, b1, gw.accounts, |old(gw.accounts)|, gw.holdings,
                      |old(gw.holdings)|, b0, gw.book);
        if r.Done? { AnswersBefore(r.value, b0, b1); }
    }

    /** Drive the plan, then mark the row if every name is complete with its evidence stored. */
    method DrivePlan(halt: HaltController, targets: seq<Target>) returns (r: Outcome<Execution>)
      requires Valid() && row == ANCHORED && halt.gw == gw && halt.log == log && halt.rules == rules
      requires gw.plan == targets && !halt.ks.Halted()
      modifies this`row, this`faults, gw, rec, log, halt`flattened, halt.ks
      ensures gw.Moved() && Valid() && Grew(old(rec.recs), rec.recs)
      ensures Orderly(old(gw.log), gw.log, gw.plan, false, Watch(rules, |old(gw.accounts)|))
      ensures r.Done? ==> Answers(r.value, old(gw.book)) && r.value.reason != RunReason
      ensures r.Done? && r.value.advanced ==> row == EXECUTED
      ensures !r.Done? ==>
                || OwnFailure(r) || (r == Failed(BadTarget) && exists t | t in gw.plan :: t.qty <= 0)
                || Faults() > old(Faults())
      ensures old(gw.accounts) <= gw.accounts
    {
      hide Progress, Grew, Filled, Stored, Reflects, Reports, AllReported, Orderly, Agreed, Continues, Evolves, IsTrace;
      hide LogHolds, Lacking;
      var driven := ExecuteBook(halt, rec, pollAttempts, targets);
      ghost var w := Watch(rules, |old(gw.accounts)|);
      OrderlyAnyway(old(gw.log), gw.log, targets, old(halt.ks.Halted()), w, w);
      match driven
      case Crashed => return Crashed;
      case Failed(e) => return Failed(e);
      case Done(outcomes) =>
        if halt.ks.Halted() {
          Others();
          return Done(Execution(row, false, SwitchEngaged(halt.ks.trigger.value)));
        }
        if exists o | o in outcomes :: !o.complete || o.blocked {
          ghost var o :| o in outcomes && (!o.complete || o.blocked);
          IncompleteLacks(outcomes, targets, old(gw.book), gw.book, rec.recs, o);
          return Done(Execution(ANCHORED, false, Incomplete));
        }
        CompleteIsDone(outcomes, targets, old(gw.book), halt.ks.Halted());
        CompleteIsStored(outcomes, targets, old(gw.book), gw.book, rec.recs, halt.ks.Halted());
        var evidence := EvidenceStored(targets);
        match evidence
        case Crashed => return Crashed;
        case Failed(e) => return Failed(e);
        case Done(_) =>
          Others();
          var marked := MarkExecuted();
          match marked
          case Crashed => return Crashed;
          case Failed(e) => return Failed(e);
          case Done(advanced) => return Done(Execution(EXECUTED, advanced, NoReason));
    }

    lemma CompleteIsDone(os: seq<LegOutcome>, ts: seq<Target>, start: Book, halted: bool)
      requires gw.Valid() && gw.plan == ts && forall o | o in os :: o.complete && !o.blocked
      requires AllReported(os, ts, start, gw.book, rec.recs, halted) && forall t | t in ts :: t.qty >= 0
      ensures Agreed(gw.Trace()) ==> Filled(ts, gw.book)
    {
      if Agreed(gw.Trace()) {
        AgreedNow(gw);
        CompleteIsFilled(os, ts, start, gw.book, rec.recs, halted);
      }
    }
  }

  /** Nothing has happened yet. */
  lemma Still(gw: Gateway, rec: Recorder, w: Watch)
    requires gw.Valid()
    ensures Continues(gw.Trace(), gw.Trace()) && Progress(gw.book, gw.book) && Grew(rec.recs, rec.recs)
    ensures forall ts :: Orderly(gw.log, gw.log, ts, false, w)
  {
    forall ts ensures Orderly(gw.log, gw.log, ts, false, w) { NothingIsOrderly(gw.log, ts, false, w); }
  }

  /** What stays true while the plan is the same. */
  lemma KeepsOn(a: seq<Moment>, b: seq<Moment>)
    requires Continues(a, b)
    ensures a <= b && (Agreed(a) <==> Agreed(b))
    ensures Progress(a[|a| - 1].book, b[|b| - 1].book)
  {
    ContinuesAgreed(a, b);
  }

  lemma OrderlyAnyway(
    before: seq<Entry>, after: seq<Entry>, ts: seq<Target>, engaged: bool, later: Watch, w: Watch)
    requires Orderly(before, after, ts, engaged, later) && later.rules == w.rules && later.since >= w.since
    ensures Orderly(before, after, ts, false, w)
  {
    hide Calm, SentAmong;
    var es, lims, mkts := after[|before|..], LimIds(ts), MktIds(ts);
    if es != [] {
      var n :| 1 <= n <= |es| && SentAmong(es[1..n], lims)
        && (n == |es| || (BookExecution.Cleared(es[n], later) && SentAmong(es[n + 1..], mkts)));
      assert BookExecution.Cleared(es[0], w) && (n < |es| ==> BookExecution.Cleared(es[n], w));
    }
  }

  // ----- any number of calls

  /** The stage called again and again, by whichever worker, after lost answers, failures and crashes: a row
      stored as executed has its evidence, and if every plan agreed when it was taken up the broker moved
      exactly the targets, to a micro-share. */
  method Replays(stage: Stage, inputs: seq<Inputs>)
    requires stage.Valid() && forall x | x in inputs :: ViewFits(x)
    modifies stage`row, stage`faults, stage.gw, stage.rec, stage.log
    ensures stage.Valid() && Grew(old(stage.rec.recs), stage.rec.recs)
    ensures old(stage.gw.Trace()) <= stage.gw.Trace() && Progress(old(stage.gw.book), stage.gw.book)
    ensures stage.row == EXECUTED ==> Stored(stage.gw.plan, stage.rec.recs)
    ensures stage.row == EXECUTED && Agreed(stage.gw.Trace()) && Honest(stage.gw.book) ==>
              forall t | t in stage.gw.plan :: t.qty - EPS <= FilledFor(stage.gw.book, t) <= t.qty
  {
    Still(stage.gw, stage.rec, Watch(stage.rules, |stage.gw.accounts|));
    hide Stage.Valid, Progress, Grew, Agreed, Honest, FilledFor, IsTrace, Orderly, Stored, LogHolds;
    for k := 0 to |inputs|
      invariant stage.Valid() && Grew(old(stage.rec.recs), stage.rec.recs)
      invariant old(stage.gw.Trace()) <= stage.gw.Trace() && Progress(old(stage.gw.book), stage.gw.book)
    {
      ghost var recs, b := stage.rec.recs, stage.gw.book;
      var _ := stage.ExecuteRun(inputs[k]);
      GrewIsTransitive(old(stage.rec.recs), recs, stage.rec.recs);
      ProgressIsTransitive(old(stage.gw.book), b, stage.gw.book);
    }
    if stage.row == EXECUTED { StoredMeansFilled(stage); }
  }

  lemma StoredMeansFilled(stage: Stage)
    requires stage.Valid() && stage.row == EXECUTED
    ensures Stored(stage.gw.plan, stage.rec.recs)
    ensures Agreed(stage.gw.Trace()) && Honest(stage.gw.book) ==>
              forall t | t in stage.gw.plan :: t.qty - EPS <= FilledFor(stage.gw.book, t) <= t.qty
  {
    var b := stage.gw.book;
    if Agreed(stage.gw.Trace()) && Honest(b) {
      AgreedNow(stage.gw);
      forall t | t in stage.gw.plan ensures t.qty - EPS <= FilledFor(b, t) <= t.qty {
        assert LimId(t) in stage.rec.recs && Safe(b, t);
        NoOverfill(b, t);
      }
    }
  }
}
