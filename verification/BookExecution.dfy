/** The shared phases of a whole rebalance. A step acts on one leg; what it may change is a relation on
    snapshots (plain values), so every phase is a loop over steps that only has to compare values. */
module BookExecution {
  import opened Wrappers
  import opened Broker
  import opened Evidence
  import opened Executor
  import opened Halting
  import opened Triggers

  /** The reading sets off this trigger. */
  ghost predicate Fired(reading: Option<Reading>, rules: Rules, t: Option<Trigger>) {
    && t.Some? && reading.Some?
    && var x := reading.value;
       x.prior > 0.0 && Evaluate(x.equity, x.prior, rules, x.last, x.now) == t
  }

  /** Where a run started: the broker's book, how many cancels had been asked for, and how often to poll. */
  datatype Origin = Origin(start: Book, since: nat, attempts: nat)

  /** Everything a run reads or writes, as a value, with the cancels asked for and the failures outside so far. */
  datatype Snap = Snap(
    trace: seq<Moment>, log: seq<Entry>, plan: seq<Target>, book: Book, recs: Records, halted: bool,
    legs: seq<LegState>, stop: bool, errors: seq<Error>,
    asked: seq<ClientId>, faults: nat, origin: Origin)

  /** The cancel of the leg's limit order was asked for in this run, and the leg was polled as often as allowed. */
  ghost predicate Chased(s: Snap, i: nat)
    requires i < |s.legs| && s.origin.since <= |s.asked|
  {
    LimId(s.legs[i].target) in s.asked[s.origin.since..] && s.legs[i].polls >= s.origin.attempts
  }

  /** Nothing a leg holds was read before the run, and an order is given up as unconfirmed only after the chase. */
  ghost predicate Traced(s: Snap) {
    && s.origin.since <= |s.asked| && Progress(s.origin.start, s.book)
    && (forall i | 0 <= i < |s.legs| ::
          && ReadSince(s.legs[i], s.origin.start)
          && (s.legs[i].error == Some(CancelNotConfirmed) ==> Chased(s, i)))
  }

  /** The leg is alive and its limit order is not terminal. */
  predicate Working(v: LegState) { v.error.None? && v.lim.Some? && !Terminal(v.lim.value.status) }

  ghost predicate Asked(s: Snap, i: nat)
    requires i < |s.legs| && s.origin.since <= |s.asked|
  {
    LimId(s.legs[i].target) in s.asked[s.origin.since..]
  }

  /** Of the first n legs, those with a working limit order have had its cancel asked for. */
  ghost predicate AskedTo(s: Snap, n: nat) {
    && n <= |s.legs| && s.origin.since <= |s.asked|
    && forall i | 0 <= i < n && Working(s.legs[i]) :: Asked(s, i)
  }

  /** Every working limit order has been chased. */
  ghost predicate Pursued(s: Snap) {
    s.origin.since <= |s.asked| && forall i | 0 <= i < |s.legs| && Working(s.legs[i]) :: Chased(s, i)
  }

  /** Without a new error nothing has failed outside either. */
  ghost predicate Quietly(s: Snap, t: Snap) { t.errors == s.errors ==> t.faults == s.faults }

  /** The two ends of a call that no failure outside has to explain: an order that would not confirm its cancel,
      and an account without a usable history. */
  predicate Blameless<T>(r: Outcome<T>) { r.Failed? && r.error in {CancelNotConfirmed, NoEvidence} }

  lemma QuietlyStays(s: Snap)
    ensures Quietly(s, s)
  {
  }

  lemma QuietlyIsTransitive(s: Snap, t: Snap, u: Snap)
    requires Quietly(s, t) && Quietly(t, u) && s.errors <= t.errors <= u.errors
    ensures Quietly(s, u)
  {
  }

  /** What may be wrong with one name although everything outside answers. */
  predicate OwnError(e: Error) { e in {NoReference, CancelNotConfirmed, Overfill} }

  /** A new error is a name's own, or it is matched by a failure outside. */
  ghost predicate Blamed(es: seq<Error>, faults: nat, more: seq<Error>, later: nat) {
    forall k | |es| <= k < |more| :: OwnError(more[k]) || (Outage(more[k]) && later > faults)
  }

  lemma BlamedStays(es: seq<Error>, faults: nat, later: nat)
    ensures Blamed(es, faults, es, later)
  {
  }

  lemma BlamedFor(es: seq<Error>, faults: nat, more: seq<Error>, later: nat, r: Outcome<()>)
    requires more == es + if r.Failed? then [r.error] else []
    requires r.Failed? ==> OwnError(r.error) || (Outage(r.error) && later > faults)
    ensures Blamed(es, faults, more, later)
  {
  }

  /** The counts only go up. */
  ghost predicate Counted(s: Snap, t: Snap) {
    && t.origin == s.origin && s.faults <= t.faults && s.asked <= t.asked && |t.legs| == |s.legs|
    && (forall i | 0 <= i < |s.legs| :: s.legs[i].polls <= t.legs[i].polls)
    && s.errors <= t.errors && Blamed(s.errors, s.faults, t.errors, t.faults)
  }

  lemma CountedStays(s: Snap)
    ensures Counted(s, s)
  {
  }

  lemma CountedIsTransitive(s: Snap, t: Snap, u: Snap)
    requires Counted(s, t) && Counted(t, u)
    ensures Counted(s, u)
  {
    forall k | |s.errors| <= k < |u.errors|
      ensures OwnError(u.errors[k]) || (Outage(u.errors[k]) && u.faults > s.faults)
    {
      if k < |t.errors| { assert t.errors[k] == u.errors[k]; }
    }
  }

  /** Stored evidence and every leg agree with the broker, every failure is reported, and only the switch
      blocks a name, and only a buy. */
  ghost predicate Sound(s: Snap) {
    && Reflects(s.recs, s.book) && (s.stop ==> s.errors != [])
    && (forall i | 0 <= i < |s.legs| ::
          && s.legs[i].target in s.plan && s.legs[i].target.qty > 0
          && Consistent(s.legs[i], s.book, s.recs)
          && (s.legs[i].error.Some? ==> s.errors != [])
          && (s.legs[i].blocked ==> s.halted && s.legs[i].target.side == BUY))
  }

  /** From a, with the switch engaged or not, to b: the switch is a latch, and what is noted after it was
      engaged is noted as such. */
  ghost predicate Heeds(a: seq<Entry>, engaged: bool, b: seq<Entry>, later: bool) {
    && a <= b && (engaged ==> later)
    && (forall k | |a| <= k < |b| :: (engaged ==> b[k].halted) && (b[k].halted ==> later))
    && (forall j, k | |a| <= j < k < |b| :: b[j].halted ==> b[k].halted)
  }

  /** At most one submission, under this id. */
  ghost predicate SentOne(before: seq<Entry>, after: seq<Entry>, c: ClientId, halted: bool) {
    after == before || exists o: Order :: o.cid == c && after == before + [Submission(o, halted)]
  }

  lemma HeedsOne(a: seq<Entry>, engaged: bool, b: seq<Entry>, c: ClientId)
    requires SentOne(a, b, c, engaged)
    ensures Heeds(a, engaged, b, engaged)
  {
  }

  lemma HeedsStays(a: seq<Entry>, engaged: bool, later: bool)
    requires engaged ==> later
    ensures Heeds(a, engaged, a, later)
  {
  }

  /** What a gate has to have looked at: the trigger rules, and how many account readings are too old. */
  datatype Watch = Watch(rules: Rules, since: nat)

  /** A gate that leaves the switch off rests on a new reading of the account that sets off nothing. */
  ghost predicate Cleared(e: Entry, w: Watch) {
    && e.Gated? && (e.reading.Some? ==> e.reading.value.nth >= w.since)
    && (!e.halted ==> e.reading.Some? && Calm(e.reading.value, w.rules))
  }

  /** A gate that engaged the switch did it for the first durable event or for what its reading set off, and left
      nothing working. */
  ghost predicate Engaged(e: Entry, listed: Option<set<ClientId>>, rules: Rules, t: Option<Trigger>, events: seq<Event>)
  {
    && listed == Some({}) && e.Gated?
    && (if e.events > 0 then events != [] && t == Some(events[0].trigger) else Fired(e.reading, rules, t))
  }

  ghost predicate GateNoted(before: seq<Entry>, after: seq<Entry>, halted: bool, w: Watch) {
    && |after| == |before| + 1 && before <= after
    && Cleared(after[|before|], w) && after[|before|].halted == halted
  }

  lemma HeedsGate(a: seq<Entry>, engaged: bool, b: seq<Entry>, later: bool, w: Watch)
    requires (engaged ==> later) && GateNoted(a, b, later, w)
    ensures Heeds(a, engaged, b, later)
  {
  }

  lemma HeedsIsTransitive(a: seq<Entry>, x: bool, b: seq<Entry>, y: bool, c: seq<Entry>, z: bool)
    requires Heeds(a, x, b, y) && Heeds(b, y, c, z)
    ensures Heeds(a, x, c, z)
  {
    forall k | |a| <= k < |c| ensures (x ==> c[k].halted) && (c[k].halted ==> z) {
      if k < |b| { assert c[k] == b[k]; }
    }
    forall j, k | |a| <= j < k < |c| && c[j].halted ensures c[k].halted {
      if j < |b| { assert c[j] == b[j]; }
      if k < |b| { assert c[k] == b[k]; }
    }
  }

  /** A step on leg i: the plan stays, the broker and the store only move forward, other legs are untouched. */
  ghost predicate StepOf(s: Snap, t: Snap, i: nat) {
    && t.plan == s.plan && Continues(s.trace, t.trace) && Progress(s.book, t.book) && Grew(s.recs, t.recs)
    && i < |s.legs| == |t.legs| && t.legs == s.legs[i := t.legs[i]] && t.legs[i].target == s.legs[i].target
    && Heeds(s.log, s.halted, t.log, t.halted) && (s.stop ==> t.stop) && Counted(s, t)
  }

  /** Any number of steps. The plan and the targets stay, and a name that failed is left alone. */
  ghost predicate Onward(s: Snap, t: Snap) {
    && t.plan == s.plan && Continues(s.trace, t.trace) && Progress(s.book, t.book) && Grew(s.recs, t.recs)
    && |t.legs| == |s.legs|
    && (forall i | 0 <= i < |s.legs| :: t.legs[i].target == s.legs[i].target)
    && (forall i | 0 <= i < |s.legs| && s.legs[i].error.Some? :: t.legs[i] == s.legs[i])
    && Heeds(s.log, s.halted, t.log, t.halted) && (s.stop ==> t.stop) && Counted(s, t)
  }

  lemma GrewIsTransitive(a: Records, b: Records, c: Records)
    requires Grew(a, b) && Grew(b, c)
    ensures Grew(a, c)
  {
  }

  lemma OnwardStays(s: Snap)
    requires s.trace != []
    ensures Onward(s, s)
  {
    CountedStays(s);
    hide Counted;
  }

  lemma OnwardCounts(s: Snap, t: Snap)
    requires Onward(s, t)
    ensures Counted(s, t) && s.faults <= t.faults && s.errors <= t.errors
  {
    hide Progress, Continues, Evolves, Grew, Heeds, Blamed;
  }

  lemma TurnCounts(s: Snap, t: Snap, u: Snap)
    requires Onward(s, t) && Onward(t, u)
    ensures s.faults <= t.faults <= u.faults && s.errors <= t.errors <= u.errors
  {
    OnwardCounts(s, t);
    OnwardCounts(t, u);
    hide *;
  }

  lemma StepCounts(s: Snap, t: Snap, u: Snap, i: nat)
    requires Onward(s, t) && StepOf(t, u, i)
    ensures s.faults <= t.faults <= u.faults && s.errors <= t.errors <= u.errors
  {
    hide Progress, Continues, Evolves, Grew, Heeds, Blamed;
  }

  lemma OnwardStep(s: Snap, t: Snap, u: Snap, i: nat)
    requires Onward(s, t) && StepOf(t, u, i) && t.legs[i].error.None?
    ensures Onward(s, u)
  {
    ProgressIsTransitive(s.book, t.book, u.book);
    ContinuesIsTransitive(s.trace, t.trace, u.trace);
    GrewIsTransitive(s.recs, t.recs, u.recs);
    HeedsIsTransitive(s.log, s.halted, t.log, t.halted, u.log, u.halted);
    CountedIsTransitive(s, t, u);
    hide Progress, Continues, Evolves, Grew, Heeds, Counted;
  }

  lemma OnwardIsTransitive(s: Snap, t: Snap, u: Snap)
    requires Onward(s, t) && Onward(t, u)
    ensures Onward(s, u)
  {
    ProgressIsTransitive(s.book, t.book, u.book);
    ContinuesIsTransitive(s.trace, t.trace, u.trace);
    GrewIsTransitive(s.recs, t.recs, u.recs);
    HeedsIsTransitive(s.log, s.halted, t.log, t.halted, u.log, u.halted);
    CountedIsTransitive(s, t, u);
    hide Progress, Continues, Evolves, Grew, Heeds, Counted;
  }

  /** A step that leaves its own leg consistent keeps the whole run sound. */
  lemma SoundStep(s: Snap, t: Snap, i: nat)
    requires Sound(s) && StepOf(s, t, i)
    requires Reflects(t.recs, t.book) && Consistent(t.legs[i], t.book, t.recs)
    requires (t.legs[i].error.Some? || t.stop) ==> t.errors != []
    requires t.legs[i].blocked ==> t.halted && t.legs[i].target.side == BUY
    ensures Sound(t)
  {
    assert s.halted ==> t.halted;
    hide Consistent, Progress, Continues, Evolves, Grew, Reflects, Heeds;
    forall j | 0 <= j < |t.legs| && j != i
      ensures Consistent(t.legs[j], t.book, t.recs)
    {
      ConsistentLater(s.legs[j], s.book, t.book, s.recs, t.recs);
    }
  }

  /** A step that read later than the run began, and gave its order up only after the chase, keeps the run traced. */
  lemma TracedStep(s: Snap, t: Snap, i: nat)
    requires Traced(s) && StepOf(s, t, i) && Reread(s.legs[i], t.legs[i], s.book)
    requires t.legs[i].error == Some(CancelNotConfirmed) ==> s.legs[i].error == t.legs[i].error || Chased(t, i)
    ensures Traced(t)
  {
    ProgressIsTransitive(s.origin.start, s.book, t.book);
    ReadSinceStep(s.legs[i], t.legs[i], s.origin.start, s.book);
    hide Progress, Continues, Evolves, Grew, Heeds, Reread, ReadSince, Blamed;
    forall j | 0 <= j < |t.legs| && t.legs[j].error == Some(CancelNotConfirmed) ensures Chased(t, j) {
      if s.legs[j].error == t.legs[j].error {
        assert Chased(s, j);
        ChasedLater(s, t, j);
      }
    }
  }

  lemma ChasedSame(s: Snap, t: Snap, i: nat)
    requires i < |s.legs| == |t.legs| && s.origin.since <= |s.asked| && Chased(s, i)
    requires t.asked == s.asked && t.origin == s.origin
    requires t.legs[i].target == s.legs[i].target && t.legs[i].polls == s.legs[i].polls
    ensures Chased(t, i)
  {
  }

  lemma ChasedLater(s: Snap, t: Snap, j: nat)
    requires j < |s.legs| == |t.legs| && s.origin.since <= |s.asked| && Counted(s, t)
    requires t.legs[j].target == s.legs[j].target && Chased(s, j)
    ensures Chased(t, j)
  {
    hide Blamed;
    var a, b := s.asked[s.origin.since..], t.asked[s.origin.since..];
    assert a <= b;
  }

  /** A step of somebody else, like time at the broker, keeps the run traced. */
  lemma TracedLater(s: Snap, t: Snap)
    requires Traced(s) && Counted(s, t) && Progress(s.book, t.book) && t.legs == s.legs
    ensures Traced(t)
  {
    ProgressIsTransitive(s.origin.start, s.book, t.book);
    hide Progress, ReadSince, Blamed;
    forall j | 0 <= j < |t.legs| && t.legs[j].error == Some(CancelNotConfirmed) ensures Chased(t, j) {
      ChasedLater(s, t, j);
    }
  }

  /** Consistency is about the orders and the residual. */
  lemma SameOrders(v: LegState, w: LegState, b: Book, recs: Records)
    requires Consistent(v, b, recs) && w == v.(blocked := w.blocked, price := w.price, error := w.error)
    ensures Consistent(w, b, recs)
  {
  }

  lemma NoneAsked(s: Snap)
    requires Traced(s)
    ensures AskedTo(s, 0)
  {
    hide Chased, ReadSince, Progress;
  }

  lemma AskedNow(all: seq<ClientId>, since: nat, c: ClientId)
    requires since <= |all|
    ensures c in (all + [c])[since..]
  {
    assert (all + [c])[since..][|all| - since] == c;
  }

  lemma AskedNext(s: Snap, t: Snap, i: nat)
    requires AskedTo(s, i) && StepOf(s, t, i) && (Working(t.legs[i]) ==> Asked(t, i))
    ensures AskedTo(t, i + 1)
  {
    hide Continues, Evolves, Progress, Grew, Heeds, Blamed;
    assert s.asked[s.origin.since..] <= t.asked[t.origin.since..];
    forall j | 0 <= j < i && Working(t.legs[j]) ensures Asked(t, j) { assert Asked(s, j); }
  }

  lemma AskedSkip(s: Snap, i: nat)
    requires AskedTo(s, i) && i < |s.legs| && s.legs[i].error.Some?
    ensures AskedTo(s, i + 1)
  {
  }

  /** Polled as often as allowed after its cancel was asked for, a working order has been chased. */
  lemma PolledIsPursued(s: Snap, t: Snap)
    requires AskedTo(s, |s.legs|) && Counted(s, t) && AllPolled(s.legs, t.legs)
    requires forall i | 0 <= i < |s.legs| :: s.legs[i].mkt.None?
    requires forall i | 0 <= i < |t.legs| && StillOpen(t.legs[i]) :: t.legs[i].polls >= t.origin.attempts
    ensures Pursued(t)
  {
    hide Blamed;
    assert s.asked[s.origin.since..] <= t.asked[t.origin.since..];
    forall i | 0 <= i < |t.legs| && Working(t.legs[i]) ensures Chased(t, i) {
      assert Polled(s.legs[i], t.legs[i]);
      assert Asked(s, i) && StillOpen(t.legs[i]);
    }
  }

  lemma PursuedAt(s: Snap, i: nat)
    requires Pursued(s) && i < |s.legs|
    ensures s.origin.since <= |s.asked| && (Working(s.legs[i]) ==> Chased(s, i))
  {
  }

  lemma PursuedStep(s: Snap, t: Snap, i: nat)
    requires Pursued(s) && StepOf(s, t, i) && s.legs[i].error.None? && t.legs[i].lim == s.legs[i].lim
    ensures Pursued(t)
  {
    hide Continues, Evolves, Progress, Grew, Heeds, Chased, Blamed;
    forall j | 0 <= j < |t.legs| && Working(t.legs[j]) ensures Chased(t, j) {
      assert Working(s.legs[j]);
      ChasedLater(s, t, j);
    }
  }

  /** After one round the legs of the first k waiting are polled once more, and those still open go on waiting. */
  ghost predicate RoundTo(vs: seq<LegState>, ws: seq<LegState>, waiting: seq<nat>, k: nat, still: seq<nat>) {
    && k <= |waiting| && |ws| == |vs|
    && forall i | 0 <= i < |vs| ::
         if i in waiting[..k] then ws[i].polls == vs[i].polls + 1 && (i in still <==> StillOpen(ws[i]))
         else ws[i] == vs[i] && i !in still
  }

  lemma RoundStart(vs: seq<LegState>, waiting: seq<nat>)
    ensures RoundTo(vs, vs, waiting, 0, [])
  {
  }

  lemma RoundNext(
    vs: seq<LegState>, ws: seq<LegState>, waiting: seq<nat>, k: nat, still: seq<nat>, w: LegState, more: seq<nat>)
    requires RoundTo(vs, ws, waiting, k, still) && k < |waiting| && waiting[k] < |vs| && waiting[k] !in waiting[..k]
    requires w.polls == ws[waiting[k]].polls + 1 && more == if StillOpen(w) then still + [waiting[k]] else still
    ensures RoundTo(vs, ws[waiting[k] := w], waiting, k + 1, more)
  {
    assert waiting[..k + 1] == waiting[..k] + [waiting[k]];
  }

  /** After some rounds: the waiting legs are those still open, each polled once per round. */
  ghost predicate Awaited(vs: seq<LegState>, ws: seq<LegState>, waiting: seq<nat>, rounds: nat) {
    && |ws| == |vs|
    && forall i | 0 <= i < |vs| ::
         (i in waiting <==> StillOpen(ws[i])) && (i in waiting ==> ws[i].polls == vs[i].polls + rounds)
  }

  lemma AwaitedRound(
    vs: seq<LegState>, ws: seq<LegState>, us: seq<LegState>, waiting: seq<nat>, still: seq<nat>, rounds: nat)
    requires Awaited(vs, ws, waiting, rounds) && RoundTo(ws, us, waiting, |waiting|, still)
    ensures Awaited(vs, us, still, rounds + 1)
  {
    assert waiting[..|waiting|] == waiting;
  }

  /** The evidence of a market order is stored, and the two fills are within the target. */
  ghost predicate Concluded(v: LegState, recs: Records) {
    v.error.None? && v.mkt.Some? ==>
      MktId(v.target) in recs && FilledOf(v.lim) + FilledOf(v.mkt) <= v.target.qty + EPS
  }

  ghost predicate ConcludedTo(s: Snap, n: nat) {
    n <= |s.legs| && forall i | 0 <= i < n :: Concluded(s.legs[i], s.recs)
  }

  lemma ConcludedNext(s: Snap, t: Snap, i: nat)
    requires ConcludedTo(s, i) && StepOf(s, t, i) && Concluded(t.legs[i], t.recs)
    ensures ConcludedTo(t, i + 1)
  {
    hide Continues, Evolves, Progress, Heeds, Counted;
  }

  lemma ConcludedSkip(s: Snap, i: nat)
    requires ConcludedTo(s, i) && i < |s.legs| && (s.legs[i].error.Some? || s.legs[i].mkt.None?)
    ensures ConcludedTo(s, i + 1)
  {
  }

  // ----- phase results, on the legs

  predicate AllFresh(vs: seq<LegState>) {
    forall i | 0 <= i < |vs| :: vs[i].mkt.None? && !vs[i].pending && vs[i].error.None? && !vs[i].blocked
  }

  /** Which names are open for submission: no limit order found, and not blocked by the switch. */
  predicate Opened(vs: seq<LegState>, open: seq<bool>) {
    && |open| == |vs|
    && forall i | 0 <= i < |vs| ::
         && vs[i].mkt.None? && !vs[i].pending
         && (if open[i] then vs[i].lim.None? else vs[i].lim.Some? || vs[i].blocked)
  }

  predicate OpenedSoFar(vs: seq<LegState>, ws: seq<LegState>, open: seq<bool>) {
    && |open| <= |vs| == |ws|
    && (forall i | 0 <= i < |vs| :: ws[i] == vs[i].(blocked := ws[i].blocked))
    && (forall i | 0 <= i < |open| :: if open[i] then ws[i].lim.None? else ws[i].lim.Some? || ws[i].blocked)
  }

  lemma OpenedNone(vs: seq<LegState>)
    ensures OpenedSoFar(vs, vs, [])
  {
  }

  lemma OpenedAll(vs: seq<LegState>, ws: seq<LegState>, open: seq<bool>)
    requires AllFresh(vs) && OpenedSoFar(vs, ws, open) && |open| == |vs|
    ensures Opened(ws, open) && forall i | 0 <= i < |ws| :: ws[i].error.None?
  {
  }

  lemma OpenedNext(vs: seq<LegState>, ws: seq<LegState>, open: seq<bool>, w: LegState, o: bool)
    requires OpenedSoFar(vs, ws, open) && |open| < |vs|
    requires w == ws[|open|].(blocked := w.blocked)
    requires if o then w.lim.None? else w.lim.Some? || w.blocked
    ensures OpenedSoFar(vs, ws[|open| := w], open + [o])
  {
  }

  lemma OpenedLength(vs: seq<LegState>, open: seq<bool>)
    requires Opened(vs, open)
    ensures |open| == |vs|
  {
  }

  lemma OpenedResolve(vs: seq<LegState>, open: seq<bool>, i: nat, w: LegState)
    requires Opened(vs, open) && i < |vs| && w == vs[i].(price := w.price, error := w.error)
    ensures Opened(vs[i := w], open)
  {
  }

  predicate AllSubmitted(vs: seq<LegState>) { forall i | 0 <= i < |vs| :: Submitted(vs[i]) }

  ghost predicate AllSettled(vs: seq<LegState>, recs: Records) { forall i | 0 <= i < |vs| :: Settled(vs[i], recs) }

  ghost predicate AllFinished(vs: seq<LegState>, recs: Records, stop: bool) {
    forall i | 0 <= i < |vs| :: Finished(vs[i], recs, stop)
  }

  lemma SettledLater(v: LegState, recs: Records, more: Records)
    requires Settled(v, recs) && Grew(recs, more)
    ensures Settled(v, more)
  {
  }

  lemma FinishedLater(v: LegState, recs: Records, more: Records, stop: bool, later: bool)
    requires Finished(v, recs, stop) && Grew(recs, more) && (stop ==> later)
    ensures Finished(v, more, later)
  {
  }

  /** A leg with a market order stays finished when only its error may be new. */
  lemma FinishedAgain(v: LegState, w: LegState, recs: Records, more: Records, stop: bool, later: bool)
    requires Finished(v, recs, stop) && Grew(recs, more) && v.mkt.Some? && w == v.(error := w.error) && v.error.None?
    ensures Finished(w, more, later)
  {
  }

  predicate AllPolled(vs: seq<LegState>, ws: seq<LegState>) {
    |vs| == |ws| && forall i | 0 <= i < |vs| :: Polled(vs[i], ws[i])
  }

  lemma PolledStays(vs: seq<LegState>)
    ensures AllPolled(vs, vs)
  {
  }

  lemma PolledNext(vs: seq<LegState>, ws: seq<LegState>, i: nat, w: LegState)
    requires AllPolled(vs, ws) && i < |ws| && Polled(ws[i], w)
    ensures AllPolled(vs, ws[i := w])
  {
  }

  lemma PolledIsTransitive(vs: seq<LegState>, ws: seq<LegState>, us: seq<LegState>)
    requires AllPolled(vs, ws) && AllPolled(ws, us)
    ensures AllPolled(vs, us)
  {
    forall i | 0 <= i < |vs| ensures Polled(vs[i], us[i]) { assert Polled(vs[i], ws[i]) && Polled(ws[i], us[i]); }
  }

  /** Distinct legs, in order, that each wait on an order. */
  predicate Waiting(vs: seq<LegState>, ids: seq<nat>) {
    && (forall k | 0 <= k < |ids| :: ids[k] < |vs| && Waits(vs[ids[k]]))
    && (forall j, k | 0 <= j < k < |ids| :: ids[j] < ids[k])
  }

  lemma WaitingDistinct(vs: seq<LegState>, ids: seq<nat>, k: nat)
    requires Waiting(vs, ids) && k < |ids|
    ensures ids[k] < |vs| && ids[k] !in ids[..k]
  {
  }

  lemma WaitingAt(vs: seq<LegState>, ids: seq<nat>, k: nat)
    requires Waiting(vs, ids) && k < |ids|
    ensures ids[k] < |vs| && Waits(vs[ids[k]])
  {
  }

  lemma WaitingDrop(vs: seq<LegState>, a: seq<nat>, b: seq<nat>, ws: seq<LegState>)
    requires Waiting(vs, a + b) && b != [] && b[0] < |vs| == |ws| && ws == vs[b[0] := ws[b[0]]]
    ensures Waiting(ws, a + b[1..])
  {
    var s, t := a + b, a + b[1..];
    assert s[|a|] == b[0];
    assert forall k | 0 <= k < |t| :: t[k] == s[if k < |a| then k else k + 1];
  }

  lemma WaitingKeep(vs: seq<LegState>, a: seq<nat>, b: seq<nat>, ws: seq<LegState>)
    requires Waiting(vs, a + b) && b != [] && b[0] < |vs| == |ws| && ws == vs[b[0] := ws[b[0]]]
    requires Waits(ws[b[0]])
    ensures Waiting(ws, a + [b[0]] + b[1..])
  {
    assert a + [b[0]] + b[1..] == a + b;
  }

  lemma PolledKeeps(v: LegState, w: LegState, recs: Records, more: Records)
    requires Polled(v, w) && Grew(recs, more)
    ensures Submitted(v) ==> Submitted(w)
    ensures Settled(v, recs) ==> Settled(w, more)
    ensures forall stop :: Finished(v, recs, stop) ==> Finished(w, more, stop)
  {
  }

  /** Sending the residual changes the market order, the error and the blocked mark, nothing else. */
  predicate MarketSent(v: LegState, w: LegState, done: bool) {
    && w == v.(mkt := w.mkt, blocked := w.blocked, error := w.error)
    && (done ==> w.error.Some? || w.mkt.Some? || w.blocked)
  }

  lemma MarketFinishes(v: LegState, w: LegState, recs: Records, more: Records)
    requires Settled(v, recs) && Grew(recs, more) && v.error.None? && MarketSent(v, w, true)
    requires v.pending
    ensures Finished(w, more, false)
  {
  }

  // ----- what was sent

  /** Only submissions, whose ids are some of ids in that order: each at most once if they are distinct. */
  ghost predicate SentAmong(es: seq<Entry>, ids: seq<ClientId>)
    decreases |ids|
  {
    if es == [] then true
    else if ids == [] then false
    else
      var e, rest := es[|es| - 1], ids[..|ids| - 1];
      || (e.Submission? && e.order.cid == ids[|ids| - 1] && SentAmong(es[..|es| - 1], rest))
      || SentAmong(es, rest)
  }

  lemma {:induction false} SentMore(es: seq<Entry>, ids: seq<ClientId>, more: seq<ClientId>)
    requires SentAmong(es, ids)
    ensures SentAmong(es, ids + more)
    decreases |more|
  {
    if more == [] {
      assert ids + more == ids;
    } else {
      var all := ids + more;
      assert all[..|all| - 1] == ids + more[..|more| - 1];
      SentMore(es, ids, more[..|more| - 1]);
    }
  }

  lemma SentNext(es: seq<Entry>, ids: seq<ClientId>, e: Entry, c: ClientId)
    requires SentAmong(es, ids) && e.Submission? && e.order.cid == c
    ensures SentAmong(es + [e], ids + [c])
  {
    assert (es + [e])[..|es|] == es && (ids + [c])[..|ids|] == ids;
  }

  /** The log went on by submissions among ids. */
  ghost predicate Adds(start: seq<Entry>, now: seq<Entry>, ids: seq<ClientId>) {
    start <= now && SentAmong(now[|start|..], ids)
  }

  lemma AddsNothing(start: seq<Entry>, ids: seq<ClientId>)
    ensures Adds(start, start, ids)
  {
  }

  lemma AddsAll(start: seq<Entry>, now: seq<Entry>, ids: seq<ClientId>, i: nat)
    requires i <= |ids| && Adds(start, now, ids[..i])
    ensures Adds(start, now, ids)
  {
    assert ids == ids[..i] + ids[i..];
    SentMore(now[|start|..], ids[..i], ids[i..]);
  }

  /** A step that sent at most the request of leg i. */
  lemma AddsStep(start: seq<Entry>, before: seq<Entry>, now: seq<Entry>, ids: seq<ClientId>, i: nat, halted: bool)
    requires i < |ids| && Adds(start, before, ids[..i]) && SentOne(before, now, ids[i], halted)
    ensures Adds(start, now, ids[..i + 1]) && Adds(start, now, ids)
  {
    var es := before[|start|..];
    assert ids[..i + 1] == ids[..i] + [ids[i]];
    if now == before {
      SentMore(es, ids[..i], [ids[i]]);
    } else {
      var e := now[|before|];
      assert e.Submission? && now == before + [e];
      SentNext(es, ids[..i], e, ids[i]);
      assert now[|start|..] == es + [e];
    }
    AddsAll(start, now, ids, i + 1);
  }

  ghost predicate Distinct(ids: seq<ClientId>) { forall i, j | 0 <= i < j < |ids| :: ids[i] != ids[j] }

  /** Every submission carries one of the ids, and no two the same. */
  lemma {:induction false} SentOnce(es: seq<Entry>, ids: seq<ClientId>)
    requires SentAmong(es, ids) && Distinct(ids)
    ensures forall e | e in es :: e.Submission? && e.order.cid in ids
    ensures forall j, k | 0 <= j < k < |es| :: es[j].order.cid != es[k].order.cid
    decreases |ids|
  {
    if es != [] {
      var front, rest := es[..|es| - 1], ids[..|ids| - 1];
      if SentAmong(es, rest) {
        SentOnce(es, rest);
      } else {
        SentOnce(front, rest);
        assert es == front + [es[|es| - 1]];
      }
    }
  }

  /** A gate, then limit requests; a gate, then market requests. The run may end after any of these. */
  ghost predicate Phased(es: seq<Entry>, lims: seq<ClientId>, mkts: seq<ClientId>, w: Watch) {
    || es == []
    || (&& Cleared(es[0], w)
        && exists n | 1 <= n <= |es| ::
             && SentAmong(es[1..n], lims)
             && (n == |es| || (Cleared(es[n], w) && SentAmong(es[n + 1..], mkts))))
  }

  lemma NothingSent(lims: seq<ClientId>, mkts: seq<ClientId>, w: Watch)
    ensures Phased([], lims, mkts, w)
  {
  }

  /** Nothing, or a gate and then requests with these ids. */
  ghost predicate LimitsSent(before: seq<Entry>, after: seq<Entry>, lims: seq<ClientId>, w: Watch) {
    && before <= after
    && (after != before ==> Cleared(after[|before|], w) && SentAmong(after[|before| + 1..], lims))
  }

  lemma NoLimits(before: seq<Entry>, lims: seq<ClientId>, w: Watch)
    ensures LimitsSent(before, before, lims, w)
  {
  }

  lemma SomeLimits(start: seq<Entry>, a: seq<Entry>, x: bool, b: seq<Entry>, lims: seq<ClientId>, w: Watch)
    requires GateNoted(start, a, x, w) && Adds(a, b, lims)
    ensures LimitsSent(start, b, lims, w) && b != start
  {
    hide Cleared;
    assert b[|start|] == a[|start|];
  }

  lemma PhasedOne(start: seq<Entry>, b: seq<Entry>, lims: seq<ClientId>, mkts: seq<ClientId>, w: Watch)
    requires LimitsSent(start, b, lims, w)
    ensures start <= b && Phased(b[|start|..], lims, mkts, w)
  {
    hide Cleared;
    var es := b[|start|..];
    if es != [] {
      assert es[1..|es|] == b[|start| + 1..];
    }
  }

  lemma PhasedBoth(
    start: seq<Entry>, b: seq<Entry>, c: seq<Entry>, y: bool, d: seq<Entry>,
    lims: seq<ClientId>, mkts: seq<ClientId>, w: Watch, later: Watch)
    requires LimitsSent(start, b, lims, w) && b != start && GateNoted(b, c, y, later) && Adds(c, d, mkts)
    requires later.rules == w.rules && later.since >= w.since
    ensures start <= d && Phased(d[|start|..], lims, mkts, w)
  {
    assert Cleared(c[|b|], w);
    hide Cleared;
    var es := d[|start|..];
    var n := |b| - |start|;
    assert es[1..n] == b[|start| + 1..] && es[n + 1..] == d[|c|..];
  }

  /** The first i names have a price if they are open; the others have not failed. */
  ghost predicate ResolvedTo(s: Snap, open: seq<bool>, i: nat) {
    && i <= |s.legs| && Opened(s.legs, open)
    && (forall j | i <= j < |s.legs| :: s.legs[j].error.None?)
    && (forall j | 0 <= j < i && open[j] :: s.legs[j].error.Some? || s.legs[j].price.Some?)
  }

  lemma ResolvedNone(s: Snap, open: seq<bool>)
    requires Opened(s.legs, open) && forall j | 0 <= j < |s.legs| :: s.legs[j].error.None?
    ensures ResolvedTo(s, open, 0)
  {
  }

  lemma ResolvedAll(s: Snap, open: seq<bool>)
    requires ResolvedTo(s, open, |s.legs|)
    ensures |open| == |s.legs|
    ensures forall j | 0 <= j < |s.legs| && open[j] :: s.legs[j].error.Some? || s.legs[j].price.Some?
  {
  }

  /** The first i names have their limit order or were passed over; the others are open or need none. */
  ghost predicate SubmittedTo(s: Snap, open: seq<bool>, i: nat) {
    && i <= |s.legs| == |open|
    && (forall j | 0 <= j < i :: Submitted(s.legs[j]))
    && (forall j | i <= j < |s.legs| ::
          var v := s.legs[j];
          && v.mkt.None? && !v.pending
          && (if open[j] then v.lim.None? && (v.error.Some? || v.price.Some?) else v.lim.Some? || v.blocked))
  }

  lemma SubmittedNone(s: Snap, open: seq<bool>)
    requires Opened(s.legs, open)
    requires forall i | 0 <= i < |s.legs| && open[i] :: s.legs[i].error.Some? || s.legs[i].price.Some?
    ensures SubmittedTo(s, open, 0)
  {
  }

  lemma SubmittedAll(s: Snap, open: seq<bool>)
    requires SubmittedTo(s, open, |s.legs|)
    ensures AllSubmitted(s.legs)
  {
  }

  /** The limit orders of the first i names are confirmed, and no market order exists yet. */
  ghost predicate ClosedTo(s: Snap, i: nat) {
    && i <= |s.legs|
    && (forall j | 0 <= j < |s.legs| :: s.legs[j].mkt.None?)
    && (forall j | 0 <= j < i :: Settled(s.legs[j], s.recs))
    && (forall j | i <= j < |s.legs| :: Submitted(s.legs[j]))
  }

  lemma ClosedNone(s: Snap)
    requires AllSubmitted(s.legs)
    ensures ClosedTo(s, 0)
  {
    SubmittedHasNoMarket(s.legs);
  }

  lemma ClosedNext(s: Snap, t: Snap, i: nat)
    requires StepOf(s, t, i) && ClosedTo(s, i) && Settled(t.legs[i], t.recs) && t.legs[i].mkt.None?
    ensures ClosedTo(t, i + 1)
  {
    hide Settled, Submitted, Grew, Heeds, Continues, Evolves, Progress;
    forall j | 0 <= j < i ensures Settled(t.legs[j], t.recs) {
      SettledLater(s.legs[j], s.recs, t.recs);
    }
  }

  lemma ClosedAll(s: Snap)
    requires ClosedTo(s, |s.legs|)
    ensures AllSettled(s.legs, s.recs)
  {
  }

  /** The residuals of the first i names have been dealt with. */
  ghost predicate MarketedTo(s: Snap, i: nat) {
    && i <= |s.legs|
    && (forall j | 0 <= j < i :: Finished(s.legs[j], s.recs, s.stop))
    && (forall j | i <= j < |s.legs| :: s.legs[j].mkt.None? && Settled(s.legs[j], s.recs))
  }

  lemma MarketedAll(s: Snap)
    requires MarketedTo(s, |s.legs|)
    ensures AllFinished(s.legs, s.recs, s.stop)
  {
  }

  lemma MarketedNext(s: Snap, t: Snap, i: nat)
    requires StepOf(s, t, i) && MarketSent(s.legs[i], t.legs[i], true) && MarketedTo(s, i)
    requires s.legs[i].error.None? && s.legs[i].pending
    ensures MarketedTo(t, i + 1)
  {
    hide Finished, Settled, Grew, Heeds, Continues, Evolves, Progress, MarketSent;
    MarketFinishes(s.legs[i], t.legs[i], s.recs, t.recs);
    GrewStays(t.recs);
    FinishedLater(t.legs[i], t.recs, t.recs, false, t.stop);
    forall j | i < j < |s.legs| ensures Settled(t.legs[j], t.recs) {
      SettledLater(s.legs[j], s.recs, t.recs);
    }
    forall j | 0 <= j < i ensures Finished(t.legs[j], t.recs, t.stop) {
      FinishedLater(s.legs[j], s.recs, t.recs, s.stop, t.stop);
    }
  }

  class BookRun {
    const gw: Gateway
    const ks: KillSwitch
    const rec: Recorder
    const halt: HaltController
    const pollAttempts: nat
    const legs: seq<Leg>
    ghost const origin: Origin
    var errors: seq<Error>
    var stopExposure: bool

    constructor (rec: Recorder, halt: HaltController, pollAttempts: nat, legs: seq<Leg>, ghost start: Book)
      ensures gw == halt.gw && ks == halt.ks && this.rec == rec && this.halt == halt && this.legs == legs
      ensures this.pollAttempts == pollAttempts && errors == [] && !stopExposure
      ensures origin == Origin(start, |halt.gw.asked|, pollAttempts)
    {
      gw, ks, this.rec, this.halt := halt.gw, halt.ks, rec, halt;
      this.pollAttempts, this.legs := pollAttempts, legs;
      errors, stopExposure := [], false;
      origin := Origin(start, |halt.gw.asked|, pollAttempts);
    }

    ghost function Faults(): nat
      reads gw, rec, halt.log
    {
      gw.faults + rec.faults + halt.log.faults
    }

    ghost function Views(): (vs: seq<LegState>)
      reads legs
      ensures |vs| == |legs| && forall i | 0 <= i < |legs| :: vs[i] == legs[i].View()
    {
      seq(|legs|, i requires 0 <= i < |legs| reads legs => legs[i].View())
    }

    ghost function Now(): (s: Snap)
      reads this, gw, ks, rec, halt.log, legs
      ensures s == Snap(gw.Trace(), gw.log, gw.plan, gw.book, rec.recs, ks.Halted(), Views(), stopExposure, errors,
                        gw.asked, Faults(), origin)
    {
      Snap(gw.Trace(), gw.log, gw.plan, gw.book, rec.recs, ks.Halted(), Views(), stopExposure, errors,
           gw.asked, Faults(), origin)
    }

    ghost function LimIds(): (ids: seq<ClientId>) {
      seq(|legs|, i requires 0 <= i < |legs| => LimId(legs[i].target))
    }

    ghost function MktIds(): (ids: seq<ClientId>) {
      seq(|legs|, i requires 0 <= i < |legs| => MktId(legs[i].target))
    }

    /** The invariant of every phase. */
    ghost predicate Steady()
      reads this, gw, ks, rec, halt.log, legs
    {
      && halt.gw == gw && halt.ks == ks && origin.attempts == pollAttempts
      && gw.Valid() && rec.Valid() && Sound(Now()) && Traced(Now())
      && (forall i, j | 0 <= i < j < |legs| :: legs[i] != legs[j])
    }

    /** A failing step is the name's own error; after an overfill no residual is sent any more. */
    method Guard(leg: Leg, r: Outcome<()>)
      requires leg in legs
      modifies leg`error, this`errors, this`stopExposure
      ensures leg.View() == old(leg.View()).(error := leg.error)
      ensures !r.Failed? ==> errors == old(errors) && stopExposure == old(stopExposure) && leg.error == old(leg.error)
      ensures r.Failed? ==> errors == old(errors) + [r.error] && leg.error == Some(r.error)
      ensures r.Failed? ==> stopExposure == (old(stopExposure) || r.error == Overfill)
    {
      if r.Failed? {
        leg.error := Some(r.error);
        errors := errors + [r.error];
        if r.error == Overfill {
          stopExposure := true;
        }
      }
    }

    lemma SteadyIsTraced()
      requires Steady()
      ensures Traced(Now()) && origin.attempts == pollAttempts
    {
    }

    /** What the invariant says of one leg. */
    lemma Facts(i: nat)
      requires Steady() && i < |legs|
      ensures halt.gw == gw && halt.ks == ks && gw.Valid() && rec.Valid() && Reflects(rec.recs, gw.book)
      ensures legs[i].target in gw.plan && legs[i].target.qty > 0 && Consistent(legs[i].View(), gw.book, rec.recs)
      ensures legs[i].error.Some? || stopExposure ==> errors != []
      ensures legs[i].blocked ==> ks.Halted() && legs[i].target.side == BUY
      ensures forall j | 0 <= j < |legs| && j != i :: legs[j] != legs[i]
      ensures origin.since <= |gw.asked|
    {
      hide Consistent, Reflects, IsTrace, LogHolds, ReadSince, Chased;
      assert Now().legs[i] == legs[i].View();
    }

    /** What a method that touched only leg i has to show. */
    twostate lemma Restore(i: nat)
      requires i < |legs| && old(Steady())
      requires gw.Later() && rec.Valid() && Reflects(rec.recs, gw.book) && Grew(old(rec.recs), rec.recs)
      requires forall j | 0 <= j < |legs| && j != i :: legs[j].View() == old(legs[j].View())
      requires Consistent(legs[i].View(), gw.book, rec.recs)
      requires (old(stopExposure) ==> stopExposure) && old(errors) <= errors
      requires (legs[i].error.Some? || stopExposure) ==> errors != []
      requires legs[i].blocked ==> ks.Halted() && legs[i].target.side == BUY
      requires Heeds(old(gw.log), old(ks.Halted()), gw.log, ks.Halted())
      requires Reread(old(legs[i].View()), legs[i].View(), old(gw.book))
      requires old(legs[i].View().polls) <= legs[i].View().polls && old(Faults()) <= Faults()
      requires Blamed(old(errors), old(Faults()), errors, Faults())
      requires legs[i].error == Some(CancelNotConfirmed) ==> old(legs[i].error) == legs[i].error || Chased(Now(), i)
      ensures Steady() && StepOf(old(Now()), Now(), i)
    {
      LaterProgress(old(gw.Trace()), gw.Trace());
      hide Consistent, Progress, Grew, Reflects, Sound, Traced, Heeds, Continues, Evolves, Reread, Chased;
      assert Views() == old(Views())[i := legs[i].View()];
      hide Blamed;
      assert Counted(old(Now()), Now());
      hide Counted;
      assert StepOf(old(Now()), Now(), i);
      SoundStep(old(Now()), Now(), i);
      TracedStep(old(Now()), Now(), i);
    }

    // phase A

    method OpenStep(i: nat) returns (open: bool)
      requires Steady() && i < |legs|
      modifies legs[i]
      ensures Steady() && StepOf(old(Now()), Now(), i)
      ensures Now().legs[i] == old(Now().legs[i]).(blocked := Now().legs[i].blocked)
      ensures open ==> Now().legs[i].lim.None? && Now().legs[i].blocked == old(Now().legs[i].blocked)
      ensures !open ==> Now().legs[i].lim.Some? || Now().legs[i].blocked
    {
      hide IsTrace, Continues, Evolves, Heeds, Progress, Reflects, LogHolds, Traced, Chased, Counted, Blamed;
      hide Steady, Sound, Consistent, StepOf;
      Facts(i);
      open := legs[i].OpenForSubmit(ks);
      SameOrders(old(legs[i].View()), legs[i].View(), gw.book, rec.recs);
      ContinuesStays(gw.Trace());
      HeedsStays(gw.log, ks.Halted(), ks.Halted());
      RereadStays(old(legs[i].View()), legs[i].View(), gw.book);
      BlamedStays(errors, old(Faults()), Faults());
      Restore(i);
    }

    method ResolveStep(i: nat) returns (r: Outcome<()>)
      requires Steady() && i < |legs| && Now().legs[i].error.None?
      modifies rec`faults, legs[i], this`errors, this`stopExposure
      ensures Steady() && StepOf(old(Now()), Now(), i) && !r.Failed?
      ensures Now().legs[i] == old(Now().legs[i]).(price := Now().legs[i].price, error := Now().legs[i].error)
      ensures r.Done? ==> Now().legs[i].error.Some? || Now().legs[i].price.Some?
      ensures r.Crashed? ==> Now().faults > old(Now().faults)
    {
      hide IsTrace, Continues, Evolves, Heeds, Progress, Reflects, LogHolds, Traced, Chased, Counted, Blamed;
      hide Steady, Sound, Consistent, StepOf;
      Facts(i);
      var s := legs[i].ResolveReference(rec);
      Guard(legs[i], s);
      SameOrders(old(legs[i].View()), legs[i].View(), gw.book, rec.recs);
      ContinuesStays(gw.Trace());
      HeedsStays(gw.log, ks.Halted(), ks.Halted());
      RereadStays(old(legs[i].View()), legs[i].View(), gw.book);
      BlamedFor(old(errors), old(Faults()), errors, Faults(), s);
      Restore(i);
      return if s.Crashed? then Crashed else Done(());
    }

    method SubmitStep(i: nat) returns (r: Outcome<()>)
      requires Steady() && i < |legs|
      requires var v := Now().legs[i];
               v.error.None? && v.mkt.None? && !v.pending && v.lim.None? && v.price.Some?
      modifies gw`book, gw`history, gw`faults, gw`looks, gw`log, gw`listed, rec, legs[i], this`errors, this`stopExposure
      ensures Steady() && StepOf(old(Now()), Now(), i) && !r.Failed?
      ensures r.Done? ==> Submitted(Now().legs[i])
      ensures SentOne(old(gw.log), gw.log, LimId(legs[i].target), ks.Halted())
      ensures r.Crashed? ==> Now().faults > old(Now().faults)
    {
      hide IsTrace, Continues, Evolves, Heeds, Progress, Reflects, LogHolds, Traced, Chased, Counted, Blamed;
      hide Steady, Sound, Consistent, StepOf;
      Facts(i);
      var s := legs[i].SubmitLimit(gw, ks, rec);
      ghost var v := legs[i].View();
      Guard(legs[i], s);
      SameOrders(v, legs[i].View(), gw.book, rec.recs);
      HeedsOne(old(gw.log), ks.Halted(), gw.log, LimId(legs[i].target));
      BlamedFor(old(errors), old(Faults()), errors, Faults(), s);
      Restore(i);
      return if s.Crashed? then Crashed else Done(());
    }

    // phase C

    method CancelStep(i: nat) returns (r: Outcome<()>)
      requires Steady() && i < |legs| && Now().legs[i].error.None? && Submitted(Now().legs[i])
      modifies gw`book, gw`history, gw`faults, gw`looks, gw`asked, legs[i], this`errors, this`stopExposure
      ensures Steady() && StepOf(old(Now()), Now(), i) && !r.Failed?
      ensures Submitted(Now().legs[i])
      ensures r.Crashed? ==> Now().faults > old(Now().faults)
      ensures r.Done? && Working(Now().legs[i]) ==> Asked(Now(), i)
      ensures r.Done? ==> Quietly(old(Now()), Now())
    {
      hide IsTrace, Continues, Evolves, Heeds, Progress, Reflects, LogHolds, Traced, Chased, Counted, Blamed;
      hide Steady, Sound, Consistent, StepOf;
      Facts(i);
      var s := legs[i].CancelLimit(gw, rec.recs);
      AskedNow(old(gw.asked), origin.since, LimId(legs[i].target));
      LaterProgress(old(gw.Trace()), gw.Trace());
      ReflectsLater(rec.recs, old(gw.book), gw.book);
      ghost var v := legs[i].View();
      Guard(legs[i], s);
      SameOrders(v, legs[i].View(), gw.book, rec.recs);
      HeedsStays(gw.log, ks.Halted(), ks.Halted());
      BlamedFor(old(errors), old(Faults()), errors, Faults(), s);
      Restore(i);
      return if s.Crashed? then Crashed else Done(());
    }

    // phase D

    method CloseStep(i: nat) returns (r: Outcome<()>)
      requires Steady() && i < |legs| && Now().legs[i].error.None? && Submitted(Now().legs[i])
      requires Working(Now().legs[i]) ==> Chased(Now(), i)
      modifies rec, legs[i], this`errors, this`stopExposure
      ensures Steady() && StepOf(old(Now()), Now(), i) && !r.Failed?
      ensures r.Done? ==> Settled(Now().legs[i], Now().recs)
      ensures Now().legs[i].mkt == old(Now().legs[i].mkt)
      ensures r.Crashed? ==> Now().faults > old(Now().faults)
      ensures Now().legs[i].lim == old(Now().legs[i].lim)
      ensures r.Done? ==> Quietly(old(Now()), Now())
    {
      hide IsTrace, Continues, Evolves, Heeds, Progress, Reflects, LogHolds, Traced, Chased, Counted, Blamed;
      hide Steady, Sound, Consistent, StepOf;
      Facts(i);
      var s := legs[i].CloseLimit(rec, gw.book);
      ghost var v := legs[i].View();
      Guard(legs[i], s);
      SameOrders(v, legs[i].View(), gw.book, rec.recs);
      ContinuesStays(gw.Trace());
      HeedsStays(gw.log, ks.Halted(), ks.Halted());
      RereadStays(old(legs[i].View()), legs[i].View(), gw.book);
      if old(Working(Now().legs[i])) { ChasedSame(old(Now()), Now(), i); }
      BlamedFor(old(errors), old(Faults()), errors, Faults(), s);
      Restore(i);
      return if s.Crashed? then Crashed else Done(());
    }

    // phase E

    method MarketStep(i: nat) returns (r: Outcome<()>)
      requires Steady() && i < |legs|
      requires var v := Now().legs[i]; v.error.None? && v.pending && v.mkt.None?
      modifies gw`book, gw`history, gw`faults, gw`looks, gw`log, gw`listed, rec, legs[i], this`errors, this`stopExposure
      ensures Steady() && StepOf(old(Now()), Now(), i) && !r.Failed?
      ensures SentOne(old(gw.log), gw.log, MktId(legs[i].target), ks.Halted())
      ensures MarketSent(old(Now().legs[i]), Now().legs[i], r.Done?)
      ensures r.Crashed? ==> Now().faults > old(Now().faults)
    {
      hide IsTrace, Continues, Evolves, Heeds, Progress, Reflects, LogHolds, Traced, Chased, Counted, Blamed;
      hide Steady, Sound, Consistent, StepOf;
      Facts(i);
      var s := legs[i].SubmitMarket(gw, ks, rec);
      ghost var v := legs[i].View();
      Guard(legs[i], s);
      SameOrders(v, legs[i].View(), gw.book, rec.recs);
      HeedsOne(old(gw.log), ks.Halted(), gw.log, MktId(legs[i].target));
      BlamedFor(old(errors), old(Faults()), errors, Faults(), s);
      Restore(i);
      return if s.Crashed? then Crashed else Done(());
    }

    method CloseMarketStep(i: nat) returns (r: Outcome<()>)
      requires Steady() && i < |legs| && Finished(Now().legs[i], Now().recs, Now().stop)
      requires Now().legs[i].error.None? && Now().legs[i].mkt.Some?
      modifies rec, legs[i], this`errors, this`stopExposure
      ensures Steady() && StepOf(old(Now()), Now(), i) && !r.Failed?
      ensures r.Done? ==> Finished(Now().legs[i], Now().recs, Now().stop)
      ensures r.Crashed? ==> Now().faults > old(Now().faults)
      ensures r.Done? ==> Concluded(Now().legs[i], Now().recs) && Quietly(old(Now()), Now())
    {
      hide IsTrace, Continues, Evolves, Heeds, Progress, Reflects, LogHolds, Traced, Chased, Counted, Blamed;
      hide Steady, Sound, Consistent, StepOf;
      hide Finished;
      Facts(i);
      var s := legs[i].CloseMarket(rec, gw.book);
      ghost var v := legs[i].View();
      Guard(legs[i], s);
      SameOrders(v, legs[i].View(), gw.book, rec.recs);
      FinishedAgain(old(legs[i].View()), legs[i].View(), old(rec.recs), rec.recs, old(stopExposure), stopExposure);
      ContinuesStays(gw.Trace());
      HeedsStays(gw.log, ks.Halted(), ks.Halted());
      RereadStays(old(legs[i].View()), legs[i].View(), gw.book);
      BlamedFor(old(errors), old(Faults()), errors, Faults(), s);
      Restore(i);
      return if s.Crashed? then Crashed else Done(());
    }

    /** A failed re-read is not a name's own error: it ends the call. */
    method PollStep(i: nat) returns (r: Outcome<bool>)
      requires Steady() && i < |legs| && Waits(Now().legs[i])
      modifies gw`book, gw`history, gw`faults, gw`looks, legs[i]
      ensures Steady() && StepOf(old(Now()), Now(), i) && Now().errors == old(Now().errors)
      ensures Polled(old(Now().legs[i]), Now().legs[i])
      ensures r == Done(false) ==> Waits(Now().legs[i])
      ensures !r.Done? ==> Down(r) && Now().faults > old(Now().faults)
      ensures r.Done? ==> Now().faults == old(Now().faults)
      ensures Now().legs[i].polls == old(Now().legs[i].polls) + 1
      ensures r.Done? ==> (r.value <==> !StillOpen(Now().legs[i]))
    {
      hide IsTrace, Continues, Evolves, Heeds, Progress, Reflects, LogHolds, Traced, Chased, Counted, Blamed;
      hide Steady, Sound, Consistent, StepOf;
      Facts(i);
      r := legs[i].Poll(gw, rec.recs);
      LaterProgress(old(gw.Trace()), gw.Trace());
      ReflectsLater(rec.recs, old(gw.book), gw.book);
      HeedsStays(gw.log, ks.Halted(), ks.Halted());
      BlamedStays(errors, old(Faults()), Faults());
      Restore(i);
    }

    // ----- the phases

    method OpenAll() returns (open: seq<bool>)
      requires Steady() && AllFresh(Now().legs)
      modifies legs
      ensures Steady() && Onward(old(Now()), Now()) && Opened(Now().legs, open)
      ensures forall i | 0 <= i < |legs| :: Now().legs[i].error.None?
    {
      hide Steady, Sound, Onward, Progress, Grew, Continues, Evolves, Heeds, IsTrace, OpenedSoFar, LogHolds;
      open := [];
      OpenedNone(Now().legs);
      OnwardStays(Now());
      for i := 0 to |legs|
        invariant Steady() && Onward(old(Now()), Now()) && |open| == i
        invariant forall j | i <= j < |legs| :: Now().legs[j].error.None?
        invariant OpenedSoFar(old(Now().legs), Now().legs, open)
      {
        ghost var before := Now();
        var o := OpenStep(i);
        OnwardStep(old(Now()), before, Now(), i);
        OpenedNext(old(Now().legs), before.legs, open, Now().legs[i], o);
        open := open + [o];
      }
      OpenedAll(old(Now().legs), Now().legs, open);
    }

    /** One name's price, if the name is open. */
    method ResolveTurn(i: nat, open: seq<bool>) returns (r: Outcome<()>)
      requires Steady() && i < |legs| && ResolvedTo(Now(), open, i)
      modifies rec`faults, legs[i], this`errors, this`stopExposure
      ensures Steady() && Onward(old(Now()), Now()) && Opened(Now().legs, open) && !r.Failed?
      ensures r.Done? ==> ResolvedTo(Now(), open, i + 1)
      ensures i < |open| && !open[i] ==> Now() == old(Now())
      ensures r.Crashed? ==> Now().faults > old(Now().faults)
    {
      hide Steady, Sound, Onward, Progress, Grew, Continues, Evolves, Heeds, IsTrace, Opened, LogHolds;
      OnwardStays(Now());
      OpenedLength(Now().legs, open);
      if open[i] {
        r := ResolveStep(i);
        OnwardStep(old(Now()), old(Now()), Now(), i);
        OpenedResolve(old(Now().legs), open, i, Now().legs[i]);
      } else {
        return Done(());
      }
    }

    method ResolveAll(open: seq<bool>) returns (r: Outcome<()>)
      requires Steady() && Opened(Now().legs, open)
      requires forall i | 0 <= i < |legs| :: Now().legs[i].error.None?
      modifies rec`faults, this`errors, this`stopExposure, legs
      ensures Steady() && Onward(old(Now()), Now()) && Opened(Now().legs, open) && !r.Failed?
      ensures r.Done? ==>
                forall i | 0 <= i < |legs| && open[i] :: Now().legs[i].error.Some? || Now().legs[i].price.Some?
      ensures r.Crashed? ==> Now().faults > old(Now().faults)
    {
      hide Steady, Sound, Onward, Progress, Grew, Continues, Evolves, Heeds, IsTrace, ResolvedTo, Opened, LogHolds;
      OnwardStays(Now());
      OpenedLength(Now().legs, open);
      ResolvedNone(Now(), open);
      for i := 0 to |legs|
        invariant Steady() && Onward(old(Now()), Now()) && ResolvedTo(Now(), open, i)
        invariant Opened(Now().legs, open)
      {
        ghost var before := Now();
        var s := ResolveTurn(i, open);
        OnwardIsTransitive(old(Now()), before, Now());
        OnwardCounts(old(Now()), before);
        if s.Crashed? { return Crashed; }
      }
      ResolvedAll(Now(), open);
      return Done(());
    }

    /** One name's limit request, if it is open and its reference was found. */
    method SubmitTurn(i: nat, open: seq<bool>) returns (r: Outcome<()>)
      requires Steady() && i < |legs| && SubmittedTo(Now(), open, i)
      modifies gw`book, gw`history, gw`faults, gw`looks, gw`log, gw`listed, rec, legs[i], this`errors, this`stopExposure
      ensures Steady() && Onward(old(Now()), Now()) && !r.Failed?
      ensures SentOne(old(gw.log), gw.log, LimId(legs[i].target), ks.Halted())
      ensures r.Done? ==> SubmittedTo(Now(), open, i + 1)
      ensures r.Crashed? ==> Now().faults > old(Now().faults)
    {
      hide Steady, Sound, Onward, Progress, Grew, Continues, Evolves, Heeds, IsTrace, LogHolds;
      OnwardStays(Now());
      if open[i] && legs[i].error.None? {
        r := SubmitStep(i);
        OnwardStep(old(Now()), old(Now()), Now(), i);
      } else {
        return Done(());
      }
    }

    method SubmitAll(open: seq<bool>) returns (r: Outcome<()>)
      requires Steady() && Opened(Now().legs, open)
      requires forall i | 0 <= i < |legs| && open[i] :: Now().legs[i].error.Some? || Now().legs[i].price.Some?
      modifies gw`book, gw`history, gw`faults, gw`looks, gw`log, gw`listed, rec, this`errors, this`stopExposure, legs
      ensures Steady() && Onward(old(Now()), Now()) && !r.Failed?
      ensures r.Done? ==> AllSubmitted(Now().legs)
      ensures Adds(old(gw.log), gw.log, LimIds())
      ensures r.Crashed? ==> Now().faults > old(Now().faults)
    {
      hide Steady, Sound, Onward, Progress, Grew, Continues, Evolves, Heeds, IsTrace, Adds, SentOne, SubmittedTo;
      hide LogHolds;
      hide AllSubmitted, Opened;
      SubmittedNone(Now(), open);
      OnwardStays(Now());
      AddsNothing(gw.log, LimIds());
      AddsNothing(gw.log, LimIds()[..0]);
      for i := 0 to |legs|
        invariant Steady() && Onward(old(Now()), Now()) && SubmittedTo(Now(), open, i)
        invariant Adds(old(gw.log), gw.log, LimIds()[..i]) && Adds(old(gw.log), gw.log, LimIds())
      {
        ghost var before := Now();
        var s := SubmitTurn(i, open);
        OnwardIsTransitive(old(Now()), before, Now());
        OnwardCounts(old(Now()), before);
        AddsStep(old(gw.log), before.log, gw.log, LimIds(), i, ks.Halted());
        if s.Crashed? { return Crashed; }
      }
      SubmittedAll(Now(), open);
      return Done(());
    }

    method CancelAll() returns (r: Outcome<()>)
      requires Steady() && AllSubmitted(Now().legs)
      modifies gw`book, gw`history, gw`faults, gw`looks, gw`asked, this`errors, this`stopExposure, legs
      ensures Steady() && Onward(old(Now()), Now()) && AllSubmitted(Now().legs) && !r.Failed?
      ensures r.Crashed? ==> Now().faults > old(Now().faults)
      ensures r.Done? ==> AskedTo(Now(), |legs|) && Quietly(old(Now()), Now())
    {
      hide Steady, Sound, Onward, Progress, Grew, Continues, Evolves, Heeds, IsTrace, LogHolds;
      hide Counted, Asked, AskedTo, Traced, Quietly, Working, Submitted, Terminal;
      OnwardStays(Now());
      QuietlyStays(Now());
      SteadyIsTraced();
      NoneAsked(Now());
      for i := 0 to |legs|
        invariant Steady() && Onward(old(Now()), Now()) && AllSubmitted(Now().legs)
        invariant AskedTo(Now(), i) && Quietly(old(Now()), Now())
      {
        if legs[i].error.None? {
          ghost var before := Now();
          var s := CancelStep(i);
          OnwardStep(old(Now()), before, Now(), i);
          StepCounts(old(Now()), before, Now(), i);
          if s.Crashed? { return Crashed; }
          QuietlyIsTransitive(old(Now()), before, Now());
          AskedNext(before, Now(), i);
        } else {
          AskedSkip(Now(), i);
        }
      }
      return Done(());
    }

    /** One name's limit order confirmed, unless the name has failed. */
    method CloseTurn(i: nat) returns (r: Outcome<()>)
      requires Steady() && i < |legs| && ClosedTo(Now(), i) && Pursued(Now())
      modifies rec, legs[i], this`errors, this`stopExposure
      ensures Steady() && Onward(old(Now()), Now()) && !r.Failed?
      ensures forall j | 0 <= j < |legs| :: Now().legs[j].mkt.None?
      ensures r.Done? ==> ClosedTo(Now(), i + 1)
      ensures r.Crashed? ==> Now().faults > old(Now().faults)
      ensures Pursued(Now()) && (r.Done? ==> Quietly(old(Now()), Now()))
    {
      hide Steady, Sound, Onward, Progress, Grew, Continues, Evolves, Heeds, IsTrace, Settled, Submitted, LogHolds;
      hide Pursued, Chased, Counted, Working;
      OnwardStays(Now());
      if legs[i].error.None? {
        PursuedAt(Now(), i);
        r := CloseStep(i);
        OnwardStep(old(Now()), old(Now()), Now(), i);
        PursuedStep(old(Now()), Now(), i);
        if r.Done? { ClosedNext(old(Now()), Now(), i); }
      } else {
        FailedIsSettled(Now().legs[i], Now().recs);
        return Done(());
      }
    }

    method CloseAll() returns (r: Outcome<()>)
      requires Steady() && AllSubmitted(Now().legs) && Pursued(Now())
      modifies rec, this`errors, this`stopExposure, legs
      ensures Steady() && Onward(old(Now()), Now()) && !r.Failed?
      ensures r.Done? ==> AllSettled(Now().legs, Now().recs)
      ensures forall i | 0 <= i < |legs| :: Now().legs[i].mkt.None?
      ensures r.Crashed? ==> Now().faults > old(Now().faults)
      ensures r.Done? ==> Quietly(old(Now()), Now())
    {
      hide Steady, Sound, Onward, Progress, Grew, Continues, Evolves, Heeds, IsTrace, ClosedTo, AllSettled, LogHolds;
      hide AllSubmitted, Submitted, Settled;
      SubmittedHasNoMarket(Now().legs);
      ClosedNone(Now());
      hide Pursued, Chased, Counted, Working, Quietly;
      OnwardStays(Now());
      QuietlyStays(Now());
      for i := 0 to |legs|
        invariant Steady() && Onward(old(Now()), Now()) && ClosedTo(Now(), i)
        invariant forall j | 0 <= j < |legs| :: Now().legs[j].mkt.None?
        invariant Pursued(Now()) && Quietly(old(Now()), Now())
      {
        ghost var before := Now();
        var s := CloseTurn(i);
        OnwardIsTransitive(old(Now()), before, Now());
        TurnCounts(old(Now()), before, Now());
        if s.Crashed? { return Crashed; }
        QuietlyIsTransitive(old(Now()), before, Now());
      }
      ClosedAll(Now());
      return Done(());
    }

    /** One name's residual, if it has one and exposure is still allowed. */
    method MarketTurn(i: nat) returns (r: Outcome<()>)
      requires Steady() && i < |legs| && MarketedTo(Now(), i)
      modifies gw`book, gw`history, gw`faults, gw`looks, gw`log, gw`listed, rec, legs[i], this`errors, this`stopExposure
      ensures Steady() && Onward(old(Now()), Now()) && !r.Failed?
      ensures SentOne(old(gw.log), gw.log, MktId(legs[i].target), ks.Halted())
      ensures r.Done? ==> MarketedTo(Now(), i + 1)
      ensures r.Crashed? ==> Now().faults > old(Now().faults)
    {
      hide Steady, Sound, Onward, Progress, Grew, Continues, Evolves, Heeds, IsTrace, Settled, Finished, MarketSent;
      hide LogHolds;
      OnwardStays(Now());
      if legs[i].error.None? && legs[i].pending && !stopExposure {
        r := MarketStep(i);
        OnwardStep(old(Now()), old(Now()), Now(), i);
        if r.Done? { MarketedNext(old(Now()), Now(), i); }
      } else {
        NothingToSend(Now().legs[i], Now().recs, Now().stop);
        return Done(());
      }
    }

    method MarketAll() returns (r: Outcome<()>)
      requires Steady() && AllSettled(Now().legs, Now().recs)
      requires forall i | 0 <= i < |legs| :: Now().legs[i].mkt.None?
      modifies gw`book, gw`history, gw`faults, gw`looks, gw`log, gw`listed, rec, this`errors, this`stopExposure, legs
      ensures Steady() && Onward(old(Now()), Now()) && !r.Failed?
      ensures r.Done? ==> AllFinished(Now().legs, Now().recs, Now().stop)
      ensures Adds(old(gw.log), gw.log, MktIds())
      ensures r.Crashed? ==> Now().faults > old(Now().faults)
    {
      hide Settled, Finished;
      assert MarketedTo(Now(), 0);
      hide Steady, Sound, Onward, Progress, Grew, Continues, Evolves, Heeds, IsTrace, Adds, SentOne, MarketedTo;
      hide LogHolds;
      hide AllSettled, AllFinished;
      OnwardStays(Now());
      AddsNothing(gw.log, MktIds());
      AddsNothing(gw.log, MktIds()[..0]);
      for i := 0 to |legs|
        invariant Steady() && Onward(old(Now()), Now()) && MarketedTo(Now(), i)
        invariant Adds(old(gw.log), gw.log, MktIds()[..i]) && Adds(old(gw.log), gw.log, MktIds())
      {
        ghost var before := Now();
        var s := MarketTurn(i);
        OnwardIsTransitive(old(Now()), before, Now());
        OnwardCounts(old(Now()), before);
        AddsStep(old(gw.log), before.log, gw.log, MktIds(), i, ks.Halted());
        if s.Crashed? { return Crashed; }
      }
      MarketedAll(Now());
      return Done(());
    }

    method CloseMarketAll() returns (r: Outcome<()>)
      requires Steady() && AllFinished(Now().legs, Now().recs, Now().stop)
      modifies rec, this`errors, this`stopExposure, legs
      ensures Steady() && Onward(old(Now()), Now()) && !r.Failed?
      ensures r.Done? ==> AllFinished(Now().legs, Now().recs, Now().stop)
      ensures r.Crashed? ==> Now().faults > old(Now().faults)
      ensures r.Done? ==> ConcludedTo(Now(), |legs|) && Quietly(old(Now()), Now())
    {
      hide Steady, Sound, Onward, Progress, Grew, Continues, Evolves, Heeds, IsTrace, Finished, LogHolds;
      OnwardStays(Now());
      for i := 0 to |legs|
        invariant Steady() && Onward(old(Now()), Now()) && AllFinished(Now().legs, Now().recs, Now().stop)
        invariant ConcludedTo(Now(), i) && Quietly(old(Now()), Now())
      {
        ghost var before := Now();
        if legs[i].error.None? && legs[i].mkt.Some? {
          var s := CloseMarketStep(i);
          OnwardStep(old(Now()), before, Now(), i);
          StepCounts(old(Now()), before, Now(), i);
          if s.Crashed? { return Crashed; }
          forall j | 0 <= j < |legs| && j != i ensures Finished(Now().legs[j], Now().recs, Now().stop) {
            FinishedLater(before.legs[j], before.recs, Now().recs, before.stop, Now().stop);
          }
          ConcludedNext(before, Now(), i);
        } else {
          ConcludedSkip(Now(), i);
        }
      }
      return Done(());
    }

    /** One re-read of a round that began with vs; the leg goes on waiting if its order is still open. */
    method PollTurn(ghost vs: seq<LegState>, waiting: seq<nat>, k: nat, still: seq<nat>)
      returns (r: Outcome<seq<nat>>)
      requires Steady() && k < |waiting| && Waiting(vs, waiting) && Waiting(Now().legs, still + waiting[k..])
      requires RoundTo(vs, Now().legs, waiting, k, still) && AllPolled(vs, Now().legs) && |vs| == |legs|
      modifies gw`book, gw`history, gw`faults, gw`looks, legs
      ensures Steady() && Onward(old(Now()), Now()) && Now().errors == old(Now().errors)
      ensures AllPolled(vs, Now().legs)
      ensures r.Done? ==> |r.value| <= |still| + 1 && Waiting(Now().legs, r.value + waiting[k + 1..])
      ensures r.Done? ==> RoundTo(vs, Now().legs, waiting, k + 1, r.value) && Now().faults == old(Now().faults)
      ensures !r.Done? ==> Down(r) && Now().faults > old(Now().faults)
    {
      hide Steady, Sound, Onward, Progress, Grew, Continues, Evolves, Heeds, IsTrace, Polled, AllPolled, LogHolds;
      hide RoundTo, Waiting, Waits, StillOpen, Counted;
      OnwardStays(Now());
      var i := waiting[k];
      assert (still + waiting[k..])[|still|] == i;
      WaitingAt(Now().legs, still + waiting[k..], |still|);
      var s := PollStep(i);
      OnwardStep(old(Now()), old(Now()), Now(), i);
      PolledNext(vs, old(Now()).legs, i, Now().legs[i]);
      WaitingDistinct(vs, waiting, k);
      match s
      case Crashed => return Crashed;
      case Failed(e) => return Failed(e);
      case Done(terminal) =>
        assert waiting[k..][1..] == waiting[k + 1..];
        RoundNext(vs, old(Now()).legs, waiting, k, still, Now().legs[i], if terminal then still else still + [i]);
        if terminal {
          WaitingDrop(old(Now()).legs, still, waiting[k..], Now().legs);
          return Done(still);
        }
        WaitingKeep(old(Now()).legs, still, waiting[k..], Now().legs);
        return Done(still + [i]);
    }

    /** One round of re-reads; the legs still waiting are returned in order. */
    method PollRound(waiting: seq<nat>) returns (r: Outcome<seq<nat>>)
      requires Steady() && Waiting(Now().legs, waiting)
      modifies gw`book, gw`history, gw`faults, gw`looks, legs
      ensures Steady() && Onward(old(Now()), Now()) && Now().errors == old(Now().errors)
      ensures AllPolled(old(Now().legs), Now().legs)
      ensures r.Done? ==> Waiting(Now().legs, r.value) && |r.value| <= |waiting|
      ensures r.Done? ==> RoundTo(old(Now().legs), Now().legs, waiting, |waiting|, r.value)
      ensures r.Done? ==> Now().faults == old(Now().faults)
      ensures !r.Done? ==> Down(r) && Now().faults > old(Now().faults)
    {
      hide Steady, Sound, Onward, Progress, Grew, Continues, Evolves, Heeds, IsTrace, Polled, AllPolled, LogHolds;
      hide RoundTo, Waiting, Waits, StillOpen, Counted;
      OnwardStays(Now());
      PolledStays(Now().legs);
      RoundStart(Now().legs, waiting);
      assert [] + waiting[0..] == waiting;
      var still: seq<nat> := [];
      for k := 0 to |waiting|
        invariant Steady() && Onward(old(Now()), Now()) && Now().errors == old(Now().errors)
        invariant AllPolled(old(Now().legs), Now().legs)
        invariant |still| <= k && Waiting(Now().legs, still + waiting[k..])
        invariant RoundTo(old(Now().legs), Now().legs, waiting, k, still) && Now().faults == old(Now().faults)
      {
        ghost var before := Now();
        var s := PollTurn(old(Now().legs), waiting, k, still);
        OnwardIsTransitive(old(Now()), before, Now());
        if !s.Done? { return s; }
        still := s.value;
      }
      assert still + waiting[|waiting|..] == still;
      return Done(still);
    }

    method AwaitAll() returns (r: Outcome<()>)
      requires Steady()
      modifies gw`book, gw`history, gw`faults, gw`looks, legs
      ensures Steady() && Onward(old(Now()), Now()) && Now().errors == old(Now().errors)
      ensures AllPolled(old(Now().legs), Now().legs)
      ensures !r.Done? ==> Down(r) && Now().faults > old(Now().faults)
      ensures r.Done? ==> Now().faults == old(Now().faults)
      ensures r.Done? ==>
                forall i | 0 <= i < |legs| && StillOpen(Now().legs[i]) ::
                  Now().legs[i].polls >= old(Now().legs[i].polls) + pollAttempts
    {
      hide Steady, Sound, Onward, Progress, Grew, Continues, Evolves, Heeds, IsTrace, Polled, AllPolled, LogHolds;
      OnwardStays(Now());
      PolledStays(Now().legs);
      var waiting: seq<nat> := [];
      for i := 0 to |legs|
        invariant Waiting(Now().legs, waiting) && forall k | 0 <= k < |waiting| :: waiting[k] < i
        invariant forall k | 0 <= k < i :: k in waiting <==> StillOpen(Now().legs[k])
      {
        if legs[i].Waiting() {
          waiting := waiting + [i];
        }
      }
      for round := 0 to pollAttempts
        invariant Steady() && Onward(old(Now()), Now()) && Now().errors == old(Now().errors)
        invariant AllPolled(old(Now().legs), Now().legs) && Waiting(Now().legs, waiting)
        invariant Awaited(old(Now().legs), Now().legs, waiting, round) && Now().faults == old(Now().faults)
      {
        ghost var before := Now();
        var s := PollRound(waiting);
        OnwardIsTransitive(old(Now()), before, Now());
        PolledIsTransitive(old(Now().legs), before.legs, Now().legs);
        match s
        case Crashed => return Crashed;
        case Failed(e) => return Failed(e);
        case Done(still) =>
          AwaitedRound(old(Now().legs), before.legs, Now().legs, waiting, still, round);
          waiting := still;
          if waiting == [] { return Done(()); }
      }
      return Done(());
    }

    /** Durable halts first, then the automatic triggers; an engaged switch settles what is open. */
    method Gate() returns (r: Outcome<()>)
      requires Steady()
      modifies gw, ks, halt`flattened, halt.log
      ensures Steady() && Onward(old(Now()), Now()) && Now().legs == old(Now().legs)
      ensures Now().errors == old(Now().errors)
      ensures !r.Done? ==> gw.log == old(gw.log) && (Blameless(r) || (Down(r) && Now().faults > old(Now().faults)))
      ensures old(gw.accounts) <= gw.accounts && (old(ks.Halted()) ==> ks.trigger == old(ks.trigger))
      ensures old(gw.holdings) <= gw.holdings
      ensures r.Done? ==> GateNoted(old(gw.log), gw.log, ks.Halted(), Watch(halt.rules, |old(gw.accounts)|))
      ensures r.Done? && !old(ks.Halted()) && ks.Halted() ==>
                Engaged(gw.log[|old(gw.log)|], gw.listed, halt.rules, ks.trigger, halt.log.events)
      ensures r.Done? && old(halt.log.events) != [] ==> gw.log[|old(gw.log)|].events > 0
      ensures old(halt.log.events) <= halt.log.events
      ensures r.Done? && ks.Halted() ==> old(ks.Halted()) || halt.log.events != []
      ensures r.Done? && halt.log.events != [] ==> ks.Halted()
      ensures old(ks.Halted()) ==> gw.asked == old(gw.asked)
    {
      hide Sound, Onward, Continues, Evolves, Progress, IsTrace, Heeds, LogHolds, GateNoted, Engaged, Reflects;
      ContinuesStays(gw.Trace());
      HeedsStays(gw.log, ks.Halted(), ks.Halted());
      var loaded := halt.log.Load();
      match loaded
      case Crashed => Refresh(); return Crashed;
      case Failed(e) => Refresh(); return Failed(e);
      case Done(events) =>
        r := Judge(events);
        Refresh();
    }

    /** What the gate makes of the durable events it has read. */
    method Judge(events: seq<Event>) returns (r: Outcome<()>)
      requires gw.Valid() && halt.gw == gw && halt.ks == ks && events == halt.log.events
      modifies gw, ks, halt`flattened, halt.log
      ensures old(halt.log.faults) <= halt.log.faults && old(halt.log.events) <= halt.log.events
      ensures r.Done? && ks.Halted() ==> old(ks.Halted()) || halt.log.events != []
      ensures !r.Done? ==> Blameless(r) || (Down(r) && gw.faults + halt.log.faults > old(gw.faults + halt.log.faults))
      ensures gw.Later() && Heeds(old(gw.log), old(ks.Halted()), gw.log, ks.Halted())
      ensures !r.Done? ==> gw.log == old(gw.log)
      ensures old(gw.accounts) <= gw.accounts && (old(ks.Halted()) ==> ks.trigger == old(ks.trigger))
      ensures r.Done? ==> GateNoted(old(gw.log), gw.log, ks.Halted(), Watch(halt.rules, |old(gw.accounts)|))
      ensures r.Done? ==> gw.log[|old(gw.log)|] == Gated(|events|, ks.Halted(), gw.log[|old(gw.log)|].reading)
      ensures r.Done? && !old(ks.Halted()) && ks.Halted() ==>
                Engaged(gw.log[|old(gw.log)|], gw.listed, halt.rules, ks.trigger, halt.log.events)
      ensures r.Done? && halt.log.events != [] ==> ks.Halted()
      ensures old(ks.Halted()) ==> r.Done? && gw.asked == old(gw.asked)
    {
      hide Continues, Evolves, Progress, IsTrace, Heeds, LogHolds, Calm, Fired, Taken, Evaluate;
      var already := ks.Halted();
      Honour(events);
      ghost var reading;
      r, reading := Consult(already);
      HeedsStays(gw.log, already, ks.Halted());
      if r.Done? {
        if reading.Some? { NewReading(gw.log, old(gw.accounts), reading.value.nth); }
        gw.Mark(|events|, ks.Halted(), reading);
        HeedsGate(old(gw.log), already, gw.log, ks.Halted(), Watch(halt.rules, |old(gw.accounts)|));
      }
    }

    /** Durable events engage the switch. */
    method Honour(events: seq<Event>)
      modifies ks
      ensures ks.trigger == if old(ks.Halted()) || events == [] then old(ks.trigger) else Some(events[0].trigger)
    {
      for k := 0 to |events|
        invariant ks.trigger == if old(ks.Halted()) || k == 0 then old(ks.trigger) else Some(events[0].trigger)
      {
        var _ := ks.Halt(events[k].trigger);
      }
    }

    /** With the durable events honoured: settle if one of them engaged the switch just now, else check. */
    method Consult(already: bool) returns (r: Outcome<()>, ghost reading: Option<Reading>)
      requires gw.Valid() && halt.gw == gw && halt.ks == ks
      modifies gw, ks, halt`flattened, halt.log
      ensures old(gw.accounts) <= gw.accounts && old(halt.log.faults) <= halt.log.faults
      ensures old(halt.log.events) <= halt.log.events
      ensures r.Done? && ks.Halted() ==> old(ks.Halted()) || halt.log.events != []
      ensures !r.Done? ==> Blameless(r) || (Down(r) && gw.faults + halt.log.faults > old(gw.faults + halt.log.faults))
      ensures r.Done? && reading.Some? ==> reading.value.nth >= |old(gw.accounts)| && Taken(reading.value, gw.accounts)
      ensures r.Done? && !ks.Halted() ==> reading.Some? && Calm(reading.value, halt.rules)
      ensures r.Done? && !old(ks.Halted()) && ks.Halted() ==>
                Fired(reading, halt.rules, ks.trigger) && gw.listed == Some({})
      ensures r.Done? && old(ks.Halted()) && !already ==> gw.listed == Some({})
      ensures gw.Quiet() && (old(ks.Halted()) ==> ks.trigger == old(ks.trigger))
      ensures old(ks.Halted()) ==> halt.log.events == old(halt.log.events)
      ensures r.Done? && !old(ks.Halted()) && halt.log.events != old(halt.log.events) ==> ks.Halted()
      ensures old(ks.Halted()) && already ==> r.Done? && gw.asked == old(gw.asked)
    {
      hide Continues, Evolves, Progress, IsTrace, Calm, Evaluate, LogHolds;
      ContinuesStays(gw.Trace());
      reading := None;
      if ks.Halted() {
        if already { return Done(()), None; }
        var settled := halt.SettleOpenOrders();
        match settled
        case Crashed => return Crashed, None;
        case Failed(e) => return Failed(e), None;
        case Done(_) => return Done(()), None;
      }
      var last: map<int, int>, now: int := *, *;
      var checked := halt.Check(last, now);
      match checked
      case Crashed => return Crashed, None;
      case Failed(e) => return Failed(e), None;
      case Done(_) => return Done(()), Some(gw.Reading(last, now));
    }

    /** Time at the broker, a gate's note and a switch that may have engaged leave the run sound. */
    twostate lemma Refresh()
      requires old(Steady()) && gw.Later()
      requires Heeds(old(gw.log), old(ks.Halted()), gw.log, ks.Halted())
      requires rec.recs == old(rec.recs) && Views() == old(Views())
      requires stopExposure == old(stopExposure) && errors == old(errors)
      requires rec.faults == old(rec.faults) && old(halt.log.faults) <= halt.log.faults
      ensures Steady() && Onward(old(Now()), Now())
    {
      LaterProgress(old(gw.Trace()), gw.Trace());
      assert Counted(old(Now()), Now());
      hide Counted, Chased, ReadSince, Progress;
      TracedLater(old(Now()), Now());
      hide Traced;
      hide Consistent, Continues, Evolves, Heeds, IsTrace, LogHolds;
      ReflectsLater(rec.recs, old(gw.book), gw.book);
      forall i | 0 <= i < |legs| ensures Consistent(Views()[i], gw.book, rec.recs) {
        ConsistentLater(Views()[i], old(gw.book), gw.book, rec.recs, rec.recs);
      }
    }

    /** Phase A: who is open, then all prices, then all limit requests. */
    method PhaseA() returns (r: Outcome<()>)
      requires Steady() && AllFresh(Now().legs)
      modifies gw`book, gw`history, gw`faults, gw`looks, gw`log, gw`listed, rec, this`errors, this`stopExposure, legs
      ensures Steady() && Onward(old(Now()), Now()) && !r.Failed?
      ensures r.Done? ==> AllSubmitted(Now().legs)
      ensures Adds(old(gw.log), gw.log, LimIds())
      ensures r.Crashed? ==> Now().faults > old(Now().faults)
    {
      hide Steady, Onward, Opened, AllFresh, AllSubmitted;
      var open := OpenAll();
      ghost var s1 := Now();
      var resolved := ResolveAll(open);
      ghost var s2 := Now();
      OnwardIsTransitive(old(Now()), s1, s2);
      OnwardCounts(old(Now()), s1);
      OnwardCounts(old(Now()), s2);
      if resolved.Crashed? { return Crashed; }
      r := SubmitAll(open);
      OnwardIsTransitive(old(Now()), s2, Now());
    }

    /** Phases C and D: ask for the cancels, poll, and close each limit order. */
    method PhaseCD() returns (r: Outcome<()>)
      requires Steady() && AllSubmitted(Now().legs)
      modifies gw`book, gw`history, gw`faults, gw`looks, gw`asked, rec, this`errors, this`stopExposure, legs
      ensures Steady() && Onward(old(Now()), Now())
      ensures r.Done? ==> AllSettled(Now().legs, Now().recs)
      ensures r.Done? ==> forall i | 0 <= i < |legs| :: Now().legs[i].mkt.None?
      ensures !r.Done? ==> Down(r) && Now().faults > old(Now().faults)
      ensures r.Done? ==> Quietly(old(Now()), Now())
    {
      hide Steady, Onward, AllPolled, Sound, Consistent, Pursued, AskedTo, Counted, AllSubmitted, AllSettled, Traced;
      var cancelled := CancelAll();
      ghost var s1 := Now();
      OnwardCounts(old(Now()), s1);
      if cancelled.Crashed? { return Crashed; }
      var polled := AwaitAll();
      ghost var s2 := Now();
      OnwardIsTransitive(old(Now()), s1, s2);
      OnwardCounts(s1, s2);
      if !polled.Done? { return polled; }
      SubmittedHasNoMarket(s1.legs);
      SubmittedPolled(s1.legs, s2.legs);
      SteadyIsTraced();
      PolledIsPursued(s1, s2);
      r := CloseAll();
      OnwardIsTransitive(old(Now()), s2, Now());
      OnwardCounts(s2, Now());
    }

    /** Phase E: send what is left, poll, and compare the fills with the target. */
    method PhaseE() returns (r: Outcome<()>)
      requires Steady() && AllSettled(Now().legs, Now().recs)
      requires forall i | 0 <= i < |legs| :: Now().legs[i].mkt.None?
      modifies gw`book, gw`history, gw`faults, gw`looks, gw`log, gw`listed, rec, this`errors, this`stopExposure, legs
      ensures Steady() && Onward(old(Now()), Now())
      ensures r.Done? ==> AllFinished(Now().legs, Now().recs, Now().stop)
      ensures Adds(old(gw.log), gw.log, MktIds())
      ensures !r.Done? ==> Down(r) && Now().faults > old(Now().faults)
      ensures r.Done? ==> ConcludedTo(Now(), |legs|)
    {
      hide Steady, Onward, Sound, AllFinished, AllSettled, ConcludedTo;
      var sent := MarketAll();
      ghost var s1 := Now();
      OnwardCounts(old(Now()), s1);
      if sent.Crashed? { return Crashed; }
      r := Finish();
      OnwardIsTransitive(old(Now()), s1, Now());
    }

    /** Poll what was sent, and compare the fills with the target. */
    method Finish() returns (r: Outcome<()>)
      requires Steady() && AllFinished(Now().legs, Now().recs, Now().stop)
      modifies gw`book, gw`history, gw`faults, gw`looks, rec, this`errors, this`stopExposure, legs
      ensures Steady() && Onward(old(Now()), Now())
      ensures r.Done? ==> AllFinished(Now().legs, Now().recs, Now().stop)
      ensures !r.Done? ==> Down(r) && Now().faults > old(Now().faults)
      ensures r.Done? ==> ConcludedTo(Now(), |legs|) && Quietly(old(Now()), Now())
    {
      hide Steady, Onward, AllPolled, Sound, AllFinished, ConcludedTo;
      var polled := AwaitAll();
      ghost var s := Now();
      OnwardCounts(old(Now()), s);
      if !polled.Done? { return polled; }
      FinishedPolled(old(Now()), s);
      r := CloseMarketAll();
      OnwardIsTransitive(old(Now()), s, Now());
    }

    /** A gate and the limit requests. */
    method SendLimits() returns (r: Outcome<()>)
      requires Steady() && AllFresh(Now().legs)
      modifies gw, ks, rec, halt`flattened, halt.log, this`errors, this`stopExposure, legs
      ensures Steady() && Onward(old(Now()), Now())
      ensures old(gw.accounts) <= gw.accounts && old(gw.holdings) <= gw.holdings
      ensures r.Done? ==> AllSubmitted(Now().legs)
      ensures LimitsSent(old(gw.log), gw.log, LimIds(), Watch(halt.rules, |old(gw.accounts)|))
      ensures r.Done? ==> gw.log != old(gw.log)
      ensures !r.Done? ==> Blameless(r) || (Down(r) && Now().faults > old(Now().faults))
      ensures old(halt.log.events) <= halt.log.events
      ensures r.Done? && ks.Halted() ==> old(ks.Halted()) || halt.log.events != []
    {
      hide Steady, Onward, AllSubmitted, AllFresh, Sound, Heeds, Adds, GateNoted, Engaged, LimitsSent;
      hide IsTrace, Continues, Evolves, LogHolds;
      ghost var w := Watch(halt.rules, |gw.accounts|);
      NoLimits(gw.log, LimIds(), w);
      var first := Gate();
      ghost var s := Now();
      OnwardCounts(old(Now()), s);
      if !first.Done? { return first; }
      r := PhaseA();
      OnwardIsTransitive(old(Now()), s, Now());
      SomeLimits(old(gw.log), s.log, s.halted, gw.log, LimIds(), w);
    }

    /** Up to the cancels: a gate, the limit requests, and what became of them. */
    method DriveLimits() returns (r: Outcome<()>)
      requires Steady() && AllFresh(Now().legs)
      modifies gw, ks, rec, halt`flattened, halt.log, this`errors, this`stopExposure, legs
      ensures Steady() && Onward(old(Now()), Now())
      ensures old(gw.accounts) <= gw.accounts && old(gw.holdings) <= gw.holdings
      ensures r.Done? ==> AllSettled(Now().legs, Now().recs)
      ensures r.Done? ==> forall i | 0 <= i < |legs| :: Now().legs[i].mkt.None?
      ensures LimitsSent(old(gw.log), gw.log, LimIds(), Watch(halt.rules, |old(gw.accounts)|))
      ensures r.Done? ==> gw.log != old(gw.log)
      ensures !r.Done? ==> Blameless(r) || (Down(r) && Now().faults > old(Now().faults))
      ensures old(halt.log.events) <= halt.log.events
      ensures r.Done? && ks.Halted() ==> old(ks.Halted()) || halt.log.events != []
    {
      hide Steady, Onward, AllSettled, AllSubmitted, AllFresh, Sound, Heeds, LimitsSent, Quietly;
      hide IsTrace, Continues, Evolves, LogHolds;
      var sent := SendLimits();
      ghost var s := Now();
      OnwardCounts(old(Now()), s);
      if !sent.Done? { return sent; }
      r := PhaseCD();
      OnwardIsTransitive(old(Now()), s, Now());
    }

    /** All phases in order. If they come to an end, each name without an error is finished, whatever became
        of the rest; a failing gate or poll ends them early. What left the process left phase by phase. */
    method Drive() returns (r: Outcome<()>)
      requires Steady() && AllFresh(Now().legs)
      modifies gw, ks, rec, halt`flattened, halt.log, this`errors, this`stopExposure, legs
      ensures Steady() && Onward(old(Now()), Now())
      ensures r.Done? ==> AllFinished(Now().legs, Now().recs, Now().stop)
      ensures old(gw.log) <= gw.log && old(gw.accounts) <= gw.accounts && old(gw.holdings) <= gw.holdings
      ensures Phased(gw.log[|old(gw.log)|..], LimIds(), MktIds(), Watch(halt.rules, |old(gw.accounts)|))
      ensures !r.Done? ==> Blameless(r) || (Down(r) && Now().faults > old(Now().faults))
      ensures old(halt.log.events) <= halt.log.events
      ensures r.Done? && ks.Halted() ==> old(ks.Halted()) || halt.log.events != []
      ensures r.Done? ==> ConcludedTo(Now(), |legs|)
    {
      hide Steady, Onward, AllSettled, AllFinished, AllFresh, Sound, Heeds, Phased, Adds, GateNoted, Engaged;
      hide ConcludedTo;
      hide IsTrace, Continues, Evolves, LogHolds, LimitsSent;
      ghost var w := Watch(halt.rules, |gw.accounts|);
      var limits := DriveLimits();
      ghost var s3, later := Now(), Watch(halt.rules, |gw.accounts|);
      PhasedOne(old(gw.log), s3.log, LimIds(), MktIds(), w);
      OnwardCounts(old(Now()), s3);
      if !limits.Done? { return limits; }
      var checked := Gate();
      ghost var s4 := Now();
      OnwardIsTransitive(old(Now()), s3, s4);
      OnwardCounts(old(Now()), s4);
      if !checked.Done? { return checked; }
      SettledOnward(s3, s4);
      r := PhaseE();
      OnwardIsTransitive(old(Now()), s4, Now());
      PhasedBoth(old(gw.log), s3.log, s4.log, s4.halted, gw.log, LimIds(), MktIds(), w, later);
    }
  }

  lemma SubmittedPolled(vs: seq<LegState>, ws: seq<LegState>)
    requires AllSubmitted(vs) && AllPolled(vs, ws)
    ensures AllSubmitted(ws)
  {
    forall i | 0 <= i < |ws| ensures Submitted(ws[i]) { assert Polled(vs[i], ws[i]); }
  }

  lemma FinishedPolled(s: Snap, t: Snap)
    requires AllFinished(s.legs, s.recs, s.stop) && AllPolled(s.legs, t.legs) && Onward(s, t)
    ensures AllFinished(t.legs, t.recs, t.stop)
  {
    hide Finished, Polled, Grew;
    forall i | 0 <= i < |t.legs| ensures Finished(t.legs[i], t.recs, t.stop) {
      PolledKeeps(s.legs[i], t.legs[i], s.recs, t.recs);
      GrewStays(t.recs);
      FinishedLater(t.legs[i], t.recs, t.recs, s.stop, t.stop);
    }
  }

  lemma SettledOnward(s: Snap, t: Snap)
    requires AllSettled(s.legs, s.recs) && Onward(s, t) && t.legs == s.legs
    ensures AllSettled(t.legs, t.recs)
  {
    forall i | 0 <= i < |t.legs| ensures Settled(t.legs[i], t.recs) { SettledLater(s.legs[i], s.recs, t.recs); }
  }

  lemma SubmittedHasNoMarket(vs: seq<LegState>)
    requires AllSubmitted(vs)
    ensures forall i | 0 <= i < |vs| :: vs[i].mkt.None?
  {
    forall i | 0 <= i < |vs| ensures vs[i].mkt.None? { assert Submitted(vs[i]); }
  }

  lemma FailedIsSettled(v: LegState, recs: Records)
    requires v.error.Some?
    ensures Settled(v, recs)
  {
  }

  lemma NothingToSend(v: LegState, recs: Records, stop: bool)
    requires Settled(v, recs) && (v.error.Some? || !v.pending || stop)
    ensures Finished(v, recs, stop)
  {
  }
}
