/** Exactly when a new plan is safe. A request whose answer was lost may still be accepted after the run has
    been planned again from today's positions; the broker then holds an order the new plan does not know.
    Runs are the executor's own: it asks the broker before it sends, and dies and is called again at will. */
module Replanning {
  import opened Wrappers
  import opened Broker
  import opened Evidence
  import opened Executor
  import opened ExecutionStage

  /** One thing the world or the executor does. A request leaves only while the broker has no order of its
      id; a new plan keeps the limit orders the broker has. */
  ghost predicate RunStep(m: Moment, n: Moment, run: int) {
    || (n.plan == m.plan && Evolves(m.book, n.book))
    || (&& n.plan == m.plan
        && exists t, o | t in m.plan && MaySend(o, m.book, t) ::
             o.cid !in m.book.orders && n.book == Sent(m.book, o))
    || (n.book == m.book && Replanned(n.plan, run, m.book) && forall t | t in n.plan :: t.qty > 0)
  }

  /** A run under an honest broker in which every later plan agrees with what the broker has and what is
      under way; the first plan may not. */
  ghost predicate Run(tr: seq<Moment>, run: int) {
    && tr != []
    && forall i | 0 < i < |tr| ::
         && RunStep(tr[i - 1], tr[i], run) && Honest(tr[i].book)
         && (tr[i].plan != tr[i - 1].plan ==> PlanAgrees(tr[i].book, tr[i].plan))
  }

  ghost predicate AlwaysWithin(tr: seq<Moment>) {
    forall k, t | 0 <= k < |tr| && t in tr[k].plan :: Within(tr[k].book, t)
  }

  /** A plan just made: the broker's own limit orders are kept. */
  ghost predicate Starts(b: Book, ts: seq<Target>, run: int) {
    && Coherent(b) && Honest(b) && Replanned(ts, run, b)
    && forall t | t in ts :: t.qty > 0
  }

  lemma RunStepIsNext(m: Moment, n: Moment, run: int)
    requires RunStep(m, n, run)
    ensures Next(m, n)
  {
    if n.book == m.book && Replanned(n.plan, run, m.book) {
      ReplannedNames(n.plan, run, m.book);
    }
  }

  lemma {:induction false} AgreedRunIsSafe(tr: seq<Moment>, run: int, k: nat)
    requires Run(tr, run) && k < |tr| && Starts(tr[0].book, tr[0].plan, run)
    requires PlanAgrees(tr[0].book, tr[0].plan)
    ensures SafeMoment(tr[k]) && Honest(tr[k].book) && forall t | t in tr[k].plan :: t.qty > 0
  {
    hide PlanAgrees, Replanned, Honest, Evolves, Coherent;
    if k == 0 {
      ReplannedNames(tr[0].plan, run, tr[0].book);
    } else {
      AgreedRunIsSafe(tr, run, k - 1);
      RunStepIsNext(tr[k - 1], tr[k], run);
      NextKeepsSafe(tr[k - 1], tr[k]);
    }
  }

  /** What the broker's book becomes when a request is accepted and filled at once. */
  function Filling(b: Book, o: Order): Book {
    if o.qty < 0 then b else b.(orders := b.orders[o.cid := o.(filled := o.qty, status := FILLED)])
  }

  lemma FillingEvolves(b: Book, o: Order)
    requires Honest(b) && o in b.inflight && o.cid !in b.orders && o.filled == 0 && o.status == OPEN && o.qty > 0
    ensures Evolves(b, Filling(b, o)) && Honest(Filling(b, o))
  {
    var c := Filling(b, o);
    assert OrderEvolves(o, c.orders[o.cid]);
    assert forall k | k in b.orders :: OrderEvolves(b.orders[k], c.orders[k]);
  }

  /** A market order never appears before its limit order was accepted and terminal. */
  lemma NoLoneMarket(b: Book, t: Target)
    requires Coherent(b) && LimId(t) !in b.orders
    ensures MktId(t) !in b.orders
  {
    assert LimOf(MktId(t)) == LimId(t);
    assert MktId(t) in b.orders ==> WellFormed(b.orders[MktId(t)], b.orders);
  }

  /** The travelling request, accepted and filled under the new plan. */
  function Late(b: Book, ts: seq<Target>, o: Order): seq<Moment> { [Moment(b, ts), Moment(Filling(b, o), ts)] }

  lemma LateIsRun(b: Book, ts: seq<Target>, run: int, t: Target, o: Order)
    requires Starts(b, ts, run) && t in ts && o in b.inflight && o.cid == LimId(t) && LimId(t) !in b.orders
    ensures Run(Late(b, ts, o), run) && o.qty > 0
    ensures FilledFor(Filling(b, o), t) == if o.side == t.side then o.qty else -o.qty
  {
    assert WellFormed(o, b.orders);
    FillingEvolves(b, o);
    NoLoneMarket(b, t);
  }

  /** A leg that finds the filled order: settled, with nothing left to send if it was no smaller. */
  function Holding(t: Target, o: Order): LegState
    requires o.qty >= 0
  {
    LegState(t, Some(o.(filled := o.qty, status := FILLED)), None, false, t.qty - o.qty, o.qty < t.qty, None, None, 0)
  }

  /** What the name's outcome says. */
  function Told(v: LegState): LegOutcome { OutcomeOf(v.target.qty, v.lim, v.mkt, v.blocked) }

  /** Larger, or the other way: the acceptance alone moves more than the target, or against it. */
  lemma LargerOrOpposite(b: Book, ts: seq<Target>, run: int, t: Target, o: Order)
    requires Starts(b, ts, run) && t in ts && o in b.inflight && o.cid == LimId(t) && LimId(t) !in b.orders
    requires o.side != t.side || o.qty > t.qty
    ensures Run(Late(b, ts, o), run) && !AlwaysWithin(Late(b, ts, o))
  {
    LateIsRun(b, ts, run, t, o);
    assert Late(b, ts, o)[1].plan == ts && !Within(Late(b, ts, o)[1].book, t);
  }

  /** The target a later plan takes over from the accepted request. */
  function Adopted(t: Target, o: Order): Target { t.(side := o.side, qty := o.qty) }

  function TopUp(t: Target, o: Order): Order { MarketFor(t, o.qty) }

  /** Smaller: the new plan tops the accepted request up with a market order and the process dies; the next
      plan takes over the request's quantity, and more than that was moved. */
  function ToppedUp(b: Book, ts: seq<Target>, t: Target, o: Order): seq<Moment> {
    var c := Sent(Filling(b, o), TopUp(t, o));
    var d := Filling(c, TopUp(t, o));
    Late(b, ts, o) + [Moment(c, ts), Moment(d, ts), Moment(d, [Adopted(t, o)])]
  }

  lemma Smaller(b: Book, ts: seq<Target>, run: int, t: Target, o: Order)
    requires Starts(b, ts, run) && t in ts && o in b.inflight && o.cid == LimId(t) && LimId(t) !in b.orders
    requires o.side == t.side && o.qty < t.qty
    ensures var tr := ToppedUp(b, ts, t, o);
            && Run(tr, run) && !AlwaysWithin(tr)
            && FilledFor(tr[4].book, Adopted(t, o)) == t.qty > o.qty
  {
    LateIsRun(b, ts, run, t, o);
    var c := Filling(b, o);
    ToppingUp(b, ts, run, t, o);
    var s, u := Sent(c, TopUp(t, o)), Adopted(t, o);
    var d := Filling(s, TopUp(t, o));
    hide Starts, Filling, Evolves, Honest, RunStep, Replanned, PlanAgrees, TopUp, Run, FilledFor;
    var tr := Late(b, ts, o);
    RunSnoc(tr, run, Moment(s, ts));
    RunSnoc(tr + [Moment(s, ts)], run, Moment(d, ts));
    RunSnoc(tr + [Moment(s, ts)] + [Moment(d, ts)], run, Moment(d, [u]));
    var all := ToppedUp(b, ts, t, o);
    assert all == tr + [Moment(s, ts)] + [Moment(d, ts)] + [Moment(d, [u])];
    assert all[4] == Moment(d, [u]) && u in all[4].plan && !Within(d, u);
  }

  lemma RunSnoc(tr: seq<Moment>, run: int, m: Moment)
    requires Run(tr, run) && RunStep(tr[|tr| - 1], m, run) && Honest(m.book)
    requires m.plan != tr[|tr| - 1].plan ==> PlanAgrees(m.book, m.plan)
    ensures Run(tr + [m], run)
  {
    hide RunStep, Honest, PlanAgrees;
    assert forall i | 0 <= i < |tr| :: (tr + [m])[i] == tr[i];
  }

  /** Its three last steps. */
  lemma ToppingUp(b: Book, ts: seq<Target>, run: int, t: Target, o: Order)
    requires Starts(b, ts, run) && t in ts && o in b.inflight && o.cid == LimId(t) && LimId(t) !in b.orders
    requires o.side == t.side && o.qty < t.qty && o.qty > 0
    ensures var c, u := Filling(b, o), Adopted(t, o);
            var s := Sent(c, TopUp(t, o));
            var d := Filling(s, TopUp(t, o));
            && RunStep(Moment(c, ts), Moment(s, ts), run) && Honest(s)
            && RunStep(Moment(s, ts), Moment(d, ts), run) && Honest(d)
            && RunStep(Moment(d, ts), Moment(d, [u]), run) && PlanAgrees(d, [u])
            && FilledFor(d, u) == t.qty > u.qty
  {
    FillingEvolves(b, o);
    NoLoneMarket(b, t);
    var c, m, u := Filling(b, o), TopUp(t, o), Adopted(t, o);
    assert c.orders[LimId(t)].filled == o.qty;
    assert MaySend(m, c, t) && m.cid !in c.orders;
    var s := Sent(c, m);
    assert RunStep(Moment(c, ts), Moment(s, ts), run);
    FillingEvolves(s, m);
    var d := Filling(s, m);
    assert d.orders[LimId(t)] == c.orders[LimId(t)];
    assert LimId(u) == LimId(t) && MktId(u) == MktId(t);
    assert Replanned([u], run, d);
  }

  /** Over all runs of the executor: nothing is ever overfilled or moved the wrong way if and only if the
      plan agrees with every request under way for a name without an accepted limit order. */
  lemma ReplanIsSafeIff(b: Book, ts: seq<Target>, run: int)
    requires Starts(b, ts, run)
    ensures (forall tr: seq<Moment> | Run(tr, run) && tr[0] == Moment(b, ts) :: AlwaysWithin(tr)) <==> PlanAgrees(b, ts)
  {
    if PlanAgrees(b, ts) {
      forall tr: seq<Moment> | Run(tr, run) && tr[0] == Moment(b, ts) ensures AlwaysWithin(tr) {
        forall k: nat, t | k < |tr| && t in tr[k].plan ensures Within(tr[k].book, t) {
          AgreedRunIsSafe(tr, run, k);
          NoOverfill(tr[k].book, t);
        }
      }
    } else {
      var t :| t in ts && !Safe(b, t);
      var o :| o in b.inflight && o.cid == LimId(t) && !IsLimitFor(o, t);
      if o.side != t.side || o.qty > t.qty {
        LargerOrOpposite(b, ts, run, t, o);
      } else {
        Smaller(b, ts, run, t, o);
        assert ToppedUp(b, ts, t, o)[0] == Moment(b, ts);
      }
    }
  }

  // ----- three failing inputs

  const SHARE: int := 1_000_000

  /** One limit request of the run is still travelling when its only name is planned again. */
  function Travelling(side: Side, qty: int): Book { Book(map[], {LimitFor(Target(7, 1, side, qty))}) }

  lemma TravellingStarts(side: Side, qty: int, t: Target)
    requires qty > 0 && t.run == 7 && t.security == 1 && t.qty > 0
    ensures Starts(Travelling(side, qty), [t], 7)
  {
  }

  /** A buy of two shares is under way and one is planned: two are bought. */
  lemma LateLargerRequest()
    ensures var b, t := Travelling(BUY, 2 * SHARE), Target(7, 1, BUY, SHARE);
            && Starts(b, [t], 7) && Run(Late(b, [t], LimitFor(t.(qty := 2 * SHARE))), 7)
            && FilledFor(Filling(b, LimitFor(t.(qty := 2 * SHARE))), t) == 2 * SHARE
  {
    var b, t := Travelling(BUY, 2 * SHARE), Target(7, 1, BUY, SHARE);
    TravellingStarts(BUY, 2 * SHARE, t);
    LateIsRun(b, [t], 7, t, LimitFor(t.(qty := 2 * SHARE)));
  }

  /** A buy is under way and a sell is planned: the leg that reads the buy back is complete, with a share
      bought that was to be sold. */
  lemma LateOppositeRequest(recs: Records)
    requires LimId(Target(7, 1, SELL, SHARE)) in recs
    ensures var b, t := Travelling(BUY, SHARE), Target(7, 1, SELL, SHARE);
            var o := LimitFor(t.(side := BUY));
            && Starts(b, [t], 7) && Run(Late(b, [t], o), 7) && FilledFor(Filling(b, o), t) == -SHARE
            && Consistent(Holding(t, o), Filling(b, o), recs) && Finished(Holding(t, o), recs, false)
            && Told(Holding(t, o)) == LegOutcome(SHARE, true, false)
  {
    var b, t := Travelling(BUY, SHARE), Target(7, 1, SELL, SHARE);
    TravellingStarts(BUY, SHARE, t);
    LateIsRun(b, [t], 7, t, LimitFor(t.(side := BUY)));
  }

  /** A buy of one share is under way and two are planned: the second is bought at the market, the process
      dies, and the next attempt takes one share as its target and calls it complete, with two bought. */
  lemma LateSmallerRequest(recs: Records)
    requires LimId(Target(7, 1, BUY, SHARE)) in recs
    ensures var b, t := Travelling(BUY, SHARE), Target(7, 1, BUY, 2 * SHARE);
            var o := LimitFor(t.(qty := SHARE));
            var tr, u := ToppedUp(b, [t], t, o), Adopted(t, o);
            && Starts(b, [t], 7) && Run(tr, 7) && tr[4].plan == [u] && u.qty == SHARE
            && FilledFor(tr[4].book, u) == 2 * SHARE
            && Consistent(Holding(u, o), tr[4].book, recs) && Finished(Holding(u, o), recs, false)
            && Told(Holding(u, o)) == LegOutcome(SHARE, true, false)
  {
    var b, t := Travelling(BUY, SHARE), Target(7, 1, BUY, 2 * SHARE);
    TravellingStarts(BUY, SHARE, t);
    Smaller(b, [t], 7, t, LimitFor(t.(qty := SHARE)));
  }
}
