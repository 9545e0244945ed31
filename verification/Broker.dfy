/** The broker as an adversary. Orders fill, get cancelled or expire between any two calls; a request may
    be lost before or after it is accepted, or be accepted long after the caller gave up on it; the
    process may die at any call. The only promises are that a client order id is used once and that a
    terminal order never changes again. */
module Broker {
  import opened Wrappers
  import opened Triggers

  datatype Side = BUY | SELL

  datatype OrderKind = LIMIT | MARKET

  datatype OrderStatus =
    OPEN | PARTIALLY_FILLED | PENDING_CANCEL | FILLED | CANCELED | EXPIRED | DONE_FOR_DAY | REJECTED

  predicate Terminal(s: OrderStatus) { s in {FILLED, CANCELED, EXPIRED, DONE_FOR_DAY, REJECTED} }

  datatype LegName = Lim | Mkt

  /** The stable client order id of a run, a security and a leg. */
  datatype ClientId = ClientId(run: int, security: int, leg: LegName)

  /** Quantities are in micro-shares, so rounding to six places is exact. */
  datatype Order = Order(cid: ClientId, kind: OrderKind, side: Side, qty: int, filled: nat, status: OrderStatus)

  /** Orders the broker has accepted, and requests sent that it may still accept. */
  datatype Book = Book(orders: map<ClientId, Order>, inflight: set<Order>)

  datatype Error =
    BrokerDown | Duplicate | NotCancelable | CancelNotConfirmed | Overfill | NoReference | StoreDown
    | BadTarget | NotEligible | NoEvidence | BadPlan

  /** What a call reports; Crashed means the process is gone, before or after the call took effect. */
  datatype Outcome<+T> = Done(value: T) | Failed(error: Error) | Crashed

  /** The process died, or something outside it did not answer. */
  predicate Down<T>(r: Outcome<T>) { r.Crashed? || (r.Failed? && Outage(r.error)) }

  predicate Outage(e: Error) { e in {BrokerDown, StoreDown} }

  predicate OrderEvolves(o: Order, p: Order) {
    && p.cid == o.cid && p.kind == o.kind && p.side == o.side && p.qty == o.qty
    && o.filled <= p.filled
    && (Terminal(o.status) ==> p == o)
  }

  /** Everything the outside world may do to the book between two calls. */
  predicate Evolves(b: Book, c: Book) {
    && (forall k | k in b.orders :: k in c.orders && OrderEvolves(b.orders[k], c.orders[k]))
    && (forall k | k in c.orders ::
          k in b.orders || exists o | o in b.inflight :: o.cid == k && OrderEvolves(o, c.orders[k]))
    && c.inflight <= b.inflight
  }

  /** What survives from one moment to any later one: accepted orders stay, and only move forward. */
  ghost predicate Progress(b: Book, c: Book) {
    forall k | k in b.orders :: k in c.orders && OrderEvolves(b.orders[k], c.orders[k])
  }

  lemma ProgressStays(b: Book)
    ensures Progress(b, b)
  {
  }

  lemma ProgressIsTransitive(a: Book, b: Book, c: Book)
    requires Progress(a, b) && Progress(b, c)
    ensures Progress(a, c)
  {
  }

  lemma EvolvesIsTransitive(a: Book, b: Book, c: Book)
    requires Evolves(a, b) && Evolves(b, c)
    ensures Evolves(a, c)
  {
    forall k | k in c.orders && k !in a.orders
      ensures exists o | o in a.inflight :: o.cid == k && OrderEvolves(o, c.orders[k])
    {
      if k in b.orders {
        var o :| o in a.inflight && o.cid == k && OrderEvolves(o, b.orders[k]);
        assert OrderEvolves(o, c.orders[k]);
      } else {
        var o :| o in b.inflight && o.cid == k && OrderEvolves(o, c.orders[k]);
        assert o in a.inflight;
      }
    }
  }

  // ----- what must hold of the book

  function LimOf(c: ClientId): ClientId { c.(leg := Lim) }

  /** A market order is the exact residual of a limit order that can no longer fill. */
  predicate IsResidual(o: Order, orders: map<ClientId, Order>) {
    && LimOf(o.cid) in orders
    && var lim := orders[LimOf(o.cid)];
       && Terminal(lim.status) && lim.status != REJECTED
       && o.kind == MARKET && o.side == lim.side
       && o.qty > 0 && lim.filled + o.qty == lim.qty
  }

  predicate WellFormed(o: Order, orders: map<ClientId, Order>) {
    if o.cid.leg == Lim then o.kind == LIMIT && o.qty > 0 else IsResidual(o, orders)
  }

  /** Accepted or still travelling, every market order is a residual. */
  ghost predicate Coherent(b: Book) {
    && (forall k | k in b.orders :: b.orders[k].cid == k && WellFormed(b.orders[k], b.orders))
    && (forall o | o in b.inflight :: WellFormed(o, b.orders) && o.filled == 0 && o.status == OPEN)
  }

  datatype Target = Target(run: int, security: int, side: Side, qty: int)

  function LimId(t: Target): ClientId { ClientId(t.run, t.security, Lim) }

  function MktId(t: Target): ClientId { ClientId(t.run, t.security, Mkt) }

  function LimitFor(t: Target): Order { Order(LimId(t), LIMIT, t.side, t.qty, 0, OPEN) }

  /** The market order for what a limit order left of the target. */
  function MarketFor(t: Target, filled: int): Order { Order(MktId(t), MARKET, t.side, t.qty - filled, 0, OPEN) }

  predicate IsLimitFor(o: Order, t: Target) { o.side == t.side && o.qty == t.qty }

  /** The target's limit order is for the target, and so is any that may still become it. */
  ghost predicate Safe(b: Book, t: Target) {
    && (LimId(t) in b.orders ==> IsLimitFor(b.orders[LimId(t)], t))
    && (LimId(t) !in b.orders ==> forall o | o in b.inflight && o.cid == LimId(t) :: IsLimitFor(o, t))
  }

  /** Every target agrees with the limit orders the broker has and with those under way. */
  ghost predicate PlanAgrees(b: Book, plan: seq<Target>) { forall t | t in plan :: Safe(b, t) }

  ghost predicate OneTargetPerName(plan: seq<Target>) {
    forall t, u | t in plan && u in plan && t.run == u.run && t.security == u.security :: t == u
  }

  /** A moment of the broker's history, with the plan being executed at that moment. */
  datatype Moment = Moment(book: Book, plan: seq<Target>)

  ghost predicate SafeMoment(m: Moment) {
    Coherent(m.book) && OneTargetPerName(m.plan) && PlanAgrees(m.book, m.plan)
  }

  function OnSide(o: Order, side: Side): int { if o.side == side then o.filled else 0 - o.filled }

  /** Shares moved so far in the target's direction, less those moved against it. */
  function FilledFor(b: Book, t: Target): int {
    (if LimId(t) in b.orders then OnSide(b.orders[LimId(t)], t.side) else 0)
    + (if MktId(t) in b.orders then OnSide(b.orders[MktId(t)], t.side) else 0)
  }

  /** Shares the name's two orders report, whichever way they went. */
  function Total(b: Book, t: Target): nat {
    (if LimId(t) in b.orders then b.orders[LimId(t)].filled else 0)
    + (if MktId(t) in b.orders then b.orders[MktId(t)].filled else 0)
  }

  /** Nothing was moved against the target and nothing beyond it. */
  ghost predicate Within(b: Book, t: Target) { 0 <= FilledFor(b, t) <= t.qty }

  /** The broker never reports more filled than an order asked for. */
  ghost predicate Honest(b: Book) { forall k | k in b.orders :: b.orders[k].filled <= b.orders[k].qty }

  lemma EvolvesKeepsCoherent(b: Book, c: Book)
    requires Coherent(b) && Evolves(b, c)
    ensures Coherent(c)
  {
    forall o: Order | WellFormed(o, b.orders) ensures WellFormed(o, c.orders) {
      if o.cid.leg == Mkt { assert OrderEvolves(b.orders[LimOf(o.cid)], c.orders[LimOf(o.cid)]); }
    }
    forall k | k in c.orders ensures c.orders[k].cid == k && WellFormed(c.orders[k], c.orders) {
      var o := Origin(b, c, k);
      EvolvedIsWellFormed(o, c.orders[k], c.orders);
    }
  }

  /** Every order comes from an accepted one or from a request. */
  lemma Origin(b: Book, c: Book, k: ClientId) returns (o: Order)
    requires Coherent(b) && Evolves(b, c) && k in c.orders
    ensures OrderEvolves(o, c.orders[k]) && o.cid == k && WellFormed(o, b.orders)
  {
    if k in b.orders {
      o := b.orders[k];
    } else {
      o :| o in b.inflight && o.cid == k && OrderEvolves(o, c.orders[k]);
    }
  }

  lemma EvolvedIsWellFormed(o: Order, p: Order, orders: map<ClientId, Order>)
    requires OrderEvolves(o, p) && WellFormed(o, orders)
    ensures WellFormed(p, orders)
  {
  }

  lemma EvolvesKeepsSafe(b: Book, c: Book, t: Target)
    requires Safe(b, t) && Evolves(b, c)
    ensures Safe(c, t)
  {
  }

  /** Limit fills plus the market quantity are the target, all on its side, so an honest broker can never
      overfill it or move it the wrong way. */
  lemma NoOverfill(b: Book, t: Target)
    requires Coherent(b) && Safe(b, t) && t.qty >= 0
    ensures FilledFor(b, t) == Total(b, t)
    ensures Honest(b) ==> Within(b, t)
    ensures MktId(t) in b.orders ==>
              && LimId(t) in b.orders && Terminal(b.orders[LimId(t)].status)
              && b.orders[LimId(t)].filled + b.orders[MktId(t)].qty == t.qty
  {
    if MktId(t) in b.orders {
      assert WellFormed(b.orders[MktId(t)], b.orders);
      assert LimOf(MktId(t)) == LimId(t);
    }
  }

  function Sent(b: Book, o: Order): Book { b.(inflight := b.inflight + {o}) }

  // ----- what the executor does to the book

  /** A target's limit order, or what a terminal limit order left of the target: the executor sends
      nothing else. */
  predicate MaySend(o: Order, b: Book, t: Target) {
    && t.qty > 0
    && (|| o == LimitFor(t)
        || (&& LimId(t) in b.orders
            && var lim := b.orders[LimId(t)];
               && Terminal(lim.status) && lim.status != REJECTED
               && lim.filled < t.qty && o == MarketFor(t, lim.filled)))
  }

  /** The outside world moves, a request leaves, or a new plan is taken up. */
  ghost predicate Next(m: Moment, n: Moment) {
    || (n.plan == m.plan && Evolves(m.book, n.book))
    || (n.plan == m.plan && exists t, o | t in m.plan && MaySend(o, m.book, t) :: n.book == Sent(m.book, o))
    || (n.book == m.book && OneTargetPerName(n.plan))
  }

  ghost predicate IsTrace(tr: seq<Moment>) {
    && tr != [] && Coherent(tr[0].book) && tr[0].plan == []
    && forall i | 0 < i < |tr| :: Next(tr[i - 1], tr[i])
  }

  /** Every plan agreed, when it was taken up, with what the broker had and with what was under way. */
  ghost predicate Agreed(tr: seq<Moment>) {
    forall i | 0 < i < |tr| && tr[i].plan != tr[i - 1].plan :: PlanAgrees(tr[i].book, tr[i].plan)
  }

  /** b goes on from a under the same plan, and what was accepted only moves forward. */
  ghost predicate Continues(a: seq<Moment>, b: seq<Moment>) {
    && a != [] && a <= b
    && (forall i | |a| <= i < |b| :: b[i].plan == a[|a| - 1].plan)
    && Progress(a[|a| - 1].book, b[|b| - 1].book)
  }

  lemma ContinuesStays(a: seq<Moment>)
    requires a != []
    ensures Continues(a, a) && Evolves(a[|a| - 1].book, a[|a| - 1].book)
  {
  }

  lemma ContinuesIsTransitive(a: seq<Moment>, b: seq<Moment>, c: seq<Moment>)
    requires Continues(a, b) && Continues(b, c)
    ensures Continues(a, c)
    ensures Evolves(a[|a| - 1].book, b[|b| - 1].book) && Evolves(b[|b| - 1].book, c[|c| - 1].book) ==>
              Evolves(a[|a| - 1].book, c[|c| - 1].book)
  {
    if Evolves(a[|a| - 1].book, b[|b| - 1].book) && Evolves(b[|b| - 1].book, c[|c| - 1].book) {
      EvolvesIsTransitive(a[|a| - 1].book, b[|b| - 1].book, c[|c| - 1].book);
    }
    hide Evolves;
    ProgressIsTransitive(a[|a| - 1].book, b[|b| - 1].book, c[|c| - 1].book);
    hide Progress;
  }

  /** Going on under the same plan neither makes nor breaks agreement. */
  lemma ContinuesAgreed(a: seq<Moment>, b: seq<Moment>)
    requires Continues(a, b)
    ensures Agreed(a) <==> Agreed(b)
  {
    if Agreed(b) {
      forall i | 0 < i < |a| && a[i].plan != a[i - 1].plan ensures PlanAgrees(a[i].book, a[i].plan) {
        assert b[i] == a[i] && b[i - 1] == a[i - 1];
      }
    }
  }

  lemma TraceSnoc(tr: seq<Moment>, m: Moment)
    requires IsTrace(tr) && Next(tr[|tr| - 1], m)
    ensures IsTrace(tr + [m])
  {
  }

  lemma SentIsSafe(m: Moment, o: Order, t: Target)
    requires SafeMoment(m) && t in m.plan && MaySend(o, m.book, t)
    ensures SafeMoment(m.(book := Sent(m.book, o)))
  {
    var b, c := m.book, Sent(m.book, o);
    assert Safe(b, t) && LimOf(o.cid) == LimId(t);
    assert Coherent(c) by { assert WellFormed(o, b.orders); }
    forall u | u in m.plan ensures Safe(c, u) {
      assert Safe(b, u);
      assert LimId(u) == LimId(t) ==> u == t;
    }
  }

  /** Whatever the executor and the world do, a safe plan stays safe. */
  lemma NextKeepsSafe(m: Moment, n: Moment)
    requires SafeMoment(m) && Next(m, n)
    requires n.plan != m.plan ==> PlanAgrees(n.book, n.plan)
    ensures SafeMoment(n)
  {
    if n.plan == m.plan && Evolves(m.book, n.book) {
      EvolvesKeepsCoherent(m.book, n.book);
      forall t | t in n.plan ensures Safe(n.book, t) {
        assert Safe(m.book, t);
        EvolvesKeepsSafe(m.book, n.book, t);
      }
    } else if n.book != m.book {
      var t, o :| t in m.plan && MaySend(o, m.book, t) && n.book == Sent(m.book, o);
      SentIsSafe(m, o, t);
    }
  }

  /** Over whole histories: if every plan agreed when it was taken up, every moment is safe. */
  lemma {:induction false} AgreedIsSafe(tr: seq<Moment>, k: nat)
    requires IsTrace(tr) && Agreed(tr) && k < |tr|
    ensures SafeMoment(tr[k])
  {
    if k > 0 {
      AgreedIsSafe(tr, k - 1);
      NextKeepsSafe(tr[k - 1], tr[k]);
    }
  }

  // ----- the gateway

  /** What left the process or was checked, and whether the kill switch was engaged then: a request, or a
      gate that had read so many durable halt events and perhaps the account. */
  datatype Entry =
    | Submission(order: Order, halted: bool)
    | Gated(events: nat, halted: bool, reading: Option<Reading>)

  /** The reading is one the broker gave. */
  ghost predicate Taken(r: Reading, accounts: seq<(real, real)>) {
    r.nth < |accounts| && accounts[r.nth] == (r.equity, r.prior)
  }

  predicate Watched(e: Entry) { e.Gated? && e.reading.Some? }

  /** No request added risk while the kill switch was engaged, a gate that saw a durable event found it engaged,
      and no two gates rest on one reading of the account. */
  ghost predicate LogHolds(log: seq<Entry>, accounts: seq<(real, real)>) {
    && (forall e | e in log && e.Submission? && e.halted :: e.order.side == SELL)
    && (forall e | e in log && e.Gated? && e.events > 0 :: e.halted)
    && (forall e | e in log && Watched(e) :: Taken(e.reading.value, accounts))
    && (forall j, k | 0 <= j < k < |log| && Watched(log[j]) && Watched(log[k]) ::
          log[j].reading.value.nth < log[k].reading.value.nth)
  }

  lemma LogHoldsLater(log: seq<Entry>, a: seq<(real, real)>, b: seq<(real, real)>)
    requires LogHolds(log, a) && a <= b
    ensures LogHolds(log, b)
  {
  }

  lemma LogHoldsSubmission(log: seq<Entry>, accounts: seq<(real, real)>, o: Order, halted: bool)
    requires LogHolds(log, accounts) && (halted ==> o.side == SELL)
    ensures LogHolds(log + [Submission(o, halted)], accounts)
  {
  }

  lemma NewReading(log: seq<Entry>, accounts: seq<(real, real)>, n: nat)
    requires LogHolds(log, accounts) && n >= |accounts|
    ensures forall e | e in log && Watched(e) :: e.reading.value.nth < n
  {
  }

  lemma LogHoldsGate(
    log: seq<Entry>, accounts: seq<(real, real)>, events: nat, halted: bool, reading: Option<Reading>)
    requires LogHolds(log, accounts) && (events > 0 ==> halted)
    requires reading.Some? ==>
               && Taken(reading.value, accounts)
               && forall e | e in log && Watched(e) :: e.reading.value.nth < reading.value.nth
    ensures LogHolds(log + [Gated(events, halted, reading)], accounts)
  {
  }

  class Gateway {
    var book: Book
    ghost var plan: seq<Target>
    ghost var history: seq<Moment>
    ghost var log: seq<Entry>
    ghost var listed: Option<set<ClientId>>
    ghost var asked: seq<ClientId>
    ghost var closed: seq<string>
    ghost var holdings: seq<map<string, int>>
    ghost var accounts: seq<(real, real)>
    ghost var equities: seq<real>
    ghost var faults: nat
    ghost var looks: nat

    ghost function Trace(): (tr: seq<Moment>)
      reads this
      ensures tr != [] && tr[|tr| - 1] == Moment(book, plan)
    {
      history + [Moment(book, plan)]
    }

    /** The history is one the executor can produce, and what the log says holds. */
    ghost predicate Valid()
      reads this
    {
      && IsTrace(Trace()) && OneTargetPerName(plan)
      && (forall k | k in book.orders :: book.orders[k].cid == k)
      && LogHolds(log, accounts)
    }

    /** The latest reading of the account, with what else was looked at. */
    ghost function Reading(last: map<int, int>, now: int): Reading
      requires accounts != []
      reads this
    {
      var (equity, prior) := accounts[|accounts| - 1];
      Triggers.Reading.Reading(|accounts| - 1, equity, prior, equities, last, now)
    }

    /** The positions the broker reported last. */
    ghost function Reported(): map<string, int>
      reads this
    {
      if holdings == [] then map[] else holdings[|holdings| - 1]
    }

    /** Time has passed under the same plan. */
    twostate predicate Moved()
      reads this
    {
      Valid() && plan == old(plan) && Continues(old(Trace()), Trace()) && old(holdings) <= holdings
    }

    /** As seen by one call after another, which only add to what is counted. */
    twostate predicate Later()
      reads this
    {
      Moved() && old(faults) <= faults && old(asked) <= asked
    }

    /** Time has passed and nothing was sent. */
    twostate predicate Quiet()
      reads this
    {
      Later() && log == old(log) && Evolves(old(book), book)
    }

    constructor (b: Book)
      requires Coherent(b)
      ensures Valid() && book == b && plan == [] && history == [] && log == []
    {
      book, plan, history, log := b, [], [], [];
      listed, asked, closed, holdings := None, [], [], [];
      accounts, equities, faults, looks := [], [], 0, 0;
    }

    /** Start executing a plan. */
    ghost method Begin(targets: seq<Target>)
      requires Valid() && OneTargetPerName(targets)
      modifies this`plan, this`history
      ensures Valid() && plan == targets
      ensures Trace() == old(Trace()) + [Moment(old(book), targets)]
    {
      TraceSnoc(Trace(), Moment(book, targets));
      history := Trace();
      plan := targets;
    }

    /** Note what a gate found. */
    ghost method Mark(events: nat, halted: bool, reading: Option<Reading>)
      requires Valid() && (events > 0 ==> halted)
      requires reading.Some? ==>
                 && Taken(reading.value, accounts)
                 && forall e | e in log && Watched(e) :: e.reading.value.nth < reading.value.nth
      modifies this`log
      ensures Valid() && log == old(log) + [Gated(events, halted, reading)]
    {
      LogHoldsGate(log, accounts, events, halted, reading);
      log := log + [Gated(events, halted, reading)];
    }

    /** A call that the broker does not answer, or that is the last thing the process does. */
    method Trouble<T>() returns (r: Outcome<T>)
      modifies this`faults
      ensures Down(r) && faults == old(faults) + 1
    {
      faults := faults + 1;
      if * { return Crashed; }
      return Failed(BrokerDown);
    }

    /** Time passes: the book may become anything the outside world allows. */
    method Env()
      requires Valid()
      modifies this`book, this`history
      ensures Quiet()
    {
      assert Evolves(book, book);
      var next :| Evolves(book, next);
      Advance(next);
    }

    ghost method Step(next: Book)
      requires Valid() && Next(Moment(book, plan), Moment(next, plan)) && Progress(book, next)
      modifies this`history
      ensures history == old(Trace()) && IsTrace(history + [Moment(next, plan)])
      ensures Continues(old(Trace()), history + [Moment(next, plan)])
    {
      TraceSnoc(Trace(), Moment(next, plan));
      history := Trace();
    }

    method Advance(next: Book)
      requires Valid() && Evolves(book, next)
      modifies this`book, this`history
      ensures Quiet() && book == next
    {
      hide IsTrace;
      Step(next);
      book := next;
    }

    /** What the broker has under a client order id right now. */
    method FindByClientId(c: ClientId) returns (r: Outcome<Option<Order>>)
      requires Valid()
      modifies this`book, this`history, this`faults
      ensures Quiet()
      ensures r.Done? ==> r.value == if c in book.orders then Some(book.orders[c]) else None
      ensures !r.Done? ==> Down(r) && faults > old(faults)
      ensures r.Done? ==> faults == old(faults)
    {
      Env();
      if * {
        r := Trouble();
        return;
      }
      return Done(if c in book.orders then Some(book.orders[c]) else None);
    }

    method GetOrder(c: ClientId) returns (r: Outcome<Order>)
      requires Valid()
      modifies this`book, this`history, this`faults, this`looks
      ensures Quiet()
      ensures r.Done? ==> c in book.orders && r.value == book.orders[c]
      ensures !r.Done? ==> Down(r) && faults > old(faults)
      ensures looks == old(looks) + 1
      ensures r.Done? ==> faults == old(faults)
    {
      looks := looks + 1;
      Env();
      if * {
        r := Trouble();
        return;
      }
      if c !in book.orders {
        r := Trouble();
        return;
      }
      return Done(book.orders[c]);
    }

    /** Success means requested, not cancelled. */
    method CancelOrder(c: ClientId) returns (r: Outcome<()>)
      requires Valid()
      modifies this`book, this`history, this`asked, this`faults
      ensures Quiet() && asked == old(asked) + [c]
      ensures !r.Done? ==> r == Failed(NotCancelable) || (Down(r) && faults > old(faults))
      ensures r == Failed(NotCancelable) ==> c !in book.orders || Terminal(book.orders[c].status)
      ensures r.Done? ==> faults == old(faults)
      ensures r == Failed(NotCancelable) ==> faults == old(faults)
    {
      asked := asked + [c];
      Env();
      if * {
        r := Trouble();
        return;
      }
      if c !in book.orders || Terminal(book.orders[c].status) { return Failed(NotCancelable); }
      return Done(());
    }

    /** The orders the broker lists as working at the moment of the read. */
    method OpenOrders() returns (r: Outcome<set<ClientId>>)
      requires Valid()
      modifies this`book, this`history, this`listed, this`faults
      ensures Quiet() && (r.Done? ==> listed == Some(r.value))
      ensures r.Done? ==> r.value == set c | c in book.orders && !Terminal(book.orders[c].status)
      ensures !r.Done? ==> Down(r) && faults > old(faults)
      ensures r.Done? ==> faults == old(faults)
    {
      listed := None;
      Env();
      if * {
        r := Trouble();
        return;
      }
      var open := set c | c in book.orders && !Terminal(book.orders[c].status);
      listed := Some(open);
      return Done(open);
    }

    /** Held quantities, as the broker reports them. */
    method Positions() returns (r: Outcome<map<string, int>>)
      requires Valid()
      modifies this`book, this`history, this`holdings, this`faults
      ensures Quiet() && (if r.Done? then holdings == old(holdings) + [r.value] else holdings == old(holdings))
      ensures !r.Done? ==> Down(r) && faults > old(faults)
      ensures r.Done? ==> faults == old(faults)
    {
      Env();
      if * {
        r := Trouble();
        return;
      }
      var held: map<string, int> := *;
      holdings := holdings + [held];
      return Done(held);
    }

    /** Equity now and at the prior close. */
    method AccountEquity() returns (r: Outcome<(real, real)>)
      requires Valid()
      modifies this`book, this`history, this`accounts, this`faults
      ensures Quiet() && old(accounts) <= accounts
      ensures r.Done? ==> accounts == old(accounts) + [r.value]
      ensures !r.Done? ==> Down(r) && faults > old(faults)
      ensures r.Done? ==> faults == old(faults)
    {
      Env();
      if * {
        r := Trouble();
        return;
      }
      var read: (real, real) := *;
      LogHoldsLater(log, accounts, accounts + [read]);
      accounts := accounts + [read];
      return Done(read);
    }

    method EquityHistory() returns (r: Outcome<seq<real>>)
      requires Valid()
      modifies this`book, this`history, this`equities, this`faults
      ensures Quiet() && (r.Done? ==> equities == r.value)
      ensures !r.Done? ==> Down(r) && faults > old(faults)
      ensures r.Done? ==> faults == old(faults)
    {
      Env();
      if * {
        r := Trouble();
        return;
      }
      var read: seq<real> := *;
      equities := read;
      return Done(read);
    }

    /** Sell a whole position. Working orders are left alone, so a caller may only ask for it when the latest
        listing showed none. */
    method ClosePosition(symbol: string) returns (r: Outcome<()>)
      requires Valid() && listed == Some({})
      modifies this`book, this`history, this`closed, this`faults
      ensures Quiet() && closed == old(closed) + [symbol]
      ensures !r.Done? ==> Down(r) && faults > old(faults)
      ensures r.Done? ==> faults == old(faults)
    {
      closed := closed + [symbol];
      Env();
      if * {
        r := Trouble();
        return;
      }
      return Done(());
    }

    /** Send an order for a target of the plan. It may be accepted now, later or never, and the answer may
        be lost. A buy needs the switch to be off. */
    method Submit(o: Order, halted: bool, ghost t: Target) returns (r: Outcome<Order>)
      requires Valid() && t in plan && MaySend(o, book, t)
      requires halted ==> o.side == SELL
      modifies this`book, this`history, this`log, this`listed, this`faults
      ensures Later() && log == old(log) + [Submission(o, halted)]
      ensures r.Done? ==> o.cid in book.orders && r.value == book.orders[o.cid]
      ensures r == Failed(Duplicate) ==> o.cid in book.orders && o.cid in old(book.orders)
      ensures !r.Done? ==> r == Failed(Duplicate) || (Down(r) && faults > old(faults))
      ensures r.Done? || r == Failed(Duplicate) ==> faults == old(faults)
    {
      hide LogHolds;
      LogHoldsSubmission(log, accounts, o, halted);
      log := log + [Submission(o, halted)];
      listed := None;
      var used := o.cid in book.orders;
      Send(o, t);
      Env();
      if * {
        r := Trouble();
        return;
      }
      if used { return Failed(Duplicate); }
      if o.cid !in book.orders {
        r := Trouble();
        return;
      }
      return Done(book.orders[o.cid]);
    }

    method Send(o: Order, ghost t: Target)
      requires Valid() && t in plan && MaySend(o, book, t)
      modifies this`book, this`history
      ensures Later() && book == Sent(old(book), o)
    {
      hide IsTrace;
      Step(Sent(book, o));
      book := Sent(book, o);
    }
  }

  /** If every plan so far agreed, the present one is safe. */
  lemma AgreedNow(gw: Gateway)
    requires gw.Valid() && Agreed(gw.Trace())
    ensures SafeMoment(Moment(gw.book, gw.plan))
  {
    AgreedIsSafe(gw.Trace(), |gw.Trace()| - 1);
  }
}
