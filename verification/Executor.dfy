/** The steps of one name: a limit order, its cancel, its close, and a market order for what it left. Any call
    to the broker or the store may fail or be the last thing the process does, and no step infers anything
    the broker did not say. */
module Executor {
  import opened Wrappers
  import opened Broker
  import opened Evidence

  const EPS: int := 1

  // ----- one name

  /** A name's progress, as a value. */
  datatype LegState = LegState(
    target: Target, lim: Option<Order>, mkt: Option<Order>, blocked: bool,
    residual: int, pending: bool, price: Option<Ref>, error: Option<Error>, polls: nat)

  /** o is the broker's order c as it was at some earlier read. */
  ghost predicate Tracks(o: Order, c: ClientId, b: Book) {
    o.cid == c && c in b.orders && OrderEvolves(o, b.orders[c])
  }

  /** What a leg holds was read from the broker at some time; a pending residual is the exact shortfall of a
      terminal limit order whose evidence is stored. */
  ghost predicate Consistent(v: LegState, b: Book, recs: Records) {
    && (v.lim.Some? ==> Tracks(v.lim.value, LimId(v.target), b))
    && (v.mkt.Some? ==> Tracks(v.mkt.value, MktId(v.target), b) && v.pending)
    && (v.pending ==>
          && v.lim.Some? && Terminal(v.lim.value.status) && v.lim.value.status != REJECTED
          && v.residual > 0 && v.residual == v.target.qty - v.lim.value.filled
          && LimId(v.target) in recs)
  }

  /** The order was read when the broker had at least as much of it filled as b says. */
  ghost predicate NotBefore(o: Option<Order>, c: ClientId, b: Book) {
    o.Some? && c in b.orders ==> b.orders[c].filled <= o.value.filled
  }

  /** Nothing the leg holds was read before b. */
  ghost predicate ReadSince(v: LegState, b: Book) {
    NotBefore(v.lim, LimId(v.target), b) && NotBefore(v.mkt, MktId(v.target), b)
  }

  lemma ReadSinceStep(v: LegState, w: LegState, b: Book, d: Book)
    requires ReadSince(v, b) && Reread(v, w, d) && Progress(b, d)
    ensures ReadSince(w, b)
  {
  }

  lemma RereadStays(v: LegState, w: LegState, b: Book)
    requires w.target == v.target && w.lim == v.lim && w.mkt == v.mkt
    ensures Reread(v, w, b)
  {
  }

  /** What the leg holds now it held before, or read from the broker later than b. */
  ghost predicate Reread(v: LegState, w: LegState, b: Book) {
    && w.target == v.target
    && (w.lim == v.lim || NotBefore(w.lim, LimId(v.target), b))
    && (w.mkt == v.mkt || NotBefore(w.mkt, MktId(v.target), b))
  }

  lemma StillThere(c: ClientId, b: Book, d: Book)
    requires Progress(b, d)
    ensures c in b.orders ==> c in d.orders
  {
  }

  lemma RereadBefore(v: LegState, w: LegState, b: Book, d: Book)
    requires Reread(v, w, d) && Progress(b, d)
    ensures Reread(v, w, b)
  {
  }

  lemma MarketReread(v: LegState, w: LegState, b: Book)
    requires w == v.(mkt := w.mkt) && (w.mkt == v.mkt || NotBefore(w.mkt, MktId(v.target), b))
    ensures Reread(v, w, b)
  {
  }

  lemma ReadLater(o: Option<Order>, c: ClientId, b: Book, d: Book)
    requires Progress(b, d) && (o.Some? ==> c in d.orders && o.value == d.orders[c])
    ensures NotBefore(o, c, b)
  {
  }

  lemma ConsistentLater(v: LegState, b: Book, c: Book, recs: Records, more: Records)
    requires Consistent(v, b, recs) && Progress(b, c) && Grew(recs, more)
    ensures Consistent(v, c, more)
  {
  }

  /** A pending residual may be sent: it was computed from a terminal read, and terminal orders are final. */
  lemma PendingMaySend(v: LegState, b: Book, recs: Records)
    requires Consistent(v, b, recs) && v.pending
    ensures MaySend(Order(MktId(v.target), MARKET, v.target.side, v.residual, 0, OPEN), b, v.target)
    ensures v.lim.Some? && v.residual == v.target.qty - v.lim.value.filled
  {
  }

  /** A market order just read from the broker may be held. */
  lemma ConsistentMarket(v: LegState, b: Book, recs: Records, o: Order)
    requires Consistent(v, b, recs) && v.pending && MktId(v.target) in b.orders && o == b.orders[MktId(v.target)]
    requires o.cid == MktId(v.target)
    ensures Consistent(v.(mkt := Some(o)), b, recs) && Tracks(o, MktId(v.target), b)
  {
  }

  lemma PendingIsStored(v: LegState, b: Book, recs: Records)
    requires Consistent(v, b, recs) && v.pending
    ensures LimId(v.target) in recs
  {
  }

  /** After the submissions: a name without an error has a limit order or was blocked. */
  predicate Submitted(v: LegState) {
    && v.mkt.None? && !v.pending
    && (v.error.None? ==> v.lim.Some? || v.blocked)
  }

  /** After the confirmations: a limit order is terminal and the residual is what it left. */
  ghost predicate Settled(v: LegState, recs: Records) {
    v.error.None? ==>
      && (v.lim.None? ==> v.blocked && !v.pending)
      && (v.lim.Some? ==>
            && Terminal(v.lim.value.status) && LimId(v.target) in recs
            && v.lim.value.filled <= v.target.qty + EPS
            && v.pending == (v.lim.value.status != REJECTED && v.lim.value.filled < v.target.qty))
  }

  /** At the end: every residual was sent, blocked by the switch or withheld after an overfill. */
  ghost predicate Finished(v: LegState, recs: Records, stop: bool) {
    Settled(v, recs) && (v.error.None? && v.pending && v.mkt.None? ==> v.blocked || stop)
  }

  datatype LegOutcome = LegOutcome(filled: int, complete: bool, blocked: bool)

  function FilledOf(o: Option<Order>): int { if o.Some? then o.value.filled else 0 }

  function OutcomeOf(qty: int, lim: Option<Order>, mkt: Option<Order>, blocked: bool): LegOutcome {
    var filled := FilledOf(lim) + FilledOf(mkt);
    var gap := qty - filled;
    LegOutcome(filled, (if gap < 0 then -gap else gap) <= EPS, blocked)
  }

  /** Polling refreshes one order of the leg, and never a terminal one. */
  predicate Polled(v: LegState, w: LegState) {
    && w == v.(lim := w.lim, mkt := w.mkt, polls := w.polls) && v.polls <= w.polls
    && (v.lim.Some? <==> w.lim.Some?) && (v.mkt.Some? <==> w.mkt.Some?)
    && (v.lim.Some? && (Terminal(v.lim.value.status) || v.mkt.Some?) ==> w.lim == v.lim)
  }

  /** There is something to poll: a market order, or without one a limit order not yet terminal. */
  predicate Waits(v: LegState) {
    v.error.None? && v.lim.Some? && (v.mkt.None? ==> !Terminal(v.lim.value.status))
  }

  /** The order being waited on is not terminal. */
  predicate StillOpen(v: LegState) {
    v.error.None? && v.lim.Some? && !Terminal((if v.mkt.Some? then v.mkt else v.lim).value.status)
  }

  class Leg {
    const target: Target
    var lim: Option<Order>
    var mkt: Option<Order>
    var blocked: bool
    var residual: int
    var pending: bool
    var price: Option<Ref>
    var lookedUp: Option<Ref>
    var error: Option<Error>
    ghost var polls: nat

    ghost function View(): LegState
      reads this
    {
      LegState(target, lim, mkt, blocked, residual, pending, price, error, polls)
    }

    constructor (t: Target, found: Option<Order>)
      ensures View() == LegState(t, found, None, false, 0, false, None, None, 0) && lookedUp == None
    {
      target, lim, mkt, blocked, residual, pending := t, found, None, false, 0, false;
      price, lookedUp, error, polls := None, None, None, 0;
    }

    /** The recorded reference of the name, else one lookup remembered for this execution. */
    method Reference(rec: Recorder) returns (r: Outcome<Ref>)
      modifies this`lookedUp, rec`faults
      ensures r.Done? && LimId(target) in rec.recs ==> r.value == rec.recs[LimId(target)].ref
      ensures old(rec.faults) <= rec.faults && (Down(r) ==> rec.faults > old(rec.faults))
      ensures r.Failed? ==> Down(r) || r.error == NoReference
      ensures old(lookedUp).Some? ==> lookedUp == old(lookedUp)
      ensures r.Done? && LimId(target) !in rec.recs ==> lookedUp == Some(r.value)
      ensures r.Done? ==> rec.faults == old(rec.faults)
    {
      var stored := rec.FindExecution(LimId(target));
      match stored
      case Crashed => return Crashed;
      case Failed(e) => return Failed(e);
      case Done(row) =>
        if row.Some? { return Done(row.value.ref); }
        if lookedUp.None? {
          if * {
            r := rec.Trouble();
            return;
          }
          if * { return Failed(NoReference); }
          var found: Ref := *;
          lookedUp := Some(found);
        }
        return Done(lookedUp.value);
    }

    /** Store what was just read about one of the name's two orders. */
    method Note(order: Order, rec: Recorder, ghost b: Book) returns (r: Outcome<()>)
      requires rec.Valid() && Reflects(rec.recs, b)
      requires Tracks(order, LimId(target), b) || (Tracks(order, MktId(target), b) && LimId(target) in rec.recs)
      modifies this`lookedUp, rec
      ensures rec.Valid() && Reflects(rec.recs, b) && Grew(old(rec.recs), rec.recs)
      ensures r.Done? ==> order.cid in rec.recs && rec.recs[order.cid].seen == order
      ensures old(rec.faults) <= rec.faults && (Down(r) ==> rec.faults > old(rec.faults))
      ensures r.Failed? ==> Down(r) || r.error == NoReference
      ensures r.Done? ==> rec.faults == old(rec.faults)
    {
      var ref := Reference(rec);
      match ref
      case Crashed => return Crashed;
      case Failed(e) => return Failed(e);
      case Done(v) => r := rec.RecordExecution(Record(order, v));
    }

    function Outcome(): LegOutcome
      reads this
    {
      OutcomeOf(target.qty, lim, mkt, blocked)
    }

    // phase A
    method OpenForSubmit(ks: KillSwitch) returns (open: bool)
      modifies this`blocked
      ensures open ==> lim.None? && ks.Allows(target.side) && blocked == old(blocked)
      ensures !open ==> lim.Some? || blocked
      ensures old(blocked) ==> blocked
      ensures blocked ==> old(blocked) || !ks.Allows(target.side)
    {
      if lim.Some? { return false; }
      if !ks.Allows(target.side) {
        blocked := true;
        return false;
      }
      return true;
    }

    method ResolveReference(rec: Recorder) returns (r: Outcome<()>)
      modifies this`lookedUp, this`price, rec`faults
      ensures r.Done? ==> price.Some?
      ensures old(rec.faults) <= rec.faults && (Down(r) ==> rec.faults > old(rec.faults))
      ensures r.Failed? ==> Down(r) || r.error == NoReference
      ensures !r.Done? ==> price == old(price)
    {
      var ref := Reference(rec);
      match ref
      case Crashed => return Crashed;
      case Failed(e) => return Failed(e);
      case Done(v) =>
        price := Some(v);
        return Done(());
    }

    /** Sends the one limit request of the name unless the switch forbids it, and nothing else. */
    method SubmitLimit(gw: Gateway, ks: KillSwitch, rec: Recorder) returns (r: Outcome<()>)
      requires gw.Valid() && rec.Valid() && Reflects(rec.recs, gw.book)
      requires target in gw.plan && Consistent(View(), gw.book, rec.recs)
      requires lim.None? && mkt.None? && !pending && price.Some? && target.qty > 0
      modifies this`lim, this`blocked, this`lookedUp, gw`book, gw`history, gw`faults, gw`log, gw`listed, rec
      ensures gw.Later() && rec.Valid() && Reflects(rec.recs, gw.book) && Grew(old(rec.recs), rec.recs)
      ensures gw.log == old(gw.log)
                        + if ks.Allows(target.side) then [Submission(LimitFor(target), ks.Halted())] else []
      ensures Consistent(View(), gw.book, rec.recs)
      ensures blocked == (old(blocked) || !ks.Allows(target.side))
      ensures r.Done? ==> lim.Some? || blocked
      ensures r.Done? && lim.Some? ==> LimId(target) in rec.recs && rec.recs[LimId(target)].seen == lim.value
      ensures old(rec.faults) <= rec.faults && (Down(r) ==> gw.faults + rec.faults > old(gw.faults + rec.faults))
      ensures r.Failed? ==> Down(r) || r.error == NoReference
      ensures Reread(old(View()), View(), old(gw.book))
    {
      hide IsTrace, Continues, Evolves, LogHolds;
      GrewStays(rec.recs);
      ContinuesStays(gw.Trace());
      if !ks.Allows(target.side) {
        blocked := true;
        return Done(());
      }
      var sent := SubmitOnce(gw, ks, LimitFor(target), target);
      LaterProgress(old(gw.Trace()), gw.Trace());
      ReflectsLater(rec.recs, old(gw.book), gw.book);
      match sent
      case Crashed => return Crashed;
      case Failed(e) => return Failed(e);
      case Done(o) =>
        lim := Some(o);
        r := Note(o, rec, gw.book);
    }

    // phase C
    method CancelLimit(gw: Gateway, ghost recs: Records) returns (r: Outcome<()>)
      requires gw.Valid() && Consistent(View(), gw.book, recs) && mkt.None? && !pending
      modifies this`lim, gw`book, gw`history, gw`faults, gw`looks, gw`asked
      ensures gw.Quiet()
      ensures Consistent(View(), gw.book, recs)
      ensures lim.Some? <==> old(lim).Some?
      ensures r.Done? && lim.Some? ==>
                gw.asked == old(gw.asked) + if Terminal(lim.value.status) then [] else [LimId(target)]
      ensures !r.Done? ==> Down(r) && gw.faults > old(gw.faults)
      ensures Reread(old(View()), View(), old(gw.book))
      ensures r.Done? ==> gw.faults == old(gw.faults)
    {
      hide IsTrace, Continues, Evolves, LogHolds;
      ContinuesStays(gw.Trace());
      if lim.None? || Terminal(lim.value.status) { return Done(()); }
      var read := gw.GetOrder(lim.value.cid);
      LaterProgress(old(gw.Trace()), gw.Trace());
      ghost var before := gw.Trace();
      match read
      case Crashed => return Crashed;
      case Failed(e) => return Failed(e);
      case Done(o) =>
        lim := Some(o);
        if !Terminal(o.status) {
          var cancelled := gw.CancelOrder(o.cid);
          LaterProgress(before, gw.Trace());
          ContinuesIsTransitive(old(gw.Trace()), before, gw.Trace());
          if cancelled == Failed(NotCancelable) { return Done(()); }
          return cancelled;
        }
        return Done(());
    }

    predicate Waiting()
      reads this
      ensures Waiting() == StillOpen(View()) && (Waiting() ==> Waits(View()))
    {
      error.None? && lim.Some? && !Terminal((if mkt.Some? then mkt else lim).value.status)
    }

    /** One poll. */
    method Poll(gw: Gateway, ghost recs: Records) returns (r: Outcome<bool>)
      requires gw.Valid() && Consistent(View(), gw.book, recs) && Waits(View())
      modifies this`lim, this`mkt, gw`book, gw`history, gw`faults, gw`looks, this`polls
      ensures gw.Quiet()
      ensures Consistent(View(), gw.book, recs) && Polled(old(View()), View())
      ensures r == Done(false) ==> Waits(View())
      ensures !r.Done? ==> Down(r) && gw.faults > old(gw.faults)
      ensures polls == old(polls) + 1 && Reread(old(View()), View(), old(gw.book))
      ensures r.Done? ==> r.value == Terminal((if mkt.Some? then mkt else lim).value.status)
      ensures r.Done? ==> gw.faults == old(gw.faults)
    {
      hide IsTrace, Continues, Evolves, LogHolds;
      polls := polls + 1;
      var current := if mkt.Some? then mkt.value.cid else lim.value.cid;
      var read := gw.GetOrder(current);
      LaterProgress(old(gw.Trace()), gw.Trace());
      ConsistentLater(View(), old(gw.book), gw.book, recs, recs);
      match read
      case Crashed => return Crashed;
      case Failed(e) => return Failed(e);
      case Done(o) =>
        if mkt.Some? { mkt := Some(o); } else { lim := Some(o); }
        return Done(Terminal(o.status));
    }

    // phase D
    method CloseLimit(rec: Recorder, ghost b: Book) returns (r: Outcome<()>)
      requires rec.Valid() && Reflects(rec.recs, b) && Consistent(View(), b, rec.recs)
      requires Submitted(View()) && error.None?
      modifies this`residual, this`pending, this`lookedUp, rec
      ensures rec.Valid() && Reflects(rec.recs, b) && Grew(old(rec.recs), rec.recs)
      ensures Consistent(View(), b, rec.recs)
      ensures r.Done? ==> Settled(View(), rec.recs)
      ensures old(rec.faults) <= rec.faults && (Down(r) ==> rec.faults > old(rec.faults))
      ensures r.Failed? ==> Down(r) || r.error in {NoReference, CancelNotConfirmed, Overfill}
      ensures r == Failed(CancelNotConfirmed) ==> lim.Some? && !Terminal(lim.value.status)
      ensures r == Failed(Overfill) ==> lim.Some? && lim.value.filled > target.qty + EPS
      ensures r.Done? ==> rec.faults == old(rec.faults)
    {
      if lim.None? { return Done(()); }
      var noted := Note(lim.value, rec, b);
      if !noted.Done? { return noted; }
      if !Terminal(lim.value.status) { return Failed(CancelNotConfirmed); }
      if lim.value.filled > target.qty + EPS { return Failed(Overfill); }
      if lim.value.status == REJECTED { return Done(()); }
      residual := target.qty - lim.value.filled;
      pending := residual > 0;
      return Done(());
    }

    // phase E

    /** Adopts the market order an earlier attempt placed, or sends what the terminal limit order left,
        unless the switch forbids it. */
    method SubmitMarket(gw: Gateway, ks: KillSwitch, rec: Recorder) returns (r: Outcome<()>)
      requires gw.Valid() && rec.Valid() && Reflects(rec.recs, gw.book)
      requires target in gw.plan && Consistent(View(), gw.book, rec.recs)
      requires pending && mkt.None?
      modifies this`mkt, this`blocked, this`lookedUp, gw`book, gw`history, gw`faults, gw`log, gw`listed, rec
      ensures gw.Later() && rec.Valid() && Reflects(rec.recs, gw.book) && Grew(old(rec.recs), rec.recs)
      ensures gw.log == old(gw.log) || SentResidual(old(gw.log), gw.log, ks)
      ensures Consistent(View(), gw.book, rec.recs)
      ensures blocked ==> old(blocked) || !ks.Allows(target.side)
      ensures View() == old(View()).(mkt := mkt, blocked := blocked)
      ensures r.Done? ==> mkt.Some? || blocked
      ensures r.Done? && MktId(target) !in gw.book.orders ==> gw.log == old(gw.log) && !ks.Allows(target.side)
      ensures old(rec.faults) <= rec.faults && (Down(r) ==> gw.faults + rec.faults > old(gw.faults + rec.faults))
      ensures r.Failed? ==> Down(r) || r.error == NoReference
      ensures Reread(old(View()), View(), old(gw.book))
      ensures MktId(target) in old(gw.book.orders) ==> gw.log == old(gw.log)
    {
      hide Progress, Reflects, Evolves, IsTrace, Continues, LogHolds, NotBefore;
      var found := gw.FindByClientId(MktId(target));
      LaterProgress(old(gw.Trace()), gw.Trace());
      ConsistentLater(View(), old(gw.book), gw.book, rec.recs, rec.recs);
      ReflectsLater(rec.recs, old(gw.book), gw.book);
      StillThere(MktId(target), old(gw.book), gw.book);
      match found
      case Crashed => return Crashed;
      case Failed(e) => return Failed(e);
      case Done(existing) =>
        if existing.Some? {
          Adopt(existing.value, gw, rec.recs);
          ReadLater(mkt, MktId(target), old(gw.book), gw.book);
          return Done(());
        }
        if !ks.Allows(target.side) {
          blocked := true;
          return Done(());
        }
        ghost var mid, was := gw.Trace(), gw.book;
        r := SendMarket(gw, ks, rec);
        ContinuesIsTransitive(old(gw.Trace()), mid, gw.Trace());
        RereadBefore(old(View()), View(), old(gw.book), was);
    }

    /** One submission, the residual of the limit order, while the switch allowed it. */
    ghost predicate SentResidual(before: seq<Entry>, after: seq<Entry>, ks: KillSwitch)
      reads this, ks
    {
      && lim.Some? && ks.Allows(target.side)
      && after == before + [Submission(MarketFor(target, lim.value.filled), ks.Halted())]
    }

    /** The market order an earlier attempt already placed. */
    method Adopt(o: Order, gw: Gateway, ghost recs: Records)
      requires gw.Valid() && Consistent(View(), gw.book, recs) && pending
      requires MktId(target) in gw.book.orders && o == gw.book.orders[MktId(target)]
      modifies this`mkt
      ensures mkt == Some(o) && Consistent(View(), gw.book, recs)
    {
      mkt := Some(o);
    }

    method SendMarket(gw: Gateway, ks: KillSwitch, rec: Recorder) returns (r: Outcome<()>)
      requires gw.Valid() && rec.Valid() && Reflects(rec.recs, gw.book)
      requires target in gw.plan && Consistent(View(), gw.book, rec.recs)
      requires pending && mkt.None? && ks.Allows(target.side)
      modifies this`mkt, this`lookedUp, gw`book, gw`history, gw`faults, gw`log, gw`listed, rec
      ensures gw.Later() && rec.Valid() && Reflects(rec.recs, gw.book) && Grew(old(rec.recs), rec.recs)
      ensures SentResidual(old(gw.log), gw.log, ks)
      ensures Consistent(View(), gw.book, rec.recs)
      ensures r.Done? ==> mkt.Some? && MktId(target) in gw.book.orders
      ensures old(rec.faults) <= rec.faults && (Down(r) ==> gw.faults + rec.faults > old(gw.faults + rec.faults))
      ensures r.Failed? ==> Down(r) || r.error == NoReference
      ensures Reread(old(View()), View(), old(gw.book))
    {
      hide Consistent, Progress, Reflects, IsTrace, Continues, Evolves, Grew, MaySend, Recorder.Valid, LogHolds;
      hide NotBefore, Reread, Tracks;
      var order := Order(MktId(target), MARKET, target.side, residual, 0, OPEN);
      PendingMaySend(View(), gw.book, rec.recs);
      MarketReread(View(), View(), gw.book);
      GrewStays(rec.recs);
      var sent := SubmitOnce(gw, ks, order, target);
      LaterProgress(old(gw.Trace()), gw.Trace());
      ConsistentLater(View(), old(gw.book), gw.book, rec.recs, rec.recs);
      ReflectsLater(rec.recs, old(gw.book), gw.book);
      match sent
      case Crashed => return Crashed;
      case Failed(e) => return Failed(e);
      case Done(o) =>
        ReadLater(Some(o), MktId(target), old(gw.book), gw.book);
        r := HoldMarket(o, rec, gw.book);
        MarketReread(old(View()), View(), old(gw.book));
    }

    /** Hold a market order just sent, and store what it said. */
    method HoldMarket(o: Order, rec: Recorder, ghost b: Book) returns (r: Outcome<()>)
      requires rec.Valid() && Reflects(rec.recs, b) && Consistent(View(), b, rec.recs) && pending
      requires MktId(target) in b.orders && o == b.orders[MktId(target)] && o.cid == MktId(target)
      modifies this`mkt, this`lookedUp, rec
      ensures rec.Valid() && Reflects(rec.recs, b) && Grew(old(rec.recs), rec.recs)
      ensures mkt == Some(o) && Consistent(View(), b, rec.recs)
      ensures old(rec.faults) <= rec.faults && (Down(r) ==> rec.faults > old(rec.faults))
      ensures r.Failed? ==> Down(r) || r.error == NoReference
    {
      hide Consistent, Progress, Reflects;
      ConsistentMarket(View(), b, rec.recs, o);
      PendingIsStored(View(), b, rec.recs);
      mkt := Some(o);
      r := Note(o, rec, b);
      ProgressStays(b);
      ConsistentLater(View(), b, b, old(rec.recs), rec.recs);
    }

    method CloseMarket(rec: Recorder, ghost b: Book) returns (r: Outcome<()>)
      requires rec.Valid() && Reflects(rec.recs, b) && Consistent(View(), b, rec.recs) && mkt.Some?
      modifies this`lookedUp, rec
      ensures rec.Valid() && Reflects(rec.recs, b) && Grew(old(rec.recs), rec.recs)
      ensures Consistent(View(), b, rec.recs)
      ensures r.Done? ==> lim.value.filled + mkt.value.filled <= target.qty + EPS
      ensures old(rec.faults) <= rec.faults && (Down(r) ==> rec.faults > old(rec.faults))
      ensures r.Failed? ==> Down(r) || r.error in {NoReference, Overfill}
      ensures r == Failed(Overfill) ==> lim.value.filled + mkt.value.filled > target.qty + EPS
      ensures r.Done? ==> MktId(target) in rec.recs && rec.recs[MktId(target)].seen == mkt.value
      ensures r.Done? ==> rec.faults == old(rec.faults)
    {
      var noted := Note(mkt.value, rec, b);
      ConsistentLater(View(), b, b, old(rec.recs), rec.recs);
      if !noted.Done? { return noted; }
      if lim.value.filled + mkt.value.filled > target.qty + EPS { return Failed(Overfill); }
      return Done(());
    }
  }

  /** A lost or duplicate answer is reconciled by reading the order back; nothing is ever resent. */
  method SubmitOnce(gw: Gateway, ks: KillSwitch, order: Order, ghost t: Target) returns (r: Outcome<Order>)
    requires gw.Valid() && t in gw.plan && MaySend(order, gw.book, t) && ks.Allows(order.side)
    modifies gw`book, gw`history, gw`faults, gw`log, gw`listed
    ensures gw.Later() && gw.log == old(gw.log) + [Submission(order, ks.Halted())]
    ensures r.Done? ==> order.cid in gw.book.orders && r.value == gw.book.orders[order.cid]
    ensures !r.Done? ==> Down(r) && gw.faults > old(gw.faults)
    ensures r.Failed? && order.cid in gw.book.orders && order.cid !in old(gw.book.orders) ==>
              gw.faults >= old(gw.faults) + 2
  {
    hide IsTrace, Continues, Evolves, LogHolds;
    r := gw.Submit(order, ks.Halted(), t);
    if r.Failed? {
      ghost var mid := gw.Trace();
      var found := gw.FindByClientId(order.cid);
      LaterProgress(mid, gw.Trace());
      ContinuesIsTransitive(old(gw.Trace()), mid, gw.Trace());
      match found
      case Crashed => return Crashed;
      case Failed(e) => return Failed(e);
      case Done(o) =>
        if o.None? { return r; }
        return Done(o.value);
    }
  }

  lemma LaterProgress(a: seq<Moment>, b: seq<Moment>)
    requires Continues(a, b)
    ensures Progress(a[|a| - 1].book, b[|b| - 1].book)
  {
  }

  lemma GrewStays(a: Records)
    ensures Grew(a, a)
  {
  }
}
