/** Kill-switch actions: engage first, cancel and confirm everything, close positions only after a listing
    without open orders, and attempt to record the halt however the action ended. */
module Halting {
  import opened Wrappers
  import opened Broker
  import opened Evidence
  import opened Triggers

  const ROUNDS: nat := 3

  /** The durable halt events of a run, the attempts to record one, and how often the store has failed so far. */
  class HaltLog {
    var events: seq<Event>
    ghost var attempts: seq<Event>
    ghost var faults: nat

    constructor ()
      ensures events == [] && attempts == []
    {
      events, attempts, faults := [], [], 0;
    }

    /** A call that the store does not answer, or that is the last thing the process does. */
    method Trouble<T>() returns (r: Outcome<T>)
      modifies this`faults
      ensures Down(r) && faults == old(faults) + 1
    {
      faults := faults + 1;
      if * { return Crashed; }
      return Failed(StoreDown);
    }

    /** Another process (an operator) may have recorded a halt. */
    method Load() returns (r: Outcome<seq<Event>>)
      modifies this`events, this`faults
      ensures old(events) <= events && (r.Done? ==> r.value == events)
      ensures old(faults) <= faults && (!r.Done? ==> Down(r) && faults > old(faults))
      ensures r.Done? ==> faults == old(faults)
    {
      if * {
        var other: Event := *;
        events := events + [other];
      }
      if * {
        r := Trouble();
        return;
      }
      return Done(events);
    }

    method Record(e: Event) returns (r: Outcome<()>)
      modifies this
      ensures attempts == old(attempts) + [e]
      ensures events == old(events) || events == old(events) + [e]
      ensures r.Done? ==> events == old(events) + [e]
      ensures old(faults) <= faults && (!r.Done? ==> Down(r) && faults > old(faults))
      ensures r.Done? ==> faults == old(faults)
    {
      attempts := attempts + [e];
      if * {
        r := Trouble();
        return;
      }
      events := events + [e];
      if * {
        r := Trouble();
        return;
      }
      return Done(());
    }
  }

  ghost predicate AllTerminal(cs: seq<ClientId>, b: Book) {
    forall c | c in cs :: c in b.orders && Terminal(b.orders[c].status)
  }

  /** Each reported position that is not zero is among those closed. */
  ghost predicate AllClosed(reported: map<string, int>, closed: seq<string>) {
    forall s | s in reported && reported[s] != 0 :: s in closed
  }

  lemma TerminalLater(cs: seq<ClientId>, a: seq<Moment>, b: seq<Moment>)
    requires Continues(a, b) && AllTerminal(cs, a[|a| - 1].book)
    ensures AllTerminal(cs, b[|b| - 1].book)
  {
  }

  lemma NoneTerminal(b: Book)
    ensures AllTerminal([], b)
  {
  }

  lemma OneTerminal(c: ClientId, b: Book)
    requires c in b.orders && Terminal(b.orders[c].status)
    ensures AllTerminal([c], b)
  {
  }

  lemma TerminalBoth(xs: seq<ClientId>, ys: seq<ClientId>, b: Book)
    requires AllTerminal(xs, b) && AllTerminal(ys, b)
    ensures AllTerminal(xs + ys, b)
  {
  }

  class HaltController {
    const gw: Gateway
    const ks: KillSwitch
    const log: HaltLog
    const rules: Rules
    const pollAttempts: nat
    var flattened: bool

    constructor (gw: Gateway, ks: KillSwitch, log: HaltLog, rules: Rules, pollAttempts: nat, flattened: bool)
      ensures this.gw == gw && this.ks == ks && this.log == log && this.rules == rules
      ensures this.pollAttempts == pollAttempts && this.flattened == flattened
    {
      this.gw, this.ks, this.log, this.rules := gw, ks, log, rules;
      this.pollAttempts, this.flattened := pollAttempts, flattened;
    }

    method ConfirmTerminal(c: ClientId) returns (r: Outcome<()>)
      requires gw.Valid()
      modifies gw`book, gw`history, gw`faults, gw`looks
      ensures gw.Quiet()
      ensures r.Done? ==> c in gw.book.orders && Terminal(gw.book.orders[c].status)
      ensures Down(r) ==> gw.faults > old(gw.faults)
      ensures !r.Done? ==> Down(r) || (r == Failed(CancelNotConfirmed) && gw.looks == old(gw.looks) + pollAttempts)
      ensures r.Done? ==> gw.faults == old(gw.faults)
      ensures r == Failed(CancelNotConfirmed) && pollAttempts > 0 ==>
                c in gw.book.orders && !Terminal(gw.book.orders[c].status)
    {
      hide Continues, Evolves, IsTrace, Progress, LogHolds;
      ContinuesStays(gw.Trace());
      for i := 0 to pollAttempts
        invariant gw.Quiet() && gw.looks == old(gw.looks) + i && gw.faults == old(gw.faults)
        invariant i > 0 ==> c in gw.book.orders && !Terminal(gw.book.orders[c].status)
      {
        ghost var before := gw.Trace();
        var read := gw.GetOrder(c);
        ContinuesIsTransitive(old(gw.Trace()), before, gw.Trace());
        match read
        case Crashed => return Crashed;
        case Failed(e) => return Failed(e);
        case Done(o) =>
          if Terminal(o.status) { return Done(()); }
      }
      return Failed(CancelNotConfirmed);
    }

    /** Ask for the cancel of each open order; one that has just ended is no failure. */
    method AskAll(open: set<ClientId>) returns (r: Outcome<seq<ClientId>>)
      requires gw.Valid()
      modifies gw`book, gw`history, gw`faults, gw`asked
      ensures gw.Quiet()
      ensures r.Done? ==> open == (set c | c in r.value) && gw.asked == old(gw.asked) + r.value
      ensures r.Done? ==> gw.faults == old(gw.faults)
      ensures !r.Done? ==> Down(r) && gw.faults > old(gw.faults)
    {
      hide Continues, Evolves, IsTrace, Progress, LogHolds;
      ContinuesStays(gw.Trace());
      var ids: seq<ClientId> := [];
      var rest := open;
      while rest != {}
        invariant gw.Quiet() && gw.asked == old(gw.asked) + ids && gw.faults == old(gw.faults)
        invariant open == rest + (set c | c in ids)
        decreases |rest|
      {
        var c := Pick(rest);
        ghost var before := gw.Trace();
        var asked := gw.CancelOrder(c);
        ContinuesIsTransitive(old(gw.Trace()), before, gw.Trace());
        if asked.Crashed? { return Crashed; }
        if asked.Failed? && asked.error != NotCancelable { return Failed(asked.error); }
        ids := ids + [c];
        rest := rest - {c};
      }
      return Done(ids);
    }

    method ConfirmAll(ids: seq<ClientId>) returns (r: Outcome<()>)
      requires gw.Valid()
      modifies gw`book, gw`history, gw`faults, gw`looks
      ensures gw.Quiet() && (r.Done? ==> AllTerminal(ids, gw.book) && gw.faults == old(gw.faults))
      ensures !r.Done? ==> (Down(r) && gw.faults > old(gw.faults)) || r == Failed(CancelNotConfirmed)
    {
      hide Continues, Evolves, IsTrace, Progress, AllTerminal, LogHolds;
      ContinuesStays(gw.Trace());
      NoneTerminal(gw.book);
      assert ids[..0] == [];
      for i := 0 to |ids|
        invariant gw.Quiet() && AllTerminal(ids[..i], gw.book) && gw.faults == old(gw.faults)
      {
        ghost var before := gw.Trace();
        var confirmed := ConfirmTerminal(ids[i]);
        TerminalLater(ids[..i], before, gw.Trace());
        ContinuesIsTransitive(old(gw.Trace()), before, gw.Trace());
        if !confirmed.Done? { return confirmed; }
        OneTerminal(ids[i], gw.book);
        TerminalBoth(ids[..i], [ids[i]], gw.book);
        assert ids[..i + 1] == ids[..i] + [ids[i]];
      }
      assert ids[..|ids|] == ids;
      return Done(());
    }

    /** One round: ask for the cancel of each open order, then confirm each is terminal. */
    method CancelRound(open: set<ClientId>) returns (r: Outcome<seq<ClientId>>)
      requires gw.Valid()
      modifies gw`book, gw`history, gw`faults, gw`looks, gw`asked
      ensures gw.Quiet()
      ensures r.Done? ==> AllTerminal(r.value, gw.book) && open == set c | c in r.value
      ensures r.Done? ==> gw.asked == old(gw.asked) + r.value && gw.faults == old(gw.faults)
      ensures !r.Done? ==> (Down(r) && gw.faults > old(gw.faults)) || r == Failed(CancelNotConfirmed)
    {
      hide Continues, Evolves, IsTrace, Progress, AllTerminal, LogHolds;
      r := AskAll(open);
      if !r.Done? { return; }
      ghost var before := gw.Trace();
      var confirmed := ConfirmAll(r.value);
      ContinuesIsTransitive(old(gw.Trace()), before, gw.Trace());
      match confirmed
      case Crashed => return Crashed;
      case Failed(e) => return Failed(e);
      case Done(_) =>
    }

    /** On normal return the latest listing showed nothing open and every order asked to cancel is terminal. */
    method CancelAllConfirmed() returns (r: Outcome<seq<ClientId>>)
      requires gw.Valid()
      modifies gw`book, gw`history, gw`faults, gw`looks, gw`asked, gw`listed
      ensures gw.Quiet()
      ensures r.Done? ==> gw.listed == Some({}) && AllTerminal(r.value, gw.book) && gw.asked == old(gw.asked) + r.value
      ensures Down(r) ==> gw.faults > old(gw.faults)
      ensures !r.Done? ==> Down(r) || r == Failed(CancelNotConfirmed)
      ensures r.Done? ==> gw.faults == old(gw.faults)
      ensures r == Failed(CancelNotConfirmed) ==> gw.listed != Some({})
    {
      hide Continues, Evolves, IsTrace, Progress, AllTerminal, LogHolds;
      NoneTerminal(gw.book);
      ContinuesStays(gw.Trace());
      var cancelled: seq<ClientId> := [];
      for round := 0 to ROUNDS
        invariant gw.Quiet() && AllTerminal(cancelled, gw.book) && gw.asked == old(gw.asked) + cancelled
        invariant gw.faults == old(gw.faults)
      {
        ghost var before := gw.Trace();
        var listing := gw.OpenOrders();
        TerminalLater(cancelled, before, gw.Trace());
        ContinuesIsTransitive(old(gw.Trace()), before, gw.Trace());
        match listing
        case Crashed => return Crashed;
        case Failed(e) => return Failed(e);
        case Done(open) =>
          if open == {} { return Done(cancelled); }
          before := gw.Trace();
          var ids := CancelRound(open);
          TerminalLater(cancelled, before, gw.Trace());
          ContinuesIsTransitive(old(gw.Trace()), before, gw.Trace());
          match ids
          case Crashed => return Crashed;
          case Failed(e) => return Failed(e);
          case Done(more) =>
            TerminalBoth(cancelled, more, gw.book);
            cancelled := cancelled + more;
      }
      ghost var before := gw.Trace();
      var listing := gw.OpenOrders();
      TerminalLater(cancelled, before, gw.Trace());
      ContinuesIsTransitive(old(gw.Trace()), before, gw.Trace());
      match listing
      case Crashed => return Crashed;
      case Failed(e) => return Failed(e);
      case Done(open) =>
        if open != {} { return Failed(CancelNotConfirmed); }
        return Done(cancelled);
    }

    /** Close each position that is not zero. */
    method CloseHeld(positions: map<string, int>) returns (r: Outcome<()>)
      requires gw.Valid() && gw.listed == Some({})
      modifies gw`book, gw`history, gw`faults, gw`closed
      ensures gw.Quiet() && old(gw.closed) <= gw.closed
      ensures r.Done? ==> AllClosed(positions, gw.closed[|old(gw.closed)|..]) && gw.faults == old(gw.faults)
      ensures forall s | s in gw.closed[|old(gw.closed)|..] :: s in positions && positions[s] != 0
      ensures !r.Done? ==> Down(r) && gw.faults > old(gw.faults)
    {
      hide Continues, Evolves, IsTrace, Progress, LogHolds;
      ContinuesStays(gw.Trace());
      ghost var sofar: seq<string> := [];
      var rest := positions.Keys;
      while rest != {}
        invariant gw.Quiet() && gw.closed == old(gw.closed) + sofar && gw.faults == old(gw.faults)
        invariant rest <= positions.Keys && forall s | s in sofar :: s in positions && positions[s] != 0
        invariant forall s | s in positions.Keys - rest && positions[s] != 0 :: s in sofar
        decreases |rest|
      {
        var s := Pick(rest);
        if positions[s] != 0 {
          ghost var before := gw.Trace();
          var done := gw.ClosePosition(s);
          ContinuesIsTransitive(old(gw.Trace()), before, gw.Trace());
          sofar := sofar + [s];
          if !done.Done? { return done; }
        }
        rest := rest - {s};
      }
      return Done(());
    }

    /** Close every held position; only ever after a listing without open orders. */
    method Flatten() returns (r: Outcome<()>)
      requires gw.Valid() && gw.listed == Some({})
      modifies gw`book, gw`history, gw`faults, gw`looks, gw`holdings, gw`closed
      ensures gw.Quiet() && old(gw.closed) <= gw.closed
      ensures r.Done? ==> AllClosed(gw.Reported(), gw.closed[|old(gw.closed)|..])
      ensures Down(r) ==> gw.faults > old(gw.faults)
      ensures !r.Done? ==> Down(r)
      ensures r.Done? ==> gw.faults == old(gw.faults)
      ensures forall s | s in gw.closed[|old(gw.closed)|..] :: s in gw.Reported() && gw.Reported()[s] != 0
    {
      hide Continues, Evolves, IsTrace, Progress, LogHolds, AllClosed;
      var held := gw.Positions();
      match held
      case Crashed => return Crashed;
      case Failed(e) => return Failed(e);
      case Done(positions) =>
        ghost var before := gw.Trace();
        r := CloseHeld(positions);
        ContinuesIsTransitive(old(gw.Trace()), before, gw.Trace());
    }

    /** Cancel everything and, if asked to, close every position; what was cancelled is reported even if the
        closing fails. */
    method Clear(flatten: bool) returns (r: Outcome<()>, ids: seq<ClientId>)
      requires gw.Valid()
      modifies gw`book, gw`history, gw`faults, gw`looks, gw`asked, gw`listed, gw`holdings, gw`closed, this`flattened
      ensures gw.Quiet() && AllTerminal(ids, gw.book) && old(gw.closed) <= gw.closed
      ensures flattened == (old(flattened) || (flatten && r.Done?))
      ensures !flatten ==> gw.closed == old(gw.closed)
      ensures r.Done? ==> gw.listed == Some({}) && gw.faults == old(gw.faults)
      ensures r.Done? || ids != [] ==> gw.asked == old(gw.asked) + ids
      ensures r.Done? && flatten ==> AllClosed(gw.Reported(), gw.closed[|old(gw.closed)|..])
      ensures !r.Done? ==> Down(r) || r == Failed(CancelNotConfirmed)
      ensures Down(r) ==> gw.faults > old(gw.faults)
    {
      hide Continues, Evolves, IsTrace, Progress, AllTerminal, LogHolds;
      var cancelled := CancelAllConfirmed();
      NoneTerminal(gw.book);
      match cancelled
      case Crashed => return Crashed, [];
      case Failed(e) => return Failed(e), [];
      case Done(cids) =>
        ids := cids;
        r := Done(());
        if flatten {
          ghost var before := gw.Trace();
          r := Flatten();
          TerminalLater(ids, before, gw.Trace());
          ContinuesIsTransitive(old(gw.Trace()), before, gw.Trace());
          flattened := flattened || r.Done?;
        }
    }

    /** The recorded event says what was really achieved, and is written however the action ended. */
    method Halt(trigger: Trigger, flatten: bool) returns (r: Outcome<()>)
      requires gw.Valid()
      modifies gw`book, gw`history, gw`faults, gw`looks, gw`asked, gw`listed, gw`holdings, gw`closed
      modifies ks, log, this`flattened
      ensures gw.Quiet() && ks.Halted()
                && ks.trigger == if old(ks.trigger).Some? then old(ks.trigger) else Some(trigger)
      ensures !flatten ==> gw.closed == old(gw.closed) && flattened == old(flattened)
      ensures old(flattened) ==> flattened
      ensures old(log.attempts) <= log.attempts && old(gw.closed) <= gw.closed
      ensures r.Crashed? || |log.attempts| == |old(log.attempts)| + 1
      ensures |log.attempts| == |old(log.attempts)| + 1 ==>
                var e := log.attempts[|old(log.attempts)|];
                && e.trigger == trigger && AllTerminal(e.cancelled, gw.book)
                && (r.Done? || e.cancelled != [] ==> gw.asked == old(gw.asked) + e.cancelled)
                && (e.flattened ==> flatten && AllClosed(gw.Reported(), gw.closed[|old(gw.closed)|..]))
      ensures r.Done? ==> log.events == old(log.events) + [log.attempts[|old(log.attempts)|]]
      ensures r.Done? ==> gw.listed == Some({}) && gw.faults + log.faults == old(gw.faults + log.faults)
      ensures r.Done? ==> log.events[|old(log.events)|].flattened == flatten && (flatten ==> flattened)
      ensures old(log.faults) <= log.faults && old(log.events) <= log.events
      ensures Down(r) ==> gw.faults + log.faults > old(gw.faults + log.faults)
      ensures !r.Done? ==> Down(r) || r == Failed(CancelNotConfirmed)
    {
      hide Continues, Evolves, IsTrace, Progress, AllTerminal, AllClosed, LogHolds;
      var _ := ks.Halt(trigger);
      var ids;
      r, ids := Clear(flatten);
      if r.Crashed? { return; }
      var at: int := *;
      var recorded := log.Record(Event(at, trigger, flatten && r.Done?, ids));
      if !recorded.Done? { r := recorded; }
    }

    /** An operator's halt: engages even after an automatic one, unless everything is already flattened. */
    method ManualHalt(flatten: bool) returns (r: Outcome<()>)
      requires gw.Valid()
      modifies gw, ks, log, this`flattened
      ensures gw.Quiet() && old(log.attempts) <= log.attempts && (old(ks.Halted()) ==> ks.Halted())
      ensures flatten && old(flattened) ==> r.Done? && log.events == old(log.events) && gw.closed == old(gw.closed)
      ensures !(flatten && old(flattened)) ==> ks.Halted() && (r.Crashed? || |log.attempts| == |old(log.attempts)| + 1)
      ensures r.Done? && flatten ==> flattened
      ensures old(log.faults) <= log.faults
      ensures Down(r) ==> gw.faults + log.faults > old(gw.faults + log.faults)
      ensures !r.Done? ==> Down(r) || r == Failed(CancelNotConfirmed)
    {
      if flatten && flattened {
        return Done(());
      }
      r := Halt(MANUAL, flatten);
    }

    /** With the switch engaged, nothing stays working; no event is written for it. */
    method SettleOpenOrders() returns (r: Outcome<seq<ClientId>>)
      requires gw.Valid()
      modifies gw`book, gw`history, gw`faults, gw`looks, gw`asked, gw`listed
      ensures gw.Quiet()
      ensures r.Done? && ks.Halted() ==> gw.listed == Some({}) && AllTerminal(r.value, gw.book)
      ensures r.Done? && !ks.Halted() ==> r.value == []
      ensures Down(r) ==> gw.faults > old(gw.faults)
      ensures !r.Done? ==> Down(r) || r == Failed(CancelNotConfirmed)
      ensures r.Done? ==> gw.faults == old(gw.faults)
    {
      if ks.Halted() {
        r := CancelAllConfirmed();
      } else {
        return Done([]);
      }
    }

    /** The automatic triggers, judged on one reading of the account. Without a usable equity history
        nothing may trade, so a check that finds no trigger fails; if the history cannot be read at all it
        fails even when a trigger fired, and the switch stays as it was. */
    method Check(last: map<int, int>, now: int) returns (r: Outcome<Option<Trigger>>)
      requires gw.Valid()
      modifies gw, ks, log, this`flattened
      ensures gw.Quiet() && gw.closed == old(gw.closed) && old(gw.accounts) <= gw.accounts
      ensures old(ks.Halted()) ==> ks.Halted() && r == Done(None) && log.events == old(log.events)
      ensures !old(ks.Halted()) && (r.Done? || ks.Halted()) ==>
                |gw.accounts| == |old(gw.accounts)| + 1 && gw.Reading(last, now).prior > 0.0
      ensures !old(ks.Halted()) && (r.Done? || ks.Halted()) ==>
                var x := gw.Reading(last, now);
                && (r.Done? ==> r.value == Evaluate(x.equity, x.prior, rules, last, now))
                && (r == Done(None) ==> !ks.Halted() && Calm(x, rules))
                && (ks.Halted() ==> ks.trigger == Evaluate(x.equity, x.prior, rules, last, now))
      ensures r == Done(None) ==> log.events == old(log.events)
      ensures r.Done? && r.value.Some? ==>
                ks.Halted() && |log.events| == |old(log.events)| + 1 && gw.listed == Some({})
      ensures old(log.faults) <= log.faults && old(log.events) <= log.events
      ensures Down(r) ==> gw.faults + log.faults > old(gw.faults + log.faults)
      ensures !r.Done? ==> Down(r) || r.error in {NoEvidence, CancelNotConfirmed}
      ensures r == Failed(NoEvidence) ==>
                && |gw.accounts| == |old(gw.accounts)| + 1
                && var x := gw.Reading(last, now);
                   || x.prior <= 0.0
                   || (!Usable(x.equities, x.equity) && Evaluate(x.equity, x.prior, rules, last, now) == None)
      ensures r.Done? ==> gw.faults + log.faults == old(gw.faults + log.faults)
    {
      hide Continues, Evolves, IsTrace, Progress, AllTerminal, Usable, Evaluate, WithinLimit, Fresh, LogHolds;
      ContinuesStays(gw.Trace());
      if ks.Halted() { return Done(None); }
      var read := gw.AccountEquity();
      if read.Crashed? { return Crashed; }
      if read.Failed? { return Failed(read.error); }
      var (equity, prior) := read.value;
      if prior <= 0.0 { return Failed(NoEvidence); }
      var fired := Evaluate(equity, prior, rules, last, now);
      TriggersAreExact(equity, prior, rules, last, now);
      ghost var before := gw.Trace();
      var equities := gw.EquityHistory();
      ContinuesIsTransitive(old(gw.Trace()), before, gw.Trace());
      if equities.Crashed? { return Crashed; }
      if equities.Failed? { return Failed(equities.error); }
      match fired
      case None =>
        if !Usable(equities.value, equity) { return Failed(NoEvidence); }
        return Done(None);
      case Some(t) =>
        before := gw.Trace();
        var acted := Halt(t, false);
        ContinuesIsTransitive(old(gw.Trace()), before, gw.Trace());
        match acted
        case Crashed => return Crashed;
        case Failed(e) => return Failed(e);
        case Done(_) => return Done(fired);
    }
  }
}
