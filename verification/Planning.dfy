/** From a committed book and the held positions to whole-share orders. */
module Planning {
  import opened Wrappers
  import opened Broker
  import opened RealArith

  const MICRO: int := 1_000_000

  datatype Market = Market(symbols: map<int, string>, prices: map<int, real>)

  function WeightOf(book: map<int, real>, sid: int): real { if sid in book then book[sid] else 0.0 }

  function HeldOf(positions: map<string, int>, symbol: string): int {
    if symbol in positions then positions[symbol] else 0
  }

  predicate Priced(m: Market, sid: int) { sid in m.prices && m.prices[sid] > 0.0 }

  /** Whole shares the book wants of a name. */
  function Desired(book: map<int, real>, m: Market, equity: real, sid: int): int
    requires Priced(m, sid)
  {
    if WeightOf(book, sid) > 0.0 then (WeightOf(book, sid) * equity / m.prices[sid]).Floor else 0
  }

  /** It is the most whole shares that the name's part of the equity pays for, and none without a weight. */
  lemma DesiredIsAffordable(book: map<int, real>, m: Market, equity: real, sid: int)
    requires Priced(m, sid)
    ensures var n, part := Desired(book, m, equity, sid), WeightOf(book, sid) * equity;
            if WeightOf(book, sid) > 0.0
            then n as real * m.prices[sid] <= part < (n + 1) as real * m.prices[sid]
            else n == 0
  {
    if WeightOf(book, sid) > 0.0 {
      FloorTimes(WeightOf(book, sid) * equity, m.prices[sid]);
    }
  }

  lemma FloorTimes(part: real, price: real)
    requires price > 0.0
    ensures var n := (part / price).Floor; n as real * price <= part < (n + 1) as real * price
  {
    var q := part / price;
    DivMul(part, price);
    var low, high := q.Floor as real, (q.Floor + 1) as real;
    Between(low, q, high, price);
    assert q * price == part;
    assert part < high * price;
  }

  lemma Between(low: real, q: real, high: real, price: real)
    requires low <= q < high && price > 0.0
    ensures low * price <= q * price < high * price
  {
    MulMono(low, q, price);
    MulPositive(high - q, price);
    assert (high - q) * price == high * price - q * price;
  }

  function Signed(t: Target): int { if t.side == BUY then t.qty else -t.qty }

  /** The position change the targets make in a security. */
  function MoveOf(ts: seq<Target>, sid: int): int {
    if ts == [] then 0
    else MoveOf(ts[..|ts| - 1], sid) + if ts[|ts| - 1].security == sid then Signed(ts[|ts| - 1]) else 0
  }

  lemma {:induction false} NoMove(ts: seq<Target>, sid: int)
    requires forall t | t in ts :: t.security != sid
    ensures MoveOf(ts, sid) == 0
  {
    if ts != [] { NoMove(ts[..|ts| - 1], sid); }
  }

  ghost predicate PlannedFor(ts: seq<Target>, run: int, sids: seq<int>) {
    && (forall t | t in ts :: t.run == run && t.security in sids && t.qty > 0)
    && (forall i, j | 0 <= i < j < |ts| :: ts[i].security < ts[j].security)
  }

  /** A name the plan leaves without a price is neither wanted nor held. */
  predicate Plannable(book: map<int, real>, m: Market, positions: map<string, int>, sid: int)
    requires sid in m.symbols
  {
    Priced(m, sid) || (WeightOf(book, sid) <= 0.0 && HeldOf(positions, m.symbols[sid]) == 0)
  }

  lemma MoveSnoc(ts: seq<Target>, t: Target, sid: int)
    ensures MoveOf(ts + [t], sid) == MoveOf(ts, sid) + if t.security == sid then Signed(t) else 0
  {
    assert (ts + [t])[..|ts|] == ts;
  }

  /** With at most one order per name, a name moves by its own order. */
  lemma {:induction false} MoveOfOne(ts: seq<Target>, t: Target)
    requires t in ts && forall i, j | 0 <= i < j < |ts| :: ts[i].security < ts[j].security
    ensures MoveOf(ts, t.security) == Signed(t)
  {
    var front, last := ts[..|ts| - 1], ts[|ts| - 1];
    if last == t {
      NoMove(front, t.security);
    } else {
      var i :| 0 <= i < |ts| && ts[i] == t;
      assert front[i] == t;
      MoveOfOne(front, t);
    }
  }

  /** Two such plans move a name alike if they have the same order for it. */
  lemma SameMove(ts: seq<Target>, us: seq<Target>, sid: int)
    requires forall i, j | 0 <= i < j < |ts| :: ts[i].security < ts[j].security
    requires forall i, j | 0 <= i < j < |us| :: us[i].security < us[j].security
    requires forall t: Target | t.security == sid :: t in ts <==> t in us
    ensures MoveOf(ts, sid) == MoveOf(us, sid)
  {
    if exists t :: t in ts && t.security == sid {
      var t :| t in ts && t.security == sid;
      MoveOfOne(ts, t);
      MoveOfOne(us, t);
    } else {
      NoMove(ts, sid);
      NoMove(us, sid);
    }
  }

  /** The plan for one name is right: filling it turns the position into the desired one, and a name
      without a price is neither wanted, held nor moved. */
  ghost predicate Balanced(
    book: map<int, real>, m: Market, equity: real, positions: map<string, int>, ts: seq<Target>, sid: int)
    requires sid in m.symbols
  {
    && Plannable(book, m, positions, sid)
    && (if Priced(m, sid)
        then HeldOf(positions, m.symbols[sid]) + MoveOf(ts, sid) == Desired(book, m, equity, sid) * MICRO
        else MoveOf(ts, sid) == 0)
  }

  /** The delta of one name, if it needs an order. */
  method PlanName(run: int, book: map<int, real>, m: Market, equity: real, positions: map<string, int>, sid: int)
    returns (r: Result<Option<Target>, Error>)
    requires sid in m.symbols
    ensures r.Ok? <==> Plannable(book, m, positions, sid)
    ensures r.Ok? && r.value.Some? ==>
              r.value.value.run == run && r.value.value.security == sid && r.value.value.qty > 0
    ensures r.Ok? ==> Balanced(book, m, equity, positions, if r.value.Some? then [r.value.value] else [], sid)
  {
    var held := HeldOf(positions, m.symbols[sid]);
    if !Priced(m, sid) {
      return if WeightOf(book, sid) > 0.0 || held != 0 then Err(BadPlan) else Ok(None);
    }
    var delta := Desired(book, m, equity, sid) * MICRO - held;
    if delta == 0 { return Ok(None); }
    var t := Target(run, sid, if delta > 0 then BUY else SELL, if delta > 0 then delta else -delta);
    MoveSnoc([], t, sid);
    assert [] + [t] == [t];
    return Ok(Some(t));
  }

  /** Another name's order changes nothing for a name already planned. */
  lemma BalancedStays(
    book: map<int, real>, m: Market, equity: real, positions: map<string, int>, ts: seq<Target>, t: Target,
    sid: int)
    requires sid in m.symbols && t.security != sid && Balanced(book, m, equity, positions, ts, sid)
    ensures Balanced(book, m, equity, positions, ts + [t], sid)
  {
    MoveSnoc(ts, t, sid);
  }

  /** A name without orders so far gets the one planned for it. */
  lemma BalancedNow(
    book: map<int, real>, m: Market, equity: real, positions: map<string, int>, ts: seq<Target>, o: Option<Target>,
    sid: int)
    requires sid in m.symbols && forall t | t in ts :: t.security != sid
    requires o.Some? ==> o.value.security == sid
    requires Balanced(book, m, equity, positions, if o.Some? then [o.value] else [], sid)
    ensures Balanced(book, m, equity, positions, if o.Some? then ts + [o.value] else ts, sid)
  {
    NoMove(ts, sid);
    if o.Some? {
      MoveSnoc(ts, o.value, sid);
      MoveSnoc([], o.value, sid);
      assert [] + [o.value] == [o.value];
    }
  }

  /** What a plan needs: usable equity, a symbol for each book name, and a price for each wanted or held one. */
  ghost predicate CanPlan(book: map<int, real>, m: Market, equity: real, positions: map<string, int>) {
    && equity > 0.0 && book.Keys <= m.symbols.Keys
    && forall sid | sid in m.symbols :: Plannable(book, m, positions, sid)
  }

  /** The orders that turn what is held into the book. It fails exactly when the equity is unusable, a
      book name has no symbol, or a wanted or held name has no price; otherwise filling every target
      turns each position into the desired one. */
  method PlanTargets(
    run: int, book: map<int, real>, m: Market, equity: real, positions: map<string, int>, sids: seq<int>)
    returns (r: Result<seq<Target>, Error>)
    requires Increasing(sids) && m.symbols.Keys == set s | s in sids
    ensures r.Ok? <==> CanPlan(book, m, equity, positions)
    ensures r.Err? ==> r.error == BadPlan
    ensures r.Ok? ==> PlannedFor(r.value, run, sids)
    ensures r.Ok? ==> forall sid | sid in m.symbols :: Balanced(book, m, equity, positions, r.value, sid)
  {
    hide Plannable, Balanced, PlannedFor, Increasing;
    if equity <= 0.0 || !(book.Keys <= m.symbols.Keys) { return Err(BadPlan); }
    var ts: seq<Target> := [];
    NothingPlanned(run, sids);
    for i := 0 to |sids|
      invariant PlannedFor(ts, run, sids[..i])
      invariant forall k | 0 <= k < i :: Plannable(book, m, positions, sids[k])
      invariant forall k | 0 <= k < i :: Balanced(book, m, equity, positions, ts, sids[k])
    {
      var planned := PlanName(run, book, m, equity, positions, sids[i]);
      if planned.Err? { return Err(BadPlan); }
      NotYetPlanned(ts, run, sids, i);
      BalancedNow(book, m, equity, positions, ts, planned.value, sids[i]);
      ghost var before := ts;
      if planned.value.Some? {
        PlannedNext(ts, planned.value.value, run, sids, i);
        ts := ts + [planned.value.value];
      } else {
        PlannedSkip(ts, run, sids, i);
      }
      forall k | 0 <= k < i ensures Balanced(book, m, equity, positions, ts, sids[k]) {
        DistinctNames(sids, k, i);
        if planned.value.Some? { BalancedStays(book, m, equity, positions, before, planned.value.value, sids[k]); }
      }
    }
    assert sids[..|sids|] == sids;
    return Ok(ts);
  }

  lemma NothingPlanned(run: int, sids: seq<int>)
    ensures PlannedFor([], run, sids[..0])
  {
  }

  lemma DistinctNames(sids: seq<int>, k: nat, i: nat)
    requires Increasing(sids) && k < i < |sids|
    ensures sids[k] != sids[i]
  {
  }

  lemma NotYetPlanned(ts: seq<Target>, run: int, sids: seq<int>, i: nat)
    requires Increasing(sids) && i < |sids| && PlannedFor(ts, run, sids[..i])
    ensures forall t | t in ts :: t.security != sids[i]
  {
  }

  lemma PlannedSkip(ts: seq<Target>, run: int, sids: seq<int>, i: nat)
    requires i < |sids| && PlannedFor(ts, run, sids[..i])
    ensures PlannedFor(ts, run, sids[..i + 1])
  {
    assert sids[..i + 1] == sids[..i] + [sids[i]];
  }

  lemma PlannedNext(ts: seq<Target>, t: Target, run: int, sids: seq<int>, i: nat)
    requires Increasing(sids) && i < |sids| && PlannedFor(ts, run, sids[..i])
    requires t.run == run && t.security == sids[i] && t.qty > 0
    ensures PlannedFor(ts + [t], run, sids[..i + 1])
  {
    assert sids[..i + 1] == sids[..i] + [sids[i]];
    assert forall k | 0 <= k < |ts| :: ts[k] in ts;
  }
}
