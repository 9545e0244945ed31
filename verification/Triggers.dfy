/** The automatic triggers of the kill switch: what one reading of the account and the feeds sets off. */
module Triggers {
  import opened Wrappers
  import opened RealArith

  datatype Trigger = DAILY_LOSS | STALE_FEED | MANUAL

  /** The loss limit, and how old each required feed may be. */
  datatype Rules = Rules(lossLimit: real, sla: map<int, int>)

  /** The nth reading of the account: equity now and at the prior close, the equity history, the last success
      of each feed, and the clock. */
  datatype Reading = Reading(
    nth: nat, equity: real, prior: real, equities: seq<real>, last: map<int, int>, now: int)

  predicate Stale(last: map<int, int>, sla: map<int, int>, now: int) {
    exists f | f in sla :: f !in last || now - last[f] > sla[f]
  }

  /** A loss strictly beyond the limit, else a stale feed. */
  function Evaluate(equity: real, prior: real, rules: Rules, last: map<int, int>, now: int): Option<Trigger>
    requires prior > 0.0
  {
    if (prior - equity) / prior > rules.lossLimit then Some(DAILY_LOSS)
    else if Stale(last, rules.sla, now) then Some(STALE_FEED)
    else None
  }

  /** A drawdown can be computed from these equities. */
  predicate Usable(equities: seq<real>, equity: real) {
    equities != [] && equity > 0.0 && forall e | e in equities :: e > 0.0
  }

  /** The equity is not below what the limit leaves of the prior close. */
  predicate WithinLimit(equity: real, prior: real, limit: real) { equity >= prior - prior * limit }

  predicate Fresh(last: map<int, int>, sla: map<int, int>, now: int) {
    forall f | f in sla :: f in last && now <= last[f] + sla[f]
  }

  /** A reading on which trading may go on. */
  ghost predicate Calm(r: Reading, rules: Rules) {
    && r.prior > 0.0 && WithinLimit(r.equity, r.prior, rules.lossLimit)
    && Fresh(r.last, rules.sla, r.now) && Usable(r.equities, r.equity)
  }

  /** The loss trigger fires exactly below the limit and before any other, the feed trigger exactly on a missing
      or late feed, and nothing else ever fires. */
  lemma TriggersAreExact(equity: real, prior: real, rules: Rules, last: map<int, int>, now: int)
    requires prior > 0.0
    ensures var fired := Evaluate(equity, prior, rules, last, now);
            && (fired == Some(DAILY_LOSS) <==> !WithinLimit(equity, prior, rules.lossLimit))
            && (fired == Some(STALE_FEED) <==>
                  WithinLimit(equity, prior, rules.lossLimit) && !Fresh(last, rules.sla, now))
            && (fired == None <==> WithinLimit(equity, prior, rules.lossLimit) && Fresh(last, rules.sla, now))
  {
    var loss := (prior - equity) / prior;
    DivMul(prior - equity, prior);
    if loss > rules.lossLimit {
      MulPositive(loss - rules.lossLimit, prior);
      assert (loss - rules.lossLimit) * prior == loss * prior - prior * rules.lossLimit;
    } else {
      MulNonNeg(rules.lossLimit - loss, prior);
      assert (rules.lossLimit - loss) * prior == prior * rules.lossLimit - loss * prior;
    }
  }
}
