/** What one run may spend on model calls; all its calls draw on the same counter. */
module AgentBudget {

  class RunBudget {
    const max: real
    var spent: real

    ghost predicate Valid()
      reads this
    {
      max > 0.0 && spent >= 0.0
    }

    /** A resumed run carries its earlier spend. */
    constructor (max: real, spent: real)
      requires max > 0.0 && spent >= 0.0
      ensures Valid() && this.max == max && this.spent == spent
    {
      this.max, this.spent := max, spent;
    }

    predicate Exceeded()
      reads this
    {
      spent >= max
    }

    /** Add the cost first and compare afterwards, so a refused call has been paid for all the same. */
    method Charge(usd: real) returns (over: bool)
      requires Valid() && usd >= 0.0
      modifies this
      ensures Valid() && spent == old(spent) + usd && over == Exceeded()
    {
      spent := spent + usd;
      over := spent >= max;
    }
  }

  /** What the provider may do with one call. */
  datatype Reply =
    | Lost                                  // no answer from the provider at all
    | Unusable                              // unknown model, wrong tier, or no usage: cost unknowable
    | Answered(cost: real, valid: bool)

  datatype CallResult =
    | Verdict(cost: real, attempts: nat)
    | Discarded(cost: real, attempts: nat)
    | DeadLettered(cost: real, attempts: nat)
    | OverBudget
    | Aborted

  predicate Affordable(replies: seq<Reply>, most: real) {
    forall r | r in replies && r.Answered? :: 0.0 <= r.cost <= most
  }

  /** A finished call: its result, how many requests left, how many dead letters, and the spend it leaves. */
  datatype Call = Call(result: CallResult, sent: nat, letters: nat, spent: real)

  /** The attempts from the k-th on, when `cost` has been booked for this call. */
  function Attempts(max: real, spent: real, replies: seq<Reply>, k: nat, cost: real): Call
    requires k <= 2 <= |replies|
    decreases 2 - k
  {
    if k == 2 then Call(Discarded(cost, 2), 2, 0, spent)
    else if spent >= max then Call(OverBudget, k, 1, spent)
    else match replies[k]
      case Lost => Call(DeadLettered(cost, k), k + 1, 1, spent)
      case Unusable => Call(Aborted, k + 1, 0, spent)
      case Answered(usd, valid) =>
        if spent + usd >= max then Call(OverBudget, k + 1, 1, spent + usd)
        else if valid then Call(Verdict(cost + usd, k + 1), k + 1, 0, spent + usd)
        else Attempts(max, spent + usd, replies, k + 1, cost + usd)
  }

  /** A second attempt follows an answer that cannot be used. Dead letters are exactly the lost calls and those
      the budget refuses; whatever was answered is paid for; nothing leaves once the money is gone; and
      starting below the ceiling the spend ends less than one call above it. */
  method RunAgentCall(
    budget: RunBudget, replies: seq<Reply>, most: real)
    returns (r: CallResult, sent: nat, deadLetters: nat)
    requires budget.Valid() && |replies| >= 2 && most >= 0.0 && Affordable(replies, most)
    modifies budget
    ensures Call(r, sent, deadLetters, budget.spent) == Attempts(budget.max, old(budget.spent), replies, 0, 0.0)
    ensures budget.Valid() && sent <= 2 && budget.spent >= old(budget.spent)
    ensures old(budget.Exceeded()) ==> r == OverBudget && sent == 0 && budget.spent == old(budget.spent)
    ensures !old(budget.Exceeded()) ==> sent >= 1 && budget.spent < budget.max + most
    ensures deadLetters == if r.DeadLettered? || r.OverBudget? then 1 else 0
    ensures r.Verdict? || r.Discarded? || r.DeadLettered? ==> budget.spent == old(budget.spent) + r.cost
    ensures r.Verdict? ==>
              && 1 <= sent == r.attempts && replies[sent - 1].Answered? && replies[sent - 1].valid
              && !budget.Exceeded()
    ensures r.Discarded? ==> sent == 2 && forall i | 0 <= i < 2 :: replies[i].Answered? && !replies[i].valid
    ensures r.OverBudget? ==> budget.Exceeded()
  {
    var cost := 0.0;
    sent, deadLetters := 0, 0;
    for attempt := 0 to 2
      invariant sent == attempt && deadLetters == 0 && budget.Valid()
      invariant Attempts(budget.max, old(budget.spent), replies, 0, 0.0)
             == Attempts(budget.max, budget.spent, replies, attempt, cost)
      invariant budget.spent == old(budget.spent) + cost && cost >= 0.0 && (attempt == 0 ==> cost == 0.0)
      invariant attempt > 0 ==> !old(budget.Exceeded()) && !budget.Exceeded()
      invariant forall i | 0 <= i < attempt :: replies[i].Answered? && !replies[i].valid
    {
      if budget.Exceeded() { return OverBudget, sent, 1; }
      var reply := replies[attempt];
      sent := sent + 1;
      match reply
      case Lost => return DeadLettered(cost, attempt), sent, 1;
      case Unusable => return Aborted, sent, 0;
      case Answered(usd, valid) =>
        assert reply in replies;
        cost := cost + usd;
        var over := budget.Charge(usd);
        if over { return OverBudget, sent, 1; }
        if valid { return Verdict(cost, attempt + 1), sent, 0; }
    }
    return Discarded(cost, 2), sent, 0;
  }
}
