/** The CIO may only veto. Whatever it answers, the weights that stay are the proposed ones, and what leaves
    the book goes to cash. */
module Cio {
  import opened RealArith
  import opened Wrappers
  import opened Sizing
  import opened AgentBudget

  /** One action on a name. */
  datatype Ruling = Ruling(id: int, veto: bool)

  datatype CioError = UNCOVERED | MISCALIBRATED(vetoes: nat, limit: int)

  /** floor(names * budget), with an epsilon for float error. */
  function MaxVetoes(names: nat, budget: real): (n: int)
    ensures n as real <= names as real * budget + 1.0 / 1_000_000_000.0 < (n + 1) as real
  {
    (names as real * budget + 1.0 / 1_000_000_000.0).Floor
  }

  function Ids(book: seq<Position>): (s: set<int>) { set p | p in book :: p.id }

  function Ruled(rulings: seq<Ruling>): (s: set<int>) { set r | r in rulings :: r.id }

  function Vetoed(rulings: seq<Ruling>): (s: set<int>) { set r | r in rulings && r.veto :: r.id }

  /** The names that are not vetoed, in order. */
  function Without(book: seq<Position>, vetoed: set<int>): (b: seq<Position>)
  {
    if book == [] then []
    else
      var p := book[|book| - 1];
      if p.id in vetoed then Without(book[..|book| - 1], vetoed) else Without(book[..|book| - 1], vetoed) + [p]
  }

  function ApplyDecision(book: seq<Position>, rulings: seq<Ruling>, budget: real): Result<seq<Position>, CioError> {
    if Ruled(rulings) != Ids(book) then Err(UNCOVERED)
    else if |Vetoed(rulings)| > MaxVetoes(|book|, budget) then
      Err(MISCALIBRATED(|Vetoed(rulings)|, MaxVetoes(|book|, budget)))
    else Ok(Without(book, Vetoed(rulings)))
  }

  ghost predicate Named(book: seq<Position>, id: int) { exists p :: p in book && p.id == id }

  ghost predicate RuledOn(rulings: seq<Ruling>, id: int) { exists u :: u in rulings && u.id == id }

  /** A decision is taken exactly if it rules on every proposed name and no other and vetoes no more than the
      allowed share of them; beyond that share it is an alert. */
  lemma DecisionIsTaken(book: seq<Position>, rulings: seq<Ruling>, budget: real)
    ensures var r := ApplyDecision(book, rulings, budget);
            var covers := forall id :: Named(book, id) <==> RuledOn(rulings, id);
            var few := |Vetoed(rulings)| as real <= |book| as real * budget + 1.0 / 1_000_000_000.0;
            && (r.Ok? <==> covers && few)
            && (r == Err(UNCOVERED) <==> !covers)
            && (r.Err? && r.error.MISCALIBRATED? <==> covers && !few)
  {
    assert forall id :: id in Ids(book) <==> Named(book, id);
    assert forall id :: id in Ruled(rulings) <==> RuledOn(rulings, id);
    hide MaxVetoes, Named, RuledOn;
    if forall id :: Named(book, id) <==> RuledOn(rulings, id) {
      assert Ruled(rulings) == Ids(book);
    }
    var n, v := MaxVetoes(|book|, budget), |Vetoed(rulings)|;
    assert v <= n <==> v as real <= n as real;
    assert v > n <==> v as real >= (n + 1) as real;
  }

  /** The weight of the vetoed names. */
  function VetoedWeight(book: seq<Position>, vetoed: set<int>): real {
    if book == [] then 0.0
    else
      var p := book[|book| - 1];
      VetoedWeight(book[..|book| - 1], vetoed) + if p.id in vetoed then p.weight else 0.0
  }

  function Cash(book: seq<Position>): real { if Gross(book) < 1.0 then 1.0 - Gross(book) else 0.0 }

  lemma {:induction false} WithoutMembers(book: seq<Position>, vetoed: set<int>)
    ensures forall p :: p in Without(book, vetoed) <==> p in book && p.id !in vetoed
  {
    if book != [] {
      WithoutMembers(book[..|book| - 1], vetoed);
      assert book == book[..|book| - 1] + [book[|book| - 1]];
    }
  }

  lemma {:induction false} WithoutSums(book: seq<Position>, vetoed: set<int>, s: int)
    requires Long(book)
    ensures Gross(Without(book, vetoed)) + VetoedWeight(book, vetoed) == Gross(book)
    ensures SectorSum(Without(book, vetoed), s) <= SectorSum(book, s)
    ensures Squares(Without(book, vetoed)) <= Squares(book)
    ensures VetoedWeight(book, vetoed) >= 0.0
  {
    hide Square;
    if book != [] {
      var n := |book| - 1;
      WithoutSums(book[..n], vetoed, s);
      SquareMono(book[n], book[n]);
      if book[n].id !in vetoed {
        assert (Without(book[..n], vetoed) + [book[n]])[..|Without(book[..n], vetoed)|] == Without(book[..n], vetoed);
      }
    }
  }

  lemma {:induction false} WithoutById(book: seq<Position>, vetoed: set<int>)
    requires ById(book)
    ensures ById(Without(book, vetoed))
  {
    if book != [] {
      WithoutById(book[..|book| - 1], vetoed);
      WithoutMembers(book[..|book| - 1], vetoed);
    }
  }

  function Gone(book: seq<Position>, vetoed: set<int>): (s: set<int>) { set p | p in book && p.id in vetoed :: p.id }

  lemma GoneNext(book: seq<Position>, p: Position, vetoed: set<int>)
    ensures Gone(book + [p], vetoed) == Gone(book, vetoed) + if p.id in vetoed then {p.id} else {}
  {
  }

  lemma {:induction false} WithoutLength(book: seq<Position>, vetoed: set<int>)
    requires ById(book)
    ensures |Without(book, vetoed)| + |Gone(book, vetoed)| == |book|
  {
    if book == [] {
      assert Gone(book, vetoed) == {};
    } else {
      var n := |book| - 1;
      WithoutLength(book[..n], vetoed);
      assert book == book[..n] + [book[n]];
      GoneNext(book[..n], book[n], vetoed);
      NewName(book, vetoed);
      hide Gone;
    }
  }

  lemma NewName(book: seq<Position>, vetoed: set<int>)
    requires ById(book) && book != []
    ensures book[|book| - 1].id !in Gone(book[..|book| - 1], vetoed)
  {
  }

  /** Approval keeps every limit and every weight that stays, drops at most the allowed number of names, and
      turns exactly the vetoed weight into cash. */
  lemma ApprovedBook(book: seq<Position>, rulings: seq<Ruling>, budget: real, lim: Limits)
    requires lim.Valid() && InLimits(book, lim) && ById(book) && ApplyDecision(book, rulings, budget).Ok?
    ensures var b := ApplyDecision(book, rulings, budget).value;
            && InLimits(b, lim) && ById(b)
            && (forall p :: p in b <==> p in book && p.id !in Vetoed(rulings))
            && |book| - |b| <= MaxVetoes(|book|, budget)
            && Cash(b) == Cash(book) + VetoedWeight(book, Vetoed(rulings))
  {
    hide Gross, SectorSum, Squares, Without, VetoedWeight, MaxVetoes, Times;
    var v := Vetoed(rulings);
    var b := Without(book, v);
    assert Long(book);
    WithoutMembers(book, v);
    WithoutById(book, v);
    WithoutLength(book, v);
    WithoutSums(book, v, 0);
    forall s ensures SectorSum(b, s) <= lim.maxSector { WithoutSums(book, v, s); }
    Subset(Gone(book, v), v);
  }

  lemma Subset(a: set<int>, b: set<int>)
    requires a <= b
    ensures |a| <= |b|
  {
    var c := b - a;
    assert b == a + c;
  }

  // ----- the call

  /** What came back: nothing, a reply from an unknown or a weak model, one that cannot be priced, or a reply
      with its cost and, if it parses, its rulings. */
  datatype CioReply =
    | NoReply
    | UnknownModel
    | WeakTier
    | Unpriced
    | Said(cost: real, rulings: Option<seq<Ruling>>)

  datatype CioOutcome =
    | Result(book: seq<Position>, logged: Option<seq<Ruling>>, alert: bool, cost: real, deadLettered: bool)
    | RaisedBudget
    | RaisedUnknownModel
    | RaisedTier
    | RaisedUsage

  /** What the first k replies cost; only a strong model's answer with usable counts or cost is billed. */
  function Billed(replies: seq<CioReply>, k: nat): real
    requires k <= |replies|
  {
    if k == 0 then 0.0 else Billed(replies, k - 1) + if replies[k - 1].Said? then replies[k - 1].cost else 0.0
  }

  /** An answer that has to be asked for again: it does not parse, or does not rule on exactly the book. */
  predicate Unusable(book: seq<Position>, reply: CioReply, maxVetoPct: real) {
    && reply.Said?
    && (reply.rulings.None? || ApplyDecision(book, reply.rulings.value, maxVetoPct) == Err(UNCOVERED))
  }

  /** What the last reply leads to. */
  ghost function Follows(
    book: seq<Position>, reply: CioReply, exceeded: bool, cost: real, maxVetoPct: real): CioOutcome
  {
    match reply
    case NoReply => Result(book, None, false, cost, true)
    case UnknownModel => RaisedUnknownModel
    case WeakTier => RaisedTier
    case Unpriced => RaisedUsage
    case Said(_, rulings) =>
      if exceeded then RaisedBudget
      else if Unusable(book, reply, maxVetoPct) then Result(book, None, false, cost, true)
      else
        match ApplyDecision(book, rulings.value, maxVetoPct)
        case Ok(approved) => Result(approved, rulings, false, cost, false)
        case Err(_) => Result(book, rulings, true, cost, false)
  }

  /** Two calls at the most, the second only after an unusable answer. What goes on is the proposed book or,
      after a decision that can be taken, the approved one; a dead letter is written exactly for an alert, a lost
      or unusable answer or an exhausted budget; and the budget is charged for every answer that has a price,
      also when it then refuses to go on. */
  method RunCio(book: seq<Position>, budget: RunBudget, replies: seq<CioReply>, maxVetoPct: real)
    returns (r: CioOutcome, deadLetters: nat, calls: nat)
    requires budget.Valid() && |replies| >= 2
    requires forall x | x in replies && x.Said? :: x.cost >= 0.0
    modifies budget
    ensures budget.Valid() && calls <= 2
    ensures book == [] ==> r == Result([], None, false, 0.0, false) && calls == 0 && deadLetters == 0
    ensures old(budget.Exceeded()) && book != [] ==> r == RaisedBudget && calls == 0
    ensures forall j | 0 <= j < calls - 1 :: Unusable(book, replies[j], maxVetoPct)
    ensures book != [] && !old(budget.Exceeded()) ==>
              && calls > 0
              && r == Follows(book, replies[calls - 1], budget.Exceeded(), Billed(replies, calls), maxVetoPct)
              && (Unusable(book, replies[calls - 1], maxVetoPct) && !budget.Exceeded() ==> calls == 2)
    ensures deadLetters == if (r.Result? && (r.alert || r.deadLettered)) || r.RaisedBudget? then 1 else 0
    ensures calls <= |replies| && budget.spent == old(budget.spent) + Billed(replies, calls)
  {
    if book == [] { return Result(book, None, false, 0.0, false), 0, 0; }
    var cost := 0.0;
    calls, deadLetters := 0, 0;
    for attempt := 0 to 2
      invariant calls == attempt && deadLetters == 0 && budget.Valid()
      invariant cost == Billed(replies, attempt) && budget.spent == old(budget.spent) + cost
      invariant attempt > 0 ==> !old(budget.Exceeded()) && !budget.Exceeded()
      invariant forall k | 0 <= k < attempt :: Unusable(book, replies[k], maxVetoPct)
    {
      if budget.Exceeded() { return RaisedBudget, 1, calls; }
      calls := calls + 1;
      var reply := replies[attempt];
      match reply
      case NoReply => return Result(book, None, false, cost, true), 1, calls;
      case UnknownModel => return RaisedUnknownModel, 0, calls;
      case WeakTier => return RaisedTier, 0, calls;
      case Unpriced => return RaisedUsage, 0, calls;
      case Said(usd, rulings) =>
        assert reply in replies;
        cost := cost + usd;
        var over := budget.Charge(usd);
        if over { return RaisedBudget, 1, calls; }
        if rulings.Some? {
          var applied := ApplyDecision(book, rulings.value, maxVetoPct);
          match applied {
            case Ok(approved) => return Result(approved, rulings, false, cost, false), 0, calls;
            case Err(MISCALIBRATED(_, _)) => return Result(book, rulings, true, cost, false), 1, calls;
            case Err(UNCOVERED) =>
          }
        }
    }
    return Result(book, None, false, cost, true), 1, calls;
  }
}
