/** All agent calls of a run at once: a semaphore, a shared budget and a stop flag. Every interleaving of the
    jobs keeps one invariant; from it follow the spend bound and the bookkeeping of the result. */
module AgentRunner {
  import opened RealArith
  import AgentBudget

  /** Where a job is. From Attempt to Landed it holds a permit. */
  datatype Phase =
    | Waiting
    | AtGate
    | Attempt(k: nat)         // about to check the budget for call k
    | Calling(k: nat)         // the request is out
    | Landed(end: Outcome)    // the call is over, its permit not yet given back
    | Finished(end: Outcome)

  datatype Outcome = Skipped | Completed | Discarded | DeadLettered | OverBudget | Unusable | Stopped

  /** The limits of a run: `most` bounds the cost of a single call. */
  datatype Config = Config(max: real, most: real, concurrency: nat, done: set<nat>)
  {
    predicate Valid() { max > 0.0 && most >= 0.0 && concurrency >= 1 }
  }

  datatype Runner = Runner(
    spent: real, stop: bool, phases: seq<Phase>,
    skipped: set<nat>, completed: set<nat>, discarded: set<nat>, lost: set<nat>, aborted: set<nat>,
    letters: multiset<nat>)

  datatype Step =
    | Start(i: nat)
    | Acquire(i: nat)
    | CacheHit(i: nat)
    | Check(i: nat)
    | Lose(i: nat)
    | Abort(i: nat)
    | Answer(i: nat, cost: real, valid: bool)
    | Land(i: nat)

  predicate Holds(p: Phase) { p.Attempt? || p.Calling? || p.Landed? }

  function Holding(ps: seq<Phase>): nat {
    if ps == [] then 0 else Holding(ps[..|ps| - 1]) + if Holds(ps[|ps| - 1]) then 1 else 0
  }

  function Out(ps: seq<Phase>): nat {
    if ps == [] then 0 else Out(ps[..|ps| - 1]) + if ps[|ps| - 1].Calling? then 1 else 0
  }

  function Goes(s: Runner, i: nat, p: Phase): Runner
    requires i < |s.phases|
  {
    s.(phases := s.phases[i := p])
  }

  function Letter(s: Runner, i: nat): Runner { s.(letters := s.letters + multiset{i}) }

  /** Booking an answered call: over the ceiling it ends the job, whatever the answer says. */
  function Booked(c: Config, s: Runner, i: nat, k: nat, cost: real, valid: bool): Runner
    requires i < |s.phases|
  {
    var t := s.(spent := s.spent + cost);
    if t.spent >= c.max then Letter(Goes(t, i, Landed(OverBudget)), i)
    else if valid then Goes(t, i, Landed(Completed))
    else if k == 0 then Goes(t, i, Attempt(1))
    else Goes(t, i, Landed(Discarded))
  }

  /** Giving the permit back and recording the outcome. */
  function Recorded(s: Runner, i: nat, o: Outcome): Runner
    requires i < |s.phases|
  {
    var t := Goes(s, i, Finished(o));
    match o
    case Completed => t.(completed := t.completed + {i})
    case Discarded => t.(discarded := t.discarded + {i})
    case DeadLettered => t.(lost := t.lost + {i})
    case OverBudget => t.(aborted := t.aborted + {i}, stop := true)
    case Unusable => Letter(t.(aborted := t.aborted + {i}, stop := true), i)
    case _ => t
  }

  function StoppedJob(s: Runner, i: nat): Runner
    requires i < |s.phases|
  {
    Letter(Goes(s, i, Finished(Stopped)).(aborted := s.aborted + {i}), i)
  }

  predicate Takes(c: Config, s: Runner, a: Step, t: Runner) {
    a.i < |s.phases| &&
    var i, p := a.i, s.phases[a.i];
    match a
    case Start(_) =>
      p.Waiting?
      && t == (if i in c.done then Goes(s, i, Finished(Skipped)).(skipped := s.skipped + {i})
               else if s.stop then StoppedJob(s, i)
               else Goes(s, i, AtGate))
    case Acquire(_) =>
      p.AtGate? && Holding(s.phases) < c.concurrency
      && t == (if s.stop then StoppedJob(s, i) else Goes(s, i, Attempt(0)))
    case CacheHit(_) => p == Attempt(0) && t == Goes(s, i, Landed(Completed))
    case Check(_) =>
      p.Attempt?
      && t == (if s.spent >= c.max then Letter(Goes(s, i, Landed(OverBudget)), i) else Goes(s, i, Calling(p.k)))
    case Lose(_) => p.Calling? && t == Letter(Goes(s, i, Landed(DeadLettered)), i)
    case Abort(_) => p.Calling? && t == Goes(s, i, Landed(Unusable))
    case Answer(_, cost, valid) => p.Calling? && 0.0 <= cost <= c.most && t == Booked(c, s, i, p.k, cost, valid)
    case Land(_) => p.Landed? && t == Recorded(s, i, p.end)
  }

  // ----- the invariant

  predicate HasLetter(o: Outcome) { o in {DeadLettered, OverBudget, Unusable, Stopped} }

  /** What the sets and the dead-letter queue say of one job. */
  predicate JobAgrees(c: Config, s: Runner, i: nat)
    requires i < |s.phases|
  {
    var p := s.phases[i];
    && (p.Attempt? || p.Calling? ==> p.k <= 1)
    && (p.Landed? ==> p.end in {Completed, Discarded, DeadLettered, OverBudget, Unusable})
    && (i in s.skipped <==> p == Finished(Skipped))
    && (i in s.completed <==> p == Finished(Completed))
    && (i in s.discarded <==> p == Finished(Discarded))
    && (i in s.lost <==> p == Finished(DeadLettered))
    && (i in s.aborted <==> p in {Finished(OverBudget), Finished(Unusable), Finished(Stopped)})
    && (p == Finished(Skipped) ==> i in c.done)
    && s.letters[i] ==
       (if (p.Finished? && HasLetter(p.end)) || (p.Landed? && p.end in {DeadLettered, OverBudget}) then 1 else 0)
  }

  ghost predicate JobsAgree(c: Config, s: Runner) { forall i: nat | i < |s.phases| :: JobAgrees(c, s, i) }

  /** Money already spent plus what the outstanding calls may still cost. */
  ghost predicate SpendBounded(c: Config, s: Runner) {
    && Out(s.phases) <= Holding(s.phases) <= c.concurrency
    && s.spent + Times(Out(s.phases) as real, c.most) < c.max + Times(c.concurrency as real, c.most)
  }

  ghost predicate Inv(c: Config, s: Runner) { c.Valid() && JobsAgree(c, s) && SpendBounded(c, s) }

  function Initial(n: nat, spent: real): Runner {
    Runner(spent, false, seq(n, _ => Waiting), {}, {}, {}, {}, {}, multiset{})
  }

  lemma {:induction false} AllWaiting(n: nat)
    ensures Holding(seq(n, _ => Waiting)) == 0 && Out(seq(n, _ => Waiting)) == 0
  {
    if n > 0 {
      AllWaiting(n - 1);
      assert seq(n, _ => Waiting)[..n - 1] == seq(n - 1, _ => Waiting);
    }
  }

  lemma InitialHolds(c: Config, n: nat, spent: real)
    requires c.Valid() && spent < c.max
    ensures Inv(c, Initial(n, spent))
  {
    AllWaiting(n);
    hide Times;
    TimesZero(c.most);
    TimesMono(0.0, c.concurrency as real, c.most);
  }

  function One(b: bool): int { if b then 1 else 0 }

  lemma {:induction false} CountsMove(ps: seq<Phase>, i: nat, p: Phase)
    requires i < |ps|
    ensures Holding(ps[i := p]) == Holding(ps) - One(Holds(ps[i])) + One(Holds(p))
    ensures Out(ps[i := p]) == Out(ps) - One(ps[i].Calling?) + One(p.Calling?)
    ensures Out(ps) <= Holding(ps)
  {
    var n := |ps| - 1;
    if i < n {
      CountsMove(ps[..n], i, p);
      assert ps[i := p][..n] == ps[..n][i := p];
    } else {
      assert ps[i := p][..n] == ps[..n];
      OutWithinHolding(ps[..n]);
    }
  }

  lemma {:induction false} OutWithinHolding(ps: seq<Phase>)
    ensures Out(ps) <= Holding(ps)
  {
    if ps != [] { OutWithinHolding(ps[..|ps| - 1]); }
  }

  /** What a step leaves alone: everything about the other jobs. */
  ghost predicate SameJob(s: Runner, t: Runner, j: nat) {
    && |t.phases| == |s.phases| && j < |s.phases| && t.phases[j] == s.phases[j]
    && (j in t.skipped <==> j in s.skipped) && (j in t.completed <==> j in s.completed)
    && (j in t.discarded <==> j in s.discarded) && (j in t.lost <==> j in s.lost)
    && (j in t.aborted <==> j in s.aborted) && t.letters[j] == s.letters[j]
  }

  lemma OthersUntouched(c: Config, s: Runner, a: Step, t: Runner, j: nat)
    requires Takes(c, s, a, t) && j < |s.phases| && j != a.i
    ensures SameJob(s, t, j)
  {
  }

  lemma OtherJob(c: Config, s: Runner, a: Step, t: Runner, j: nat)
    requires Takes(c, s, a, t) && j < |s.phases| && j != a.i && JobAgrees(c, s, j)
    ensures |t.phases| == |s.phases| && JobAgrees(c, t, j)
  {
    OthersUntouched(c, s, a, t, j);
    hide Takes;
  }

  lemma OwnJob(c: Config, s: Runner, a: Step, t: Runner)
    requires a.i < |s.phases| && JobAgrees(c, s, a.i) && Takes(c, s, a, t)
    ensures |t.phases| == |s.phases| && JobAgrees(c, t, a.i)
  {
  }

  lemma JobsStep(c: Config, s: Runner, a: Step, t: Runner)
    requires JobsAgree(c, s) && Takes(c, s, a, t)
    ensures JobsAgree(c, t) && |t.phases| == |s.phases|
  {
    hide JobAgrees;
    assert JobAgrees(c, s, a.i);
    OwnJob(c, s, a, t);
    hide Takes;
    forall j: nat | j < |t.phases| ensures JobAgrees(c, t, j) {
      if j != a.i { OtherJob(c, s, a, t, j); }
    }
  }

  lemma SpendStep(c: Config, s: Runner, a: Step, t: Runner)
    requires Inv(c, s) && Takes(c, s, a, t)
    ensures SpendBounded(c, t)
  {
    hide Times, Holding, Out, JobsAgree;
    CountsMove(s.phases, a.i, t.phases[a.i]);
    assert t.phases == s.phases[a.i := t.phases[a.i]];
    OutWithinHolding(t.phases);
    var x, y := Out(s.phases) as real, Out(t.phases) as real;
    match a
    case Check(_) =>
      TimesMono(y, c.concurrency as real, c.most);
    case Answer(_, cost, _) =>
      TimesAdd(y, 1.0, c.most);
      TimesOne(c.most);
    case _ =>
      TimesMono(y, x, c.most);
  }

  lemma StepKeepsInv(c: Config, s: Runner, a: Step, t: Runner)
    requires Inv(c, s) && Takes(c, s, a, t)
    ensures Inv(c, t)
  {
    JobsStep(c, s, a, t);
    SpendStep(c, s, a, t);
  }

  // ----- whole runs

  ghost predicate Trace(c: Config, states: seq<Runner>, steps: seq<Step>) {
    |states| == |steps| + 1 && forall k | 0 <= k < |steps| :: Takes(c, states[k], steps[k], states[k + 1])
  }

  lemma {:induction false} Reachable(c: Config, states: seq<Runner>, steps: seq<Step>, n: nat, spent: real, k: nat)
    requires Trace(c, states, steps) && c.Valid() && spent < c.max && states[0] == Initial(n, spent) && k < |states|
    ensures Inv(c, states[k]) && |states[k].phases| == n
  {
    if k == 0 {
      InitialHolds(c, n, spent);
    } else {
      Reachable(c, states, steps, n, spent, k - 1);
      StepKeepsInv(c, states[k - 1], steps[k - 1], states[k]);
      JobsStep(c, states[k - 1], steps[k - 1], states[k]);
    }
  }

  /** Started below the ceiling, no interleaving spends as much as the ceiling plus one call per permit. */
  lemma SpendIsBounded(c: Config, states: seq<Runner>, steps: seq<Step>, n: nat, spent: real, k: nat)
    requires Trace(c, states, steps) && c.Valid() && spent < c.max && states[0] == Initial(n, spent) && k < |states|
    ensures states[k].spent < c.max + Times(c.concurrency as real, c.most)
  {
    hide Times, Takes;
    Reachable(c, states, steps, n, spent, k);
    var out := Out(states[k].phases) as real;
    assert states[k].spent + Times(out, c.most) < c.max + Times(c.concurrency as real, c.most);
    TimesMono(0.0, out, c.most);
    TimesZero(c.most);
  }

  predicate AllFinished(s: Runner) { forall i | 0 <= i < |s.phases| :: s.phases[i].Finished? }

  /** Which of the result sets a job is in. */
  function Places(s: Runner, i: nat): nat {
    One(i in s.skipped) + One(i in s.completed) + One(i in s.discarded) + One(i in s.lost) + One(i in s.aborted)
  }

  /** When the run returns, every job is in exactly one result set, with exactly one dead letter if it was
      aborted or lost and none otherwise. */
  lemma ReturnAccountsForAll(c: Config, states: seq<Runner>, steps: seq<Step>, n: nat, spent: real, i: nat)
    requires Trace(c, states, steps) && c.Valid() && spent < c.max && states[0] == Initial(n, spent) && i < n
    requires AllFinished(states[|states| - 1])
    ensures var s := states[|states| - 1];
            Places(s, i) == 1 && s.letters[i] == if i in s.aborted || i in s.lost then 1 else 0
  {
    hide Takes;
    Reachable(c, states, steps, n, spent, |states| - 1);
    OnePlace(c, states[|states| - 1], i);
  }

  lemma OnePlace(c: Config, s: Runner, i: nat)
    requires i < |s.phases| && JobAgrees(c, s, i) && s.phases[i].Finished?
    ensures Places(s, i) == 1 && s.letters[i] == if i in s.aborted || i in s.lost then 1 else 0
  {
    match s.phases[i].end
    case Skipped => assert i in s.skipped && i !in s.aborted;
    case Completed => assert i in s.completed && i !in s.aborted;
    case Discarded => assert i in s.discarded && i !in s.aborted;
    case DeadLettered => assert i in s.lost && i !in s.aborted;
    case OverBudget => assert i in s.aborted;
    case Unusable => assert i in s.aborted;
    case Stopped => assert i in s.aborted;
  }

  /** The steps a job may still take. */
  function Left(p: Phase): nat {
    match p
    case Waiting => 8
    case AtGate => 7
    case Attempt(k) => if k == 0 then 6 else 4
    case Calling(k) => if k == 0 then 5 else 3
    case Landed(_) => 2
    case Finished(_) => 0
  }

  function AllLeft(ps: seq<Phase>): nat { if ps == [] then 0 else AllLeft(ps[..|ps| - 1]) + Left(ps[|ps| - 1]) }

  lemma {:induction false} LeftMoves(ps: seq<Phase>, i: nat, p: Phase)
    requires i < |ps|
    ensures AllLeft(ps[i := p]) == AllLeft(ps) - Left(ps[i]) + Left(p)
  {
    var n := |ps| - 1;
    if i < n {
      LeftMoves(ps[..n], i, p);
      assert ps[i := p][..n] == ps[..n][i := p];
    } else {
      assert ps[i := p][..n] == ps[..n];
    }
  }

  /** Every step leaves fewer, so every run ends. */
  lemma StepsRunOut(c: Config, s: Runner, a: Step, t: Runner)
    requires JobsAgree(c, s) && Takes(c, s, a, t)
    ensures AllLeft(t.phases) < AllLeft(s.phases)
  {
    hide AllLeft, JobsAgree;
    assert JobAgrees(c, s, a.i) by { AgreesAt(c, s, a.i); }
    OnePhaseMoves(c, s, a, t);
    LeftMoves(s.phases, a.i, t.phases[a.i]);
  }

  lemma AgreesAt(c: Config, s: Runner, i: nat)
    requires JobsAgree(c, s) && i < |s.phases|
    ensures JobAgrees(c, s, i)
  {
  }

  lemma OnePhaseMoves(c: Config, s: Runner, a: Step, t: Runner)
    requires Takes(c, s, a, t)
    requires (s.phases[a.i].Attempt? || s.phases[a.i].Calling?) ==> s.phases[a.i].k <= 1
    ensures |t.phases| == |s.phases| && t.phases == s.phases[a.i := t.phases[a.i]]
    ensures Left(t.phases[a.i]) < Left(s.phases[a.i])
  {
  }

  lemma {:induction false} NobodyHolds(ps: seq<Phase>)
    requires forall i | 0 <= i < |ps| :: !Holds(ps[i])
    ensures Holding(ps) == 0
  {
    if ps != [] { NobodyHolds(ps[..|ps| - 1]); }
  }

  /** And it ends only when every job has finished: until then some job can move. */
  lemma NeverStuck(c: Config, s: Runner) returns (a: Step, t: Runner)
    requires Inv(c, s) && !AllFinished(s)
    ensures Takes(c, s, a, t)
  {
    if i :| 0 <= i < |s.phases| && Holds(s.phases[i]) {
      match s.phases[i]
      case Attempt(k) =>
        a := Check(i);
        t := if s.spent >= c.max then Letter(Goes(s, i, Landed(OverBudget)), i) else Goes(s, i, Calling(k));
      case Calling(k) =>
        a, t := Lose(i), Letter(Goes(s, i, Landed(DeadLettered)), i);
      case Landed(o) =>
        a, t := Land(i), Recorded(s, i, o);
    } else {
      NobodyHolds(s.phases);
      var i :| 0 <= i < |s.phases| && !s.phases[i].Finished?;
      if s.phases[i].Waiting? {
        a := Start(i);
        t := if i in c.done then Goes(s, i, Finished(Skipped)).(skipped := s.skipped + {i})
             else if s.stop then StoppedJob(s, i) else Goes(s, i, AtGate);
      } else {
        a := Acquire(i);
        t := if s.stop then StoppedJob(s, i) else Goes(s, i, Attempt(0));
      }
    }
  }

  // ----- one call by itself

  function EndOf(r: AgentBudget.CallResult): Outcome {
    match r
    case Verdict(_, _) => Completed
    case Discarded(_, _) => Discarded
    case DeadLettered(_, _) => DeadLettered
    case OverBudget => OverBudget
    case Aborted => Unusable
  }

  /** What job i does from its k-th attempt on, given the provider's replies, with the budget to itself. */
  function CallSteps(max: real, spent: real, i: nat, replies: seq<AgentBudget.Reply>, k: nat): seq<Step>
    requires k <= 2 <= |replies|
    decreases 2 - k
  {
    if k == 2 then []
    else if spent >= max then [Check(i)]
    else match replies[k]
      case Lost => [Check(i), Lose(i)]
      case Unusable => [Check(i), Abort(i)]
      case Answered(usd, valid) =>
        [Check(i), Answer(i, usd, valid)]
        + if spent + usd >= max || valid then [] else CallSteps(max, spent + usd, i, replies, k + 1)
  }

  /** Taking the steps one after the other leads from s to t. */
  ghost predicate Plays(c: Config, s: Runner, steps: seq<Step>, t: Runner)
    decreases |steps|
  {
    if steps == [] then t == s
    else exists u :: Takes(c, s, steps[0], u) && Plays(c, u, steps[1..], t)
  }

  /** The runner when job i's call has ended as it did. */
  function Ended(s: Runner, i: nat, call: AgentBudget.Call): Runner
    requires i < |s.phases|
  {
    var t := Goes(s, i, Landed(EndOf(call.result))).(spent := call.spent);
    if call.letters == 0 then t else Letter(t, i)
  }

  lemma PlaysTwo(c: Config, s: Runner, a: Step, u: Runner, b: Step, t: Runner)
    requires Takes(c, s, a, u) && Takes(c, u, b, t)
    ensures Plays(c, s, [a, b], t)
  {
    hide Takes;
    assert Plays(c, t, [b][1..], t);
    assert [a, b][1..] == [b] && Plays(c, u, [b], t);
  }

  lemma PlaysMore(c: Config, s: Runner, a: Step, u: Runner, rest: seq<Step>, t: Runner)
    requires Takes(c, s, a, u) && Plays(c, u, rest, t)
    ensures Plays(c, s, [a] + rest, t)
  {
    hide Takes;
    assert ([a] + rest)[1..] == rest;
  }

  /** Where the job was and what was spent before does not show in the end. */
  lemma SameEnd(s: Runner, i: nat, p: Phase, spent: real, call: AgentBudget.Call)
    requires i < |s.phases|
    ensures Ended(Goes(s, i, p).(spent := spent), i, call) == Ended(s, i, call)
  {
    var end := Landed(EndOf(call.result));
    assert s.phases[i := p][i := end] == s.phases[i := end];
  }

  /** The attempt loop is the job's own steps, and leaves what the loop reports: the end, the spend and the
      dead letters. */
  lemma {:induction false} CallIsSteps(
    c: Config, s: Runner, i: nat, replies: seq<AgentBudget.Reply>, k: nat, cost: real)
    requires i < |s.phases| && k <= 2 <= |replies| && AgentBudget.Affordable(replies, c.most)
    requires s.phases[i] == if k < 2 then Attempt(k) else Landed(Discarded)
    ensures Plays(c, s, CallSteps(c.max, s.spent, i, replies, k),
                  Ended(s, i, AgentBudget.Attempts(c.max, s.spent, replies, k, cost)))
    decreases 2 - k
  {
    var call := AgentBudget.Attempts(c.max, s.spent, replies, k, cost);
    if k == 2 {
      assert s.phases[i := s.phases[i]] == s.phases;
    } else if s.spent >= c.max {
      assert Takes(c, s, Check(i), Ended(s, i, call));
      assert Plays(c, Ended(s, i, call), [Check(i)][1..], Ended(s, i, call));
    } else {
      var out := Goes(s, i, Calling(k));
      assert Takes(c, s, Check(i), out);
      SameEnd(s, i, Calling(k), s.spent, call);
      match replies[k]
      case Lost => PlaysTwo(c, s, Check(i), out, Lose(i), Ended(out, i, call));
      case Unusable => PlaysTwo(c, s, Check(i), out, Abort(i), Ended(out, i, call));
      case Answered(usd, valid) =>
        hide Plays, Takes;
        AnswerIsSteps(c, s, i, replies, k, cost);
    }
  }

  lemma AnswerIsSteps(c: Config, s: Runner, i: nat, replies: seq<AgentBudget.Reply>, k: nat, cost: real)
    requires i < |s.phases| && k < 2 <= |replies| && AgentBudget.Affordable(replies, c.most)
    requires s.phases[i] == Attempt(k) && s.spent < c.max && replies[k].Answered?
    ensures Plays(c, s, CallSteps(c.max, s.spent, i, replies, k),
                  Ended(s, i, AgentBudget.Attempts(c.max, s.spent, replies, k, cost)))
    decreases 2 - k, 0
  {
    var call := AgentBudget.Attempts(c.max, s.spent, replies, k, cost);
    var usd, valid := replies[k].cost, replies[k].valid;
    var out := Goes(s, i, Calling(k));
    var next := Booked(c, out, i, k, usd, valid);
    AnswerTakes(c, s, i, replies, k);
    if s.spent + usd >= c.max || valid {
      LastAnswer(c, s, i, replies, k, cost);
      hide Plays, Takes, Booked, Ended, Goes, AgentBudget.Attempts;
      PlaysTwo(c, s, Check(i), out, Answer(i, usd, valid), next);
    } else {
      AnotherAttempt(c, s, i, replies, k, cost);
      hide Plays, Takes, Booked, Ended, Goes, AgentBudget.Attempts;
      CallIsSteps(c, next, i, replies, k + 1, cost + usd);
      PlaysAnswer(c, s, out, next, i, usd, valid, CallSteps(c.max, next.spent, i, replies, k + 1), Ended(s, i, call));
    }
  }

  lemma LastAnswer(c: Config, s: Runner, i: nat, replies: seq<AgentBudget.Reply>, k: nat, cost: real)
    requires i < |s.phases| && k < 2 <= |replies| && s.spent < c.max && replies[k].Answered?
    requires s.spent + replies[k].cost >= c.max || replies[k].valid
    ensures Booked(c, Goes(s, i, Calling(k)), i, k, replies[k].cost, replies[k].valid)
            == Ended(s, i, AgentBudget.Attempts(c.max, s.spent, replies, k, cost))
    ensures CallSteps(c.max, s.spent, i, replies, k) == [Check(i), Answer(i, replies[k].cost, replies[k].valid)]
  {
    SameEnd(s, i, Calling(k), s.spent, AgentBudget.Attempts(c.max, s.spent, replies, k, cost));
  }

  lemma AnotherAttempt(c: Config, s: Runner, i: nat, replies: seq<AgentBudget.Reply>, k: nat, cost: real)
    requires i < |s.phases| && k < 2 <= |replies| && s.spent < c.max && replies[k].Answered?
    requires s.spent + replies[k].cost < c.max && !replies[k].valid
    ensures var usd := replies[k].cost;
            var next := Booked(c, Goes(s, i, Calling(k)), i, k, usd, false);
            var call := AgentBudget.Attempts(c.max, s.spent, replies, k, cost);
            && next.spent == s.spent + usd && |next.phases| == |s.phases|
            && next.phases[i] == (if k + 1 < 2 then Attempt(k + 1) else Landed(Discarded))
            && call == AgentBudget.Attempts(c.max, next.spent, replies, k + 1, cost + usd)
            && Ended(next, i, call) == Ended(s, i, call)
            && CallSteps(c.max, s.spent, i, replies, k)
               == [Check(i), Answer(i, usd, false)] + CallSteps(c.max, next.spent, i, replies, k + 1)
  {
    var call := AgentBudget.Attempts(c.max, s.spent, replies, k, cost);
    var p := if k == 0 then Attempt(1) else Landed(Discarded);
    var out := Goes(s, i, Calling(k));
    SameEnd(s, i, Calling(k), s.spent, call);
    SameEnd(out, i, p, s.spent + replies[k].cost, call);
  }

  lemma PlaysAnswer(
    c: Config, s: Runner, out: Runner, next: Runner, i: nat, usd: real, valid: bool, rest: seq<Step>, t: Runner)
    requires Takes(c, s, Check(i), out) && Takes(c, out, Answer(i, usd, valid), next) && Plays(c, next, rest, t)
    ensures Plays(c, s, [Check(i), Answer(i, usd, valid)] + rest, t)
  {
    hide Takes, Plays;
    PlaysMore(c, out, Answer(i, usd, valid), next, rest, t);
    PlaysMore(c, s, Check(i), out, [Answer(i, usd, valid)] + rest, t);
    assert [Check(i)] + ([Answer(i, usd, valid)] + rest) == [Check(i), Answer(i, usd, valid)] + rest;
  }

  lemma AnswerTakes(c: Config, s: Runner, i: nat, replies: seq<AgentBudget.Reply>, k: nat)
    requires i < |s.phases| && k < 2 <= |replies| && AgentBudget.Affordable(replies, c.most)
    requires s.phases[i] == Attempt(k) && s.spent < c.max && replies[k].Answered?
    ensures var out := Goes(s, i, Calling(k));
            var usd, valid := replies[k].cost, replies[k].valid;
            && Takes(c, s, Check(i), out)
            && Takes(c, out, Answer(i, usd, valid), Booked(c, out, i, k, usd, valid))
  {
    assert replies[k] in replies;
  }
}
