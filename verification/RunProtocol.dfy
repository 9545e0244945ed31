/** Everything that may happen to one live run: workers under the advance and execute locks, duplicate
    deliveries, answers lost after a commit, deaths at any point, halts by anyone at any time, proof
    upgrades and operator resets. One inductive invariant carries all the guarantees. */
module RunProtocol {
  import opened Wrappers
  import opened RunStore
  import opened Triggers

  /** The commitment hash of a run's identity, decisions and book. */
  type Hash = (RunId, RunKey, Decisions, int) -> Sha

  function Digest(h: Hash, id: RunId, key: RunKey, d: Decisions, book: int): Sha { h(id, key, d, book) }

  ghost predicate Injective(h: Hash) {
    forall i, k, d, p, j, l, e, q :: Digest(h, i, k, d, p) == Digest(h, j, l, e, q) ==>
          i == j && k == l && d == e && p == q
  }

  // ----- recomputing a commitment

  datatype Integrity = NOT_COMMITTED | NO_BOOK | HASH_DIFFERS | ANCHOR_DIFFERS

  /** The hash of what is stored now has to be the hash that was stored, in the commitment and in the anchor. */
  function VerifyMaterial(h: Hash, id: RunId, d: RunDb): Result<Sha, Integrity> {
    if d.row.None? || d.commitment.None? then Err(NOT_COMMITTED)
    else if d.snapshot.None? then Err(NO_BOOK)
    else
      var sha := h(id, d.row.value.key, d.decisions, d.snapshot.value);
      if sha != d.commitment.value.sha then Err(HASH_DIFFERS)
      else if d.anchor.Some? && d.anchor.value.sha != sha then Err(ANCHOR_DIFFERS)
      else Ok(sha)
  }

  // ----- workers

  /** Where a worker is. All but Executing and Finished hold the advance lock. */
  datatype Phase =
    | Entered                 // the run has not been read yet
    | InStep                  // read as started; the step reads it again
    | Working                 // computing a book
    | Failing                 // something raised: one FAILED flush may follow
    | Anchoring               // about to read and verify the committed material
    | Stamped(sha: Sha, since: int) // proof and manifest made for this hash, verified at this time
    | Executing               // holds the execute lock
    | Finished

  datatype PartialReason = VOTING_ABORTED(agents: string) | RED_TEAM_ABORTED | CIO_ABORTED(name: string) | CIO_SILENT

  function PartialText(r: PartialReason): string {
    match r
    case VOTING_ABORTED(agents) => "voting stage aborted: " + agents
    case RED_TEAM_ABORTED => "red team stage aborted"
    case CIO_ABORTED(name) => "CIO aborted: " + name
    case CIO_SILENT => "CIO produced no valid decision"
  }

  /** A worker's own reasons are never mistaken for a halt. */
  lemma PartialIsNoHalt(r: PartialReason)
    ensures !HaltText(Some(PartialText(r)))
  {
    var text := PartialText(r);
    assert text[0] != HALT_REASON_PREFIX[0];
  }

  /** The rows, the locks, the workers and the clock they read; the clock never goes back. */
  datatype RunState = RunState(
    db: RunDb, advance: Option<int>, execute: Option<int>, workers: map<int, Phase>, now: int)

  datatype Action =
    | Enter(w: int)
    | ReadStarted(w: int)
    | ReadCommitted(w: int)
    | ReadAgain(w: int)
    | Commit(w: int, decisions: Decisions, book: int, at: int, cost: real, answered: bool)
    | FlushPartial(w: int, why: PartialReason, at: int, cost: real, answered: bool)
    | Raise(w: int)
    | RecordFailure(w: int, text: string, at: int, cost: real)
    | Verify(w: int)
    | MarkAnchored(w: int, proof: int, git: int, at: int)
    | EnterExecute(w: int)
    | RecordOrder(w: int, order: int)
    | MarkExecuted(w: int, at: int)
    | Leave(w: int)
    | Halt(event: HaltEvent)
    | Upgrade(proof: int, verifiedAt: Option<int>)
    | Reset
    | Tick(to: int)

  predicate At(s: RunState, w: int, p: Phase) { w in s.workers && s.workers[w] == p }

  function Goes(s: RunState, w: int, p: Phase): RunState { s.(workers := s.workers[w := p]) }

  function CommitStep(h: Hash, id: RunId, r: RunRow, a: Action): Step
    requires a.Commit?
  {
    Step(r.(status := COMMITTED, reason := None, endedAt := Some(a.at), cost := a.cost), a.decisions, Some(a.book),
         Some(Commitment(h(id, r.key, a.decisions, a.book), a.at)))
  }

  /** What an action does; an action that cannot happen leads nowhere. */
  predicate Does(h: Hash, id: RunId, s: RunState, a: Action, t: RunState) {
    s.db.row.Some? &&
    var r := s.db.row.value;
    match a
    case Enter(w) => w !in s.workers && s.advance.None? && t == Goes(s, w, Entered).(advance := Some(w))
    case ReadStarted(w) => At(s, w, Entered) && Started(r.status) && t == Goes(s, w, InStep)
    case ReadCommitted(w) => At(s, w, Entered) && r.status == COMMITTED && t == Goes(s, w, Anchoring)
    case ReadAgain(w) =>
      At(s, w, InStep) && !Halted(r)
      && t == (if Advanced(r.status) then Goes(s, w, if r.status == COMMITTED then Anchoring else Finished)
               else Goes(s, w, Working))
    case Commit(w, _, _, _, _, answered) =>
      At(s, w, Working) && a.at <= s.now
      && (match FlushStep(s.db, CommitStep(h, id, r, a))
          case Ok(d) => t == Goes(s, w, if answered then Anchoring else Failing).(db := d)
          case Err(_) => t == Goes(s, w, Failing))
    case FlushPartial(w, why, at, cost, answered) =>
      At(s, w, Working)
      && (match FlushStep(s.db, Step(r.(status := PARTIAL, reason := Some(PartialText(why)), endedAt := Some(at),
                                        cost := cost),
                                     map[], None, None))
          case Ok(d) => t == Goes(s, w, if answered then Finished else Failing).(db := d)
          case Err(_) => t == Goes(s, w, Failing))
    case Raise(w) => At(s, w, Working) && t == Goes(s, w, Failing)
    case RecordFailure(w, text, at, cost) =>
      At(s, w, Failing)
      && (match FlushStep(s.db, Step(r.(status := FAILED, reason := Some(text), endedAt := Some(at), cost := cost),
                                     map[], None, None))
          case Ok(d) => t == Goes(s, w, Finished).(db := d)
          case Err(_) => t == Goes(s, w, Finished))
    case Verify(w) =>
      At(s, w, Anchoring) && VerifyMaterial(h, id, s.db).Ok?
      && t == Goes(s, w, if r.status == COMMITTED then Stamped(s.db.commitment.value.sha, s.now) else Finished)
    case MarkAnchored(w, proof, git, at) =>
      w in s.workers && s.workers[w].Stamped? && s.workers[w].since <= at <= s.now
      && (match AdvanceToAnchored(s.db, Anchor(s.workers[w].sha, Some(proof), Some(git), at, None))
          case Ok((d, _)) => t == Goes(s, w, Finished).(db := d)
          case Err(_) => t == Goes(s, w, Finished))
    case EnterExecute(w) => w !in s.workers && s.execute.None? && t == Goes(s, w, Executing).(execute := Some(w))
    case RecordOrder(w, order) => At(s, w, Executing) && t == s.(db := s.db.(orders := s.db.orders + {order}))
    case MarkExecuted(w, at) => At(s, w, Executing) && t == s.(db := AdvanceToExecuted(s.db, at).0)
    case Leave(w) =>
      w in s.workers
      && t == s.(workers := s.workers - {w}, advance := if s.advance == Some(w) then None else s.advance,
                 execute := if s.execute == Some(w) then None else s.execute)
    case Halt(e) =>
      (match RecordHalt(s.db, e)
       case Ok((d, _)) => t == s.(db := d)
       case Err(_) => t == s)
    case Upgrade(proof, verifiedAt) =>
      s.db.anchor.Some?
      && (match UpsertAnchor(s.db, Anchor(s.db.anchor.value.sha, Some(proof), None, s.db.anchor.value.at, verifiedAt))
          case Ok(d) => t == s.(db := d)
          case Err(_) => t == s)
    case Reset =>
      s.advance.None?
      && (match ResetRun(s.db)
          case Ok(d) => t == s.(db := d)
          case Err(_) => t == s)
    case Tick(to) => s.now <= to && t == s.(now := to)
  }

  // ----- the invariant

  /** What the rows always say. */
  ghost predicate RowsAgree(h: Hash, id: RunId, d: RunDb) {
    && d.row.Some? && d.row.value.status != SCORED
    && var r := d.row.value;
    && (d.commitment.Some? <==> Advanced(r.status) || Halted(r))
    && (d.commitment.None? ==> d.decisions == map[] && d.snapshot.None? && d.anchor.None?)
    && (d.commitment.Some? ==>
          && d.snapshot.Some?
          && d.commitment.value.sha == h(id, r.key, d.decisions, d.snapshot.value))
    && (d.anchor.Some? ==>
          && d.commitment.Some? && d.anchor.value.sha == d.commitment.value.sha
          && d.anchor.value.proof.Some? && d.anchor.value.git.Some?
          && d.commitment.value.at <= d.anchor.value.at)
    && (r.status == COMMITTED ==> d.anchor.None?)
    && (r.status in {ANCHORED, EXECUTED} ==> d.anchor.Some?)
    && (Halted(r) ==> exists e | e in d.events :: r.reason == Some(HaltReason(e.trigger)))
    && (forall e | e in d.events :: e.trigger in d.requests && d.requests[e.trigger] == e.at)
  }

  predicate WorkerAgrees(s: RunState, w: int)
    requires s.db.row.Some? && w in s.workers
  {
    match s.workers[w]
    case Executing => s.execute == Some(w)
    case Finished => true
    case InStep => s.advance == Some(w) && Started(s.db.row.value.status)
    case Working => s.advance == Some(w) && Started(s.db.row.value.status)
    case Anchoring => s.advance == Some(w) && s.db.commitment.Some?
    case Stamped(sha, since) =>
      && s.advance == Some(w) && s.db.commitment.Some?
      && s.db.commitment.value.sha == sha && s.db.commitment.value.at <= since <= s.now
    case _ => s.advance == Some(w)
  }

  ghost predicate WorkersAgree(s: RunState)
    requires s.db.row.Some?
  {
    forall w | w in s.workers :: WorkerAgrees(s, w)
  }

  /** Nothing stored is dated in the future. */
  predicate Dated(s: RunState) {
    && (s.db.commitment.Some? ==> s.db.commitment.value.at <= s.now)
    && (s.db.anchor.Some? ==> s.db.anchor.value.at <= s.now)
  }

  ghost predicate Inv(h: Hash, id: RunId, s: RunState) {
    RowsAgree(h, id, s.db) && WorkersAgree(s) && Dated(s)
  }

  /** How far a run has come; a halt is the end. */
  function Rank(r: RunRow): nat {
    if Halted(r) then 4
    else match r.status
      case COMMITTED => 1
      case ANCHORED => 2
      case EXECUTED => 3
      case SCORED => 3
      case _ => 0
  }

  /** What no step ever takes back. */
  ghost predicate Kept(d: RunDb, e: RunDb) {
    && d.row.Some? && e.row.Some? && e.row.value.key == d.row.value.key
    && Rank(d.row.value) <= Rank(e.row.value)
    && (Halted(d.row.value) ==> e.row == d.row)
    && (d.commitment.Some? ==> e.commitment == d.commitment && e.decisions == d.decisions && e.snapshot == d.snapshot)
    && d.events <= e.events && d.orders <= e.orders
  }

  lemma CommitKeepsRows(h: Hash, id: RunId, d: RunDb, a: Action, e: RunDb)
    requires RowsAgree(h, id, d) && Started(d.row.value.status)
    requires a.Commit? && FlushStep(d, CommitStep(h, id, d.row.value, a)) == Ok(e)
    ensures RowsAgree(h, id, e) && Kept(d, e)
    ensures e.commitment.Some? && e.row.value.status == COMMITTED
  {
    assert d.decisions == map[];
    assert InsertNew(d.decisions, a.decisions) == a.decisions;
  }

  /** A flush without decisions of a row that is not halted text. */
  lemma ReportKeepsRows(h: Hash, id: RunId, d: RunDb, r: RunRow, e: RunDb)
    requires RowsAgree(h, id, d) && r.key == d.row.value.key
    requires r.status in {PARTIAL, FAILED} && !Halted(r)
    requires FlushStep(d, Step(r, map[], None, None)) == Ok(e)
    ensures RowsAgree(h, id, e) && Kept(d, e)
    ensures Advanced(d.row.value.status) || Halted(d.row.value) ==> e == d
    ensures !(Advanced(d.row.value.status) || Halted(d.row.value)) ==>
              e.row.value.status == r.status && !Halted(e.row.value)
  {
    assert InsertNew(d.decisions, map[]) == d.decisions;
    assert d.(decisions := d.decisions, snapshot := if d.snapshot.Some? then d.snapshot else None) == d;
  }

  lemma HaltKeepsRows(h: Hash, id: RunId, d: RunDb, x: HaltEvent, e: RunDb, moved: bool)
    requires RowsAgree(h, id, d) && RecordHalt(d, x) == Ok((e, moved))
    ensures RowsAgree(h, id, e) && Kept(d, e)
  {
    HaltSucceedsIff(d, x);
    assert moved ==> x in e.events && e.row.value.reason == Some(HaltReason(x.trigger));
    if Halted(d.row.value) {
      var y :| y in d.events && d.row.value.reason == Some(HaltReason(y.trigger));
      assert y in e.events;
    }
  }

  lemma AnchorKeepsRows(h: Hash, id: RunId, d: RunDb, a: Anchor, e: RunDb, moved: bool)
    requires RowsAgree(h, id, d) && d.commitment.Some? && d.commitment.value.at <= a.at
    requires AdvanceToAnchored(d, a) == Ok((e, moved))
    ensures RowsAgree(h, id, e) && Kept(d, e)
    ensures moved <==> d.row.value.status == COMMITTED
    ensures moved ==> e.row.value.status == ANCHORED
    ensures !moved ==> e.row == d.row
  {
  }

  lemma ResetKeepsRows(h: Hash, id: RunId, d: RunDb, e: RunDb)
    requires RowsAgree(h, id, d) && ResetRun(d) == Ok(e)
    ensures RowsAgree(h, id, e) && Kept(d, e) && e.row.value.status == PENDING
  {
  }

  lemma UpgradeKeepsRows(h: Hash, id: RunId, d: RunDb, a: Anchor, e: RunDb)
    requires RowsAgree(h, id, d) && d.anchor.Some? && UpsertAnchor(d, a) == Ok(e)
    ensures RowsAgree(h, id, e) && Kept(d, e) && e.row == d.row && e.commitment == d.commitment
  {
  }

  lemma StampedAt(h: Hash, id: RunId, s: RunState, w: int)
    requires Inv(h, id, s) && w in s.workers && s.workers[w].Stamped?
    ensures s.db.commitment.Some? && s.db.commitment.value.at <= s.workers[w].since
  {
    assert WorkerAgrees(s, w);
  }

  lemma RowsStep(h: Hash, id: RunId, s: RunState, a: Action, t: RunState)
    requires Inv(h, id, s) && Does(h, id, s, a, t)
    ensures RowsAgree(h, id, t.db) && Kept(s.db, t.db)
  {
    hide RowsAgree, Kept;
    KeptStays(h, id, s.db);
    match a
    case Commit(w, _, _, _, _, _) =>
      var f := FlushStep(s.db, CommitStep(h, id, s.db.row.value, a));
      if f.Ok? { CommitKeepsRows(h, id, s.db, a, f.value); }
    case FlushPartial(w, why, at, cost, _) =>
      PartialIsNoHalt(why);
      var r := s.db.row.value.(status := PARTIAL, reason := Some(PartialText(why)), endedAt := Some(at), cost := cost);
      ReportKeepsRows(h, id, s.db, r, FlushStep(s.db, Step(r, map[], None, None)).value);
    case RecordFailure(w, text, at, cost) =>
      var r := s.db.row.value.(status := FAILED, reason := Some(text), endedAt := Some(at), cost := cost);
      ReportKeepsRows(h, id, s.db, r, FlushStep(s.db, Step(r, map[], None, None)).value);
    case MarkAnchored(w, proof, git, at) =>
      var f := AdvanceToAnchored(s.db, Anchor(s.workers[w].sha, Some(proof), Some(git), at, None));
      StampedAt(h, id, s, w);
      if f.Ok? {
        AnchorKeepsRows(
          h, id, s.db, Anchor(s.workers[w].sha, Some(proof), Some(git), at, None), f.value.0, f.value.1);
      }
    case Halt(x) =>
      var f := RecordHalt(s.db, x);
      if f.Ok? { HaltKeepsRows(h, id, s.db, x, f.value.0, f.value.1); }
    case Upgrade(proof, v) =>
      var f := UpsertAnchor(s.db, Anchor(s.db.anchor.value.sha, Some(proof), None, s.db.anchor.value.at, v));
      if f.Ok? {
        UpgradeKeepsRows(
          h, id, s.db, Anchor(s.db.anchor.value.sha, Some(proof), None, s.db.anchor.value.at, v), f.value);
      }
    case Reset =>
      var f := ResetRun(s.db);
      if f.Ok? { ResetKeepsRows(h, id, s.db, f.value); }
    case RecordOrder(w, order) => OrderKeepsRows(h, id, s.db, order);
    case MarkExecuted(w, at) => ExecuteKeepsRows(h, id, s.db, at);
    case _ =>
  }

  lemma KeptStays(h: Hash, id: RunId, d: RunDb)
    requires RowsAgree(h, id, d)
    ensures Kept(d, d)
  {
  }

  lemma OrderKeepsRows(h: Hash, id: RunId, d: RunDb, order: int)
    requires RowsAgree(h, id, d)
    ensures RowsAgree(h, id, d.(orders := d.orders + {order})) && Kept(d, d.(orders := d.orders + {order}))
  {
  }

  lemma ExecuteKeepsRows(h: Hash, id: RunId, d: RunDb, at: int)
    requires RowsAgree(h, id, d)
    ensures RowsAgree(h, id, AdvanceToExecuted(d, at).0) && Kept(d, AdvanceToExecuted(d, at).0)
  {
  }

  /** Actions that need no advance lock do not touch a run that is still in progress. */
  lemma OutsidersLeaveStarted(h: Hash, id: RunId, s: RunState, a: Action, t: RunState)
    requires Inv(h, id, s) && Does(h, id, s, a, t) && Started(s.db.row.value.status)
    requires a.Halt? || a.Upgrade? || a.RecordOrder? || a.MarkExecuted? || a.EnterExecute? || a.Leave? || a.Tick?
    ensures t.db.row == s.db.row
  {
  }

  /** The worker an action belongs to; 0 when it is nobody's. */
  function Actor(a: Action): Option<int> {
    match a
    case Halt(_) => None
    case Upgrade(_, _) => None
    case Reset => None
    case Tick(_) => None
    case _ => Some(a.w)
  }

  predicate NeedsAdvance(a: Action) {
    !(a.Halt? || a.Upgrade? || a.RecordOrder? || a.MarkExecuted? || a.EnterExecute? || a.Leave? || a.Reset? || a.Tick?)
  }

  lemma OthersStep(h: Hash, id: RunId, s: RunState, a: Action, t: RunState, w: int)
    requires Inv(h, id, s) && Does(h, id, s, a, t) && Kept(s.db, t.db)
    requires w in t.workers && Actor(a) != Some(w)
    ensures WorkerAgrees(t, w)
  {
    hide RowsAgree, FlushStep, RecordHalt, UpsertAnchor, AdvanceToAnchored, ResetRun;
    assert w in s.workers && t.workers[w] == s.workers[w] && WorkerAgrees(s, w);
    assert s.advance == Some(w) ==> t.advance == Some(w) && !NeedsAdvance(a) && !a.Reset?;
    assert s.execute == Some(w) ==> t.execute == Some(w);
    if s.workers[w].InStep? || s.workers[w].Working? {
      OutsidersLeaveStarted(h, id, s, a, t);
    }
  }

  lemma ActorStep(h: Hash, id: RunId, s: RunState, a: Action, t: RunState, w: int)
    requires Inv(h, id, s) && Does(h, id, s, a, t) && Kept(s.db, t.db) && RowsAgree(h, id, t.db)
    requires w in t.workers && Actor(a) == Some(w)
    ensures WorkerAgrees(t, w)
  {
    hide RecordHalt, UpsertAnchor, AdvanceToAnchored, ResetRun, FlushStep;
    if w in s.workers { assert WorkerAgrees(s, w); }
    if a.Commit? {
      var f := FlushStep(s.db, CommitStep(h, id, s.db.row.value, a));
      if f.Ok? { CommitKeepsRows(h, id, s.db, a, f.value); }
    }
  }

  lemma WorkersStep(h: Hash, id: RunId, s: RunState, a: Action, t: RunState)
    requires Inv(h, id, s) && Does(h, id, s, a, t) && Kept(s.db, t.db) && RowsAgree(h, id, t.db)
    ensures WorkersAgree(t)
  {
    hide Inv, Does, Kept, WorkerAgrees;
    forall w | w in t.workers ensures WorkerAgrees(t, w) {
      if Actor(a) == Some(w) { ActorStep(h, id, s, a, t, w); } else { OthersStep(h, id, s, a, t, w); }
    }
  }

  /** Every step keeps the invariant, and takes nothing back. */
  lemma StepKeepsInv(h: Hash, id: RunId, s: RunState, a: Action, t: RunState)
    requires Inv(h, id, s) && Does(h, id, s, a, t)
    ensures Inv(h, id, t) && Kept(s.db, t.db)
  {
    hide Does, RowsAgree, WorkersAgree, Kept;
    RowsStep(h, id, s, a, t);
    WorkersStep(h, id, s, a, t);
    DatedStep(h, id, s, a, t);
  }

  lemma DatedStep(h: Hash, id: RunId, s: RunState, a: Action, t: RunState)
    requires Inv(h, id, s) && Does(h, id, s, a, t)
    ensures Dated(t)
  {
    hide RowsAgree, WorkersAgree;
  }

  // ----- whole runs

  /** The run as a claim creates it. */
  function Created(key: RunKey, startedAt: int): RunState {
    RunState(EMPTY.(row := Some(RunRow(key, PENDING, None, startedAt, None, 0.0))), None, None, map[], startedAt)
  }

  ghost predicate Trace(h: Hash, id: RunId, states: seq<RunState>, actions: seq<Action>) {
    && |states| == |actions| + 1
    && (exists key, at :: states[0] == Created(key, at))
    && (forall i | 0 <= i < |actions| :: Does(h, id, states[i], actions[i], states[i + 1]))
  }

  lemma {:induction false} Reachable(h: Hash, id: RunId, states: seq<RunState>, actions: seq<Action>, i: nat)
    requires Trace(h, id, states, actions) && i < |states|
    ensures Inv(h, id, states[i])
  {
    if i == 0 {
    } else {
      Reachable(h, id, states, actions, i - 1);
      StepKeepsInv(h, id, states[i - 1], actions[i - 1], states[i]);
    }
  }

  /** Over every interleaving a run never moves backwards, a halted row never changes again, and a
      commitment keeps its hash, its decisions and its book. */
  lemma {:induction false} NeverBackwards(
    h: Hash, id: RunId, states: seq<RunState>, actions: seq<Action>, i: nat, j: nat)
    requires Trace(h, id, states, actions) && i <= j < |states|
    ensures Kept(states[i].db, states[j].db)
    decreases j
  {
    Reachable(h, id, states, actions, i);
    if i == j {
      KeptStays(h, id, states[i].db);
    } else {
      NeverBackwards(h, id, states, actions, i, j - 1);
      Reachable(h, id, states, actions, j - 1);
      StepKeepsInv(h, id, states[j - 1], actions[j - 1], states[j]);
      KeptTwice(states[i].db, states[j - 1].db, states[j].db);
    }
  }

  lemma KeptTwice(d: RunDb, e: RunDb, f: RunDb)
    requires Kept(d, e) && Kept(e, f)
    ensures Kept(d, f)
  {
  }

  /** The call that performs COMMITTED to ANCHORED, the only one that can report true. */
  predicate Anchors(s: RunState, a: Action) {
    a.MarkAnchored? && a.w in s.workers && s.workers[a.w].Stamped?
    && var r := AdvanceToAnchored(s.db, Anchor(s.workers[a.w].sha, Some(a.proof), Some(a.git), a.at, None));
       r.Ok? && r.value.1
  }

  predicate Executes(s: RunState, a: Action) { a.MarkExecuted? && AdvanceToExecuted(s.db, a.at).1 }

  /** Each of the two moves is performed, and so reported true, at most once per run. */
  lemma MovesHappenOnce(h: Hash, id: RunId, states: seq<RunState>, actions: seq<Action>, i: nat, j: nat)
    requires Trace(h, id, states, actions) && i <= j < |actions|
    ensures Anchors(states[i], actions[i]) && Anchors(states[j], actions[j]) ==> i == j
    ensures Executes(states[i], actions[i]) && Executes(states[j], actions[j]) ==> i == j
  {
    if i < j {
      Reachable(h, id, states, actions, i);
      Reachable(h, id, states, actions, j);
      NeverBackwards(h, id, states, actions, i + 1, j);
      if Anchors(states[i], actions[i]) {
        AnchorsRaises(h, id, states[i], actions[i], states[i + 1]);
      }
      if Executes(states[i], actions[i]) {
        assert Rank(states[i + 1].db.row.value) >= 3;
      }
    }
  }

  lemma AnchorsRaises(h: Hash, id: RunId, s: RunState, a: Action, t: RunState)
    requires Inv(h, id, s) && Does(h, id, s, a, t) && Anchors(s, a)
    ensures Rank(t.db.row.value) >= 2
  {
    var x := Anchor(s.workers[a.w].sha, Some(a.proof), Some(a.git), a.at, None);
    assert WorkerAgrees(s, a.w);
    AnchorKeepsRows(h, id, s.db, x, AdvanceToAnchored(s.db, x).value.0, true);
  }

  /** Recomputing a reachable run's commitment always succeeds. */
  lemma VerificationNeverFails(h: Hash, id: RunId, d: RunDb)
    requires RowsAgree(h, id, d) && d.commitment.Some?
    ensures VerifyMaterial(h, id, d) == Ok(d.commitment.value.sha)
  {
  }

  /** And it would notice any change to what was committed, and an anchor of anything else, and nothing else. */
  lemma TamperingIsNoticed(h: Hash, id: RunId, d: RunDb, e: RunDb)
    requires Injective(h) && RowsAgree(h, id, d) && d.commitment.Some?
    requires e.row.Some? && e.snapshot.Some? && e.commitment == d.commitment
    ensures VerifyMaterial(h, id, e).Ok?
            <==> e.decisions == d.decisions && e.snapshot == d.snapshot && e.row.value.key == d.row.value.key
                 && (e.anchor.Some? ==> e.anchor.value.sha == d.commitment.value.sha)
  {
    var x := Digest(h, id, d.row.value.key, d.decisions, d.snapshot.value);
    var y := Digest(h, id, e.row.value.key, e.decisions, e.snapshot.value);
    if x == y {
      assert d.decisions == e.decisions && d.snapshot.value == e.snapshot.value;
    }
  }

  /** Why the lock and the short-circuit matter, exactly: a commit flush over an anchored row is accepted,
      and moves it backwards, if and only if it presents the very rows that were committed. */
  lemma UnlockedCommitRegresses(h: Hash, id: RunId, d: RunDb, a: Action)
    requires Injective(h) && RowsAgree(h, id, d) && a.Commit? && d.row.value.status in {ANCHORED, EXECUTED}
    ensures var f := FlushStep(d, CommitStep(h, id, d.row.value, a));
            && (f.Ok? <==> a.decisions == d.decisions && Some(a.book) == d.snapshot)
            && (f.Ok? ==> f.value.row.value.status == COMMITTED && !Kept(d, f.value))
  {
    var x := Digest(h, id, d.row.value.key, d.decisions, d.snapshot.value);
    var y := Digest(h, id, d.row.value.key, a.decisions, a.book);
    if x == y { assert d.decisions == a.decisions; }
  }

  // ----- claims: one active run per key

  type Fleet = map<RunId, RunState>

  predicate HasActive(f: Fleet, key: RunKey, id: RunId) {
    id in f && f[id].db.row.Some? && f[id].db.row.value.key == key && Active(f[id].db.row.value.status)
  }

  ghost predicate OneActive(f: Fleet) {
    forall key, i, j | HasActive(f, key, i) && HasActive(f, key, j) :: i == j
  }

  ghost predicate FleetInv(h: Hash, f: Fleet) { forall id | id in f :: Inv(h, id, f[id]) }

  /** A claim creates a run only when its key has no active one. */
  ghost predicate Claims(f: Fleet, key: RunKey, id: RunId, at: int, g: Fleet) {
    id !in f && (forall j :: !HasActive(f, key, j)) && g == f[id := Created(key, at)]
  }

  ghost predicate Moves(h: Hash, f: Fleet, id: RunId, a: Action, g: Fleet) {
    id in f && exists t :: Does(h, id, f[id], a, t) && g == f[id := t]
  }

  datatype FleetAction = Claim(key: RunKey, id: RunId, at: int) | Move(id: RunId, action: Action)

  ghost predicate FleetDoes(h: Hash, f: Fleet, x: FleetAction, g: Fleet) {
    match x
    case Claim(key, id, at) => Claims(f, key, id, at, g)
    case Move(id, a) => Moves(h, f, id, a, g)
  }

  /** Any interleaving of claims and of the steps of all runs, from an empty store. */
  ghost predicate FleetTrace(h: Hash, fs: seq<Fleet>, xs: seq<FleetAction>) {
    && |fs| == |xs| + 1 && fs[0] == map[]
    && forall i | 0 <= i < |xs| :: FleetDoes(h, fs[i], xs[i], fs[i + 1])
  }

  /** A run that failed or ended partial stays that way unless an operator resets it. */
  lemma OnlyResetRevives(h: Hash, id: RunId, s: RunState, a: Action, t: RunState)
    requires Inv(h, id, s) && Does(h, id, s, a, t) && !a.Reset?
    ensures Active(t.db.row.value.status) ==> Active(s.db.row.value.status)
  {
    hide RecordHalt, UpsertAnchor, ResetRun, RowsAgree;
    assert RowsAgree(h, id, s.db);
    match a
    case Commit(w, _, _, _, _, _) => assert WorkerAgrees(s, w);
    case FlushPartial(w, _, _, _, _) => assert WorkerAgrees(s, w);
    case MarkAnchored(w, proof, git, at) =>
      var x := Anchor(s.workers[w].sha, Some(proof), Some(git), at, None);
      assert WorkerAgrees(s, w);
      var f := AdvanceToAnchored(s.db, x);
      if f.Ok? { AnchorKeepsRows(h, id, s.db, x, f.value.0, f.value.1); }
    case Halt(x) =>
      if s.db.row.Some? { HaltSucceedsIff(s.db, x); }
    case Upgrade(proof, v) =>
      var x := Anchor(s.db.anchor.value.sha, Some(proof), None, s.db.anchor.value.at, v);
      var f := UpsertAnchor(s.db, x);
      if f.Ok? { UpgradeKeepsRows(h, id, s.db, x, f.value); }
    case _ =>
  }

  lemma ActiveStaysUnique(h: Hash, f: Fleet, g: Fleet, id: RunId, a: Action)
    requires FleetInv(h, f) && OneActive(f) && Moves(h, f, id, a, g) && !a.Reset?
    ensures FleetInv(h, g) && OneActive(g)
  {
    var t :| Does(h, id, f[id], a, t) && g == f[id := t];
    StepKeepsInv(h, id, f[id], a, t);
    OnlyResetRevives(h, id, f[id], a, t);
    forall key, i | HasActive(g, key, i) ensures HasActive(f, key, i) {
    }
  }

  lemma ClaimsStayUnique(h: Hash, f: Fleet, key: RunKey, id: RunId, at: int, g: Fleet)
    requires FleetInv(h, f) && OneActive(f) && Claims(f, key, id, at, g)
    ensures FleetInv(h, g) && OneActive(g)
  {
    forall k, i, j | HasActive(g, k, i) && HasActive(g, k, j) ensures i == j {
      assert i != id ==> HasActive(f, k, i);
      assert j != id ==> HasActive(f, k, j);
    }
  }

  /** Without operator resets there is at every moment at most one active run per mode, as-of and config. */
  lemma {:induction false} OneActiveAlways(h: Hash, fs: seq<Fleet>, xs: seq<FleetAction>, i: nat)
    requires FleetTrace(h, fs, xs) && i < |fs|
    requires forall k | 0 <= k < |xs| && xs[k].Move? :: !xs[k].action.Reset?
    ensures FleetInv(h, fs[i]) && OneActive(fs[i])
  {
    hide Does, FleetInv, OneActive, Claims, Moves;
    if i == 0 {
      NoRuns(h);
    } else {
      OneActiveAlways(h, fs, xs, i - 1);
      assert FleetDoes(h, fs[i - 1], xs[i - 1], fs[i]);
      match xs[i - 1]
      case Claim(key, id, at) => ClaimsStayUnique(h, fs[i - 1], key, id, at, fs[i]);
      case Move(id, a) => ActiveStaysUnique(h, fs[i - 1], fs[i], id, a);
    }
  }

  lemma NoRuns(h: Hash)
    ensures FleetInv(h, map[]) && OneActive(map[])
  {
  }

  /** A reset breaks it exactly when it revives a run whose key has another active run. */
  lemma ResetKeepsUniqueIff(h: Hash, f: Fleet, g: Fleet, id: RunId, t: RunState)
    requires FleetInv(h, f) && OneActive(f) && id in f && f[id].advance.None?
    requires ResetRun(f[id].db).Ok? && t == f[id].(db := ResetRun(f[id].db).value) && g == f[id := t]
    ensures OneActive(g) <==> forall j | j != id :: !HasActive(f, f[id].db.row.value.key, j)
  {
    var key := f[id].db.row.value.key;
    ResetKeepsRows(h, id, f[id].db, t.db);
    assert HasActive(g, key, id);
    if j :| j != id && HasActive(f, key, j) {
      assert HasActive(g, key, j);
    }
    if forall j | j != id :: !HasActive(f, key, j) {
      forall k, i, j | HasActive(g, k, i) && HasActive(g, k, j) ensures i == j {
        assert i != id ==> HasActive(f, k, i);
        assert j != id ==> HasActive(f, k, j);
        assert i == id || j == id ==> k == key;
      }
    }
  }

  /** The failing family, concretely: a failed run, a second claim, then a reset of the first. */
  lemma ResetCanDuplicate(h: Hash, key: RunKey) returns (f: Fleet, g: Fleet)
    ensures FleetInv(h, f) && OneActive(f) && 1 in f && f[1].advance.None? && ResetRun(f[1].db).Ok?
    ensures g == f[1 := f[1].(db := ResetRun(f[1].db).value)] && !OneActive(g)
  {
    var failed := Created(key, 0).(db := EMPTY.(row := Some(RunRow(key, FAILED, None, 0, Some(1), 0.0))));
    f := map[1 := failed, 2 := Created(key, 2)];
    g := f[1 := f[1].(db := ResetRun(f[1].db).value)];
    assert HasActive(g, key, 1) && HasActive(g, key, 2);
  }
}
