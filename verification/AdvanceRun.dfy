/** The worker that takes a live run from its agents to its anchor, call by call. Anyone else may act between
    two of its calls; any call may raise or be the last thing the process does; a commit may go through and
    its answer be lost. Whatever happens, what the run went through is a run of the protocol. */
module AdvanceRun {
  import opened Wrappers
  import opened RunStore
  import opened RunProtocol

  /** What a call comes back with. */
  datatype Reply<+T> = Answer(value: T) | Raised | Died

  datatype Advance = Skipped | Reported(status: Status, advanced: bool)

  predicate MarksFor(a: Action, w: int) { a.MarkAnchored? && a.w == w }

  /** Worker w anchored the run at or after the n-th act. */
  ghost predicate Moved(states: seq<RunState>, acts: seq<Action>, n: nat, w: int) {
    |acts| < |states| && exists i :: n <= i < |acts| && MarksFor(acts[i], w) && Anchors(states[i], acts[i])
  }

  lemma MovedStays(
    states: seq<RunState>, acts: seq<Action>, later: seq<RunState>, more: seq<Action>, n: nat, w: int)
    requires |acts| < |states| && |more| < |later| && states <= later && acts <= more
    requires forall i | |acts| <= i < |more| :: !MarksFor(more[i], w)
    ensures Moved(later, more, n, w) <==> Moved(states, acts, n, w)
  {
    assert forall i | 0 <= i < |acts| :: more[i] == acts[i] && later[i] == states[i];
  }

  /** The row has this status; for the answer of a mark it may also be further, or halted meanwhile. */
  predicate Has(s: RunState, status: Status) {
    && s.db.row.Some?
    && (s.db.row.value.status == status || (status == ANCHORED && Rank(s.db.row.value) >= 2))
  }

  /** At or after the n-th state the run was seen to have this status. */
  ghost predicate Saw(states: seq<RunState>, n: nat, s: Status) {
    exists i :: n <= i < |states| && Has(states[i], s)
  }

  /** A report is never of a run with work left to do, and the run had that status during the call. */
  ghost predicate Truthful(r: Reply<Advance>, states: seq<RunState>, n: nat) {
    r.Answer? && r.value.Reported? ==>
      r.value.status != COMMITTED && !Started(r.value.status) && Saw(states, n, r.value.status)
  }

  /** At or after the n-th state the run was seen halted. */
  ghost predicate SawHalted(states: seq<RunState>, n: nat) {
    exists i :: n <= i < |states| && states[i].db.row.Some? && Halted(states[i].db.row.value)
  }

  /** Worker w tried to record a failure at or after the n-th act. */
  ghost predicate Recorded(acts: seq<Action>, n: nat, w: int) {
    exists i :: n <= i < |acts| && acts[i].RecordFailure? && acts[i].w == w
  }

  lemma RecordedBefore(acts: seq<Action>, m: nat, n: nat, w: int)
    requires n <= m
    ensures Recorded(acts, m, w) ==> Recorded(acts, n, w)
  {
  }

  lemma SawHaltedLater(states: seq<RunState>, m: nat, later: seq<RunState>, n: nat)
    requires SawHalted(states, m) && states <= later && n <= m
    ensures SawHalted(later, n)
  {
    var i :| m <= i < |states| && states[i].db.row.Some? && Halted(states[i].db.row.value);
    assert later[i] == states[i];
  }

  lemma TruthfulLater(r: Reply<Advance>, states: seq<RunState>, m: nat, later: seq<RunState>, n: nat)
    requires Truthful(r, states, m) && states <= later && n <= m
    ensures Truthful(r, later, n)
  {
    if r.Answer? && r.value.Reported? {
      var i :| m <= i < |states| && Has(states[i], r.value.status);
      assert later[i] == states[i];
    }
  }

  /** A step of somebody else leaves a worker where it is. */
  lemma OthersPass(h: Hash, id: RunId, s: RunState, a: Action, t: RunState, w: int)
    requires Does(h, id, s, a, t) && Actor(a) != Some(w)
    ensures (w in t.workers <==> w in s.workers) && (w in s.workers ==> t.workers[w] == s.workers[w])
  {
    hide VerifyMaterial;
  }

  class Run {
    const h: Hash
    const id: RunId
    var state: RunState
    ghost var states: seq<RunState>
    ghost var acts: seq<Action>
    ghost var faults: nat

    /** Everything that happened so far is a run of the protocol. */
    ghost predicate Valid()
      reads this
    {
      Trace(h, id, states, acts) && states[|acts|] == state
    }

    /** More has happened, but worker w has anchored nothing. */
    twostate predicate Unmarked(w: int)
      reads this
    {
      && Valid() && old(acts) <= acts && old(states) <= states
      && forall i | |old(acts)| <= i < |acts| :: !MarksFor(acts[i], w)
    }

    /** More has happened, and worker w is where it was. */
    twostate predicate Meanwhile(w: int)
      reads this
    {
      && Unmarked(w)
      && (w in state.workers <==> w in old(state.workers))
      && (w in state.workers ==> state.workers[w] == old(state.workers)[w])
    }

    constructor (h: Hash, id: RunId, key: RunKey, startedAt: int)
      ensures Valid() && acts == [] && state == Created(key, startedAt)
      ensures this.h == h && this.id == id
    {
      this.h, this.id, state := h, id, Created(key, startedAt);
      states, acts, faults := [Created(key, startedAt)], [], 0;
    }

    /** A call that raises, or is the last thing the process does. */
    method Trouble<T>() returns (r: Reply<T>)
      modifies this`faults
      ensures !r.Answer? && faults == old(faults) + 1
    {
      faults := faults + 1;
      if * { return Died; }
      return Raised;
    }

    lemma Reached()
      requires Valid()
      ensures Inv(h, id, state)
    {
      Reachable(h, id, states, acts, |acts|);
    }

    lemma Present()
      requires Valid()
      ensures |states| == |acts| + 1 && states[|acts|] == state
    {
      hide Does;
    }

    lemma SeesNow(r: Reply<Advance>, n: nat)
      requires Valid() && n <= |acts|
      requires r.Answer? && r.value.Reported? ==>
                 r.value.status != COMMITTED && !Started(r.value.status) && Has(state, r.value.status)
      ensures Truthful(r, states, n)
    {
      hide Does, Inv;
      assert states[|acts|] == state;
    }

    lemma SeesHalted(n: nat)
      requires Valid() && n <= |acts| && state.db.row.Some? && Halted(state.db.row.value)
      ensures SawHalted(states, n)
    {
      hide Does, Halted;
      assert states[|acts|] == state;
    }

    method Act(a: Action, t: RunState)
      requires Valid() && Does(h, id, state, a, t)
      modifies this`state, this`states, this`acts
      ensures Valid() && state == t
      ensures acts == old(acts) + [a] && states == old(states) + [t]
    {
      hide Does;
      states, acts, state := states + [t], acts + [a], t;
    }

    /** Any number of steps of anybody but w. */
    method Others(w: int)
      requires Valid()
      modifies this`state, this`states, this`acts
      ensures Meanwhile(w)
    {
      var n: int := *;
      while n > 0
        invariant Meanwhile(w)
      {
        Reached();
        assert Does(h, id, state, Tick(state.now), state);
        var a: Action, t: RunState :| Does(h, id, state, a, t) && Actor(a) != Some(w);
        OthersPass(h, id, state, a, t, w);
        Act(a, t);
        n := n - 1;
      }
    }

    /** Verify the stored rows, make the proof and the manifest, and mark the run. A run found anchored or
        further reports that; one found halted raises. */
    method AnchorRun(w: int) returns (r: Reply<Advance>)
      requires Valid() && At(state, w, Anchoring)
      modifies this
      ensures Valid() && old(acts) <= acts && old(states) <= states && w in state.workers
      ensures r.Answer? ==> r.value.Reported? && (r.value.advanced <==> Moved(states, acts, |old(acts)|, w))
      ensures Truthful(r, states, |old(acts)|)
      ensures old(faults) <= faults && (!r.Answer? ==> faults > old(faults) || SawHalted(states, |old(acts)|))
    {
      hide Does, Trace, Inv, VerifyMaterial, AdvanceToAnchored, SawHalted, Halted;
      Others(w);
      Reached();
      Verifies(w);
      var status := state.db.row.value.status;
      Act(Verify(w), Verified(w));
      if status in {ANCHORED, EXECUTED, SCORED} {
        r := Answer(Reported(status, false));
        SeesNow(r, |old(acts)|);
        return;
      }
      if status != COMMITTED {
        SeesHalted(|old(acts)|);
        return Raised;
      }
      if * {
        r := Trouble();
        return;
      }
      Others(w);
      Reached();
      StampedIsPast(w);
      if * {
        r := Trouble();
        return;
      }
      var proof: int, git: int := *, *;
      ghost var n := |acts|;
      r := Mark(w, proof, git);
      TruthfulLater(r, states, n, states, |old(acts)|);
    }

    function Verified(w: int): RunState
      reads this
      requires state.db.row.Some?
    {
      Goes(state, w, if state.db.row.value.status == COMMITTED && state.db.commitment.Some?
                     then Stamped(state.db.commitment.value.sha, state.now) else Finished)
    }

    lemma Verifies(w: int)
      requires Inv(h, id, state) && At(state, w, Anchoring)
      ensures state.db.row.Some? && state.db.commitment.Some?
      ensures Does(h, id, state, Verify(w), Verified(w))
      ensures Advanced(state.db.row.value.status) || Halted(state.db.row.value)
    {
      assert WorkerAgrees(state, w);
      VerificationNeverFails(h, id, state.db);
    }

    lemma StampedIsPast(w: int)
      requires Inv(h, id, state) && w in state.workers && state.workers[w].Stamped?
      ensures state.db.row.Some? && state.workers[w].since <= state.now
    {
      assert WorkerAgrees(state, w);
    }

    /** One transaction: it may fail, go through, or go through and lose its answer. */
    method Mark(w: int, proof: int, git: int) returns (r: Reply<Advance>)
      requires Valid() && state.db.row.Some? && w in state.workers && state.workers[w].Stamped?
      requires state.workers[w].since <= state.now && Inv(h, id, state)
      modifies this
      ensures Valid() && old(acts) <= acts && old(states) <= states && w in state.workers
      ensures |acts| == |old(acts)| + 1
      ensures r.Answer? ==> r.value.Reported? && (r.value.advanced <==> Moved(states, acts, |old(acts)|, w))
      ensures Truthful(r, states, |old(acts)|)
      ensures old(faults) <= faults && (!r.Answer? ==> faults > old(faults))
    {
      assert |states| == |acts| + 1 && states[|acts|] == state;
      MarkGoesThrough(w, proof, git);
      hide Trace, Inv;
      var a := MarkAnchored(w, proof, git, state.now);
      ghost var before := state;
      var marked := AdvanceToAnchored(state.db, Anchor(state.workers[w].sha, Some(proof), Some(git), state.now, None));
      ghost var n := |acts|;
      Act(a, Goes(state, w, Finished).(db := marked.value.0));
      assert states[n] == before && acts[n] == a;
      if * {
        r := Trouble();
        return;
      }
      assert Anchors(before, a) <==> marked.value.1;
      MarkedIsAnchored(before, w, proof, git, a.at);
      r := Answer(Reported(ANCHORED, marked.value.1));
      SeesNow(r, n);
    }

    /** The lock holder's own mark is never refused. */
    lemma MarkGoesThrough(w: int, proof: int, git: int)
      requires Inv(h, id, state) && w in state.workers && state.workers[w].Stamped?
      ensures AdvanceToAnchored(state.db, Anchor(state.workers[w].sha, Some(proof), Some(git), state.now, None)).Ok?
    {
      assert WorkerAgrees(state, w);
    }

    /** A mark that goes through leaves the row anchored, or finds it further or halted. */
    lemma MarkedIsAnchored(s: RunState, w: int, proof: int, git: int, at: int)
      requires Inv(h, id, s) && w in s.workers && s.workers[w].Stamped? && s.workers[w].since <= at
      ensures var m := AdvanceToAnchored(s.db, Anchor(s.workers[w].sha, Some(proof), Some(git), at, None));
              m.Ok? ==> m.value.0.row.Some? && Rank(m.value.0.row.value) >= 2
    {
      assert WorkerAgrees(s, w);
      var a := Anchor(s.workers[w].sha, Some(proof), Some(git), at, None);
      var m := AdvanceToAnchored(s.db, a);
      if m.Ok? { AnchorKeepsRows(h, id, s.db, a, m.value.0, m.value.1); }
    }

    /** The agents and the book: a commit, a partial result, or a failure that is reported if it can be. */
    method Produce(w: int) returns (r: Reply<Status>)
      requires Valid() && At(state, w, Working)
      modifies this
      ensures Unmarked(w) && w in state.workers
      ensures r == Answer(COMMITTED) ==> At(state, w, Anchoring)
      ensures r.Answer? ==> r.value in {COMMITTED, PARTIAL} && Has(state, r.value)
      ensures old(faults) <= faults && (!r.Answer? ==> faults > old(faults))
      ensures r == Raised ==> faults >= old(faults) + 2 || Recorded(acts, |old(acts)|, w)
    {
      hide Recorded, Trace, Does, Inv;
      Others(w);
      Reached();
      WorkingStarted(w);
      ghost var n := |acts|;
      if * {
        r := Fail(w);
      } else {
        r := Deliver(w);
      }
      RecordedBefore(acts, n, |old(acts)|, w);
    }

    /** Something raises before there is a result. */
    method Fail(w: int) returns (r: Reply<Status>)
      requires Valid() && At(state, w, Working) && state.db.row.Some?
      modifies this
      ensures Unmarked(w) && w in state.workers
      ensures r == Answer(COMMITTED) ==> At(state, w, Anchoring)
      ensures r.Answer? ==> r.value in {COMMITTED, PARTIAL} && Has(state, r.value)
      ensures old(faults) <= faults && (!r.Answer? ==> faults > old(faults))
      ensures r == Raised ==> faults >= old(faults) + 2 || Recorded(acts, |old(acts)|, w)
    {
      hide Recorded;
      r := Trouble();
      if r.Died? { return; }
      Act(Raise(w), Goes(state, w, Failing));
      ghost var n := |acts|;
      r := Report(w);
      RecordedBefore(acts, n, |old(acts)|, w);
    }

    /** A partial result or a committed book; without an answer the step has failed. */
    method Deliver(w: int) returns (r: Reply<Status>)
      requires Valid() && At(state, w, Working) && state.db.row.Some?
      requires Started(state.db.row.value.status) && Inv(h, id, state)
      modifies this
      ensures Unmarked(w) && w in state.workers
      ensures r == Answer(COMMITTED) ==> At(state, w, Anchoring)
      ensures r.Answer? ==> r.value in {COMMITTED, PARTIAL} && Has(state, r.value)
      ensures old(faults) <= faults && (!r.Answer? ==> faults > old(faults))
      ensures r == Raised ==> faults >= old(faults) + 2 || Recorded(acts, |old(acts)|, w)
    {
      hide Recorded, Trace, Does, Inv;
      var answered: bool := *;
      var cost: real := *;
      if * {
        var why: PartialReason := *;
        r := Flush(w, FlushPartial(w, why, state.now, cost, answered));
      } else {
        var decisions: Decisions, book: int := *, *;
        r := Flush(w, Commit(w, decisions, book, state.now, cost, answered));
      }
      if r == Raised {
        if * { return Died; }
        ghost var n := |acts|;
        r := Report(w);
        RecordedBefore(acts, n, |old(acts)|, w);
      }
    }

    lemma WorkingStarted(w: int)
      requires Inv(h, id, state) && At(state, w, Working)
      ensures state.db.row.Some? && Started(state.db.row.value.status)
    {
      assert WorkerAgrees(state, w);
    }

    function FlushOf(a: Action): Step
      reads this
      requires state.db.row.Some? && (a.Commit? || a.FlushPartial?)
    {
      var row := state.db.row.value;
      if a.Commit? then CommitStep(h, id, row, a)
      else Step(row.(status := PARTIAL, reason := Some(PartialText(a.why)), endedAt := Some(a.at), cost := a.cost),
                map[], None, None)
    }

    /** The flush of a step's outcome in one transaction; without an answer the step has failed. */
    method Flush(w: int, a: Action) returns (r: Reply<Status>)
      requires Valid() && At(state, w, Working) && state.db.row.Some?
      requires (a.Commit? || a.FlushPartial?) && a.w == w && a.at <= state.now
      requires Started(state.db.row.value.status) && Inv(h, id, state)
      modifies this
      ensures Unmarked(w) && w in state.workers
      ensures r == Raised <==> At(state, w, Failing)
      ensures r.Answer? ==> r.value == (if a.Commit? then COMMITTED else PARTIAL) && Has(state, r.value)
      ensures r == Answer(COMMITTED) ==> At(state, w, Anchoring)
      ensures old(faults) <= faults && (!r.Answer? ==> r == Raised && faults > old(faults))
    {
      hide Trace;
      FlushGoesThrough(a);
      var flushed := RunStore.FlushStep(state.db, FlushOf(a));
      var next := if !a.answered then Failing else if a.Commit? then Anchoring else Finished;
      Act(a, Goes(state, w, next).(db := flushed.value));
      if !a.answered {
        faults := faults + 1;
        return Raised;
      }
      return Answer(if a.Commit? then COMMITTED else PARTIAL);
    }

    /** A run that is still started has nothing committed, so no flush of it is refused. */
    lemma FlushGoesThrough(a: Action)
      requires Inv(h, id, state) && state.db.row.Some? && Started(state.db.row.value.status)
      requires a.Commit? || a.FlushPartial?
      ensures RunStore.FlushStep(state.db, FlushOf(a)).Ok?
    {
    }

    /** Try to record a failure, then let it propagate. */
    method Report(w: int) returns (r: Reply<Status>)
      requires Valid() && At(state, w, Failing)
      modifies this
      ensures Unmarked(w) && w in state.workers && !r.Answer? && !At(state, w, Anchoring)
      ensures old(faults) <= faults && (faults == old(faults) ==> r == Raised && Recorded(acts, |old(acts)|, w))
    {
      hide Trace, Inv;
      Others(w);
      Reached();
      HasRow();
      if * {
        r := Trouble();
        return;
      }
      var text: string, cost: real := *, *;
      var row := state.db.row.value.(status := FAILED, reason := Some(text), endedAt := Some(state.now), cost := cost);
      var flushed := RunStore.FlushStep(state.db, Step(row, map[], None, None));
      ghost var n := |acts|;
      Act(RecordFailure(w, text, state.now, cost),
          if flushed.Ok? then Goes(state, w, Finished).(db := flushed.value) else Goes(state, w, Finished));
      assert acts[n].RecordFailure?;
      return Raised;
    }

    lemma HasRow()
      requires Inv(h, id, state)
      ensures state.db.row.Some?
    {
    }

    /** Produce a result and flush it; a committed one is anchored at once. */
    method Work(w: int) returns (r: Reply<Advance>)
      requires Valid() && At(state, w, Working)
      modifies this
      ensures Valid() && old(acts) <= acts && old(states) <= states && w in state.workers
      ensures r.Answer? ==> r.value.Reported? && (r.value.advanced <==> Moved(states, acts, |old(acts)|, w))
      ensures Truthful(r, states, |old(acts)|)
      ensures old(faults) <= faults && (!r.Answer? ==> faults > old(faults) || SawHalted(states, |old(acts)|))
    {
      hide Trace, Inv, Does, FlushStep, Truthful, SawHalted, Anchors;
      var made := Produce(w);
      ghost var n := |acts|;
      if made == Answer(COMMITTED) {
        r := AnchorRun(w);
        TruthfulLater(r, states, n, states, |old(acts)|);
        if SawHalted(states, n) { SawHaltedLater(states, n, states, |old(acts)|); }
      } else {
        r := match made case Answer(s) => Answer(Reported(s, false)) case Raised => Raised case Died => Died;
        SeesNow(r, |old(acts)|);
      }
    }

    /** One step of the pipeline: a finished run short-circuits to its anchor, any other is worked on. */
    method RunStep(w: int) returns (r: Reply<Advance>)
      requires Valid() && At(state, w, InStep)
      modifies this
      ensures Valid() && old(acts) <= acts && old(states) <= states && w in state.workers
      ensures r.Answer? ==> r.value.Reported? && (r.value.advanced <==> Moved(states, acts, |old(acts)|, w))
      ensures Truthful(r, states, |old(acts)|)
      ensures old(faults) <= faults && (!r.Answer? ==> faults > old(faults) || SawHalted(states, |old(acts)|))
    {
      hide Trace, Inv, Does, FlushStep, Truthful, SawHalted, Anchors;
      Others(w);
      Reached();
      ReadsAgain(w);
      Act(ReadAgain(w), Reread(w));
      ghost var n := |acts|;
      if At(state, w, Working) {
        r := Work(w);
      } else if At(state, w, Anchoring) {
        r := AnchorRun(w);
      } else {
        r := Answer(Reported(state.db.row.value.status, false));
        SeesNow(r, n);
      }
      TruthfulLater(r, states, n, states, |old(acts)|);
      if SawHalted(states, n) { SawHaltedLater(states, n, states, |old(acts)|); }
    }

    /** A run committed or further is not worked on again. */
    function Reread(w: int): RunState
      reads this
      requires state.db.row.Some?
    {
      var status := state.db.row.value.status;
      if Advanced(status) then Goes(state, w, if status == COMMITTED then Anchoring else Finished)
      else Goes(state, w, Working)
    }

    lemma ReadsAgain(w: int)
      requires Inv(h, id, state) && At(state, w, InStep)
      ensures state.db.row.Some? && Does(h, id, state, ReadAgain(w), Reread(w))
    {
      assert WorkerAgrees(state, w);
    }

    /** One delivery of the job. A run another worker is advancing is skipped; the lock goes with the call
        or with the process. */
    method AdvanceRun(w: int) returns (r: Reply<Advance>)
      requires Valid() && w !in state.workers
      modifies this
      ensures Valid() && old(acts) <= acts && old(states) <= states && w !in state.workers
      ensures r.Answer? && r.value.Reported? ==> (r.value.advanced <==> Moved(states, acts, |old(acts)|, w))
      ensures Truthful(r, states, |old(acts)|)
      ensures old(faults) <= faults && (!r.Answer? ==> faults > old(faults) || SawHalted(states, |old(acts)|))
      ensures r == Answer(Skipped) ==>
                && !Moved(states, acts, |old(acts)|, w)
                && exists i :: |old(acts)| <= i < |states| && states[i].advance.Some?
    {
      hide Trace, Inv, Does, SawHalted;
      Others(w);
      Reached();
      HasRow();
      Present();
      if state.advance.Some? { return Answer(Skipped); }
      Enters(w);
      Act(Enter(w), Goes(state, w, Entered).(advance := Some(w)));
      ghost var n := |acts|;
      r := Locked(w);
      ghost var was := states;
      Unlock(w, |old(acts)|);
      TruthfulLater(r, was, n, states, |old(acts)|);
      if SawHalted(was, n) { SawHaltedLater(was, n, states, |old(acts)|); }
    }

    method Unlock(w: int, ghost n: nat)
      requires Valid() && w in state.workers
      modifies this`state, this`states, this`acts
      ensures Unmarked(w) && w !in state.workers && (Moved(states, acts, n, w) <==> Moved(old(states), old(acts), n, w))
    {
      ghost var was, did := states, acts;
      assert |acts| < |states|;
      hide Trace, Inv, Does, Moved, Left;
      Others(w);
      Reached();
      HasRow();
      Leaves(w);
      Act(Leave(w), Left(w));
      MovedStays(was, did, states, acts, n, w);
    }

    lemma Enters(w: int)
      requires state.db.row.Some? && w !in state.workers && state.advance.None?
      ensures Does(h, id, state, Enter(w), Goes(state, w, Entered).(advance := Some(w)))
    {
    }

    function Left(w: int): RunState
      reads this
    {
      state.(workers := state.workers - {w}, advance := if state.advance == Some(w) then None else state.advance,
             execute := if state.execute == Some(w) then None else state.execute)
    }

    lemma Leaves(w: int)
      requires state.db.row.Some? && w in state.workers
      ensures Does(h, id, state, Leave(w), Left(w))
    {
    }

    /** Under the lock: where the run stands decides what is done. */
    method Locked(w: int) returns (r: Reply<Advance>)
      requires Valid() && At(state, w, Entered)
      modifies this
      ensures Valid() && old(acts) <= acts && old(states) <= states && w in state.workers
      ensures r.Answer? ==> r.value.Reported? && (r.value.advanced <==> Moved(states, acts, |old(acts)|, w))
      ensures Truthful(r, states, |old(acts)|)
      ensures old(faults) <= faults && (!r.Answer? ==> faults > old(faults) || SawHalted(states, |old(acts)|))
    {
      hide Trace, Inv, SawHalted;
      Others(w);
      Reached();
      HasRow();
      if * {
        r := Trouble();
        return;
      }
      var status := state.db.row.value.status;
      if Started(status) {
        Act(ReadStarted(w), Goes(state, w, InStep));
        ghost var n := |acts|;
        r := RunStep(w);
        TruthfulLater(r, states, n, states, |old(acts)|);
        if SawHalted(states, n) { SawHaltedLater(states, n, states, |old(acts)|); }
      } else if status == COMMITTED {
        Act(ReadCommitted(w), Goes(state, w, Anchoring));
        ghost var n := |acts|;
        r := AnchorRun(w);
        TruthfulLater(r, states, n, states, |old(acts)|);
        if SawHalted(states, n) { SawHaltedLater(states, n, states, |old(acts)|); }
      } else {
        r := Answer(Reported(status, false));
        SeesNow(r, |old(acts)|);
      }
    }
  }

  /** Of all the calls ever made for a run, at most one reports that it anchored it. */
  lemma OneCallReports(run: Run, n: nat, v: int, m: nat, w: int)
    requires run.Valid() && n <= m <= |run.acts|
    requires exists i :: n <= i < m && MarksFor(run.acts[i], v) && Anchors(run.states[i], run.acts[i])
    ensures !Moved(run.states, run.acts, m, w)
  {
    var i :| n <= i < m && MarksFor(run.acts[i], v) && Anchors(run.states[i], run.acts[i]);
    forall j | m <= j < |run.acts| && MarksFor(run.acts[j], w) ensures !Anchors(run.states[j], run.acts[j]) {
      MovesHappenOnce(run.h, run.id, run.states, run.acts, i, j);
    }
  }
}
