/** The two writers that are more than one conditional statement: recording a halt, and claiming a run. */
module StoreWriter {
  import opened Wrappers
  import opened RunStore
  import opened RunProtocol

  /** Newest-first answers of a claim: the active run of the key that started last. */
  predicate ActiveRun(runs: map<RunId, RunDb>, key: RunKey, id: RunId) {
    id in runs && runs[id].row.Some? && runs[id].row.value.key == key && Active(runs[id].row.value.status)
  }

  predicate HaltedRun(runs: map<RunId, RunDb>, key: RunKey, id: RunId) {
    id in runs && runs[id].row.Some? && runs[id].row.value.key == key && HaltText(runs[id].row.value.reason)
  }

  /** The newest active run of the key; a new one only when none is active, and none was halted unless a
      fresh start was asked for; or a refusal. */
  ghost predicate Claimed(
    before: map<RunId, RunDb>, after: map<RunId, RunDb>, key: RunKey, newId: RunId, startedAt: int, fresh_: bool,
    r: Result<(RunId, bool), StoreError>)
  {
    && (r.Ok? && !r.value.1 ==>
          && after == before && ActiveRun(before, key, r.value.0)
          && forall j | ActiveRun(before, key, j) ::
               before[j].row.value.startedAt <= before[r.value.0].row.value.startedAt)
    && (r.Err? ==>
          && r.error == RUN_HALTED && after == before && !fresh_
          && (forall j :: !ActiveRun(before, key, j)) && exists j :: HaltedRun(before, key, j))
    && (r.Ok? && r.value.1 ==>
          && r.value.0 == newId && (forall j :: !ActiveRun(before, key, j))
          && (fresh_ || forall j :: !HaltedRun(before, key, j))
          && after == if newId in before then before else before[newId := Created(key, startedAt).db])
  }

  /** What a scan that has seen these runs knows: the newest active one, and whether any was halted. */
  ghost predicate SeenIn(
    runs: map<RunId, RunDb>, key: RunKey, seen: set<RunId>, newest: Option<RunId>, anyHalted: bool)
  {
    && (newest.None? ==> forall j | j in seen :: !ActiveRun(runs, key, j))
    && (newest.Some? ==>
          && ActiveRun(runs, key, newest.value)
          && forall j | j in seen && ActiveRun(runs, key, j) ::
               runs[j].row.value.startedAt <= runs[newest.value].row.value.startedAt)
    && (anyHalted <==> exists j :: j in seen && HaltedRun(runs, key, j))
  }

  predicate Newer(runs: map<RunId, RunDb>, key: RunKey, j: RunId, newest: Option<RunId>)
    requires newest.Some? ==> ActiveRun(runs, key, newest.value)
  {
    && ActiveRun(runs, key, j)
    && (newest.None? || runs[newest.value].row.value.startedAt < runs[j].row.value.startedAt)
  }

  lemma SeeOne(
    runs: map<RunId, RunDb>, key: RunKey, seen: set<RunId>, newest: Option<RunId>, anyHalted: bool, j: RunId)
    requires SeenIn(runs, key, seen, newest, anyHalted)
    ensures SeenIn(runs, key, seen + {j}, if Newer(runs, key, j, newest) then Some(j) else newest,
                   anyHalted || HaltedRun(runs, key, j))
  {
  }

  /** The store as the rows of a fleet of runs. */
  ghost predicate Holds(runs: map<RunId, RunDb>, f: Fleet) {
    runs.Keys == f.Keys && forall id | id in f :: runs[id] == f[id].db
  }

  /** A claim is a claim of the protocol, or changes nothing. */
  lemma ClaimIsProtocol(
    before: map<RunId, RunDb>, after: map<RunId, RunDb>, key: RunKey, newId: RunId, startedAt: int, fresh_: bool,
    r: Result<(RunId, bool), StoreError>, f: Fleet)
    returns (g: Fleet)
    requires Claimed(before, after, key, newId, startedAt, fresh_, r) && Holds(before, f)
    ensures Holds(after, g) && (g == f || Claims(f, key, newId, startedAt, g))
    ensures r.Ok? && newId !in f && r.value.1 ==> Claims(f, key, newId, startedAt, g)
  {
    assert forall j :: HasActive(f, key, j) <==> ActiveRun(before, key, j);
    if r.Ok? && r.value.1 && newId !in f {
      g := f[newId := Created(key, startedAt)];
    } else {
      g := f;
    }
  }

  class Store {
    var runs: map<RunId, RunDb>

    constructor ()
      ensures runs == map[]
    {
      runs := map[];
    }

    function Of(id: RunId): RunDb
      reads this
    {
      if id in runs then runs[id] else EMPTY
    }

    twostate predicate OnlyChanged(id: RunId)
      reads this
    {
      forall j :: j != id ==> Of(j) == old(Of(j))
    }

    /** The event, its reference request and the move commit together or not at all. */
    method RecordHalt(id: RunId, e: HaltEvent) returns (r: Result<bool, StoreError>)
      modifies this
      ensures OnlyChanged(id)
      ensures match RunStore.RecordHalt(old(Of(id)), e)
              case Ok((d, moved)) => r == Ok(moved) && Of(id) == d
              case Err(x) => r == Err(x) && runs == old(runs)
    {
      var tx := Of(id);
      if tx.row.None? { return Err(NO_RUN); }
      tx := tx.(events := tx.events + {e});
      var inserted := InsertImmutable(tx.requests, [(e.trigger, e.at)]);
      OneRequest(tx.requests, e.trigger, e.at);
      if inserted.Err? { return Err(inserted.error); }
      tx := tx.(requests := inserted.value.0);
      var moves := Haltable(tx.row.value.status);
      if moves {
        var halted := tx.row.value.(status := PARTIAL, reason := Some(HaltReason(e.trigger)), endedAt := Some(e.at));
        tx := tx.(row := Some(halted));
      }
      runs := runs[id := tx];
      return Ok(moves);
    }

    /** One run per key however many workers ask: the newest active run, else a new pending one unless the
        key was halted and the caller did not ask for a fresh start. */
    method ClaimRun(key: RunKey, newId: RunId, startedAt: int, fresh_: bool)
      returns (r: Result<(RunId, bool), StoreError>)
      modifies this
      ensures Claimed(old(runs), runs, key, newId, startedAt, fresh_, r)
    {
      var newest: Option<RunId> := None;
      var anyHalted := false;
      var rest := runs.Keys;
      while rest != {}
        invariant rest <= runs.Keys && runs == old(runs)
        invariant SeenIn(runs, key, runs.Keys - rest, newest, anyHalted)
        decreases |rest|
      {
        var j := Pick(rest);
        SeeOne(runs, key, runs.Keys - rest, newest, anyHalted, j);
        if Newer(runs, key, j, newest) { newest := Some(j); }
        anyHalted := anyHalted || HaltedRun(runs, key, j);
        ghost var before := rest;
        rest := rest - {j};
        assert runs.Keys - rest == (runs.Keys - before) + {j};
      }
      assert runs.Keys - rest == runs.Keys;
      if newest.Some? { return Ok((newest.value, false)); }
      if !fresh_ && anyHalted { return Err(RUN_HALTED); }
      if newId !in runs {
        runs := runs[newId := Created(key, startedAt).db];
      }
      return Ok((newId, true));
    }
  }
}
