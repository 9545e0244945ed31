/** The writers of a run's rows. Each works inside one transaction: it either leaves the state its
    specification names or nothing at all. All tables below are keyed by the run first, so a run's rows are
    held together. */
module RunStore {
  import opened Wrappers
  import opened Triggers

  type RunId = int

  datatype Mode = LIVE | BACKTEST | ABLATION

  datatype Status =
    PENDING | INGEST_OK | FEATURES_OK | GATED | AGENTS_OK | COMMITTED | ANCHORED | EXECUTED | SCORED | FAILED | PARTIAL

  datatype RunKey = RunKey(mode: Mode, asOf: int, config: int)

  datatype RunRow = RunRow(
    key: RunKey, status: Status, reason: Option<string>, startedAt: int, endedAt: Option<int>, cost: real)

  /** Decisions by security and horizon; payloads are abstract. */
  datatype DecisionKey = DecisionKey(security: int, horizon: int)

  type Decisions = map<DecisionKey, int>

  type Sha = int

  datatype Commitment = Commitment(sha: Sha, at: int)

  datatype Anchor = Anchor(sha: Sha, proof: Option<int>, git: Option<int>, at: int, verifiedAt: Option<int>)

  datatype HaltEvent = HaltEvent(trigger: Trigger, at: int, detail: int)

  /** Every row of one run. */
  datatype RunDb = RunDb(
    row: Option<RunRow>, decisions: Decisions, snapshot: Option<int>, commitment: Option<Commitment>,
    anchor: Option<Anchor>, events: set<HaltEvent>, requests: map<Trigger, int>, orders: set<int>)

  const EMPTY := RunDb(None, map[], None, None, None, {}, map[], {})

  datatype StoreError =
    NO_RUN | COMMITTED_OTHERWISE | ANCHOR_MISMATCH | ANCHOR_INCOMPLETE | IMMUTABLE_CONFLICT | RUN_HALTED
    | RESET_REFUSED

  const HALT_REASON_PREFIX := "kill_switch:"

  function TriggerText(t: Trigger): string {
    match t
    case DAILY_LOSS => "daily_loss"
    case STALE_FEED => "stale_feed"
    case MANUAL => "manual"
  }

  function HaltReason(t: Trigger): string { HALT_REASON_PREFIX + TriggerText(t) }

  predicate HaltText(reason: Option<string>) { reason.Some? && HALT_REASON_PREFIX <= reason.value }

  predicate Halted(r: RunRow) { r.status == PARTIAL && HaltText(r.reason) }

  predicate Advanced(s: Status) { s in {COMMITTED, ANCHORED, EXECUTED, SCORED} }

  predicate Regressive(s: Status) { s in {PENDING, PARTIAL, FAILED} }

  predicate Haltable(s: Status) { s in {COMMITTED, ANCHORED, EXECUTED} }

  predicate Started(s: Status) { s in {PENDING, INGEST_OK, FEATURES_OK, GATED, AGENTS_OK} }

  predicate Active(s: Status) { Started(s) || Advanced(s) }

  // ----- what each writer does, as functions on a run's rows

  function UpsertRun(d: RunDb, r: RunRow): RunDb {
    if d.row.None? then d.(row := Some(r))
    else
      var c := d.row.value;
      if (Advanced(c.status) && Regressive(r.status)) || Halted(c) then d
      else d.(row := Some(c.(status := r.status, endedAt := r.endedAt, reason := r.reason, cost := r.cost)))
  }

  /** Insert-only tables keep what they have. */
  function InsertNew<K, V>(have: map<K, V>, more: map<K, V>): map<K, V> { more + have }

  datatype Step = Step(row: RunRow, decisions: Decisions, snapshot: Option<int>, commitment: Option<Commitment>)

  function FlushStep(d: RunDb, s: Step): Result<RunDb, StoreError> {
    var e := UpsertRun(d, s.row)
      .(decisions := InsertNew(d.decisions, s.decisions),
        snapshot := if d.snapshot.Some? then d.snapshot else s.snapshot);
    if s.commitment.None? then Ok(e)
    else if d.commitment.None? then Ok(e.(commitment := s.commitment))
    else if d.commitment.value.sha != s.commitment.value.sha then Err(COMMITTED_OTHERWISE)
    else Ok(e)
  }

  function Coalesce<T>(a: Option<T>, b: Option<T>): Option<T> { if a.Some? then a else b }

  /** The foreign key lets an anchor name only the run's own commitment. */
  function UpsertAnchor(d: RunDb, a: Anchor): Result<RunDb, StoreError> {
    if d.anchor.Some? then
      var c := d.anchor.value;
      if c.sha != a.sha then Err(ANCHOR_MISMATCH)
      else Ok(d.(anchor := Some(Anchor(c.sha, Coalesce(a.proof, c.proof), Coalesce(a.git, c.git), c.at,
                                       Coalesce(a.verifiedAt, c.verifiedAt)))))
    else if d.commitment.None? || d.commitment.value.sha != a.sha then Err(NO_RUN)
    else Ok(d.(anchor := Some(a)))
  }

  function AdvanceToAnchored(d: RunDb, a: Anchor): Result<(RunDb, bool), StoreError> {
    if a.proof.None? || a.git.None? then Err(ANCHOR_INCOMPLETE)
    else
      match UpsertAnchor(d, a)
      case Err(e) => Err(e)
      case Ok(e) =>
        if e.row.Some? && e.row.value.status == COMMITTED
        then Ok((e.(row := Some(e.row.value.(status := ANCHORED))), true))
        else Ok((e, false))
  }

  function AdvanceToExecuted(d: RunDb, endedAt: int): (RunDb, bool) {
    if d.row.Some? && d.row.value.status == ANCHORED
    then (d.(row := Some(d.row.value.(status := EXECUTED, endedAt := Some(endedAt), reason := None))), true)
    else (d, false)
  }

  function RecordHalt(d: RunDb, e: HaltEvent): Result<(RunDb, bool), StoreError> {
    if d.row.None? then Err(NO_RUN)
    else if e.trigger in d.requests && d.requests[e.trigger] != e.at then Err(IMMUTABLE_CONFLICT)
    else
      var f := d.(events := d.events + {e}, requests := d.requests[e.trigger := e.at]);
      if Haltable(d.row.value.status)
      then Ok((f.(row := Some(d.row.value.(status := PARTIAL, reason := Some(HaltReason(e.trigger)),
            endedAt := Some(e.at)))), true))
      else Ok((f, false))
  }

  function ResetRun(d: RunDb): Result<RunDb, StoreError> {
    if d.row.None? || d.commitment.Some? || d.anchor.Some? || d.orders != {} || d.events != {} then Err(RESET_REFUSED)
    else Ok(d.(decisions := map[], snapshot := None,
               row := Some(d.row.value.(status := PENDING, reason := None, endedAt := None))))
  }

  // ----- properties of the writers

  /** A presented row is taken by every run that is not halted, except as a step back from an advanced status; the
      key and the other tables stay, and what is not taken leaves no trace. */
  lemma RowIsTaken(d: RunDb, r: RunRow)
    requires d.row.Some?
    ensures var c, e := d.row.value, UpsertRun(d, r).row;
            && UpsertRun(d, r) == d.(row := e) && e.Some? && e.value.key == c.key
            && (if Halted(c) || (Advanced(c.status) && Regressive(r.status)) then e.value == c
                else e.value.status == r.status && e.value.reason == r.reason && e.value.endedAt == r.endedAt
                     && e.value.cost == r.cost)
  {
  }

  /** The two moves are made exactly from the status before, and leave the status after. */
  lemma MovesAreMade(d: RunDb, a: Anchor, at: int)
    requires d.row.Some?
    ensures var (e, moved) := AdvanceToExecuted(d, at);
            && (moved <==> d.row.value.status == ANCHORED) && e == d.(row := e.row) && (!moved ==> e == d)
            && (moved ==> e.row.Some? && e.row.value.status == EXECUTED && e.row.value.endedAt == Some(at))
    ensures AdvanceToAnchored(d, a).Ok? ==>
              var (e, moved) := AdvanceToAnchored(d, a).value;
              && (moved <==> d.row.value.status == COMMITTED) && e == d.(row := e.row, anchor := e.anchor)
              && (if moved then e.row == Some(d.row.value.(status := ANCHORED)) else e.row == d.row)
              && e.anchor.Some? && e.anchor.value.sha == a.sha && e.anchor.value.proof.Some? && e.anchor.value.git.Some?
    ensures AdvanceToAnchored(d, a).Ok? <==>
              && a.proof.Some? && a.git.Some?
              && (if d.anchor.Some? then d.anchor.value.sha == a.sha
                  else d.commitment.Some? && d.commitment.value.sha == a.sha)
  {
  }

  /** A halt is refused exactly when the same trigger was recorded for another time, and then nothing is
      stored; otherwise it moves exactly the runs that may be halted. */
  lemma HaltSucceedsIff(d: RunDb, e: HaltEvent)
    requires d.row.Some?
    ensures RecordHalt(d, e).Ok? <==> (e.trigger in d.requests ==> d.requests[e.trigger] == e.at)
    ensures RecordHalt(d, e).Ok? ==>
              var (f, moved) := RecordHalt(d, e).value;
              && (moved <==> Haltable(d.row.value.status))
              && (if moved then Halted(f.row.value) else f.row == d.row)
              && e in f.events && e.trigger in f.requests && d.events <= f.events
              && f == d.(row := f.row, events := f.events, requests := f.requests)
  {
    var text := HaltReason(e.trigger);
    assert text[..|HALT_REASON_PREFIX|] == HALT_REASON_PREFIX;
  }

  /** The failing family, concretely: two manual halts of one run, the second at another time. */
  lemma SecondManualHaltFails(d: RunDb, e: HaltEvent, f: HaltEvent)
    requires d.row.Some? && d.requests == map[] && e.trigger == f.trigger && e.at != f.at
    ensures RecordHalt(d, e).Ok? && RecordHalt(RecordHalt(d, e).value.0, f) == Err(IMMUTABLE_CONFLICT)
  {
  }

  /** Nothing overwrites the row of a run a halt moved. */
  lemma HaltedIsAbsorbing(d: RunDb)
    requires d.row.Some? && Halted(d.row.value)
    ensures forall r :: UpsertRun(d, r).row == d.row
    ensures forall s | FlushStep(d, s).Ok? :: FlushStep(d, s).value.row == d.row
    ensures forall a | UpsertAnchor(d, a).Ok? :: UpsertAnchor(d, a).value.row == d.row
    ensures forall a | AdvanceToAnchored(d, a).Ok? ::
              AdvanceToAnchored(d, a).value.0.row == d.row && !AdvanceToAnchored(d, a).value.1
    ensures forall at :: AdvanceToExecuted(d, at) == (d, false)
    ensures forall e | RecordHalt(d, e).Ok? :: RecordHalt(d, e).value.0.row == d.row && !RecordHalt(d, e).value.1
    ensures d.commitment.Some? || d.events != {} ==> ResetRun(d).Err?
  {
  }

  /** Delivering a flush again changes nothing at all, the run row included. */
  lemma FlushReplays(d: RunDb, s: Step)
    requires FlushStep(d, s).Ok?
    ensures FlushStep(FlushStep(d, s).value, s) == FlushStep(d, s)
  {
    var e := FlushStep(d, s).value;
    assert InsertNew(e.decisions, s.decisions) == e.decisions;
    assert UpsertRun(e, s.row) == e;
  }

  /** Nor does delivering a move again, and only the first delivery reports that the run moved. */
  lemma MovesReplay(d: RunDb, a: Anchor, at: int, x: HaltEvent)
    ensures AdvanceToAnchored(d, a).Ok? ==>
              var e := AdvanceToAnchored(d, a).value.0; AdvanceToAnchored(e, a) == Ok((e, false))
    ensures var e := AdvanceToExecuted(d, at).0; AdvanceToExecuted(e, at) == (e, false)
    ensures RecordHalt(d, x).Ok? ==> var e := RecordHalt(d, x).value.0; RecordHalt(e, x) == Ok((e, false))
    ensures ResetRun(d).Ok? ==> ResetRun(ResetRun(d).value) == ResetRun(d)
  {
    if RecordHalt(d, x).Ok? {
      var e := RecordHalt(d, x).value.0;
      assert e.events + {x} == e.events && e.requests[x.trigger := x.at] == e.requests;
    }
  }

  // ----- insert-only tables

  const CHUNK: nat := 1000

  /** A free key takes the first row presented for it; a taken one stays as it is. */
  function Presented<K, V>(table: map<K, V>, rows: seq<(K, V)>): map<K, V> {
    if rows == [] then table
    else
      var t, last := Presented(table, rows[..|rows| - 1]), rows[|rows| - 1];
      if last.0 in t then t else t[last.0 := last.1]
  }

  /** Every presented row agrees with the table and with the other presented rows of its key. */
  ghost predicate Agrees<K(!new), V>(table: map<K, V>, rows: seq<(K, V)>) {
    && (forall i | 0 <= i < |rows| && rows[i].0 in table :: table[rows[i].0] == rows[i].1)
    && (forall i, j | 0 <= i < j < |rows| && rows[i].0 == rows[j].0 :: rows[i].1 == rows[j].1)
  }

  /** What is stored under each presented key is what was presented. */
  ghost predicate ReadBack<K(!new), V>(after: map<K, V>, rows: seq<(K, V)>) {
    forall i | 0 <= i < |rows| :: rows[i].0 in after && after[rows[i].0] == rows[i].1
  }

  lemma {:induction false} PresentedKeeps<K(!new), V>(table: map<K, V>, rows: seq<(K, V)>)
    ensures forall k | k in table :: k in Presented(table, rows) && Presented(table, rows)[k] == table[k]
    ensures forall i | 0 <= i < |rows| :: rows[i].0 in Presented(table, rows)
  {
    if rows != [] {
      var init := rows[..|rows| - 1];
      PresentedKeeps(table, init);
      assert forall i | 0 <= i < |init| :: rows[i] == init[i];
    }
  }

  lemma {:induction false} PresentedSplits<K, V>(table: map<K, V>, a: seq<(K, V)>, b: seq<(K, V)>)
    ensures Presented(table, a + b) == Presented(Presented(table, a), b)
  {
    if b == [] {
      assert a + b == a;
    } else {
      assert (a + b)[..|a + b| - 1] == a + b[..|b| - 1];
      PresentedSplits(table, a, b[..|b| - 1]);
    }
  }

  /** Reading back succeeds exactly on rows that contradict neither the table nor each other. */
  lemma {:induction false} ReadBackIffAgrees<K(!new), V>(table: map<K, V>, rows: seq<(K, V)>)
    ensures ReadBack(Presented(table, rows), rows) <==> Agrees(table, rows)
  {
    PresentedKeeps(table, rows);
    if Agrees(table, rows) {
      forall i | 0 <= i < |rows| ensures Presented(table, rows)[rows[i].0] == rows[i].1 {
        AgreedValue(table, rows, i);
      }
    }
  }

  lemma {:induction false} AgreedValue<K(!new), V>(table: map<K, V>, rows: seq<(K, V)>, i: nat)
    requires Agrees(table, rows) && i < |rows|
    ensures rows[i].0 in Presented(table, rows) && Presented(table, rows)[rows[i].0] == rows[i].1
  {
    var init := rows[..|rows| - 1];
    PresentedKeeps(table, init);
    if i < |rows| - 1 {
      AgreedValue(table, init, i);
    } else if rows[i].0 in Presented(table, init) {
      PresentedFrom(table, init, rows[i].0);
      if j :| 0 <= j < |init| && init[j].0 == rows[i].0 && init[j].1 == Presented(table, init)[rows[i].0] {
        assert rows[j] == init[j];
      }
    }
  }

  lemma {:induction false} PresentedFrom<K(!new), V>(table: map<K, V>, rows: seq<(K, V)>, k: K)
    requires k in Presented(table, rows)
    ensures (k in table && table[k] == Presented(table, rows)[k])
            || exists j :: 0 <= j < |rows| && rows[j].0 == k && rows[j].1 == Presented(table, rows)[k]
  {
    if rows != [] {
      var init, last := rows[..|rows| - 1], rows[|rows| - 1];
      PresentedKeeps(table, init);
      if k in Presented(table, init) {
        PresentedFrom(table, init, k);
        if j :| 0 <= j < |init| && init[j].0 == k && init[j].1 == Presented(table, init)[k] {
          assert rows[j] == init[j];
        }
      } else {
        assert rows[|rows| - 1].0 == k;
      }
    }
  }

  method InsertChunk<K(!new, ==), V>(table: map<K, V>, rows: seq<(K, V)>) returns (after: map<K, V>, inserted: nat)
    ensures after == Presented(table, rows) && |after| == |table| + inserted
  {
    after, inserted := table, 0;
    for i := 0 to |rows|
      invariant after == Presented(table, rows[..i]) && |after| == |table| + inserted
    {
      assert rows[..i + 1][..i] == rows[..i];
      if rows[i].0 !in after {
        assert after[rows[i].0 := rows[i].1].Keys == after.Keys + {rows[i].0};
        after := after[rows[i].0 := rows[i].1];
        inserted := inserted + 1;
      }
    }
    assert rows[..|rows|] == rows;
  }

  /** The rows of a chunk as they read back. */
  method Compare<K(!new, ==), V(==)>(after: map<K, V>, rows: seq<(K, V)>) returns (conflict: Option<nat>)
    requires forall i | 0 <= i < |rows| :: rows[i].0 in after
    ensures conflict.None? <==> ReadBack(after, rows)
    ensures conflict.Some? ==> conflict.value < |rows| && after[rows[conflict.value].0] != rows[conflict.value].1
  {
    for i := 0 to |rows|
      invariant forall j | 0 <= j < i :: after[rows[j].0] == rows[j].1
    {
      if after[rows[i].0] != rows[i].1 { return Some(i); }
    }
    return None;
  }

  /** Insert-only writer: an exact replay changes nothing, a contradicting one fails. Rows go in chunks,
      and every presented row is read back and compared. */
  method InsertImmutable<K(!new, ==), V(==)>(table: map<K, V>, rows: seq<(K, V)>)
    returns (r: Result<(map<K, V>, nat), StoreError>)
    ensures r.Ok? <==> Agrees(table, rows)
    ensures r.Ok? ==> r.value.0 == Presented(table, rows) && |r.value.0| == |table| + r.value.1
    ensures r.Err? ==> r.error == IMMUTABLE_CONFLICT
  {
    hide Presented, ReadBack, Agrees;
    var now, inserted := table, 0;
    var i := 0;
    ReadBackIffAgrees(table, rows);
    NothingPresented(table);
    while i < |rows|
      invariant 0 <= i <= |rows|
      invariant now == Presented(table, rows[..i]) && |now| == |table| + inserted
      invariant ReadBack(now, rows[..i])
    {
      var end := if i + CHUNK < |rows| then i + CHUNK else |rows|;
      var chunk := rows[i..end];
      var next, n := InsertChunk(now, chunk);
      assert rows[..end] == rows[..i] + chunk;
      PresentedSplits(table, rows[..i], chunk);
      PresentedKeeps(now, chunk);
      var conflict := Compare(next, chunk);
      if conflict.Some? {
        assert chunk[conflict.value] == rows[i + conflict.value];
        ChunkConflict(table, rows, end, i + conflict.value);
        return Err(IMMUTABLE_CONFLICT);
      }
      ReadBackBoth(now, next, rows[..i], chunk);
      now, inserted, i := next, inserted + n, end;
    }
    assert rows[..|rows|] == rows;
    return Ok((now, inserted));
  }

  lemma NothingPresented<K(!new), V>(table: map<K, V>)
    ensures Presented(table, []) == table && ReadBack(table, [])
  {
  }

  lemma ReadBackBoth<K(!new), V>(now: map<K, V>, next: map<K, V>, a: seq<(K, V)>, b: seq<(K, V)>)
    requires ReadBack(now, a) && ReadBack(next, b) && forall k | k in now :: k in next && next[k] == now[k]
    ensures ReadBack(next, a + b)
  {
    forall i | 0 <= i < |a + b| ensures (a + b)[i].0 in next && next[(a + b)[i].0] == (a + b)[i].1 {
      if i < |a| { assert (a + b)[i] == a[i]; } else { assert (a + b)[i] == b[i - |a|]; }
    }
  }

  /** A row that reads back differently in a prefix reads back differently in the whole. */
  lemma ChunkConflict<K(!new), V>(table: map<K, V>, rows: seq<(K, V)>, end: nat, i: nat)
    requires i < end <= |rows|
    requires rows[i].0 in Presented(table, rows[..end]) && Presented(table, rows[..end])[rows[i].0] != rows[i].1
    ensures !ReadBack(Presented(table, rows), rows)
  {
    assert rows == rows[..end] + rows[end..];
    PresentedSplits(table, rows[..end], rows[end..]);
    PresentedKeeps(Presented(table, rows[..end]), rows[end..]);
  }

  lemma OneRequest<K(!new), V>(table: map<K, V>, k: K, v: V)
    ensures Agrees(table, [(k, v)]) <==> (k in table ==> table[k] == v)
    ensures Presented(table, [(k, v)]) == if k in table then table else table[k := v]
  {
    var rows := [(k, v)];
    assert rows[..0] == [];
    assert rows[0] == (k, v);
    assert rows[0].0 in table ==> (Agrees(table, rows) ==> table[k] == v);
  }
}
