/** What a run must show before it is scored, checked in order on one read of its rows. */
module Scorable {
  import opened Wrappers
  import opened RunStore
  import opened RunProtocol

  datatype Completeness = COMPLETE | HALTED

  datatype Refusal =
    RUN_MISSING | NO_COMMITMENT | NOT_SCORABLE_STATUS | HALT_EVIDENCE_MISSING | MATERIAL_INCOMPLETE
    | COMMITMENT_MISMATCH | ANCHOR_MISSING | ANCHOR_INVALID | OTS_NOT_CONFIRMED | HEADER_VERIFICATION_FAILED
    | GIT_UNREACHABLE | ANCHOR_TIMING | EVIDENCE_UNAVAILABLE

  /** What the proof, the block headers and the git remote say; None is an answer that could not be had. */
  datatype Outside = Outside(
    binds: bool, confirmed: bool, headersAgree: Option<bool>, reachable: Option<bool>,
    now: int, blockTime: int, earliest: Option<int>)

  datatype Ticket = Ticket(completeness: Completeness, sha: Sha, git: int)

  predicate CompleteStatus(mode: Mode, s: Status) {
    if mode == LIVE then s in {EXECUTED, SCORED} else s in {ANCHORED, SCORED}
  }

  function Classify(d: RunDb): Result<Completeness, Refusal>
    requires d.row.Some?
  {
    var r := d.row.value;
    if CompleteStatus(r.key.mode, r.status) then Ok(COMPLETE)
    else if Halted(r) then if d.events == {} then Err(HALT_EVIDENCE_MISSING) else Ok(HALTED)
    else Err(NOT_SCORABLE_STATUS)
  }

  /** The checks that look outside the database, in order. */
  function External(d: RunDb, c: Completeness, sha: Sha, o: Outside): Result<Ticket, Refusal>
    requires d.row.Some? && d.commitment.Some? && d.anchor.Some? && d.anchor.value.git.Some?
  {
    if !o.binds then Err(ANCHOR_INVALID)
    else if !o.confirmed then Err(OTS_NOT_CONFIRMED)
    else if o.headersAgree.None? then Err(EVIDENCE_UNAVAILABLE)
    else if !o.headersAgree.value then Err(HEADER_VERIFICATION_FAILED)
    else if o.reachable.None? then Err(EVIDENCE_UNAVAILABLE)
    else if !o.reachable.value then Err(GIT_UNREACHABLE)
    else if !(d.commitment.value.at <= d.anchor.value.at <= o.now) then Err(ANCHOR_TIMING)
    else if o.blockTime > o.now then Err(ANCHOR_TIMING)
    else if d.row.value.key.mode == LIVE && (o.earliest.None? || o.blockTime >= o.earliest.value) then
      Err(ANCHOR_TIMING)
    else Ok(Ticket(c, sha, d.anchor.value.git.value))
  }

  /** A ticket, or the first check that fails. */
  function Admit(h: Hash, id: RunId, d: RunDb, o: Outside): Result<Ticket, Refusal> {
    if d.row.None? then Err(RUN_MISSING)
    else if d.commitment.None? then Err(NO_COMMITMENT)
    else match Classify(d)
      case Err(e) => Err(e)
      case Ok(c) =>
        if d.snapshot.None? then Err(MATERIAL_INCOMPLETE)
        else
          var sha := h(id, d.row.value.key, d.decisions, d.snapshot.value);
          if sha != d.commitment.value.sha then Err(COMMITMENT_MISMATCH)
          else if d.anchor.None? || d.anchor.value.proof.None? || d.anchor.value.git.None? then Err(ANCHOR_MISSING)
          else if d.anchor.value.sha != sha then Err(ANCHOR_INVALID)
          else External(d, c, sha, o)
  }

  /** What the proof, the headers, the remote and the block time must say for a live run. */
  predicate Favourable(o: Outside) {
    && o.binds && o.confirmed && o.headersAgree == Some(true) && o.reachable == Some(true)
    && o.blockTime <= o.now && o.earliest.Some? && o.blockTime < o.earliest.value
  }

  /** An executed live run, asked for after everything stored, is admitted if and only if the outside
      answers are favourable: nothing the database holds can refuse it. */
  lemma ExecutedIsAdmissible(h: Hash, id: RunId, s: RunState, o: Outside)
    requires Inv(h, id, s) && s.db.row.value.key.mode == LIVE && s.db.row.value.status == EXECUTED
    requires s.now <= o.now
    ensures Admit(h, id, s.db, o).Ok? <==> Favourable(o)
    ensures Favourable(o) ==>
              && s.db.anchor.Some? && s.db.anchor.value.git.Some?
              && Admit(h, id, s.db, o).value
                 == Ticket(COMPLETE, s.db.commitment.value.sha, s.db.anchor.value.git.value)
  {
  }

  /** For any reachable live run, exactly which refusal the stored rows can cause; their two times never
      cause one. */
  lemma StoredRefusals(h: Hash, id: RunId, s: RunState, o: Outside)
    requires Inv(h, id, s) && s.db.row.value.key.mode == LIVE && s.now <= o.now
    ensures var r, d := Admit(h, id, s.db, o), s.db;
            && (r == Err(NO_COMMITMENT) <==> !Advanced(d.row.value.status) && !Halted(d.row.value))
            && (r == Err(NOT_SCORABLE_STATUS) <==> d.row.value.status in {COMMITTED, ANCHORED})
            && (r == Err(ANCHOR_MISSING) <==> Halted(d.row.value) && d.anchor.None?)
            && (r.Err? ==>
                  r.error !in {RUN_MISSING, HALT_EVIDENCE_MISSING, MATERIAL_INCOMPLETE, COMMITMENT_MISMATCH})
            && (r == Err(ANCHOR_TIMING) ==>
                  o.blockTime > o.now || o.earliest.None? || o.blockTime >= o.earliest.value)
            && (r.Ok? && Halted(d.row.value) ==> r.value.completeness == HALTED)
  {
  }

  /** What the stored rows must say: a live run was executed, any other anchored, or the run was halted and its halt
      is on record; the rows hash to the commitment, and a full anchor is over the same hash. */
  ghost predicate Stored(h: Hash, id: RunId, d: RunDb) {
    && d.row.Some? && d.commitment.Some? && d.snapshot.Some? && d.anchor.Some?
    && (|| d.row.value.status == SCORED
        || d.row.value.status == (if d.row.value.key.mode == LIVE then EXECUTED else ANCHORED)
        || (Halted(d.row.value) && d.events != {}))
    && d.commitment.value.sha == h(id, d.row.value.key, d.decisions, d.snapshot.value)
    && d.anchor.value.proof.Some? && d.anchor.value.git.Some? && d.anchor.value.sha == d.commitment.value.sha
  }

  /** What the answers from outside must say besides: the anchor lies between commitment and now, and a live run's
      block is older than the first open it was decided for. */
  ghost predicate Outward(d: RunDb, o: Outside)
    requires d.row.Some? && d.commitment.Some? && d.anchor.Some?
  {
    && o.binds && o.confirmed && o.headersAgree == Some(true) && o.reachable == Some(true)
    && d.commitment.value.at <= d.anchor.value.at <= o.now && o.blockTime <= o.now
    && (d.row.value.key.mode == LIVE ==> o.earliest.Some? && o.blockTime < o.earliest.value)
  }

  /** Whatever the rows are, reachable or not: a ticket is given exactly when all of it holds, it names the hash and
      the commit, and it says halted exactly when the run counts for its halt alone. */
  lemma AdmitIsExact(h: Hash, id: RunId, d: RunDb, o: Outside)
    ensures Admit(h, id, d, o).Ok? <==> Stored(h, id, d) && Outward(d, o)
    ensures Stored(h, id, d) && Outward(d, o) ==>
              var t, r := Admit(h, id, d, o).value, d.row.value;
              && t.sha == d.commitment.value.sha && t.git == d.anchor.value.git.value
              && (t.completeness == HALTED <==>
                    r.status != SCORED && r.status != (if r.key.mode == LIVE then EXECUTED else ANCHORED))
  {
  }

  /** A refusal names something that is wrong. */
  lemma RefusalIsTrue(h: Hash, id: RunId, d: RunDb, o: Outside)
    requires Admit(h, id, d, o).Err?
    ensures var e := Admit(h, id, d, o).error;
            && (e == RUN_MISSING <==> d.row.None?)
            && (e == NO_COMMITMENT <==> d.row.Some? && d.commitment.None?)
            && (e == HALT_EVIDENCE_MISSING ==> Halted(d.row.value) && d.events == {})
            && (e == NOT_SCORABLE_STATUS ==>
                  && d.row.value.status !in {SCORED, if d.row.value.key.mode == LIVE then EXECUTED else ANCHORED}
                  && !Halted(d.row.value))
            && (e == MATERIAL_INCOMPLETE ==> d.snapshot.None?)
            && (e == COMMITMENT_MISMATCH ==>
                  h(id, d.row.value.key, d.decisions, d.snapshot.value) != d.commitment.value.sha)
            && (e == ANCHOR_MISSING ==> d.anchor.None? || d.anchor.value.proof.None? || d.anchor.value.git.None?)
            && (e == ANCHOR_INVALID ==> d.anchor.value.sha != d.commitment.value.sha || !o.binds)
            && (e == OTS_NOT_CONFIRMED ==> !o.confirmed)
            && (e == HEADER_VERIFICATION_FAILED ==> o.headersAgree == Some(false))
            && (e == GIT_UNREACHABLE ==> o.reachable == Some(false))
            && (e == EVIDENCE_UNAVAILABLE ==> o.headersAgree.None? || o.reachable.None?)
            && (e == ANCHOR_TIMING ==>
                  || !(d.commitment.value.at <= d.anchor.value.at <= o.now) || o.blockTime > o.now
                  || (d.row.value.key.mode == LIVE && (o.earliest.None? || o.blockTime >= o.earliest.value)))
  {
  }
}
