/** Walks over a calendar of which only some days are known: a walk that would have to guess about a day fails.
    Dates are day numbers, instants are integers. */
module TradingCalendar {
  import opened Wrappers

  const MAX_WALK_DAYS: nat := 3660

  datatype Session = Session(date: int, opens: int, closes: int, available: int, version: int)

  datatype Coverage = Coverage(
    source: int, lo: int, hi: int, available: int, count: nat, sha: int, version: int)

  datatype SessionStatus = OPEN | CLOSED | UNCOVERED

  datatype CalendarError = NOT_COVERED | NOT_A_SESSION | COVERAGE_ENDS | NO_SESSION | BAD_HORIZON | MISMATCH | REVISED

  datatype Calendar = Calendar(sessions: map<int, Session>, ranges: set<(int, int)>)
  {
    predicate Covers(day: int) { exists r | r in ranges :: r.0 <= day <= r.1 }

    function Status(day: int): SessionStatus {
      if !Covers(day) then UNCOVERED else if day in sessions then OPEN else CLOSED
    }

    function SessionOn(day: int): Result<Session, CalendarError> {
      match Status(day)
      case UNCOVERED => Err(NOT_COVERED)
      case CLOSED => Err(NOT_A_SESSION)
      case OPEN => Ok(sessions[day])
    }

    predicate Keyed() { forall d | d in sessions :: sessions[d].date == d }
  }

  // ----- walks

  /** The nearest session strictly beyond cursor, within `left` days, over covered dates only. */
  function Walk(c: Calendar, cursor: int, direction: int, left: nat): Result<int, CalendarError>
    decreases left
  {
    if left == 0 then Err(NO_SESSION)
    else
      match c.Status(cursor + direction)
      case UNCOVERED => Err(COVERAGE_ENDS)
      case OPEN => Ok(cursor + direction)
      case CLOSED => Walk(c, cursor + direction, direction, left - 1)
  }

  function Step(c: Calendar, day: int, direction: int): Result<int, CalendarError> {
    Walk(c, day, direction, MAX_WALK_DAYS)
  }

  method StepLoop(c: Calendar, day: int, direction: int) returns (r: Result<int, CalendarError>)
    ensures r == Step(c, day, direction)
  {
    var cursor := day;
    for i := 0 to MAX_WALK_DAYS
      invariant Walk(c, cursor, direction, MAX_WALK_DAYS - i) == Step(c, day, direction)
    {
      cursor := cursor + direction;
      var status := c.Status(cursor);
      if status == UNCOVERED { return Err(COVERAGE_ENDS); }
      if status == OPEN { return Ok(cursor); }
    }
    return Err(NO_SESSION);
  }

  /** r is the next session after d: everything in between is a known closed day. */
  ghost predicate NextAfter(c: Calendar, d: int, r: int) {
    d < r && c.Status(r) == OPEN && forall x | d < x < r :: c.Status(x) == CLOSED
  }

  lemma {:induction false} WalkForward(c: Calendar, cursor: int, left: nat)
    ensures Walk(c, cursor, 1, left).Ok? ==>
              NextAfter(c, cursor, Walk(c, cursor, 1, left).value) && Walk(c, cursor, 1, left).value <= cursor + left
    ensures forall r | NextAfter(c, cursor, r) && r <= cursor + left :: Walk(c, cursor, 1, left) == Ok(r)
    decreases left
  {
    hide Calendar.Status;
    if left > 0 {
      WalkForward(c, cursor + 1, left - 1);
      if c.Status(cursor + 1) == CLOSED {
        forall r | NextAfter(c, cursor, r) ensures NextAfter(c, cursor + 1, r) { }
      }
    }
  }

  /** k days on. */
  function Ahead(day: int, direction: int, k: nat): int { if direction == 1 then day + k else day - k }

  ghost predicate ClosedBefore(c: Calendar, cursor: int, direction: int, k: nat) {
    forall j | 0 < j < k :: c.Status(Ahead(cursor, direction, j)) == CLOSED
  }

  /** In either direction the first date that is not a known closed day decides: a session is found, an unknown
      date ends the walk, and without either so does its bound. */
  lemma {:induction false} WalkIsDecided(c: Calendar, cursor: int, direction: int, left: nat, k: nat)
    requires direction in {1, -1} && 0 < k <= left + 1
    requires ClosedBefore(c, cursor, direction, k)
    requires k <= left ==> c.Status(Ahead(cursor, direction, k)) != CLOSED
    ensures Walk(c, cursor, direction, left)
         == if k == left + 1 then Err(NO_SESSION)
            else if c.Status(Ahead(cursor, direction, k)) == OPEN then Ok(Ahead(cursor, direction, k))
            else Err(COVERAGE_ENDS)
    decreases left
  {
    hide Calendar.Status;
    if k > 1 {
      var next := cursor + direction;
      assert c.Status(Ahead(cursor, direction, 1)) == CLOSED;
      forall j | 0 < j < k - 1 ensures c.Status(Ahead(next, direction, j)) == CLOSED {
        assert Ahead(next, direction, j) == Ahead(cursor, direction, j + 1);
      }
      WalkIsDecided(c, next, direction, left - 1, k - 1);
    }
  }

  lemma {:induction false} WalkBackward(c: Calendar, cursor: int, left: nat, d: int)
    requires d < cursor <= d + left && c.Status(d) == OPEN && forall x | d < x < cursor :: c.Status(x) == CLOSED
    ensures Walk(c, cursor, -1, left) == Ok(d)
    decreases left
  {
    hide Calendar.Status;
    if cursor - 1 > d { WalkBackward(c, cursor - 1, left - 1, d); }
  }

  /** On session dates, the previous session of the next session is where one started. */
  lemma PreviousUndoesNext(c: Calendar, d: int)
    requires c.Status(d) == OPEN && Step(c, d, 1).Ok?
    ensures Step(c, Step(c, d, 1).value, -1) == Ok(d)
  {
    WalkForward(c, d, MAX_WALK_DAYS);
    WalkBackward(c, Step(c, d, 1).value, MAX_WALK_DAYS, d);
  }

  // ----- horizons

  function Horizon(c: Calendar, d0: int, h: nat): Result<int, CalendarError> {
    if h == 0 then Ok(d0)
    else
      match Horizon(c, d0, h - 1)
      case Err(e) => Err(e)
      case Ok(d) => Step(c, d, 1)
  }

  /** The session h trading days after d0, stored sessions only. */
  method HorizonSession(c: Calendar, d0: int, h: int) returns (r: Result<int, CalendarError>)
    requires c.Keyed()
    ensures h < 1 ==> r == Err(BAD_HORIZON)
    ensures h >= 1 && c.Status(d0) == UNCOVERED ==> r == Err(NOT_COVERED)
    ensures h >= 1 && c.Status(d0) == CLOSED ==> r == Err(NOT_A_SESSION)
    ensures h >= 1 && c.Status(d0) == OPEN ==> r == Horizon(c, d0, h)
  {
    hide Step;
    if h < 1 { return Err(BAD_HORIZON); }
    var start := c.SessionOn(d0);
    if start.Err? { return Err(start.error); }
    var cursor := start.value.date;
    for i := 0 to h
      invariant Horizon(c, d0, i) == Ok(cursor)
    {
      var next := StepLoop(c, cursor, 1);
      if next.Err? {
        HorizonFails(c, d0, i + 1, h);
        return Err(next.error);
      }
      cursor := next.value;
    }
    return Ok(cursor);
  }

  lemma {:induction false} HorizonFails(c: Calendar, d0: int, i: nat, h: nat)
    requires Horizon(c, d0, i).Err? && i <= h
    ensures Horizon(c, d0, h) == Horizon(c, d0, i)
    decreases h
  {
    if i < h { HorizonFails(c, d0, i, h - 1); }
  }

  /** The sessions in the half-open interval after d up to r. */
  function SessionsIn(c: Calendar, d: int, r: int): nat
    decreases r - d
  {
    if r <= d then 0 else SessionsIn(c, d, r - 1) + if c.Status(r) == OPEN then 1 else 0
  }

  lemma {:induction false} SessionsAre(c: Calendar, d: int, r: int)
    ensures SessionsIn(c, d, r) == |set x | d < x <= r && c.Status(x) == OPEN|
    decreases r - d
  {
    hide Calendar.Status;
    if d < r {
      SessionsAre(c, d, r - 1);
      var before, here := set x | d < x <= r - 1 && c.Status(x) == OPEN, if c.Status(r) == OPEN then {r} else {};
      assert (set x | d < x <= r && c.Status(x) == OPEN) == before + here;
    }
  }

  lemma {:induction false} SessionsSplit(c: Calendar, d: int, m: int, r: int)
    requires d <= m <= r
    ensures SessionsIn(c, d, r) == SessionsIn(c, d, m) + SessionsIn(c, m, r)
    decreases r - m
  {
    if m < r { SessionsSplit(c, d, m, r - 1); }
  }

  lemma {:induction false} NoSessions(c: Calendar, d: int, r: int)
    requires forall x | d < x <= r :: c.Status(x) == CLOSED
    ensures SessionsIn(c, d, r) == 0
    decreases r - d
  {
    if d < r { NoSessions(c, d, r - 1); }
  }

  /** Exactly h sessions lie after d0 up to the horizon session, which is one of them, and every date walked
      is covered. */
  lemma {:induction false} HorizonCounts(c: Calendar, d0: int, h: nat)
    requires c.Status(d0) == OPEN && Horizon(c, d0, h).Ok?
    ensures var r := Horizon(c, d0, h).value;
            && d0 <= r && c.Status(r) == OPEN && SessionsIn(c, d0, r) == h
            && forall x | d0 <= x <= r :: c.Status(x) != UNCOVERED
  {
    hide Calendar.Status;
    if h > 0 {
      HorizonCounts(c, d0, h - 1);
      var d, r := Horizon(c, d0, h - 1).value, Horizon(c, d0, h).value;
      WalkForward(c, d, MAX_WALK_DAYS);
      SessionsSplit(c, d0, d, r);
      NoSessions(c, d, r - 1);
    }
  }

  /** The last session before r. */
  lemma {:induction false} SessionBefore(c: Calendar, d0: int, r: int) returns (d: int)
    requires d0 < r && c.Status(d0) == OPEN
    ensures d0 <= d < r && c.Status(d) == OPEN && forall x | d < x < r :: c.Status(x) != OPEN
    decreases r - d0
  {
    hide Calendar.Status;
    if c.Status(r - 1) == OPEN { d := r - 1; } else { d := SessionBefore(c, d0, r - 1); }
  }

  /** No session in a whole walk after x. */
  predicate LongGap(c: Calendar, x: int) { SessionsIn(c, x, x + MAX_WALK_DAYS) == 0 }

  lemma GapIsLong(c: Calendar, d: int)
    requires forall x | d < x <= d + MAX_WALK_DAYS :: c.Status(x) == CLOSED
    ensures LongGap(c, d)
  {
    NoSessions(c, d, d + MAX_WALK_DAYS);
  }

  lemma LongGapIs(c: Calendar, x: int)
    ensures LongGap(c, x) <==> forall y | x < y <= x + MAX_WALK_DAYS :: c.Status(y) != OPEN
  {
    hide Calendar.Status;
    var open := set y | x < y <= x + MAX_WALK_DAYS && c.Status(y) == OPEN;
    SessionsAre(c, x, x + MAX_WALK_DAYS);
    if y :| x < y <= x + MAX_WALK_DAYS && c.Status(y) == OPEN { assert y in open; }
    if open != {} { assert exists y :: y in open; }
  }

  /** Conversely the h-th session after d0 is found if every date up to it is known and no closed stretch is as
      long as a whole walk. */
  lemma {:induction false} HorizonReaches(c: Calendar, d0: int, h: nat, r: int)
    requires d0 <= r && c.Status(d0) == OPEN && c.Status(r) == OPEN && SessionsIn(c, d0, r) == h
    requires forall x | d0 <= x <= r :: c.Status(x) != UNCOVERED
    requires forall x | d0 <= x && x + MAX_WALK_DAYS < r :: !LongGap(c, x)
    ensures Horizon(c, d0, h) == Ok(r)
    decreases h
  {
    hide Calendar.Status;
    if d0 < r {
      var d := SessionBefore(c, d0, r);
      SessionsSplit(c, d0, d, r);
      NoSessions(c, d, r - 1);
      if d + MAX_WALK_DAYS < r {
        GapIsLong(c, d);
      }
      HorizonReaches(c, d0, h - 1, d);
      assert NextAfter(c, d, r);
      WalkForward(c, d, MAX_WALK_DAYS);
      assert Horizon(c, d0, h - 1) == Ok(d) && Step(c, d, 1) == Ok(r);
    }
  }

  /** Horizons compose. */
  lemma {:induction false} HorizonsAdd(c: Calendar, d0: int, a: nat, b: nat)
    requires Horizon(c, d0, a).Ok?
    ensures Horizon(c, d0, a + b) == Horizon(c, Horizon(c, d0, a).value, b)
  {
    hide Step;
    if b > 0 { HorizonsAdd(c, d0, a, b - 1); }
  }

  // ----- the first session not yet closed

  function ClosingAfter(c: Calendar, instant: int, day: int, left: nat): Result<Session, CalendarError>
    decreases left
  {
    if left == 0 then Err(NO_SESSION)
    else if c.Status(day) == UNCOVERED then Err(COVERAGE_ENDS)
    else if c.Status(day) == OPEN && c.sessions[day].closes > instant then Ok(c.sessions[day])
    else ClosingAfter(c, instant, day + 1, left - 1)
  }

  method SessionClosingAfter(c: Calendar, instant: int, start: int) returns (r: Result<Session, CalendarError>)
    ensures r == ClosingAfter(c, instant, start, MAX_WALK_DAYS)
  {
    var day := start;
    for i := 0 to MAX_WALK_DAYS
      invariant ClosingAfter(c, instant, day, MAX_WALK_DAYS - i) == ClosingAfter(c, instant, start, MAX_WALK_DAYS)
    {
      var status := c.Status(day);
      if status == UNCOVERED { return Err(COVERAGE_ENDS); }
      if status == OPEN && c.sessions[day].closes > instant { return Ok(c.sessions[day]); }
      day := day + 1;
    }
    return Err(NO_SESSION);
  }

  /** The date is known, and no session of it closes after the instant. */
  predicate Over(c: Calendar, instant: int, day: int) {
    c.Covers(day) && (day in c.sessions ==> c.sessions[day].closes <= instant)
  }

  /** The first date that is not known to be over decides: its session if it is known, the end of the coverage
      if not. If all dates of the walk are over there is no session. */
  lemma {:induction false} ClosingAfterIsFirst(c: Calendar, instant: int, day: int, left: nat, at: int)
    requires day <= at <= day + left && forall x | day <= x < at :: Over(c, instant, x)
    requires at < day + left ==> !Over(c, instant, at)
    ensures ClosingAfter(c, instant, day, left)
         == if at == day + left then Err(NO_SESSION)
            else if c.Covers(at) then Ok(c.sessions[at])
            else Err(COVERAGE_ENDS)
    decreases left
  {
    if day < at {
      assert Over(c, instant, day);
      ClosingAfterIsFirst(c, instant, day + 1, left - 1, at);
    }
  }
}
