/** How a calendar is put together from stored versions and coverage rows, as they stood at one time. Hashing
    a version set is a parameter. */
module CalendarBuild {
  import opened Wrappers
  import opened TradingCalendar

  /** What the hash sees of a session: not when it became available. */
  datatype Line = Line(date: int, opens: int, closes: int, version: int)

  function LineOf(s: Session): Line { Line(s.date, s.opens, s.closes, s.version) }

  function Lines(ss: set<Session>): set<Line> { set s | s in ss :: LineOf(s) }

  function Hash(hash: set<Line> -> int, ls: set<Line>): int { hash(ls) }

  ghost predicate Injective(hash: set<Line> -> int) {
    forall a, b :: Hash(hash, a) == Hash(hash, b) ==> a == b
  }

  // ----- the latest version of a session

  predicate Newer(a: Session, b: Session) {
    a.available > b.available || (a.available == b.available && a.version > b.version)
  }

  /** The first of the newest. */
  function Latest(vs: seq<Session>): (s: Session)
    requires vs != []
    ensures s in vs
  {
    if |vs| == 1 then vs[0]
    else
      var best := Latest(vs[..|vs| - 1]);
      if Newer(vs[|vs| - 1], best) then vs[|vs| - 1] else best
  }

  lemma {:induction false} LatestIsNewest(vs: seq<Session>)
    requires vs != []
    ensures forall v | v in vs :: !Newer(v, Latest(vs))
  {
    if |vs| > 1 {
      LatestIsNewest(vs[..|vs| - 1]);
      assert vs == vs[..|vs| - 1] + [vs[|vs| - 1]];
    }
  }

  /** The versions of a date that were available by a time, in order. */
  function Visible(ss: seq<Session>, d: int, at: int): (vs: seq<Session>)
    ensures forall s :: s in vs <==> s in ss && s.date == d && s.available <= at
  {
    if ss == [] then []
    else
      assert ss == ss[..|ss| - 1] + [ss[|ss| - 1]];
      var s := ss[|ss| - 1];
      if s.date == d && s.available <= at then Visible(ss[..|ss| - 1], d, at) + [s] else Visible(ss[..|ss| - 1], d, at)
  }

  function Versions(ss: seq<Session>, d: int): (vs: seq<Session>)
    ensures forall s :: s in vs <==> s in ss && s.date == d
  {
    if ss == [] then []
    else
      assert ss == ss[..|ss| - 1] + [ss[|ss| - 1]];
      if ss[|ss| - 1].date == d then Versions(ss[..|ss| - 1], d) + [ss[|ss| - 1]] else Versions(ss[..|ss| - 1], d)
  }

  /** If the newest version of all was available by then, it is the newest of those available. */
  lemma {:induction false} LatestWasVisible(ss: seq<Session>, d: int, at: int)
    requires Versions(ss, d) != [] && Latest(Versions(ss, d)).available <= at
    ensures Visible(ss, d, at) == Versions(ss, d)
  {
    var vs := Versions(ss, d);
    LatestIsNewest(vs);
    AllVisible(ss, d, at);
  }

  lemma {:induction false} AllVisible(ss: seq<Session>, d: int, at: int)
    requires forall s | s in ss && s.date == d :: s.available <= at
    ensures Visible(ss, d, at) == Versions(ss, d)
  {
    if ss != [] {
      assert ss == ss[..|ss| - 1] + [ss[|ss| - 1]];
      AllVisible(ss[..|ss| - 1], d, at);
    }
  }

  // ----- coverage rows

  predicate CoversDay(c: Coverage, d: int) { c.lo <= d <= c.hi }

  datatype RangeKey = RangeKey(source: int, lo: int, hi: int)

  function KeyOf(c: Coverage): RangeKey { RangeKey(c.source, c.lo, c.hi) }

  predicate NewerRow(a: Coverage, b: Coverage) {
    a.available > b.available || (a.available == b.available && a.version > b.version)
  }

  /** The newest row of each range. */
  function ByRange(cs: seq<Coverage>): map<RangeKey, Coverage> {
    if cs == [] then map[]
    else
      var m, c := ByRange(cs[..|cs| - 1]), cs[|cs| - 1];
      if KeyOf(c) !in m || NewerRow(c, m[KeyOf(c)]) then m[KeyOf(c) := c] else m
  }

  lemma {:induction false} ByRangeIsNewest(cs: seq<Coverage>)
    ensures forall k | k in ByRange(cs) :: ByRange(cs)[k] in cs && KeyOf(ByRange(cs)[k]) == k
    ensures forall c | c in cs :: KeyOf(c) in ByRange(cs) && !NewerRow(c, ByRange(cs)[KeyOf(c)])
  {
    if cs != [] {
      ByRangeIsNewest(cs[..|cs| - 1]);
      assert cs == cs[..|cs| - 1] + [cs[|cs| - 1]];
    }
  }

  /** For each date of a row, the version in force at the row's own time. */
  function Current(ss: seq<Session>, c: Coverage): set<Session> {
    set s | s in ss && CoversDay(c, s.date) && s.available <= c.available
          && s == Latest(Visible(ss, s.date, c.available))
  }

  /** One version per date of the row that had any by then, and none that had is newer. */
  lemma CurrentIsInForce(ss: seq<Session>, c: Coverage)
    ensures forall s | s in Current(ss, c) :: s in ss && c.lo <= s.date <= c.hi && s.available <= c.available
    ensures forall s, t | s in Current(ss, c) && t in ss && t.date == s.date && t.available <= c.available ::
              !Newer(t, s)
    ensures forall s, t | s in Current(ss, c) && t in Current(ss, c) && s.date == t.date :: s == t
    ensures forall t | t in ss && c.lo <= t.date <= c.hi && t.available <= c.available ::
              exists s :: s in Current(ss, c) && s.date == t.date
  {
    forall s, t | s in Current(ss, c) && t in ss && t.date == s.date && t.available <= c.available
      ensures !Newer(t, s)
    {
      LatestIsNewest(Visible(ss, s.date, c.available));
    }
    forall t | t in ss && c.lo <= t.date <= c.hi && t.available <= c.available
      ensures exists s :: s in Current(ss, c) && s.date == t.date
    {
      assert t in Visible(ss, t.date, c.available);
      assert Latest(Visible(ss, t.date, c.available)) in Current(ss, c);
    }
  }

  /** The row describes exactly those versions. */
  predicate Matches(hash: set<Line> -> int, ss: seq<Session>, c: Coverage) {
    |Current(ss, c)| == c.count && Hash(hash, Lines(Current(ss, c))) == c.sha
  }

  predicate Covering(m: map<RangeKey, Coverage>, d: int) { exists k :: k in m && CoversDay(m[k], d) }

  /** The date was not revised after every row over it. */
  predicate Confirmed(m: map<RangeKey, Coverage>, ss: seq<Session>, d: int)
    requires Versions(ss, d) != []
  {
    exists k :: k in m && CoversDay(m[k], d) && m[k].available >= Latest(Versions(ss, d)).available
  }

  /** Looking at the newest row of each range is as good as looking at every row. */
  lemma ConfirmedIsExact(cs: seq<Coverage>, ss: seq<Session>, d: int)
    requires Versions(ss, d) != []
    ensures Confirmed(ByRange(cs), ss, d) <==>
            exists c :: c in cs && c.lo <= d <= c.hi && c.available >= Latest(Versions(ss, d)).available
    ensures Covering(ByRange(cs), d) <==> exists c :: c in cs && c.lo <= d <= c.hi
  {
    var m, at := ByRange(cs), Latest(Versions(ss, d)).available;
    ByRangeIsNewest(cs);
    if c :| c in cs && c.lo <= d <= c.hi && c.available >= at {
      assert CoversDay(m[KeyOf(c)], d) && m[KeyOf(c)].available >= at;
    }
    if Confirmed(m, ss, d) {
      var k :| k in m && CoversDay(m[k], d) && m[k].available >= at;
      assert m[k] in cs;
    }
    if c :| c in cs && c.lo <= d <= c.hi {
      assert KeyOf(c) in m && CoversDay(m[KeyOf(c)], d);
    }
    if Covering(m, d) {
      var k :| k in m && CoversDay(m[k], d);
      assert m[k] in cs;
    }
  }

  method ChooseRows(cs: seq<Coverage>) returns (byRange: map<RangeKey, Coverage>)
    ensures byRange == ByRange(cs)
  {
    byRange := map[];
    for i := 0 to |cs|
      invariant byRange == ByRange(cs[..i])
    {
      assert cs[..i + 1][..i] == cs[..i];
      var c := cs[i];
      if KeyOf(c) !in byRange || NewerRow(c, byRange[KeyOf(c)]) {
        byRange := byRange[KeyOf(c) := c];
      }
    }
    assert cs[..|cs|] == cs;
  }

  /** A version no chosen row over its date is as new as. */
  ghost predicate Stale(m: map<RangeKey, Coverage>, ss: seq<Session>, s: Session) {
    s in ss && Covering(m, s.date) && Versions(ss, s.date) != [] && !Confirmed(m, ss, s.date)
  }

  /** The newest version of every covered date. */
  ghost predicate Exposes(sessions: map<int, Session>, m: map<RangeKey, Coverage>, ss: seq<Session>) {
    && (forall d :: d in sessions <==> Covering(m, d) && Versions(ss, d) != [])
    && (forall d | d in sessions :: sessions[d] == Latest(Versions(ss, d)))
  }

  method Expose(m: map<RangeKey, Coverage>, ss: seq<Session>) returns (r: Option<map<int, Session>>)
    ensures r.None? <==> exists s :: Stale(m, ss, s)
    ensures r.Some? ==> Exposes(r.value, m, ss)
  {
    hide Covering, Confirmed, Latest, Versions;
    var effective: map<int, Session> := map[];
    for i := 0 to |ss|
      invariant forall j | 0 <= j < i :: Covering(m, ss[j].date) ==> ss[j].date in effective
      invariant forall d | d in effective ::
                  && Covering(m, d) && Versions(ss, d) != []
                  && effective[d] == Latest(Versions(ss, d))
      invariant forall j | 0 <= j < i :: !Stale(m, ss, ss[j])
    {
      var d := ss[i].date;
      assert ss[i] in Versions(ss, d);
      if Covering(m, d) {
        if !Confirmed(m, ss, d) {
          assert Stale(m, ss, ss[i]);
          return None;
        }
        effective := effective[d := Latest(Versions(ss, d))];
      }
    }
    forall d | Covering(m, d) && Versions(ss, d) != [] ensures d in effective {
      assert Versions(ss, d)[0] in Versions(ss, d);
      var j :| 0 <= j < |ss| && ss[j] == Versions(ss, d)[0];
    }
    return Some(effective);
  }

  /** The view is refused exactly when a chosen row does not match its versions, or a covered date was
      revised after every row that covers it; otherwise the calendar holds the newest version of every
      covered date that has one, over exactly the chosen ranges. */
  method BuildCalendar(
    hash: set<Line> -> int, ss: seq<Session>, cs: seq<Coverage>)
    returns (r: Result<Calendar, CalendarError>)
    ensures var m := ByRange(cs);
            && (r == Err(MISMATCH) <==> exists k :: k in m && !Matches(hash, ss, m[k]))
            && (r == Err(REVISED) <==> (forall k | k in m :: Matches(hash, ss, m[k])) && exists s :: Stale(m, ss, s))
            && (r.Err? ==> r.error in {MISMATCH, REVISED})
            && (r.Ok? ==> Exposes(r.value.sessions, m, ss) && r.value.ranges == set k | k in m :: (k.lo, k.hi))
  {
    hide Matches, Stale, Exposes;
    var m := ChooseRows(cs);
    if exists k :: k in m && !Matches(hash, ss, m[k]) { return Err(MISMATCH); }
    var effective := Expose(m, ss);
    if effective.None? { return Err(REVISED); }
    return Ok(Calendar(effective.value, set k | k in m :: (k.lo, k.hi)));
  }

  /** Every exposed session is the newest version of its date and belongs to the version set hashed by a
      coverage row over its date that no other row over it is newer than. */
  lemma ExposedIsHashed(hash: set<Line> -> int, ss: seq<Session>, cs: seq<Coverage>, d: int) returns (c: Coverage)
    requires forall k | k in ByRange(cs) :: Matches(hash, ss, ByRange(cs)[k])
    requires !exists s :: Stale(ByRange(cs), ss, s)
    requires Covering(ByRange(cs), d) && Versions(ss, d) != []
    ensures c in cs && CoversDay(c, d) && Matches(hash, ss, c)
    ensures forall x | x in cs && CoversDay(x, d) :: x.available <= c.available
    ensures Latest(Versions(ss, d)) in Current(ss, c)
  {
    var m := ByRange(cs);
    ByRangeIsNewest(cs);
    c := NewestCovering(cs, d);
    assert Versions(ss, d)[0] in Versions(ss, d);
    assert !Stale(m, ss, Versions(ss, d)[0]);
    var k :| k in m && CoversDay(m[k], d) && m[k].available >= Latest(Versions(ss, d)).available;
    assert m[k] in cs;
    LatestWasVisible(ss, d, c.available);
  }

  lemma NewestCovering(cs: seq<Coverage>, d: int) returns (c: Coverage)
    requires Covering(ByRange(cs), d)
    ensures KeyOf(c) in ByRange(cs) && ByRange(cs)[KeyOf(c)] == c && c in cs && CoversDay(c, d)
    ensures forall x | x in cs && CoversDay(x, d) :: x.available <= c.available
  {
    ByRangeIsNewest(cs);
    var k :| k in ByRange(cs) && CoversDay(ByRange(cs)[k], d);
    var best := MaxCovering(cs, d, ByRange(cs)[k]);
    c := ByRange(cs)[KeyOf(best)];
  }

  lemma {:induction false} MaxCovering(cs: seq<Coverage>, d: int, some: Coverage) returns (c: Coverage)
    requires some in cs && CoversDay(some, d)
    ensures c in cs && CoversDay(c, d) && forall x | x in cs && CoversDay(x, d) :: x.available <= c.available
  {
    var n := |cs| - 1;
    assert cs == cs[..n] + [cs[n]];
    if x :| x in cs[..n] && CoversDay(x, d) {
      c := MaxCovering(cs[..n], d, x);
      if CoversDay(cs[n], d) && cs[n].available > c.available { c := cs[n]; }
    } else {
      c := cs[n];
    }
  }

  /** With an injective hash: the exposed session is one of the lines that were written with the row. */
  lemma ExposedWasWritten(hash: set<Line> -> int, ss: seq<Session>, c: Coverage, written: set<Line>, s: Session)
    requires Injective(hash) && Matches(hash, ss, c) && s in Current(ss, c)
    requires c.sha == Hash(hash, written)
    ensures LineOf(s) in written
  {
    assert Lines(Current(ss, c)) == written;
    assert LineOf(s) in Lines(Current(ss, c));
  }
}
