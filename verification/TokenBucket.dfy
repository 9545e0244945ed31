/** The shared token bucket. Times are integers (milliseconds) from one clock that never goes back. */
module TokenBucket {
  import opened RealArith
  import opened Wrappers

  const EXPIRY_MS: int := 120_000
  const MINUTE_MS: int := 60_000

  /** A bucket of one minute's worth. */
  datatype Limits = Limits(perMinute: nat)
  {
    predicate Valid() { perMinute > 0 }

    function Cap(): real { perMinute as real }

    function Rate(): real { perMinute as real / 60_000.0 }
  }

  datatype Bucket = Bucket(tokens: real, ts: int)

  function Least(x: real, y: real): real { if x < y then x else y }

  function Cost(l: Limits, cost: real): real { Least(if cost < 1.0 then 1.0 else cost, l.Cap()) }

  function Refilled(l: Limits, b: Option<Bucket>, now: int): real {
    if b.None? then l.Cap() else Least(l.Cap(), b.value.tokens + Times((now - b.value.ts) as real, l.Rate()))
  }

  /** math.ceil */
  function Ceiling(x: real): int { -((-x).Floor) }

  /** The bucket after a call, and the wait it answers; zero is a grant. */
  function Script(l: Limits, b: Option<Bucket>, now: int, cost: real): (Bucket, int)
    requires l.Valid()
  {
    var tokens, c := Refilled(l, b, now), Cost(l, cost);
    assert l.Rate() > 0.0 by { DivSign(l.Cap(), 60_000.0); }
    if tokens >= c then (Bucket(tokens - c, now), 0)
    else (Bucket(tokens, now), Ceiling((c - tokens) / l.Rate()))
  }

  predicate InRange(l: Limits, b: Option<Bucket>) { b.Some? ==> 0.0 <= b.value.tokens <= l.Cap() }

  lemma RateIsPositive(l: Limits)
    requires l.Valid()
    ensures l.Rate() > 0.0 && Times(60_000.0, l.Rate()) == l.Cap()
  {
    DivSign(l.Cap(), 60_000.0);
    DivMul(l.Cap(), 60_000.0);
  }

  /** The bucket never holds less than nothing or more than its capacity. */
  lemma StaysInRange(l: Limits, b: Option<Bucket>, now: int, cost: real)
    requires l.Valid() && InRange(l, b) && (b.Some? ==> b.value.ts <= now)
    ensures InRange(l, Some(Script(l, b, now, cost).0)) && 0.0 <= Refilled(l, b, now) <= l.Cap()
  {
    RateIsPositive(l);
    hide Times, Limits.Rate;
    if b.Some? {
      TimesMono(0.0, (now - b.value.ts) as real, l.Rate());
      TimesZero(l.Rate());
    }
  }

  /** After an idle minute a bucket is full again. */
  lemma FullAfterAMinute(l: Limits, b: Option<Bucket>, now: int)
    requires l.Valid() && InRange(l, b) && (b.Some? ==> now - b.value.ts >= MINUTE_MS)
    ensures Refilled(l, b, now) == l.Cap()
  {
    RateIsPositive(l);
    hide Times, Limits.Rate;
    if b.Some? { TimesMono(60_000.0, (now - b.value.ts) as real, l.Rate()); }
  }

  lemma CeilingBounds(x: real)
    ensures x <= Ceiling(x) as real < x + 1.0
  {
  }

  /** Waiting the answered time, uncontended, is enough, and waiting a millisecond less is not. */
  lemma WaitSuffices(l: Limits, b: Option<Bucket>, now: int, cost: real, later: int)
    requires l.Valid() && InRange(l, b) && (b.Some? ==> b.value.ts <= now) && later >= now
    requires Script(l, b, now, cost).1 != 0
    ensures var (kept, wait) := Script(l, b, now, cost);
            wait >= 1 && (Script(l, Some(kept), later, cost).1 == 0 <==> later >= now + wait)
  {
    var (kept, wait) := Script(l, b, now, cost);
    var c, gap := Cost(l, cost), Cost(l, cost) - kept.tokens;
    RateIsPositive(l);
    StaysInRange(l, b, now, cost);
    CeilingBounds(gap / l.Rate());
    DivSign(gap, l.Rate());
    TimesDiv(gap, l.Rate());
    hide Times, Limits.Rate;
    var dt := (later - now) as real;
    if later >= now + wait {
      TimesMono(gap / l.Rate(), dt, l.Rate());
    } else {
      TimesStrict(dt, gap / l.Rate(), l.Rate());
      CeilingBounds((c - Refilled(l, Some(kept), later)) / l.Rate());
      DivSign(c - Refilled(l, Some(kept), later), l.Rate());
    }
  }

  // ----- whole histories

  datatype Call = Call(at: int, cost: real)

  predicate InOrder(calls: seq<Call>) { forall i, j | 0 <= i <= j < |calls| :: calls[i].at <= calls[j].at }

  /** The bucket after a history of calls, if it never expires. */
  function After(l: Limits, calls: seq<Call>): Option<Bucket>
    requires l.Valid()
  {
    if calls == [] then None
    else var c := calls[|calls| - 1]; Some(Script(l, After(l, calls[..|calls| - 1]), c.at, c.cost).0)
  }

  function Answer(l: Limits, calls: seq<Call>): int
    requires l.Valid() && calls != []
  {
    var c := calls[|calls| - 1];
    Script(l, After(l, calls[..|calls| - 1]), c.at, c.cost).1
  }

  /** What a key with a 120 second expiry holds when it is read. */
  function Read(b: Option<Bucket>, now: int): Option<Bucket> {
    if b.Some? && now - b.value.ts >= EXPIRY_MS then None else b
  }

  function AfterExpiring(l: Limits, calls: seq<Call>): Option<Bucket>
    requires l.Valid()
  {
    if calls == [] then None
    else
      var c := calls[|calls| - 1];
      Some(Script(l, Read(AfterExpiring(l, calls[..|calls| - 1]), c.at), c.at, c.cost).0)
  }

  function AnswerExpiring(l: Limits, calls: seq<Call>): int
    requires l.Valid() && calls != []
  {
    var c := calls[|calls| - 1];
    Script(l, Read(AfterExpiring(l, calls[..|calls| - 1]), c.at), c.at, c.cost).1
  }

  lemma {:induction false} AfterInRange(l: Limits, calls: seq<Call>)
    requires l.Valid() && InOrder(calls)
    ensures InRange(l, After(l, calls))
    ensures calls != [] ==> After(l, calls).value.ts == calls[|calls| - 1].at
  {
    hide Times, Limits.Rate, Limits.Cap;
    if calls != [] {
      var n := |calls| - 1;
      AfterInRange(l, calls[..n]);
      assert n > 0 ==> calls[..n][n - 1] == calls[n - 1];
      StaysInRange(l, After(l, calls[..n]), calls[n].at, calls[n].cost);
    }
  }

  /** The expiry is invisible: over every history both buckets hold and answer the same. */
  lemma {:induction false} ExpiryIsInvisible(l: Limits, calls: seq<Call>)
    requires l.Valid() && InOrder(calls)
    ensures AfterExpiring(l, calls) == After(l, calls)
    ensures calls != [] ==> AnswerExpiring(l, calls) == Answer(l, calls)
  {
    hide Times, Limits.Rate, Limits.Cap;
    if calls != [] {
      var n := |calls| - 1;
      ExpiryIsInvisible(l, calls[..n]);
      AfterInRange(l, calls[..n]);
      var b, now := After(l, calls[..n]), calls[n].at;
      if b.Some? && now - b.value.ts >= EXPIRY_MS {
        FullAfterAMinute(l, b, now);
        assert Refilled(l, Read(b, now), now) == Refilled(l, b, now);
      }
    }
  }

  /** What was granted by the calls from index i on. */
  function Granted(l: Limits, calls: seq<Call>, i: nat): real
    requires l.Valid() && i <= |calls|
    decreases |calls|
  {
    if |calls| == i then 0.0
    else
      Granted(l, calls[..|calls| - 1], i)
      + if Answer(l, calls) == 0 then Cost(l, calls[|calls| - 1].cost) else 0.0
  }

  /** What is left plus what the calls from i on were granted came from one full bucket and the refill since. */
  lemma {:induction false} GrantedAndLeft(l: Limits, calls: seq<Call>, i: nat)
    requires l.Valid() && InOrder(calls) && i < |calls|
    ensures After(l, calls).value.tokens + Granted(l, calls, i)
            <= l.Cap() + Times((calls[|calls| - 1].at - calls[i].at) as real, l.Rate())
  {
    hide Times, Limits.Rate, Limits.Cap, Cost;
    var n := |calls| - 1;
    var c := calls[n];
    AfterInRange(l, calls[..n]);
    assert n > 0 ==> calls[..n][n - 1] == calls[n - 1];
    StaysInRange(l, After(l, calls[..n]), c.at, c.cost);
    WaitIsNonzero(l, After(l, calls[..n]), c.at, c.cost);
    if i == n {
      TimesZero(l.Rate());
      assert Granted(l, calls[..n], i) == 0.0;
    } else {
      GrantedAndLeft(l, calls[..n], i);
      assert calls[..n][i] == calls[i];
      TimesAdd((calls[n - 1].at - calls[i].at) as real, (c.at - calls[n - 1].at) as real, l.Rate());
    }
  }

  lemma WaitIsNonzero(l: Limits, b: Option<Bucket>, now: int, cost: real)
    requires l.Valid()
    ensures Script(l, b, now, cost).1 == 0 <==> Refilled(l, b, now) >= Cost(l, cost)
  {
    RateIsPositive(l);
    var gap := Cost(l, cost) - Refilled(l, b, now);
    CeilingBounds(gap / l.Rate());
    DivSign(gap, l.Rate());
  }

  /** Grants of the calls between two indices, so in any interval of time, total at most the capacity plus
      the refill of that time. */
  lemma GrantsAreBounded(l: Limits, calls: seq<Call>, i: nat, j: nat, from: int, until: int)
    requires l.Valid() && InOrder(calls) && i < j <= |calls|
    requires from <= calls[i].at && calls[j - 1].at <= until
    ensures Granted(l, calls[..j], i) <= l.Cap() + Times((until - from) as real, l.Rate())
  {
    hide Times, Limits.Rate, Limits.Cap;
    GrantedAndLeft(l, calls[..j], i);
    AfterInRange(l, calls[..j]);
    RateIsPositive(l) by { assert l.Valid(); }
    TimesMono((calls[j - 1].at - calls[i].at) as real, (until - from) as real, l.Rate());
  }

  /** What was granted after an instant. */
  function GrantedSince(l: Limits, calls: seq<Call>, lo: int): (g: real)
    requires l.Valid()
    ensures g >= 0.0
  {
    if calls == [] then 0.0
    else
      var c := calls[|calls| - 1];
      GrantedSince(l, calls[..|calls| - 1], lo)
      + if c.at > lo && Answer(l, calls) == 0 then Cost(l, c.cost) else 0.0
  }

  /** What one more call is granted is exactly what it takes out of the bucket. */
  lemma GrantIsTaken(l: Limits, calls: seq<Call>, c: Call, i: nat)
    requires l.Valid() && i <= |calls|
    ensures Granted(l, calls + [c], i) - Granted(l, calls, i)
            == Refilled(l, After(l, calls), c.at) - After(l, calls + [c]).value.tokens
  {
    hide Times, Limits.Rate, Limits.Cap, Cost;
    var all := calls + [c];
    assert all[..|all| - 1] == calls;
    WaitIsNonzero(l, After(l, calls), c.at, c.cost);
  }

  /** The calls after an instant are the calls from the first of them on. */
  lemma {:induction false} GrantedSinceIs(l: Limits, calls: seq<Call>, lo: int, i: nat)
    requires l.Valid() && i <= |calls|
    requires forall k | 0 <= k < |calls| :: calls[k].at > lo <==> k >= i
    ensures GrantedSince(l, calls, lo) == Granted(l, calls, i)
  {
    hide Times, Limits.Rate, Limits.Cap, Cost, After, Answer;
    if calls != [] {
      var n := |calls| - 1;
      if i <= n {
        GrantedSinceIs(l, calls[..n], lo, i);
      } else {
        GrantedSinceIs(l, calls[..n], lo, n);
        assert GrantedSince(l, calls[..n], lo) == 0.0;
      }
    }
  }

  /** Refill is lost to the capacity only: after any history the bucket holds at least the refill since any
      instant, up to the capacity, less what was granted after it. */
  lemma {:induction false} LeftAtLeast(l: Limits, calls: seq<Call>, lo: int)
    requires l.Valid() && InOrder(calls) && calls != [] && lo <= calls[|calls| - 1].at
    ensures After(l, calls).value.tokens
            >= Least(l.Cap(), Times((calls[|calls| - 1].at - lo) as real, l.Rate())) - GrantedSince(l, calls, lo)
    decreases |calls|, 0
  {
    hide Times, Limits.Rate, Limits.Cap, Cost;
    var n := |calls| - 1;
    var c, b := calls[n], After(l, calls[..n]);
    AfterInRange(l, calls[..n]);
    assert n > 0 ==> calls[..n][n - 1] == calls[n - 1];
    AvailableAtLeast(l, calls[..n], c.at, lo);
    StaysInRange(l, b, c.at, c.cost);
    WaitIsNonzero(l, b, c.at, c.cost);
    if c.at == lo { TimesZero(l.Rate()); }
  }

  /** What a call finds. */
  lemma {:induction false} AvailableAtLeast(l: Limits, calls: seq<Call>, now: int, lo: int)
    requires l.Valid() && InOrder(calls) && lo <= now && (calls != [] ==> calls[|calls| - 1].at <= now)
    ensures Refilled(l, After(l, calls), now)
            >= Least(l.Cap(), Times((now - lo) as real, l.Rate())) - GrantedSince(l, calls, lo)
    decreases |calls|, 1
  {
    hide Times, Limits.Rate, Limits.Cap, Cost, GrantedSince;
    AfterInRange(l, calls);
    RateIsPositive(l);
    if calls != [] {
      var last := calls[|calls| - 1].at;
      TimesMono(0.0, (now - last) as real, l.Rate());
      TimesZero(l.Rate());
      if lo <= last {
        LeftAtLeast(l, calls, lo);
        TimesAdd((last - lo) as real, (now - last) as real, l.Rate());
      } else {
        TimesMono((now - lo) as real, (now - last) as real, l.Rate());
      }
    }
  }

  /** A call is granted whenever it fits into the capacity together with what the last minute was granted. */
  lemma GrantedWhenItFits(l: Limits, calls: seq<Call>, c: Call)
    requires l.Valid() && InOrder(calls + [c])
    requires GrantedSince(l, calls, c.at - MINUTE_MS) + Cost(l, c.cost) <= l.Cap()
    ensures Answer(l, calls + [c]) == 0
  {
    var all := calls + [c];
    assert all[..|all| - 1] == calls;
    assert forall i | 0 <= i < |calls| :: calls[i] == all[i];
    assert calls != [] ==> all[|calls| - 1].at <= all[|calls|].at;
    RateIsPositive(l);
    hide Times, Limits.Rate, Limits.Cap, Cost, GrantedSince;
    AvailableAtLeast(l, calls, c.at, c.at - MINUTE_MS);
    WaitIsNonzero(l, After(l, calls), c.at, c.cost);
  }

  /** A call counts for at least one and at most the capacity, and else for what it asks. */
  lemma CostIsClamped(l: Limits, cost: real)
    requires l.Valid()
    ensures 1.0 <= Cost(l, cost) <= l.perMinute as real
    ensures 1.0 <= cost <= l.perMinute as real ==> Cost(l, cost) == cost
    ensures cost <= 1.0 ==> Cost(l, cost) == 1.0
    ensures cost >= l.perMinute as real ==> Cost(l, cost) == l.perMinute as real
  {
  }

  /** The key in the store, with the history of its calls. */
  class SharedBucket {
    const limits: Limits
    var tokens: Option<Bucket>
    ghost var calls: seq<Call>

    ghost predicate Valid()
      reads this
    {
      limits.Valid() && InOrder(calls) && tokens == AfterExpiring(limits, calls) == After(limits, calls)
    }

    constructor (perMinute: nat)
      requires perMinute > 0
      ensures Valid() && calls == [] && limits.perMinute == perMinute
    {
      limits, tokens, calls := Limits(perMinute), None, [];
    }

    /** One atomic script call: rewrite tokens and time, and answer the wait. */
    method Charge(now: int, cost: real) returns (wait: int)
      requires Valid() && forall c | c in calls :: c.at <= now
      modifies this
      ensures Valid() && calls == old(calls) + [Call(now, cost)] && wait == Answer(limits, calls) >= 0
    {
      hide Limits.Rate, Limits.Cap;
      ghost var was := calls;
      calls := calls + [Call(now, cost)];
      assert calls[..|calls| - 1] == was;
      assert InOrder(calls);
      ExpiryIsInvisible(limits, calls);
      AfterInRange(limits, was);
      assert was != [] ==> was[|was| - 1] in was;
      var result := Script(limits, Read(tokens, now), now, cost);
      if result.1 != 0 { WaitSuffices(limits, Read(tokens, now), now, cost, now); }
      tokens, wait := Some(result.0), result.1;
    }

    /** Uncontended, one wait is enough. */
    method AcquireAlone(now: int, cost: real, late: nat) returns (at: int)
      requires Valid() && forall c | c in calls :: c.at <= now
      modifies this
      ensures Valid() && at >= now && old(calls) < calls && calls[|calls| - 1] == Call(at, cost)
      ensures Answer(limits, calls) == 0 && |calls| <= |old(calls)| + 2
    {
      hide Limits.Rate, Limits.Cap, Script, Read;
      var wait := Charge(now, cost);
      at := now;
      if wait != 0 {
        ghost var one := calls;
        SecondTry(limits, old(calls), now, cost, now + wait + late);
        at := now + wait + late;
        wait := Charge(at, cost);
        assert calls == one + [Call(at, cost)];
      }
    }
  }

  lemma SecondTry(l: Limits, calls: seq<Call>, now: int, cost: real, later: int)
    requires l.Valid() && InOrder(calls) && forall c | c in calls :: c.at <= now
    requires var wait := Answer(l, calls + [Call(now, cost)]); wait != 0 && later >= now + wait && wait >= 0
    ensures Answer(l, calls + [Call(now, cost)] + [Call(later, cost)]) == 0
  {
    hide Limits.Rate, Limits.Cap, Script;
    var one := calls + [Call(now, cost)];
    var two := one + [Call(later, cost)];
    assert one[..|one| - 1] == calls && two[..|two| - 1] == one;
    AfterInRange(l, calls);
    assert calls != [] ==> calls[|calls| - 1] in calls;
    WaitSuffices(l, After(l, calls), now, cost, later);
  }
}
