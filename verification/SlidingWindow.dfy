/** The sliding-window request limiter. Times are integers (microseconds); the clock never goes back. */
module SlidingWindow {

  predicate Ordered(g: seq<int>) { forall i, j | 0 <= i <= j < |g| :: g[i] <= g[j] }

  /** Grants that are `limit` apart are at least a window apart. */
  predicate Spaced(g: seq<int>, limit: nat, window: int) {
    forall i | 0 <= i && i + limit < |g| :: g[i] + window <= g[i + limit]
  }

  /** How many grants fall in the half-open interval from t. */
  function CountIn(g: seq<int>, t: int, window: int): nat {
    if g == [] then 0
    else CountIn(g[..|g| - 1], t, window) + if t <= g[|g| - 1] < t + window then 1 else 0
  }

  /** The grants in the interval, as a set of positions. */
  ghost function Inside(g: seq<int>, t: int, window: int): set<int> {
    set i | 0 <= i < |g| && t <= g[i] < t + window
  }

  lemma {:induction false} CountIsExact(g: seq<int>, t: int, window: int)
    ensures CountIn(g, t, window) == |Inside(g, t, window)|
  {
    if g != [] {
      var n := |g| - 1;
      CountIsExact(g[..n], t, window);
      var here := if t <= g[n] < t + window then {n} else {};
      assert Inside(g, t, window) == Inside(g[..n], t, window) + here;
    }
  }

  lemma {:induction false} CountAtMost(g: seq<int>, t: int, window: int)
    ensures CountIn(g, t, window) <= |g|
  {
    if g != [] { CountAtMost(g[..|g| - 1], t, window); }
  }

  lemma {:induction false} CountNone(g: seq<int>, t: int, window: int)
    requires forall i | 0 <= i < |g| :: g[i] < t
    ensures CountIn(g, t, window) == 0
  {
    if g != [] { CountNone(g[..|g| - 1], t, window); }
  }

  lemma {:induction false} CountSplits(a: seq<int>, b: seq<int>, t: int, window: int)
    ensures CountIn(a + b, t, window) == CountIn(a, t, window) + CountIn(b, t, window)
  {
    if b == [] {
      assert a + b == a;
    } else {
      assert (a + b)[..|a + b| - 1] == a + b[..|b| - 1];
      CountSplits(a, b[..|b| - 1], t, window);
    }
  }

  /** Any half-open interval one window long holds at most `limit` grants. */
  lemma {:induction false} WindowHoldsLimit(g: seq<int>, limit: nat, window: int, t: int)
    requires Ordered(g) && Spaced(g, limit, window) && limit >= 1
    ensures CountIn(g, t, window) <= limit
  {
    if g != [] {
      var n := |g| - 1;
      if !(t <= g[n] < t + window) {
        WindowHoldsLimit(g[..n], limit, window, t);
      } else if n < limit {
        CountAtMost(g, t, window);
      } else {
        var cut := n + 1 - limit;
        assert g == g[..cut] + g[cut..];
        CountSplits(g[..cut], g[cut..], t, window);
        assert g[n - limit] + window <= g[n - limit + limit];
        CountNone(g[..cut], t, window);
        CountAtMost(g[cut..], t, window);
      }
    }
  }

  // ----- the script

  /** Drop what is a window old or older. */
  function Evicted(log: seq<int>, now: int, window: int): seq<int> {
    if log != [] && log[0] <= now - window then Evicted(log[1..], now, window) else log
  }

  lemma {:induction false} EvictedIsSuffix(log: seq<int>, now: int, window: int) returns (k: nat)
    requires Ordered(log)
    ensures k <= |log| && Evicted(log, now, window) == log[k..]
    ensures forall i | 0 <= i < k :: log[i] <= now - window
    ensures forall i | k <= i < |log| :: log[i] > now - window
  {
    if log != [] && log[0] <= now - window {
      var j := EvictedIsSuffix(log[1..], now, window);
      k := j + 1;
      assert forall i | 0 < i < |log| :: log[i] == log[1..][i - 1];
    } else {
      k := 0;
    }
  }

  /** The log after a call, and the wait it answers; zero is a grant. */
  function Script(log: seq<int>, now: int, limit: nat, window: int): (seq<int>, int)
    requires limit >= 1
  {
    var kept := Evicted(log, now, window);
    if |kept| < limit then (kept + [now], 0) else (kept, kept[0] + window - now)
  }

  /** A log whose grants are all a window old answers like no log. */
  lemma OldLogIsNoLog(log: seq<int>, now: int, limit: nat, window: int)
    requires limit >= 1 && forall i | 0 <= i < |log| :: log[i] + window <= now
    ensures Script(log, now, limit, window) == Script([], now, limit, window)
  {
    AllEvicted(log, now, window);
  }

  lemma {:induction false} AllEvicted(log: seq<int>, now: int, window: int)
    requires forall i | 0 <= i < |log| :: log[i] + window <= now
    ensures Evicted(log, now, window) == []
  {
    if log != [] { AllEvicted(log[1..], now, window); }
  }

  // ----- whole histories of a key that expires

  /** The time to live a grant gives the key: the window in whole milliseconds and a second more. */
  function TimeToLive(window: int): int { 1000 * ((window + 999) / 1000) + 1_000_000 }

  /** What a key holds when it is read. Only a grant renews it, so it lives on from its newest grant. */
  function Read(log: seq<int>, now: int, window: int): seq<int> {
    if log != [] && now >= log[|log| - 1] + TimeToLive(window) then [] else log
  }

  /** The log after a history of calls, if the key never expires. */
  function After(calls: seq<int>, limit: nat, window: int): seq<int>
    requires limit >= 1
  {
    if calls == [] then []
    else Script(After(calls[..|calls| - 1], limit, window), calls[|calls| - 1], limit, window).0
  }

  function AfterExpiring(calls: seq<int>, limit: nat, window: int): seq<int>
    requires limit >= 1
  {
    if calls == [] then []
    else
      var now := calls[|calls| - 1];
      Script(Read(AfterExpiring(calls[..|calls| - 1], limit, window), now, window), now, limit, window).0
  }

  /** What the last call of a history is answered. */
  function Answer(calls: seq<int>, limit: nat, window: int): int
    requires limit >= 1 && calls != []
  {
    Script(After(calls[..|calls| - 1], limit, window), calls[|calls| - 1], limit, window).1
  }

  function AnswerExpiring(calls: seq<int>, limit: nat, window: int): int
    requires limit >= 1 && calls != []
  {
    var now := calls[|calls| - 1];
    Script(Read(AfterExpiring(calls[..|calls| - 1], limit, window), now, window), now, limit, window).1
  }

  lemma {:induction false} LogIsOrdered(calls: seq<int>, limit: nat, window: int)
    requires limit >= 1 && Ordered(calls)
    ensures var log := After(calls, limit, window);
            Ordered(log) && (log != [] ==> calls != [] && log[|log| - 1] <= calls[|calls| - 1])
  {
    if calls != [] {
      var init, now := calls[..|calls| - 1], calls[|calls| - 1];
      LogIsOrdered(init, limit, window);
      ScriptKeepsOrder(After(init, limit, window), now, limit, window);
    }
  }

  lemma ScriptKeepsOrder(log: seq<int>, now: int, limit: nat, window: int)
    requires limit >= 1 && Ordered(log) && (log != [] ==> log[|log| - 1] <= now)
    ensures var after := Script(log, now, limit, window).0;
            Ordered(after) && (after != [] ==> after[|after| - 1] <= now)
  {
    var k := EvictedIsSuffix(log, now, window);
    var kept := log[k..];
    assert forall i | 0 <= i < |kept| :: kept[i] == log[k + i] <= log[|log| - 1];
  }

  /** A key that may have expired answers like one that never does. */
  lemma ReadIsInvisible(log: seq<int>, now: int, limit: nat, window: int)
    requires limit >= 1 && window > 0 && Ordered(log)
    ensures Script(Read(log, now, window), now, limit, window) == Script(log, now, limit, window)
  {
    if Read(log, now, window) != log {
      OldLogIsNoLog(log, now, limit, window);
    }
  }

  /** Over every history of calls the expiring key holds and answers the same as one that never expires. */
  lemma {:induction false} ExpiryIsInvisible(calls: seq<int>, limit: nat, window: int)
    requires limit >= 1 && window > 0 && Ordered(calls)
    ensures AfterExpiring(calls, limit, window) == After(calls, limit, window)
    ensures calls != [] ==> AnswerExpiring(calls, limit, window) == Answer(calls, limit, window)
  {
    if calls != [] {
      var init := calls[..|calls| - 1];
      ExpiryIsInvisible(init, limit, window);
      LogIsOrdered(init, limit, window);
      ReadIsInvisible(After(init, limit, window), calls[|calls| - 1], limit, window);
    }
  }

  // ----- waiting

  /** Waiting the answered time, with nobody else granted meanwhile, is enough; no shorter wait is. */
  lemma WaitIsExact(log: seq<int>, now: int, limit: nat, window: int, later: int)
    requires limit >= 1 && Ordered(log) && |log| <= limit && later >= now
    requires Script(log, now, limit, window).1 != 0
    ensures var (kept, wait) := Script(log, now, limit, window);
            wait > 0 && (Script(kept, later, limit, window).1 == 0 <==> later >= now + wait)
  {
    var k := EvictedIsSuffix(log, now, window);
    var kept := Evicted(log, now, window);
    assert kept[0] == log[k];
    var j := EvictedIsSuffix(kept, later, window);
  }

  /** The log is the newest grants; the others are at least a window old. */
  ghost predicate Consistent(limit: nat, window: int, log: seq<int>, grants: seq<int>, clock: int) {
    && limit >= 1 && window > 0 && |log| <= limit
    && |log| <= |grants| && log == grants[|grants| - |log|..]
    && Ordered(grants) && Spaced(grants, limit, window)
    && (forall i | 0 <= i < |grants| :: grants[i] <= clock)
    && (forall i | 0 <= i < |grants| - |log| :: grants[i] <= clock - window)
  }

  lemma ConsistentGrant(limit: nat, window: int, log: seq<int>, grants: seq<int>, now: int)
    requires Consistent(limit, window, log, grants, now) && |log| < limit
    ensures Consistent(limit, window, log + [now], grants + [now], now)
  {
    assert (grants + [now])[|grants| - |log|..] == log + [now];
  }

  lemma ConsistentLater(limit: nat, window: int, log: seq<int>, grants: seq<int>, clock: int, now: int)
    requires Consistent(limit, window, log, grants, clock) && now >= clock
    ensures Consistent(limit, window, log, grants, now)
  {
  }

  lemma ConsistentDrop(limit: nat, window: int, log: seq<int>, grants: seq<int>, now: int)
    requires Consistent(limit, window, log, grants, now) && log != [] && log[0] <= now - window
    ensures Consistent(limit, window, log[1..], grants, now)
  {
    assert log[0] == grants[|grants| - |log|];
  }

  /** The limiter, with the history of its grants and the latest clock reading. */
  class Limiter {
    const limit: nat
    const window: int
    var log: seq<int>
    ghost var grants: seq<int>
    ghost var clock: int

    ghost predicate Valid()
      reads this
    {
      Consistent(limit, window, log, grants, clock)
    }

    constructor (limit: nat, window: int, clock: int)
      requires limit >= 1 && window > 0
      ensures Valid() && grants == [] && log == [] && this.limit == limit && this.window == window
                && this.clock == clock
    {
      this.limit, this.window, log := limit, window, [];
      grants, this.clock := [], clock;
    }

    /** Drop what is a window old, from the front. */
    method Evict(now: int)
      requires Valid() && now >= clock
      modifies this`log
      ensures log == Evicted(old(log), now, window) && |log| <= |old(log)|
      ensures Consistent(limit, window, log, grants, now) && (log != [] ==> log[0] > now - window)
    {
      hide Consistent;
      ConsistentLater(limit, window, log, grants, clock, now);
      while log != [] && log[0] <= now - window
        invariant Evicted(log, now, window) == Evicted(old(log), now, window)
        invariant |log| <= |old(log)| && Consistent(limit, window, log, grants, now)
        decreases |log|
      {
        ConsistentDrop(limit, window, log, grants, now);
        log := log[1..];
      }
    }

    /** One atomic call at clock reading `now`. */
    method Call(now: int) returns (wait: int)
      requires Valid() && now >= clock
      modifies this
      ensures Valid() && clock == now && (log, wait) == Script(old(log), now, limit, window)
      ensures wait >= 0 && grants == if wait == 0 then old(grants) + [now] else old(grants)
    {
      hide Consistent, Evicted;
      assert limit >= 1 by { Positive(); }
      Evict(now);
      clock := now;
      if |log| < limit {
        ConsistentGrant(limit, window, log, grants, now);
        log, grants := log + [now], grants + [now];
        return 0;
      }
      return log[0] + window - now;
    }

    lemma Positive()
      requires Valid()
      ensures limit >= 1 && window > 0
    {
    }

    /** With nobody else in between, the second attempt after the answered wait is granted. */
    method AcquireAlone(now: int, late: nat) returns (at: int)
      requires Valid() && now >= clock
      modifies this
      ensures Valid() && grants == old(grants) + [at] && at >= now
    {
      var wait := Call(now);
      if wait == 0 { return now; }
      LogOrdered();
      WaitIsExact(old(log), now, limit, window, now + wait + late);
      at := now + wait + late;
      wait := Call(at);
    }

    twostate lemma LogOrdered()
      requires old(Valid())
      ensures Ordered(old(log))
    {
      forall i, j | 0 <= i <= j < |old(log)| ensures old(log)[i] <= old(log)[j] {
        var b := |old(grants)| - |old(log)|;
        assert old(log)[i] == old(grants)[b + i] && old(log)[j] == old(grants)[b + j];
      }
    }

    /** The limit over the whole history. */
    lemma NeverOverLimit(t: int)
      requires Valid()
      ensures CountIn(grants, t, window) <= limit
    {
      WindowHoldsLimit(grants, limit, window, t);
    }
  }
}
