/** Pooling weights. The pinning loop computes the water-filling of the raw weights: floor where scaling
    would fall below it, one common scale everywhere else, total one. */
module Pooling {
  import opened RealArith
  import opened Wrappers

  ghost predicate NonNegative(x: seq<real>) { forall i | 0 <= i < |x| :: x[i] >= 0.0 }

  ghost predicate Distribution(x: seq<real>) { NonNegative(x) && Sum(x) == 1.0 }

  // ----- pinned weights

  /** The raw weight of the names that are not pinned. */
  function FreeSum(raw: seq<real>, pinned: seq<bool>): real
    requires |raw| == |pinned|
  {
    if raw == [] then 0.0
    else FreeSum(raw[..|raw| - 1], pinned[..|raw| - 1]) + if pinned[|raw| - 1] then 0.0 else raw[|raw| - 1]
  }

  function Count(pinned: seq<bool>): nat {
    if pinned == [] then 0 else Count(pinned[..|pinned| - 1]) + if pinned[|pinned| - 1] then 1 else 0
  }

  /** Floor where pinned, scaled elsewhere. */
  function Floored(raw: seq<real>, pinned: seq<bool>, floor: real, c: real): (w: seq<real>)
    requires |raw| == |pinned|
    ensures |w| == |raw|
  {
    seq(|raw|, i requires 0 <= i < |raw| => if pinned[i] then floor else Times(raw[i], c))
  }

  /** The water-filling of raw at scale c. */
  function Filled(raw: seq<real>, floor: real, c: real): (w: seq<real>)
    ensures |w| == |raw|
  {
    seq(|raw|, i requires 0 <= i < |raw| => if Times(raw[i], c) < floor then floor else Times(raw[i], c))
  }

  lemma {:induction false} FlooredSum(raw: seq<real>, pinned: seq<bool>, floor: real, c: real)
    requires |raw| == |pinned|
    ensures Sum(Floored(raw, pinned, floor, c)) == Times(floor, Count(pinned) as real) + Times(FreeSum(raw, pinned), c)
  {
    hide Times;
    if raw != [] {
      var n := |raw| - 1;
      var k, s := Count(pinned[..n]), FreeSum(raw[..n], pinned[..n]);
      FlooredSum(raw[..n], pinned[..n], floor, c);
      FlooredFront(raw, pinned, floor, c);
      TimesAdd(k as real, 1.0, floor);
      TimesOne(floor);
      TimesAdd(s, raw[n], c);
    } else {
      TimesZero(floor);
      TimesZero(c);
    }
  }

  lemma FlooredFront(raw: seq<real>, pinned: seq<bool>, floor: real, c: real)
    requires |raw| == |pinned| > 0
    ensures Floored(raw, pinned, floor, c)[..|raw| - 1] == Floored(raw[..|raw| - 1], pinned[..|raw| - 1], floor, c)
    ensures Floored(raw, pinned, floor, c)[|raw| - 1] == if pinned[|raw| - 1] then floor else Times(raw[|raw| - 1], c)
  {
    hide Times;
  }

  /** Pointwise larger weights have a larger sum, and equal sums only if they are the same. */
  lemma {:induction false} SumMonotone(x: seq<real>, y: seq<real>)
    requires |x| == |y| && forall i | 0 <= i < |x| :: x[i] <= y[i]
    ensures Sum(x) <= Sum(y)
    ensures Sum(x) == Sum(y) ==> x == y
  {
    if x != [] {
      var n := |x| - 1;
      SumMonotone(x[..n], y[..n]);
      if Sum(x) == Sum(y) {
        assert x == x[..n] + [x[n]] && y == y[..n] + [y[n]];
      }
    }
  }

  lemma {:induction false} FreeSumNonNegative(raw: seq<real>, pinned: seq<bool>)
    requires |raw| == |pinned| && NonNegative(raw)
    ensures FreeSum(raw, pinned) >= 0.0
    ensures forall i | 0 <= i < |raw| && !pinned[i] :: raw[i] <= FreeSum(raw, pinned)
  {
    if raw != [] {
      var n := |raw| - 1;
      FreeSumNonNegative(raw[..n], pinned[..n]);
      assert forall i | 0 <= i < n :: raw[..n][i] == raw[i] && pinned[..n][i] == pinned[i];
    }
  }

  lemma {:induction false} CountBounds(pinned: seq<bool>)
    ensures Count(pinned) <= |pinned|
    ensures Count(pinned) == |pinned| <==> forall i | 0 <= i < |pinned| :: pinned[i]
  {
    if pinned != [] {
      var n := |pinned| - 1;
      CountBounds(pinned[..n]);
      assert forall i | 0 <= i < n :: pinned[..n][i] == pinned[i];
      if forall i | 0 <= i < n :: pinned[..n][i] {
        assert pinned[n] ==> forall i | 0 <= i < |pinned| :: pinned[i];
      }
    }
  }

  // ----- one round of the loop

  /** Scale c pins exactly the names it would leave under the floor. */
  ghost predicate PinsAt(raw: seq<real>, pinned: seq<bool>, floor: real, c: real) {
    |raw| == |pinned| && forall i | 0 <= i < |raw| :: pinned[i] <==> Times(raw[i], c) < floor
  }

  lemma RemainingPositive(floor: real, k: real, n: real)
    requires floor >= 0.0 && Times(floor, n) <= 1.0 && 0.0 <= k < n
    ensures 1.0 - Times(floor, k) > 0.0
  {
    if floor > 0.0 {
      TimesStrict(k, n, floor);
    }
  }

  /** Pinning everyone the scale leaves under the floor cannot lower the total, so somebody stays free. */
  lemma PinMore(raw: seq<real>, before: seq<bool>, pinned: seq<bool>, floor: real, c: real)
    requires |before| == |raw| && floor >= 0.0 && Times(floor, |raw| as real) <= 1.0
    requires Sum(Floored(raw, before, floor, c)) == 1.0 && exists i :: 0 <= i < |raw| && !before[i]
    requires PinsAt(raw, pinned, floor, c) && forall i | 0 <= i < |raw| && before[i] :: pinned[i]
    ensures Sum(Floored(raw, pinned, floor, c)) >= 1.0
    ensures exists i :: 0 <= i < |raw| && !pinned[i]
  {
    hide Times;
    SumMonotone(Floored(raw, before, floor, c), Floored(raw, pinned, floor, c));
    var i :| 0 <= i < |raw| && !before[i];
    var x, y := Floored(raw, before, floor, c), Floored(raw, pinned, floor, c);
    assert pinned[i] ==> x[i] != y[i];
    if forall j | 0 <= j < |raw| :: pinned[j] {
      CountBounds(pinned);
      FlooredSum(raw, pinned, floor, c);
      NobodyFree(raw, pinned);
      TimesZero(c);
      assert false;
    }
  }

  lemma {:induction false} NobodyFree(raw: seq<real>, pinned: seq<bool>)
    requires |raw| == |pinned| && forall i | 0 <= i < |raw| :: pinned[i]
    ensures FreeSum(raw, pinned) == 0.0
  {
    if raw != [] { NobodyFree(raw[..|raw| - 1], pinned[..|raw| - 1]); }
  }

  lemma {:induction false} NobodyPinned(raw: seq<real>, pinned: seq<bool>)
    requires |raw| == |pinned| && forall i | 0 <= i < |raw| :: !pinned[i]
    ensures FreeSum(raw, pinned) == Sum(raw) && Count(pinned) == 0
  {
    if raw != [] { NobodyPinned(raw[..|raw| - 1], pinned[..|raw| - 1]); }
  }

  /** The free names have positive raw weight. */
  lemma FreeIsPositive(raw: seq<real>, pinned: seq<bool>, floor: real, c: real)
    requires Distribution(raw) && floor >= 0.0 && 0.0 < c
    requires PinsAt(raw, pinned, floor, c) && exists i :: 0 <= i < |raw| && !pinned[i]
    ensures FreeSum(raw, pinned) > 0.0
  {
    FreeSumNonNegative(raw, pinned);
    if floor == 0.0 {
      forall i | 0 <= i < |raw| ensures !pinned[i] { TimesMono(0.0, raw[i], c); TimesZero(c); }
      NobodyPinned(raw, pinned);
    } else {
      var i :| 0 <= i < |raw| && !pinned[i];
      if raw[i] == 0.0 { TimesZero(c); }
    }
  }

  /** The next scale: positive, no larger than the last, and the total is one again. */
  lemma RoundScale(raw: seq<real>, pinned: seq<bool>, floor: real, c: real)
    requires Distribution(raw) && floor >= 0.0 && Times(floor, |raw| as real) <= 1.0 && 0.0 < c
    requires PinsAt(raw, pinned, floor, c) && exists i :: 0 <= i < |raw| && !pinned[i]
    requires Sum(Floored(raw, pinned, floor, c)) >= 1.0
    ensures FreeSum(raw, pinned) > 0.0
    ensures var d := (1.0 - Times(floor, Count(pinned) as real)) / FreeSum(raw, pinned);
            0.0 < d <= c && Sum(Floored(raw, pinned, floor, d)) == 1.0
  {
    hide Times;
    var k, s := Count(pinned) as real, FreeSum(raw, pinned);
    CountBounds(pinned);
    FreeIsPositive(raw, pinned, floor, c);
    RemainingPositive(floor, k, |raw| as real);
    var left := 1.0 - Times(floor, k);
    var d := left / s;
    DivSign(left, s);
    TimesDiv(left, s);
    FlooredSum(raw, pinned, floor, c);
    FlooredSum(raw, pinned, floor, d);
    if d > c { TimesStrict(c, d, s); }
  }

  /** A smaller scale still pins what a larger one pinned. */
  lemma PinsStay(raw: seq<real>, pinned: seq<bool>, floor: real, c: real, d: real)
    requires NonNegative(raw) && PinsAt(raw, pinned, floor, c) && d <= c
    ensures forall i | 0 <= i < |raw| && pinned[i] :: Times(raw[i], d) < floor
  {
    forall i | 0 <= i < |raw| && pinned[i] ensures Times(raw[i], d) < floor { TimesMono(d, c, raw[i]); }
  }

  // ----- the loop

  /** What the configuration and the caller guarantee. */
  ghost predicate Poolable(raw: seq<real>, floor: real) {
    Distribution(raw) && floor >= 0.0 && Times(floor, |raw| as real) <= 1.0
  }

  /** The names below the floor at scale c are pinned, somebody is free, and the total has not dropped. */
  ghost predicate Ready(raw: seq<real>, pinned: seq<bool>, floor: real, c: real) {
    && 0.0 < c <= 1.0 && PinsAt(raw, pinned, floor, c)
    && Sum(Floored(raw, pinned, floor, c)) >= 1.0
    && exists i :: 0 <= i < |raw| && !pinned[i]
  }

  function Below(raw: seq<real>, pinned: seq<bool>, floor: real, d: real): (more: seq<bool>)
    requires |raw| == |pinned|
    ensures |more| == |raw|
  {
    seq(|raw|, i requires 0 <= i < |raw| => pinned[i] || Times(raw[i], d) < floor)
  }

  function Scale(raw: seq<real>, pinned: seq<bool>, floor: real): real
    requires |raw| == |pinned| && FreeSum(raw, pinned) != 0.0
  {
    (1.0 - Times(floor, Count(pinned) as real)) / FreeSum(raw, pinned)
  }

  /** One round: either the weights are the water-filling at the new scale, or the next round is ready. */
  lemma Round(raw: seq<real>, pinned: seq<bool>, floor: real, c: real)
    requires Poolable(raw, floor) && Ready(raw, pinned, floor, c)
    ensures FreeSum(raw, pinned) > 0.0 && Count(pinned) < |raw|
    ensures var d := Scale(raw, pinned, floor);
            var more := Below(raw, pinned, floor, d);
            && 0.0 < d <= 1.0
            && (more != pinned ==> Ready(raw, more, floor, d))
            && (more == pinned ==>
                  Floored(raw, pinned, floor, d) == Filled(raw, floor, d) && Sum(Filled(raw, floor, d)) == 1.0)
  {
    hide Times, Sum, FreeSum, Count;
    CountBounds(pinned);
    RoundScale(raw, pinned, floor, c);
    var d := Scale(raw, pinned, floor);
    var more := Below(raw, pinned, floor, d);
    PinsStay(raw, pinned, floor, c, d);
    PinMore(raw, pinned, more, floor, d);
    if more == pinned {
      assert Floored(raw, pinned, floor, d) == Filled(raw, floor, d);
    }
  }

  /** Equal weights, the fallback. */
  function Equal(n: nat): (w: seq<real>)
    ensures |w| == n
  {
    seq(n, i requires 0 <= i < n => 1.0 / n as real)
  }

  /** The weights and whether the fallback was taken. On a distribution with floor * n <= 1 the fallback is
      never taken: the result is the water-filling of raw at one scale in (0, 1], and sums to one. */
  method ApplyFloor(raw: seq<real>, floor: real) returns (w: seq<real>, fellBack: bool)
    ensures |w| == |raw| && (fellBack ==> w == Equal(|raw|))
    ensures Poolable(raw, floor) ==>
              !fellBack && Sum(w) == 1.0 && exists c :: 0.0 < c <= 1.0 && w == Filled(raw, floor, c)
  {
    hide Times, Sum, FreeSum, Count, Ready, Poolable;
    ghost var good := Poolable(raw, floor);
    var pinned := seq(|raw|, i requires 0 <= i < |raw| => raw[i] < floor);
    ghost var c := 1.0;
    if good { FirstRound(raw, pinned, floor); }
    CountBounds(pinned);
    while true
      invariant |pinned| == |raw| && Count(pinned) <= |raw| && (good ==> Ready(raw, pinned, floor, c))
      decreases |raw| - Count(pinned)
    {
      if good { Round(raw, pinned, floor, c); }
      if Count(pinned) == |raw| || FreeSum(raw, pinned) <= 0.0 {
        return Equal(|raw|), true;
      }
      var d := Scale(raw, pinned, floor);
      var more := Below(raw, pinned, floor, d);
      if more == pinned {
        return Floored(raw, pinned, floor, d), false;
      }
      MorePinned(pinned, more);
      pinned, c := more, d;
    }
  }

  lemma FirstRound(raw: seq<real>, pinned: seq<bool>, floor: real)
    requires Poolable(raw, floor) && |pinned| == |raw| && forall i | 0 <= i < |raw| :: pinned[i] <==> raw[i] < floor
    ensures Ready(raw, pinned, floor, 1.0)
  {
    hide Times;
    var none := seq(|raw|, i requires 0 <= i < |raw| => false);
    forall i | 0 <= i < |raw| ensures Times(raw[i], 1.0) == raw[i] { TimesOne(raw[i]); }
    assert Floored(raw, none, floor, 1.0) == raw;
    assert raw != [];
    assert !none[0];
    PinMore(raw, none, pinned, floor, 1.0);
  }

  lemma {:induction false} MorePinned(pinned: seq<bool>, more: seq<bool>)
    requires |pinned| == |more| && forall i | 0 <= i < |pinned| && pinned[i] :: more[i]
    ensures Count(pinned) <= Count(more) && (pinned != more ==> Count(pinned) < Count(more))
    ensures Count(more) <= |more|
  {
    CountBounds(more);
    if pinned != [] {
      var n := |pinned| - 1;
      MorePinned(pinned[..n], more[..n]);
      if pinned[..n] == more[..n] && pinned[n] == more[n] {
        assert pinned == pinned[..n] + [pinned[n]] == more;
      }
    }
  }

  /** The water-filling is unique: any two scales that make the total one give the same weights. */
  lemma FillingIsUnique(raw: seq<real>, floor: real, c: real, d: real)
    requires NonNegative(raw) && c <= d
    requires Sum(Filled(raw, floor, c)) == Sum(Filled(raw, floor, d))
    ensures Filled(raw, floor, c) == Filled(raw, floor, d)
  {
    forall i | 0 <= i < |raw| ensures Filled(raw, floor, c)[i] <= Filled(raw, floor, d)[i] { TimesMono(c, d, raw[i]); }
    SumMonotone(Filled(raw, floor, c), Filled(raw, floor, d));
  }

  /** It keeps the order of the raw weights and the floor. */
  lemma FillingKeepsOrder(raw: seq<real>, floor: real, c: real, i: nat, j: nat)
    requires i < |raw| && j < |raw| && raw[i] <= raw[j] && c >= 0.0
    ensures floor <= Filled(raw, floor, c)[i] <= Filled(raw, floor, c)[j]
  {
    TimesMono(raw[i], raw[j], c);
  }

  // ----- the raw weights

  datatype History = History(forecasts: seq<real>, outcomes: seq<real>)

  function ErrorOf(p: real, y: real, omega: real): real { omega * (p - y) * (p - y) }

  function SquaredErrors(p: seq<real>, y: seq<real>, omega: real): (s: seq<real>)
    requires |p| == |y|
    ensures |s| == |p|
  {
    seq(|p|, i requires 0 <= i < |p| => ErrorOf(p[i], y[i], omega))
  }

  function Brier(p: seq<real>, y: seq<real>, omega: real): real
    requires |p| == |y| > 0
  {
    Sum(SquaredErrors(p, y, omega)) / |y| as real
  }

  /** Skill against always forecasting the base rate; never negative. */
  function Skill(h: History, baseRate: real, omega: real): (s: real)
    requires |h.forecasts| == |h.outcomes| > 0
    ensures s >= 0.0
  {
    var base := Brier(seq(|h.outcomes|, _ => baseRate), h.outcomes, omega);
    var bss := if base > 0.0 then 1.0 - Brier(h.forecasts, h.outcomes, omega) / base else 0.0;
    if bss > 0.0 then bss else 0.0
  }

  function Skills(hs: seq<History>, baseRate: real, omega: real): (s: seq<real>)
    requires forall h | h in hs :: |h.forecasts| == |h.outcomes| > 0
    ensures |s| == |hs| && NonNegative(s)
  {
    seq(|hs|, i requires 0 <= i < |hs| => Skill(hs[i], baseRate, omega))
  }

  function Scaled(x: seq<real>, c: real): (y: seq<real>)
    ensures |y| == |x|
  {
    seq(|x|, i requires 0 <= i < |x| => Times(x[i], c))
  }

  lemma {:induction false} ScaledSum(x: seq<real>, c: real)
    ensures Sum(Scaled(x, c)) == Times(Sum(x), c)
  {
    hide Times;
    if x == [] {
      TimesZero(c);
    } else {
      var n := |x| - 1;
      ScaledSum(x[..n], c);
      assert Scaled(x, c)[..n] == Scaled(x[..n], c);
      TimesAdd(Sum(x[..n]), x[n], c);
    }
  }

  lemma {:induction false} EqualSum(n: nat, c: real)
    ensures Sum(seq(n, _ => c)) == Times(n as real, c)
  {
    hide Times;
    if n == 0 {
      TimesZero(c);
    } else {
      EqualSum(n - 1, c);
      assert seq(n, _ => c)[..n - 1] == seq(n - 1, _ => c);
      TimesAdd((n - 1) as real, 1.0, c);
      TimesOne(c);
    }
  }

  lemma EqualIsDistribution(n: nat)
    requires n > 0
    ensures Distribution(Equal(n))
  {
    hide Times;
    EqualSum(n, 1.0 / n as real);
    assert Equal(n) == seq(n, _ => 1.0 / n as real);
    TimesDiv(1.0, n as real);
  }

  /** Proportional to skill, equal if nobody has any; None when a history is empty, where a mean would be divided by
      zero. */
  method SkillWeights(hs: seq<History>, baseRate: real, omega: real) returns (w: Option<seq<real>>)
    requires hs != [] && forall h | h in hs :: |h.forecasts| == |h.outcomes|
    ensures w.Some? <==> forall h | h in hs :: h.outcomes != []
    ensures w.Some? ==> |w.value| == |hs| && Distribution(w.value)
    ensures w.Some? ==> var s := Skills(hs, baseRate, omega);
                        if Sum(s) > 0.0 then Scaled(w.value, Sum(s)) == s else w.value == Equal(|hs|)
  {
    hide Skill, Times, Sum;
    var s: seq<real> := [];
    for i := 0 to |hs|
      invariant |s| == i && forall j | 0 <= j < i :: hs[j].outcomes != [] && s[j] == Skill(hs[j], baseRate, omega)
    {
      if hs[i].outcomes == [] { return None; }
      s := s + [Skill(hs[i], baseRate, omega)];
    }
    assert s == Skills(hs, baseRate, omega);
    var total := Sum(s);
    if total <= 0.0 {
      EqualIsDistribution(|hs|);
      return Some(Equal(|hs|));
    }
    w := Some(seq(|s|, i requires 0 <= i < |s| => s[i] / total));
    forall i | 0 <= i < |s| ensures w.value[i] >= 0.0 && Times(w.value[i], total) == s[i] {
      DivNonNeg(s[i], total);
      TimesDiv(s[i], total);
    }
    assert Scaled(w.value, total) == s;
    ScaledSum(w.value, total);
    OnlyOne(Sum(w.value), total);
  }

  lemma OnlyOne(x: real, total: real)
    requires total > 0.0 && Times(x, total) == total
    ensures x == 1.0
  {
    TimesOne(total);
    if x < 1.0 { TimesStrict(x, 1.0, total); } else if x > 1.0 { TimesStrict(1.0, x, total); }
  }

  /** A mixture of equal and skill weights. */
  function Mix(skill: seq<real>, lam: real): (raw: seq<real>)
    requires skill != []
    ensures |raw| == |skill|
  {
    seq(|skill|, i requires 0 <= i < |skill| => Times(Equal(|skill|)[i], 1.0 - lam) + Times(skill[i], lam))
  }

  lemma {:induction false} PairSum(x: seq<real>, y: seq<real>, z: seq<real>)
    requires |x| == |y| == |z| && forall i | 0 <= i < |x| :: z[i] == x[i] + y[i]
    ensures Sum(z) == Sum(x) + Sum(y)
  {
    if x != [] { PairSum(x[..|x| - 1], y[..|x| - 1], z[..|x| - 1]); }
  }

  lemma MixIsDistribution(skill: seq<real>, lam: real)
    requires skill != [] && Distribution(skill) && 0.0 <= lam <= 1.0
    ensures Distribution(Mix(skill, lam))
  {
    hide Times, Sum;
    var e := Equal(|skill|);
    EqualIsDistribution(|skill|);
    ScaledSum(e, 1.0 - lam);
    ScaledSum(skill, lam);
    PairSum(Scaled(e, 1.0 - lam), Scaled(skill, lam), Mix(skill, lam));
    TimesOne(lam);
    TimesOne(1.0 - lam);
    forall i | 0 <= i < |skill| ensures Mix(skill, lam)[i] >= 0.0 {
      TimesMono(0.0, e[i], 1.0 - lam);
      TimesMono(0.0, skill[i], lam);
      TimesZero(lam);
      TimesZero(1.0 - lam);
    }
  }

  /** The pooling weights of a horizon: a distribution, nobody under the floor, in the order of the mixture. */
  method PoolWeights(skill: seq<real>, lam: real, floor: real) returns (w: seq<real>)
    requires skill != [] && Distribution(skill) && 0.0 <= lam <= 1.0
    requires floor >= 0.0 && Times(floor, |skill| as real) <= 1.0
    ensures |w| == |skill| && Sum(w) == 1.0 && forall i | 0 <= i < |w| :: w[i] >= floor
    ensures forall i, j | 0 <= i < |w| && 0 <= j < |w| && Mix(skill, lam)[i] <= Mix(skill, lam)[j] :: w[i] <= w[j]
  {
    hide Times, Sum, Mix;
    MixIsDistribution(skill, lam);
    var fellBack;
    w, fellBack := ApplyFloor(Mix(skill, lam), floor);
    ghost var c :| 0.0 < c <= 1.0 && w == Filled(Mix(skill, lam), floor, c);
    forall i, j | 0 <= i < |w| && 0 <= j < |w| && Mix(skill, lam)[i] <= Mix(skill, lam)[j]
      ensures floor <= w[i] <= w[j]
    {
      FillingKeepsOrder(Mix(skill, lam), floor, c, i, j);
    }
    forall i | 0 <= i < |w| ensures w[i] >= floor { FillingKeepsOrder(Mix(skill, lam), floor, c, i, i); }
  }

  // ----- what scores and mixtures mean

  lemma {:induction false} SumIsZeroIff(x: seq<real>)
    requires NonNegative(x)
    ensures Sum(x) >= 0.0
    ensures Sum(x) == 0.0 <==> forall i | 0 <= i < |x| :: x[i] == 0.0
  {
    if x != [] {
      var n := |x| - 1;
      SumIsZeroIff(x[..n]);
      assert forall i | 0 <= i < n :: x[..n][i] == x[i];
    }
  }

  lemma ErrorIsZeroIff(a: real, b: real, omega: real)
    requires omega > 0.0
    ensures ErrorOf(a, b, omega) >= 0.0 && (ErrorOf(a, b, omega) == 0.0 <==> a == b)
  {
    var d := a - b;
    assert ErrorOf(a, b, omega) == Times(omega, Times(d, d));
    hide ErrorOf, Times;
    if d == 0.0 {
      TimesZero(0.0);
      TimesZero(omega);
    } else {
      NonzeroSquare(d);
      TimesPositive(omega, Times(d, d));
    }
  }

  /** The score is never negative, and zero exactly for forecasts that were all right. */
  lemma BrierIsZeroIff(p: seq<real>, y: seq<real>, omega: real)
    requires |p| == |y| > 0 && omega > 0.0
    ensures Brier(p, y, omega) >= 0.0
    ensures Brier(p, y, omega) == 0.0 <==> p == y
  {
    hide ErrorOf;
    var s := SquaredErrors(p, y, omega);
    forall i | 0 <= i < |p| ensures s[i] >= 0.0 && (s[i] == 0.0 <==> p[i] == y[i]) {
      ErrorIsZeroIff(p[i], y[i], omega);
    }
    SumIsZeroIff(s);
    DivNonNeg(Sum(s), |y| as real);
    DivMul(Sum(s), |y| as real);
  }

  /** The same forecast every time. */
  function Always(n: nat, c: real): (p: seq<real>)
    ensures |p| == n
  {
    seq(n, _ => c)
  }

  /** How the summed score of a constant depends on the constant, when n outcomes sum to s. */
  function Cost(n: real, s: real, c: real, omega: real): real { omega * (n * c * c - 2.0 * c * s) }

  lemma {:induction false} ConstantErrors(y: seq<real>, c: real, omega: real)
    ensures Sum(SquaredErrors(Always(|y|, c), y, omega))
            == Sum(SquaredErrors(Always(|y|, 0.0), y, omega)) + Cost(|y| as real, Sum(y), c, omega)
  {
    if y != [] {
      var n := |y| - 1;
      ConstantErrors(y[..n], c, omega);
      ErrorsFront(y, c, omega);
      ErrorsFront(y, 0.0, omega);
      OneMore(n as real, c, Sum(y[..n]), y[n], omega);
      hide ErrorOf, Cost;
    }
  }

  lemma ErrorsFront(y: seq<real>, c: real, omega: real)
    requires y != []
    ensures var n := |y| - 1;
            SquaredErrors(Always(|y|, c), y, omega)
            == SquaredErrors(Always(n, c), y[..n], omega) + [ErrorOf(c, y[n], omega)]
  {
    hide ErrorOf;
  }

  lemma OneMore(n: real, c: real, s: real, v: real, omega: real)
    ensures ErrorOf(c, v, omega) + Cost(n, s, c, omega)
            == ErrorOf(0.0, v, omega) + Cost(n + 1.0, s + v, c, omega)
  {
    assert (c - v) * (c - v) == c * c - 2.0 * c * v + v * v;
    assert ErrorOf(c, v, omega) == omega * (c * c - 2.0 * c * v + v * v);
    assert ErrorOf(0.0, v, omega) == omega * (v * v);
    assert (n + 1.0) * c * c - 2.0 * c * (s + v) == (n * c * c - 2.0 * c * s) + (c * c - 2.0 * c * v);
  }

  /** The score is proper: among constant forecasts the mean outcome is the best, and any other one pays for its
      distance from it, squared and weighted. */
  lemma MeanIsBestConstant(y: seq<real>, c: real, omega: real)
    requires y != []
    ensures var m := Sum(y) / |y| as real;
            Brier(Always(|y|, c), y, omega) == Brier(Always(|y|, m), y, omega) + ErrorOf(c, m, omega)
  {
    hide ErrorOf, Cost, Sum, SquaredErrors, Always;
    ConstantErrors(y, c, omega);
    ConstantErrors(y, Sum(y) / |y| as real, omega);
    BestByMean(Sum(SquaredErrors(Always(|y|, c), y, omega)),
               Sum(SquaredErrors(Always(|y|, Sum(y) / |y| as real), y, omega)),
               Sum(SquaredErrors(Always(|y|, 0.0), y, omega)), |y| as real, Sum(y), c, omega);
  }

  lemma BestByMean(a: real, b: real, zero: real, n: real, s: real, c: real, omega: real)
    requires n > 0.0 && a == zero + Cost(n, s, c, omega) && b == zero + Cost(n, s, s / n, omega)
    ensures a / n == b / n + ErrorOf(c, s / n, omega)
  {
    hide ErrorOf, Cost;
    DivMul(s, n);
    FromMean(n, c, s / n, omega, s);
    QuotientGap(a, b, n, ErrorOf(c, s / n, omega));
  }

  lemma FromMean(n: real, c: real, m: real, omega: real, s: real)
    requires s == m * n
    ensures Cost(n, s, c, omega) - Cost(n, s, m, omega) == n * ErrorOf(c, m, omega)
  {
    assert (c - m) * (c - m) == c * c - 2.0 * c * m + m * m;
    assert ErrorOf(c, m, omega) == omega * (c * c - 2.0 * c * m + m * m);
    assert (n * c * c - 2.0 * c * s) - (n * m * m - 2.0 * m * s) == n * (c * c - 2.0 * c * m + m * m) by {
      assert c * s == n * (c * m) && m * s == n * (m * m);
    }
  }

  lemma QuotientGap(a: real, b: real, n: real, d: real)
    requires n > 0.0 && a - b == n * d
    ensures a / n == b / n + d
  {
    DivMul(a, n);
    DivMul(b, n);
    assert (a / n - b / n - d) * n == 0.0;
  }

  /** Skill is the part of the base rate's score that the forecasts saved, and none if they saved nothing. */
  lemma SkillIsExact(h: History, baseRate: real, omega: real)
    requires |h.forecasts| == |h.outcomes| > 0 && omega > 0.0
    ensures var base, own := Brier(Always(|h.outcomes|, baseRate), h.outcomes, omega),
                             Brier(h.forecasts, h.outcomes, omega);
            && (Skill(h, baseRate, omega) > 0.0 <==> own < base)
            && (own <= base ==> Skill(h, baseRate, omega) * base == base - own)
            && Skill(h, baseRate, omega) <= 1.0
            && (Skill(h, baseRate, omega) == 1.0 <==>
                  h.forecasts == h.outcomes && h.outcomes != Always(|h.outcomes|, baseRate))
  {
    var flat := Always(|h.outcomes|, baseRate);
    var base, own := Brier(flat, h.outcomes, omega), Brier(h.forecasts, h.outcomes, omega);
    BrierIsZeroIff(flat, h.outcomes, omega);
    BrierIsZeroIff(h.forecasts, h.outcomes, omega);
    assert seq(|h.outcomes|, _ => baseRate) == flat;
    hide Brier;
    if base > 0.0 {
      DivMul(own, base);
      DivNonNeg(own, base);
      DivSign(own, base);
      var q := own / base;
      assert q * base == own;
      if own < base && q >= 1.0 { MulMono(1.0, q, base); }
      if own >= base && q < 1.0 { MulPositive(1.0 - q, base); }
    }
  }

  /** The mixture keeps the total and shrinks every difference in skill by lambda: zero makes all equal, one gives
      the skill weights. */
  lemma MixIsExact(skill: seq<real>, lam: real, i: nat, j: nat)
    requires skill != [] && Distribution(skill) && i < |skill| && j < |skill|
    ensures Sum(Mix(skill, lam)) == 1.0
    ensures Mix(skill, lam)[i] - Mix(skill, lam)[j] == Times(skill[i] - skill[j], lam)
  {
    hide Times, Sum;
    var e := Equal(|skill|);
    EqualIsDistribution(|skill|);
    ScaledSum(e, 1.0 - lam);
    ScaledSum(skill, lam);
    PairSum(Scaled(e, 1.0 - lam), Scaled(skill, lam), Mix(skill, lam));
    TimesOne(1.0 - lam);
    TimesOne(lam);
    TimesAdd(skill[i] - skill[j], skill[j], lam);
  }
}
