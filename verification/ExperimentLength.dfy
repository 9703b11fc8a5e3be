/** The length of the next experiment: doubled after few hits, halved after many,
    for any minimum and maximum. */
module ExperimentLength {

  const HITS_TO_INC_EXP_TIME := 5
  const HITS_TO_DEC_EXP_TIME := 20

  function Pow2(n: nat): (p: nat)
    ensures p >= 1
  {
    if n == 0 then 1 else 2 * Pow2(n - 1)
  }

  datatype Limits = Limits(min: nat, max: nat, fixed: bool)

  class Length {
    const limits: Limits
    var experimentTime: nat
    ghost var history: seq<nat>    // the hits of every experiment so far

    ghost predicate Valid()
      reads this
    {
      experimentTime == After(limits, limits.min, history)
    }

    constructor (limits: Limits)
      ensures Valid() && this.limits == limits && history == []
    {
      this.limits := limits;
      experimentTime := limits.min;
      history := [];
    }

    /** Whatever the history, the next experiment is not shorter than the minimum if the
        limits are compatible, and is the minimum doubled some number of times if the
        maximum is. */
    method Update(pointsHit: nat)
      requires Valid()
      modifies this
      ensures Valid() && history == old(history) + [pointsHit]
      ensures limits.fixed || 5 < pointsHit < 20 ==> experimentTime == old(experimentTime)
      ensures !limits.fixed && pointsHit <= 5 && 2 * old(experimentTime) <= limits.max ==>
        experimentTime == 2 * old(experimentTime)
      ensures !limits.fixed && pointsHit <= 5 && 2 * old(experimentTime) > limits.max ==> experimentTime == limits.max
      ensures !limits.fixed && pointsHit >= 20 && old(experimentTime) > limits.min ==>
        2 * experimentTime <= old(experimentTime) <= 2 * experimentTime + 1
      ensures !limits.fixed && pointsHit >= 20 && old(experimentTime) <= limits.min ==>
        experimentTime == old(experimentTime)
      ensures Compatible(limits) ==> limits.min <= experimentTime
      ensures limits.min > 0 ==>
        forall n: nat :: limits.max == limits.min * Pow2(n) ==> Doubled(limits, n, experimentTime)
    {
      ghost var time := experimentTime;
      if !limits.fixed {
        if pointsHit <= HITS_TO_INC_EXP_TIME {
          if experimentTime * 2 > limits.max {
            experimentTime := limits.max;
          } else {
            experimentTime := experimentTime * 2;
          }
        } else if experimentTime > limits.min && pointsHit >= HITS_TO_DEC_EXP_TIME {
          experimentTime := experimentTime / 2;
        }
      }
      assert experimentTime == Next(limits, time, pointsHit);
      hide After, Next, Compatible, Doubled, Pow2;
      AfterSnoc(limits, limits.min, history, pointsHit);
      history := history + [pointsHit];
      HistoryKeeps(limits, history);
    }
  }

  function Next(l: Limits, time: nat, pointsHit: nat): nat {
    if l.fixed then time
    else if pointsHit <= HITS_TO_INC_EXP_TIME then (if time * 2 > l.max then l.max else time * 2)
    else if time > l.min && pointsHit >= HITS_TO_DEC_EXP_TIME then time / 2
    else time
  }

  /** The time after a whole history of experiments. */
  function After(l: Limits, time: nat, hits: seq<nat>): nat
    decreases |hits|
  {
    if hits == [] then time else After(l, Next(l, time, hits[0]), hits[1..])
  }

  lemma AfterSnoc(l: Limits, time: nat, hits: seq<nat>, pointsHit: nat)
    ensures After(l, time, hits + [pointsHit]) == Next(l, After(l, time, hits), pointsHit)
  {
    AfterConcat(l, time, hits, [pointsHit]);
    assert [pointsHit][1..] == [];
  }

  /** The minimum, doubled at most `n` times and within the maximum. */
  ghost predicate Doubled(l: Limits, n: nat, time: nat) {
    time <= l.max && exists k: nat :: k <= n && time == l.min * Pow2(k)
  }

  /** What holds of the time after any history. */
  lemma HistoryKeeps(l: Limits, hits: seq<nat>)
    ensures Compatible(l) ==> l.min <= After(l, l.min, hits)
    ensures l.min > 0 ==> forall n: nat :: l.max == l.min * Pow2(n) ==> Doubled(l, n, After(l, l.min, hits))
  {
    hide After, Compatible, Doubled, Pow2;
    if Compatible(l) {
      MinimumKept(l, hits);
    }
    if l.min > 0 {
      forall n: nat | l.max == l.min * Pow2(n) ensures Doubled(l, n, After(l, l.min, hits)) {
        HistoryDoubles(l, n, hits);
      }
    }
  }

  lemma HistoryDoubles(l: Limits, n: nat, hits: seq<nat>)
    requires l.min > 0 && l.max == l.min * Pow2(n)
    ensures Doubled(l, n, After(l, l.min, hits))
  {
    hide After;
    assert Pow2(0) == 1;
    var k := TimesArePowers(l, n, 0, hits);
  }

  // ---- the minimum holds for ever, or not

  /** `time` halves down to exactly the minimum in `m` steps. */
  predicate Rung(l: Limits, time: nat, m: nat) {
    l.min * Pow2(m) <= time < (l.min + 1) * Pow2(m)
  }

  /** In terms of the integer division the code does. */
  lemma RungIsRepeatedHalving(l: Limits, time: nat, m: nat)
    ensures Rung(l, time, m) <==> time / Pow2(m) == l.min
  {
    Division(time, Pow2(m), l.min);
  }

  lemma Division(a: nat, p: nat, q: nat)
    requires p > 0
    ensures q * p <= a < (q + 1) * p <==> a / p == q
  {
    var r := a / p;
    assert a == r * p + a % p;
    if r < q { assert (r + 1) * p <= q * p; }
    if r > q { assert (q + 1) * p <= r * p; }
  }

  lemma RungUp(l: Limits, time: nat, m: nat)
    requires Rung(l, time, m)
    ensures Rung(l, time * 2, m + 1)
  {
    assert l.min * Pow2(m + 1) == 2 * (l.min * Pow2(m));
    assert (l.min + 1) * Pow2(m + 1) == 2 * ((l.min + 1) * Pow2(m));
  }

  lemma RungDown(l: Limits, time: nat, m: nat)
    requires Rung(l, time, m) && time > l.min
    ensures m > 0 && Rung(l, time / 2, m - 1)
  {
    if m > 0 {
      assert l.min * Pow2(m) == 2 * (l.min * Pow2(m - 1));
      assert (l.min + 1) * Pow2(m) == 2 * ((l.min + 1) * Pow2(m - 1));
    }
  }

  lemma NextRung(l: Limits, time: nat, pointsHit: nat, m: nat, n: nat) returns (m': nat)
    requires Rung(l, time, m) && Rung(l, l.max, n)
    ensures Rung(l, Next(l, time, pointsHit), m')
  {
    m' := m;
    if !l.fixed {
      if pointsHit <= HITS_TO_INC_EXP_TIME {
        RungUp(l, time, m);
        m' := if time * 2 > l.max then n else m + 1;
      } else if time > l.min && pointsHit >= HITS_TO_DEC_EXP_TIME {
        RungDown(l, time, m);
        m' := m - 1;
      }
    }
  }

  lemma {:induction false} RungForEver(l: Limits, time: nat, hits: seq<nat>, m: nat, n: nat) returns (m': nat)
    requires Rung(l, time, m) && Rung(l, l.max, n)
    ensures Rung(l, After(l, time, hits), m')
    decreases |hits|
  {
    if hits == [] {
      m' := m;
    } else {
      var k := NextRung(l, time, hits[0], m, n);
      m' := RungForEver(l, Next(l, time, hits[0]), hits[1..], k, n);
    }
  }

  /** The side condition on the limits: halving the maximum again and again hits the minimum. */
  ghost predicate Compatible(l: Limits) {
    exists n: nat :: l.max / Pow2(n) == l.min
  }

  lemma CompatibleIsRung(l: Limits)
    ensures Compatible(l) <==> exists n: nat :: Rung(l, l.max, n)
  {
    forall n: nat ensures Rung(l, l.max, n) <==> l.max / Pow2(n) == l.min {
      RungIsRepeatedHalving(l, l.max, n);
    }
  }

  lemma MinimumKept(l: Limits, hits: seq<nat>)
    requires Compatible(l)
    ensures After(l, l.min, hits) >= l.min
  {
    CompatibleIsRung(l);
    var n: nat :| Rung(l, l.max, n);
    var m := RungForEver(l, l.min, hits, 0, n);
    Powers(l.min, 0, m);
  }

  ghost predicate NeverBelowMin(l: Limits) {
    forall hits :: After(l, l.min, hits) >= l.min
  }

  lemma {:induction false} AfterConcat(l: Limits, time: nat, h1: seq<nat>, h2: seq<nat>)
    ensures After(l, time, h1 + h2) == After(l, After(l, time, h1), h2)
    decreases |h1|
  {
    if h1 == [] {
      assert h1 + h2 == h2;
    } else {
      assert (h1 + h2)[1..] == h1[1..] + h2;
      AfterConcat(l, Next(l, time, h1[0]), h1[1..], h2);
    }
  }

  /** Few hits often enough reach the maximum. */
  lemma {:induction false} Climb(l: Limits, time: nat) returns (hits: seq<nat>)
    requires !l.fixed && time > 0
    ensures After(l, time, hits) == l.max
    decreases l.max - time
  {
    if time * 2 > l.max {
      hits := [0];
      assert hits[1..] == [];
    } else {
      var rest := Climb(l, time * 2);
      hits := [0] + rest;
      assert hits[1..] == rest;
    }
  }

  lemma RungOfHalf(l: Limits, time: nat, n: nat)
    requires Rung(l, time / 2, n)
    ensures Rung(l, time, n + 1)
  {
    assert l.min * Pow2(n + 1) == 2 * (l.min * Pow2(n));
    assert (l.min + 1) * Pow2(n + 1) == 2 * ((l.min + 1) * Pow2(n));
  }

  /** Many hits from a time that does not halve to the minimum go below it. */
  lemma {:induction false} Fall(l: Limits, time: nat) returns (hits: seq<nat>)
    requires !l.fixed && forall n: nat :: !Rung(l, time, n)
    ensures After(l, time, hits) < l.min
    decreases time
  {
    if time < l.min {
      hits := [];
    } else {
      assert !Rung(l, time, 0);
      forall n: nat ensures !Rung(l, time / 2, n) {
        if Rung(l, time / 2, n) { RungOfHalf(l, time, n); }
      }
      var rest := Fall(l, time / 2);
      hits := [HITS_TO_DEC_EXP_TIME] + rest;
      assert hits[1..] == rest;
    }
  }

  /** No history of experiments ever takes the time below the minimum if and only if the
      limits are compatible. */
  lemma MinimumHolds(l: Limits)
    requires !l.fixed
    ensures NeverBelowMin(l) <==> Compatible(l)
  {
    CompatibleIsRung(l);
    if Compatible(l) {
      forall hits ensures After(l, l.min, hits) >= l.min {
        MinimumKept(l, hits);
      }
    } else {
      if l.min == 0 {
        BigPower(l.max);
        assert Rung(l, l.max, l.max);
      }
      var up := Climb(l, l.min);
      var down := Fall(l, l.max);
      AfterConcat(l, l.min, up, down);
      assert After(l, l.min, up + down) < l.min;
    }
  }

  lemma {:induction false} BigPower(n: nat)
    ensures n < Pow2(n)
  {
    if n == 0 {
    } else {
      BigPower(n - 1);
    }
  }

  lemma NextPower(l: Limits, n: nat, k: nat, pointsHit: nat) returns (next: nat)
    requires l.max == l.min * Pow2(n) && k <= n && l.min > 0
    ensures next <= n && Next(l, l.min * Pow2(k), pointsHit) == l.min * Pow2(next)
  {
    next := k;
    if !l.fixed {
      if pointsHit <= HITS_TO_INC_EXP_TIME {
        assert l.min * Pow2(k + 1) == l.min * Pow2(k) * 2;
        if k < n {
          Powers(l.min, k + 1, n);
          next := k + 1;
        } else {
          Powers(l.min, 0, n);
        }
      } else if l.min * Pow2(k) > l.min && pointsHit >= HITS_TO_DEC_EXP_TIME {
        next := k - 1;
        assert l.min * Pow2(k) == l.min * Pow2(next) * 2;
      }
    }
  }

  /** With a maximum that is the minimum doubled `n` times, as the constants are, every
      time ever reached is the minimum doubled at most `n` times. */
  lemma {:induction false} TimesArePowers(l: Limits, n: nat, k: nat, hits: seq<nat>) returns (k': nat)
    requires l.max == l.min * Pow2(n) && k <= n && l.min > 0
    ensures k' <= n && After(l, l.min * Pow2(k), hits) == l.min * Pow2(k')
    ensures l.min <= After(l, l.min * Pow2(k), hits) <= l.max
    decreases |hits|
  {
    if hits == [] {
      Powers(l.min, k, n);
      k' := k;
    } else {
      var next := NextPower(l, n, k, hits[0]);
      k' := TimesArePowers(l, n, next, hits[1..]);
    }
  }

  lemma {:induction false} Powers(min: nat, k: nat, n: nat)
    requires k <= n
    ensures min <= min * Pow2(k) <= min * Pow2(n)
    decreases n - k
  {
    if k < n {
      Powers(min, k + 1, n);
    }
  }

  /** `n` experiments with few hits in a row reach that maximum, from wherever. */
  lemma {:induction false} LowHitsReachMax(l: Limits, n: nat, k: nat, hits: seq<nat>)
    requires !l.fixed && l.max == l.min * Pow2(n) && l.min > 0 && k <= n && |hits| >= n - k
    requires forall i :: 0 <= i < |hits| ==> hits[i] <= HITS_TO_INC_EXP_TIME
    ensures After(l, l.min * Pow2(k), hits) == l.max
    decreases |hits|
  {
    Powers(l.min, k, n);
    if hits == [] {
    } else {
      assert l.min * Pow2(k + 1) == l.min * Pow2(k) * 2;
      if k < n {
        Powers(l.min, k + 1, n);
        LowHitsReachMax(l, n, k + 1, hits[1..]);
      } else {
        LowHitsReachMax(l, n, n, hits[1..]);
      }
    }
  }

  /** And `k` experiments with many hits come back down to the minimum from the minimum doubled `k`
      times; any more of them stay there. */
  lemma {:induction false} HighHitsReachMin(l: Limits, k: nat, hits: seq<nat>)
    requires !l.fixed && l.min > 0 && |hits| >= k
    requires forall i :: 0 <= i < |hits| ==> hits[i] >= HITS_TO_DEC_EXP_TIME
    ensures After(l, l.min * Pow2(k), hits) == l.min
    decreases |hits|
  {
    if hits == [] {
      assert Pow2(k) == 1;
    } else if k == 0 {
      assert Next(l, l.min * Pow2(0), hits[0]) == l.min * Pow2(0);
      HighHitsReachMin(l, 0, hits[1..]);
    } else {
      Powers(l.min, 1, k);
      assert l.min * Pow2(1) == 2 * l.min && l.min * Pow2(k) == 2 * (l.min * Pow2(k - 1));
      HighHitsReachMin(l, k - 1, hits[1..]);
    }
  }

  /** Between the thresholds, or with a fixed length, nothing changes. */
  lemma {:induction false} NothingChanges(l: Limits, time: nat, hits: seq<nat>)
    requires l.fixed || forall i :: 0 <= i < |hits| ==> HITS_TO_INC_EXP_TIME < hits[i] < HITS_TO_DEC_EXP_TIME
    ensures After(l, time, hits) == time
    decreases |hits|
  {
    if hits == [] {
    } else {
      NothingChanges(l, time, hits[1..]);
    }
  }

  /** The limits the profiler is built with are compatible; 5 and 12 would not be. */
  lemma DefaultLimits()
    ensures NeverBelowMin(Limits(5000, 80000, false))
    ensures !NeverBelowMin(Limits(5, 12, false))
  {
    assert Pow2(4) == 16 by { assert Pow2(2) == 4; assert Pow2(3) == 8; }
    assert Rung(Limits(5000, 80000, false), 80000, 4);
    CompatibleIsRung(Limits(5000, 80000, false));
    MinimumHolds(Limits(5000, 80000, false));
    var l := Limits(5, 12, false);
    assert After(l, 10, [0, 20, 20]) == 3 by {
      assert [0, 20, 20][1..] == [20, 20] && [20, 20][1..] == [20] && [20][1..] == [];
      assert After(l, 12, [20, 20]) == After(l, 6, [20]) == After(l, 3, []) == 3;
    }
    assert [0, 0, 20, 20][1..] == [0, 20, 20];
    assert After(l, 5, [0, 0, 20, 20]) == 3;
  }
}
