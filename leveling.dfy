/** The progression arithmetic that Character (experience) and Crystal (AP) share.
    A level's threshold starts at a base and each level multiplies it by 1.5, truncated;
    setting the points of the current level cascades up or down through the levels. */
module Leveling {

  /** One `(x * 1.5).floor` (or `.to_i`) step on a non-negative integer. */
  function Step(x: nat): nat {
    x + x / 2
  }

  /** For non-negative integers the truncated product by 1.5 is exactly `Step`. Below 2^53
      the product is also exact in double precision, so the source computes this value. */
  lemma {:induction false} StepIsTruncatedProduct(x: nat)
    ensures ((x as real) * 1.5).Floor == Step(x)
  {
    var q, r := x / 2, x % 2;
    assert x == 2 * q + r;
    var n := 3 * q + r;
    assert (x as real) * 1.5 == n as real + (r as real) / 2.0;
    assert n as real <= (x as real) * 1.5 < n as real + 1.0;
    assert n == x + x / 2;
  }

  /** The points needed to leave `level`: `base` at level 1, one Step more per level. */
  function Threshold(base: nat, level: nat): nat
    requires level >= 1
  {
    if level == 1 then base else Step(Threshold(base, level - 1))
  }

  /** The `times` loop of `level=`: start from `base` and multiply by 1.5, truncating,
      once per level above the first. */
  method ComputeThreshold(base: nat, level: nat) returns (t: nat)
    requires level >= 1
    ensures t == Threshold(base, level)
  {
    t := base;
    var k := 1;
    while k < level
      invariant 1 <= k <= level
      invariant t == Threshold(base, k)
    {
      StepIsTruncatedProduct(t);
      t := ((t as real) * 1.5).Floor;
      k := k + 1;
    }
  }

  /** The points needed to reach `level` from the start of level 1. */
  function Cumulative(base: nat, level: nat): nat
    requires level >= 1
  {
    if level == 1 then 0 else Cumulative(base, level - 1) + Threshold(base, level - 1)
  }

  /** The most points a progression with this cap can hold: the cap reached and its
      threshold filled. */
  function Ceiling(base: nat, cap: nat): nat
    requires cap >= 1
  {
    Cumulative(base, cap) + Threshold(base, cap)
  }

  lemma {:induction false} ThresholdPositive(base: nat, level: nat)
    requires base >= 1 && level >= 1
    ensures Threshold(base, level) >= base
  {
    if level > 1 {
      ThresholdPositive(base, level - 1);
    }
  }

  /** Reaching a higher level always takes more points. */
  lemma {:induction false} CumulativeGrows(base: nat, lo: nat, hi: nat)
    requires base >= 1 && 1 <= lo < hi
    ensures Cumulative(base, lo) + Threshold(base, lo) <= Cumulative(base, hi)
  {
    if hi > lo + 1 {
      CumulativeGrows(base, lo, hi - 1);
    }
  }

  /** A level together with the points earned in it. */
  datatype Standing = Standing(level: nat, points: nat)

  /** A standing as the source keeps it after a gain: below the cap the points stay under
      the threshold, at the cap they may equal it. */
  predicate Canonical(base: nat, cap: nat, s: Standing) {
    1 <= s.level <= cap &&
    s.points <= Threshold(base, s.level) &&
    (s.level < cap ==> s.points < Threshold(base, s.level))
  }

  /** The points a standing represents from the start of level 1. */
  function Total(base: nat, s: Standing): nat
    requires s.level >= 1
  {
    Cumulative(base, s.level) + s.points
  }

  /** Setting the points of `level` to `points` (>= 0): while they reach the threshold and
      the cap is not reached, pay the threshold and go up a level; the points left are
      then pinned at the last threshold. */
  function Gain(base: nat, cap: nat, level: nat, points: nat): (r: Standing)
    requires base >= 1 && 1 <= level <= cap
    ensures level <= r.level <= cap && r.points <= Threshold(base, r.level)
    ensures r.points <= points
    decreases cap - level
  {
    var t := Threshold(base, level);
    if points >= t && level < cap then Gain(base, cap, level + 1, points - t)
    else Standing(level, if points > t then t else points)
  }

  /** What a gain settles on is canonical, never lower than where it started, and holds
      every point given, up to the ceiling. */
  lemma {:induction false} GainMeaning(base: nat, cap: nat, level: nat, points: nat)
    requires base >= 1 && 1 <= level <= cap
    ensures var r := Gain(base, cap, level, points);
      Canonical(base, cap, r) && level <= r.level &&
      Total(base, r) == Min(Cumulative(base, level) + points, Ceiling(base, cap))
    decreases cap - level
  {
    var t := Threshold(base, level);
    if points >= t && level < cap {
      GainMeaning(base, cap, level + 1, points - t);
    } else if level < cap {
      CumulativeGrows(base, level, cap);
    }
  }

  function Min(a: int, b: int): int {
    if a <= b then a else b
  }

  function Max(a: int, b: int): int {
    if a >= b then a else b
  }

  /** Two canonical standings that represent the same total are the same standing. */
  lemma {:induction false} CanonicalUnique(base: nat, cap: nat, s: Standing, u: Standing)
    requires base >= 1
    requires Canonical(base, cap, s) && Canonical(base, cap, u)
    requires Total(base, s) == Total(base, u)
    ensures s == u
  {
    if s.level < u.level {
      CumulativeGrows(base, s.level, u.level);
    } else if u.level < s.level {
      CumulativeGrows(base, u.level, s.level);
    }
  }

  /** A gain depends only on the total it lands on: assigning the settled points again
      changes nothing, and landing on the same total from another standing gives the
      same result. */
  lemma {:induction false} GainDependsOnlyOnTotal(base: nat, cap: nat, l1: nat, p1: nat, l2: nat, p2: nat)
    requires base >= 1 && 1 <= l1 <= cap && 1 <= l2 <= cap
    requires Cumulative(base, l1) + p1 == Cumulative(base, l2) + p2
    ensures Gain(base, cap, l1, p1) == Gain(base, cap, l2, p2)
  {
    GainMeaning(base, cap, l1, p1);
    GainMeaning(base, cap, l2, p2);
    CanonicalUnique(base, cap, Gain(base, cap, l1, p1), Gain(base, cap, l2, p2));
  }

  /** Re-assigning the points a gain settled on is a no-op. */
  lemma {:induction false} GainIdempotent(base: nat, cap: nat, level: nat, points: nat)
    requires base >= 1 && 1 <= level <= cap
    ensures var r := Gain(base, cap, level, points);
      Gain(base, cap, r.level, r.points) == r
  {
    GainMeaning(base, cap, level, points);
    var r := Gain(base, cap, level, points);
    assert !(r.points >= Threshold(base, r.level) && r.level < cap);
  }

  /** The points left at `level` once the descent stops with `owed` still to pay. */
  function Settle(level: nat, points: nat, owed: nat): Standing {
    if owed > points then Standing(level, 0) else Standing(level, points - owed)
  }

  /** One pass of the descent: pay the points of `level`, drop a level, fill that level to
      its threshold; stop at level 1 or once what is owed is below the new points. */
  function Descend(base: nat, level: nat, points: nat, owed: nat): Standing
    requires level >= 2 && owed >= points
    decreases level
  {
    var l := level - 1;
    var o := owed - points;
    var p := Threshold(base, l);
    if l == 1 || o < p then Settle(l, p, o) else Descend(base, l, p, o)
  }

  /** Setting the points of `level` to `-amount` (amount > 0): at level 1 the points become
      0; otherwise the current points and `amount` more are paid down through the levels. */
  function Lose(base: nat, level: nat, points: nat, amount: nat): Standing
    requires level >= 1 && amount >= 1
  {
    if level == 1 then Standing(1, 0) else Descend(base, level, points, points + amount)
  }

  lemma {:induction false} DescendMeaning(base: nat, level: nat, points: nat, owed: nat)
    requires base >= 1 && level >= 2 && owed >= points
    ensures var r := Descend(base, level, points, owed);
      1 <= r.level < level && r.points <= Threshold(base, r.level) &&
      Total(base, r) == Max(0, Cumulative(base, level) + points - owed)
    decreases level
  {
    var l := level - 1;
    var o := owed - points;
    var p := Threshold(base, l);
    if !(l == 1 || o < p) {
      DescendMeaning(base, l, p, o);
    }
  }

  /** A loss lands `amount` below the start of the current level (never below 0), strictly
      lower than where it started unless it started at level 1. The points earned in the
      current level are forfeited. */
  lemma {:induction false} LoseMeaning(base: nat, level: nat, points: nat, amount: nat)
    requires base >= 1 && level >= 1 && amount >= 1
    ensures var r := Lose(base, level, points, amount);
      1 <= r.level <= level && (level > 1 ==> r.level < level) &&
      r.points <= Threshold(base, r.level) &&
      Total(base, r) == Max(0, Cumulative(base, level) - amount)
  {
    if level > 1 {
      DescendMeaning(base, level, points, points + amount);
    }
  }

  /** A loss can leave the points equal to the threshold below the cap, where an equal gain
      would have gone up a level: level 4 with 50 points set to -225 settles on level 2 with
      150 points instead of level 3 with none. */
  lemma LoseCanLeaveFullLevel()
    ensures Lose(100, 4, 50, 225) == Standing(2, 150)
    ensures Gain(100, 50, 2, 150) == Standing(3, 0)
    ensures Total(100, Standing(2, 150)) == Total(100, Standing(3, 0))
  {
    assert Threshold(100, 2) == 150;
    assert Threshold(100, 3) == 225;
  }
}
