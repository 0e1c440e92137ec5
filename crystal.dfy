/** Crystals: elemental items that level up as they earn AP, and that can be bound to one
    character. */
module Crystals {
  import opened Errors
  import opened Values
  import opened Leveling

  const MaxLevel := 10
  const BaseAp := 45

  class Crystal {
    const element: string
    var level: nat
    var nextLevel: nat
    /** The AP earned in the current level; nil on a crystal that never changed level
        nor received AP. */
    var ap: Option<nat>
    /** The character the crystal is bound to, once bound. */
    var boundTo: object?

    ghost predicate Valid()
      reads this
    {
      1 <= level <= MaxLevel &&
      nextLevel == Threshold(BaseAp, level) &&
      (ap.Some? ==> Canonical(BaseAp, MaxLevel, Standing(level, ap.value)))
    }

    /** The crystal as `Crystal.new(element)` leaves it before its level is set. */
    constructor (e: string)
      ensures Valid() && element == e
      ensures level == 1 && nextLevel == BaseAp && ap.None? && boundTo == null
    {
      element := e;
      level := 1;
      nextLevel := BaseAp;
      ap := None;
      boundTo := null;
    }

    /** `Crystal.new(element, level)`: an element that is not among the `known` ones fails
        with UnknownElement; then the level is set as `level=` sets it, on a crystal at
        level 1. */
    static method New(e: string, lvl: Value, known: set<string>) returns (r: Result<Crystal>)
      ensures e !in known ==> r == Err(UnknownElement)
      ensures e in known ==> r.Err? == (lvl.AsReal() != 1.0 && LevelError(1, lvl).Some?)
      ensures r.Err? && e in known ==> r.error == LevelError(1, lvl).value
      ensures r.Ok? ==>
        var c := r.value;
        fresh(c) && c.Valid() && c.element == e && c.boundTo == null &&
        (lvl.AsReal() == 1.0 ==> c.level == 1 && c.ap.None?) &&
        (lvl.AsReal() != 1.0 ==> c.level == lvl.i && c.ap == Some(0)) &&
        c.nextLevel == Threshold(BaseAp, c.level)
    {
      if e !in known {
        return Err(UnknownElement);
      }
      var c := new Crystal(e);
      var o := c.SetLevel(lvl);
      if o.Fail? {
        return Err(o.error);
      }
      return Ok(c);
    }

    /** `bound_to`: the character recorded by a successful `bind_to`, null while the
        crystal is unbound. */
    function BoundTo(): (r: object?)
      reads this
      ensures r == boundTo
    {
      boundTo
    }

    /** `bind_to(character)`: a crystal that is already bound refuses, whichever character
        is given; otherwise it is bound to `character`. The argument is an `object`
        because Characters imports this module, so the refusal of a non-Character is
        not expressed here. */
    method BindTo(character: object) returns (r: Outcome)
      modifies this
      ensures old(boundTo) != null ==> r == Fail(CrystalAlreadyBound) && boundTo == old(boundTo)
      ensures old(boundTo) == null ==> r == Pass && boundTo == character
      ensures level == old(level) && nextLevel == old(nextLevel) && ap == old(ap)
    {
      if boundTo != null {
        return Fail(CrystalAlreadyBound);
      }
      boundTo := character;
      r := Pass;
    }

    /** `level = lvl`: the current level, compared numerically, changes nothing; then a
        non-integer, a level outside [1, MaxLevel] or one below the current level fails
        and changes nothing; otherwise the level is set, AP goes to 0 and the AP needed
        for the next level is recomputed. */
    method SetLevel(lvl: Value) returns (r: Outcome)
      requires Valid()
      modifies this
      ensures Valid() && boundTo == old(boundTo)
      ensures lvl.AsReal() == old(level) as real ==> r == Pass && Unchanged(old(level), old(nextLevel), old(ap))
      ensures lvl.AsReal() != old(level) as real ==>
        match LevelError(old(level), lvl)
        case Some(e) => r == Fail(e) && Unchanged(old(level), old(nextLevel), old(ap))
        case None => r == Pass && level == lvl.i && ap == Some(0) && nextLevel == Threshold(BaseAp, lvl.i)
    {
      if lvl.AsReal() == level as real {
        return Pass;
      }
      var e := LevelError(level, lvl);
      if e.Some? {
        return Fail(e.value);
      }
      level := lvl.i;
      ap := Some(0);
      nextLevel := ComputeThreshold(BaseAp, level);
      ThresholdPositive(BaseAp, level);
      r := Pass;
    }

    ghost predicate Unchanged(l: nat, n: nat, a: Option<nat>)
      reads this
    {
      level == l && nextLevel == n && ap == a
    }

    /** `ap = points`: a non-integer or a negative value fails and changes nothing;
        otherwise the points are set and, when they reach the threshold, cascade up as
        Gain says, below the cap by paying each threshold and raising the level. */
    method SetAp(points: Value) returns (r: Outcome)
      requires Valid()
      modifies this
      ensures Valid() && boundTo == old(boundTo)
      ensures points.Float? ==> r == Fail(NotAnInteger) && Unchanged(old(level), old(nextLevel), old(ap))
      ensures points.Integer? && points.i < 0 ==>
        r == Fail(NegativeAp) && Unchanged(old(level), old(nextLevel), old(ap))
      ensures points.Integer? && points.i >= 0 ==>
        r == Pass && ap.Some? && Standing(level, ap.value) == Gain(BaseAp, MaxLevel, old(level), points.i)
    {
      if points.Float? {
        return Fail(NotAnInteger);
      }
      if points.i < 0 {
        return Fail(NegativeAp);
      }
      if points.i >= nextLevel {
        var rest := ClimbLevels(points.i);
        assert Gain(BaseAp, MaxLevel, level, rest) == Standing(level, if rest > nextLevel then nextLevel else rest);
        ap := Some(if rest > nextLevel then nextLevel else rest);
      } else {
        ap := Some(points.i);
      }
      r := Pass;
    }

    /** The loop of `ap=`: while the points reach the threshold below the cap, pay it and
        go up a level. */
    method ClimbLevels(points: nat) returns (rest: nat)
      requires Valid()
      modifies this
      ensures Valid() && boundTo == old(boundTo)
      ensures !(rest >= nextLevel && level < MaxLevel)
      ensures Gain(BaseAp, MaxLevel, level, rest) == Gain(BaseAp, MaxLevel, old(level), points)
    {
      rest := points;
      while rest >= nextLevel && level < MaxLevel
        invariant Valid() && boundTo == old(boundTo)
        invariant Gain(BaseAp, MaxLevel, level, rest) == Gain(BaseAp, MaxLevel, old(level), points)
        decreases MaxLevel - level
      {
        ghost var l, t := level, nextLevel;
        assert Gain(BaseAp, MaxLevel, l, rest) == Gain(BaseAp, MaxLevel, l + 1, rest - t);
        rest := rest - nextLevel;
        assert LevelError(l, Integer(l + 1)).None?;
        var _ := SetLevel(Integer(level + 1));
        assert level == l + 1;
      }
    }
  }

  /** The guards of `level=` after the equality test, in order. */
  function LevelError(current: nat, lvl: Value): (e: Option<Error>)
    ensures e.None? <==> lvl.Integer? && 1 <= lvl.i <= MaxLevel && current <= lvl.i
    ensures lvl.Float? ==> e == Some(NotAnInteger)
    ensures lvl.Integer? && (lvl.i < 1 || lvl.i > MaxLevel) ==> e == Some(LevelOutOfRange)
    ensures lvl.Integer? && 1 <= lvl.i <= MaxLevel && lvl.i < current ==> e == Some(LevelBelowCurrent)
  {
    if lvl.Float? then Some(NotAnInteger)
    else if lvl.i < 1 || lvl.i > MaxLevel then Some(LevelOutOfRange)
    else if lvl.i < current then Some(LevelBelowCurrent)
    else None
  }

  /** The level never decreases: a level below the current one is refused. */
  lemma {:induction false} LevelNeverDecreases(current: nat, lvl: int)
    requires 1 <= current <= MaxLevel && lvl < current
    ensures LevelError(current, Integer(lvl)).Some?
  {
  }

  /** The AP needed to leave each level: 45, 67, 100, 150, 225, 337, 505, 757, 1135, 1702. */
  lemma ApThresholds()
    ensures Threshold(BaseAp, 1) == 45 && Threshold(BaseAp, 2) == 67
    ensures Threshold(BaseAp, 3) == 100 && Threshold(BaseAp, 4) == 150
    ensures Threshold(BaseAp, 5) == 225 && Threshold(BaseAp, 6) == 337
    ensures Threshold(BaseAp, 7) == 505 && Threshold(BaseAp, 8) == 757
    ensures Threshold(BaseAp, 9) == 1135 && Threshold(BaseAp, 10) == 1702
  {
  }

  /** From level 1, 225 AP reach level 4 with 13 left; 10000 AP reach the cap with the
      last threshold filled; from level 3, 300 AP reach level 5 with 50 left. */
  lemma ApCascades()
    ensures Gain(BaseAp, MaxLevel, 1, 225) == Standing(4, 13)
    ensures Gain(BaseAp, MaxLevel, 1, 10000) == Standing(10, 1702)
    ensures Gain(BaseAp, MaxLevel, 3, 300) == Standing(5, 50)
  {
    ApThresholds();
  }
}
