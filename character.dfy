/** A character: a race, an optional job, the stats both give, the attributes derived from
    those stats and the level, the experience earned in the current level, and up to three
    bound crystals. */
module Characters {
  import opened Errors
  import opened Values
  import opened Leveling
  import opened StatBlock
  import opened AttributeSet
  import Crystals
  import Races

  /** Level cap. */
  const MaxLevel: nat := 50
  /** Experience needed to leave level 1. */
  const BaseExp: nat := 100
  /** The most crystals a character can have bound. */
  const MaxCrystals: nat := 3
  /** The handle under which a character listens to its own stats. */
  const RecalcHandle: Handle := 0

  /** The guards of `level=`: an integer between 1 and the cap. */
  function ValidateLevel(v: Value): (r: Outcome)
    ensures r.Pass? <==> v.Integer? && 1 <= v.i <= MaxLevel
    ensures r.Fail? ==> r.error == (if v.Float? then NotAnInteger else LevelOutOfRange)
  {
    if v.Float? then Fail(NotAnInteger)
    else if !(1 <= v.i <= MaxLevel) then Fail(LevelOutOfRange)
    else Pass
  }

  /** The level a character needs before binding its next crystal, holding `count`. */
  function CrystalLevelGate(count: nat): nat {
    count * (MaxLevel / MaxCrystals)
  }

  /** The guards of `bind_crystal`, in the order the source applies them: the crystal
      limit, a crystal already held or bound elsewhere, the level gate, and an element
      already among the bound crystals. */
  function BindingCheck(count: nat, held: bool, bound: bool, level: nat, sameElement: bool): (r: Outcome)
    ensures r == Pass <==> count < MaxCrystals && !held && !bound && level >= CrystalLevelGate(count) && !sameElement
    ensures r == Fail(CrystalLimitReached) <==> count >= MaxCrystals
    ensures r == Fail(CrystalAlreadyBound) <==> count < MaxCrystals && (held || bound)
    ensures r == Fail(LevelTooLowForCrystalBinding) <==>
      count < MaxCrystals && !held && !bound && level < CrystalLevelGate(count)
    ensures r == Fail(SameElementCrystalAlreadyBound) <==>
      count < MaxCrystals && !held && !bound && level >= CrystalLevelGate(count) && sameElement
  {
    if count >= MaxCrystals then Fail(CrystalLimitReached)
    else if held || bound then Fail(CrystalAlreadyBound)
    else if level < CrystalLevelGate(count) then Fail(LevelTooLowForCrystalBinding)
    else if sameElement then Fail(SameElementCrystalAlreadyBound)
    else Pass
  }

  /** With the cap at 50 and three crystals the second crystal waits for level 16 and the
      third for level 32. */
  lemma CrystalLevelGates()
    ensures CrystalLevelGate(0) == 0 && CrystalLevelGate(1) == 16 && CrystalLevelGate(2) == 32
  {
  }

  /** Some crystal of `cs` has element `e`. */
  ghost predicate HoldsElement(cs: seq<Crystals.Crystal>, e: string) {
    exists i :: 0 <= i < |cs| && cs[i].element == e
  }

  class Character {
    const race: Races.Race
    /** The job, represented by the stats bonus it gives. */
    var job: Option<Stats>
    /** The default stats plus the race's bonus. */
    const baseStats: Stats
    /** The stats in use: the base stats plus the job's bonus. */
    var stats: Stats
    const attributes: Attributes
    var crystals: seq<Crystals.Crystal>
    /** The party the character belongs to, if any. */
    var party: object?
    var level: nat
    /** The experience earned in the current level. */
    var experience: nat
    /** The experience needed to reach the next level. */
    var nextLevel: nat
    /** Set while a cascade of level changes is under way, to hold back recomputation. */
    var dontRecalculate: bool

    ghost predicate Structure()
      reads this, baseStats, stats, attributes
    {
      baseStats != stats && baseStats.Valid() && baseStats.changeListeners == [] &&
      stats.Valid() && attributes.Valid() &&
      1 <= level <= MaxLevel && nextLevel == Threshold(BaseExp, level) && experience <= nextLevel
    }

    /** Every bound crystal points back to this character, and no two share an element. */
    ghost predicate CrystalsBound()
      reads this`crystals, crystals
    {
      |crystals| <= MaxCrystals &&
      (forall i :: 0 <= i < |crystals| ==> crystals[i].boundTo == this) &&
      (forall i, j :: 0 <= i < j < |crystals| ==> crystals[i].element != crystals[j].element)
    }

    ghost predicate Inv()
      reads this, baseStats, stats, attributes, crystals
    {
      Structure() && CrystalsBound()
    }

    ghost predicate Valid()
      reads this, baseStats, stats, attributes, crystals
    {
      Inv() && !dontRecalculate
    }

    /** The fields a level or experience change leaves alone. */
    twostate predicate Kept()
      reads this
    {
      job == old(job) && stats == old(stats) && crystals == old(crystals) && party == old(party)
    }

    ghost predicate AttributesAsBefore(before: map<Attr, Value>, count: nat)
      reads attributes
    {
      attributes.values == before && attributes.calculations == count
    }

    /** One recomputation with reset since the attributes held `before` and had been
        computed `count` times (so health and mana end full, by `RecalculatedMeaning`). */
    ghost predicate RecomputedOnce(before: map<Attr, Value>, count: nat)
      reads this, stats, attributes
    {
      Complete(before) &&
      attributes.values == Recalculated(attributes.formulas, before, stats.values, level, true) &&
      attributes.calculations == count + 1
    }

    /** `initialize` up to the last step: the base stats are the defaults merged with the
        race's bonus; the stats in use add the job's bonus; the character listens to them. */
    constructor Init(r: Races.Race, j: Option<Stats>, fs: Formulas)
      requires r.stats.Valid() && (j.Some? ==> j.value.Valid())
      ensures Valid() && race == r && job == j && crystals == [] && party == null
      ensures level == 1 && experience == 0
      ensures fresh(baseStats) && fresh(stats) && fresh(attributes)
      ensures baseStats.values == Merged(Defaults(), r.stats.values)
      ensures j.Some? ==> stats.values == Merged(baseStats.values, j.value.values)
      ensures j.None? ==> stats.values == baseStats.values
      ensures stats.changeListeners == [RecalcHandle]
      ensures attributes.formulas == fs && attributes.values == Minimums() && attributes.calculations == 0
    {
      race := r;
      var b := new Stats();
      var _, _ := b.Merge(r.stats);
      baseStats := b;
      job := j;
      // The stats `job=` builds; the source's `job=` skips its recomputation here.
      var s: Stats;
      if j.Some? {
        s := b.Plus(j.value);
      } else {
        s := b.Clone();
      }
      s.AddListener(RecalcHandle);
      stats := s;
      MinimumsWellFormed();
      attributes := new Attributes(fs, None, 0);
      crystals := [];
      party := null;
      level := 1;
      experience := 0;
      nextLevel := BaseExp;
      dontRecalculate := false;
    }

    /** `Character.new(race, level, job)`: fails only when the level is refused; otherwise
        the character starts at that level with no experience and full health and mana. */
    static method New(r: Races.Race, lvl: Value, j: Option<Stats>, fs: Formulas) returns (res: Result<Character>)
      requires r.stats.Valid() && (j.Some? ==> j.value.Valid())
      ensures res.Ok? <==> ValidateLevel(lvl).Pass?
      ensures res.Err? ==> res.error == ValidateLevel(lvl).error
      ensures res.Ok? ==>
        var c := res.value;
        fresh(c) && fresh(c.baseStats) && fresh(c.stats) && fresh(c.attributes) && c.Valid() &&
        c.race == r && c.job == j && c.crystals == [] && c.party == null &&
        c.level == lvl.i && c.experience == 0 &&
        c.baseStats.values == Merged(Defaults(), r.stats.values) &&
        (j.Some? ==> c.stats.values == Merged(c.baseStats.values, j.value.values)) &&
        (j.None? ==> c.stats.values == c.baseStats.values) &&
        c.stats.changeListeners == [RecalcHandle] &&
        c.attributes.formulas == fs &&
        c.RecomputedOnce(Minimums(), 0)
    {
      var c := new Character.Init(r, j, fs);
      var o := c.SetLevel(lvl);
      if o.Fail? {
        return Err(o.error);
      }
      return Ok(c);
    }

    /** `recalculate_attributes(reset)`. */
    method RecalculateAttributes(reset: bool)
      requires attributes.Valid()
      modifies attributes
      ensures attributes.Valid() && attributes.calculations == old(attributes.calculations) + 1
      ensures old(Inv()) ==> Inv()
      ensures attributes.values == Recalculated(attributes.formulas, old(attributes.values), stats.values, level, reset)
    {
      attributes.CalculateAttributes(stats.values, level, reset);
    }

    /** `level=`: a refused level changes nothing. Otherwise the level is set, the
        experience cleared, the threshold recomputed and, unless a cascade is under way,
        the attributes recomputed with reset. */
    method SetLevel(v: Value) returns (r: Outcome)
      requires Inv()
      modifies this, attributes
      ensures Inv() && Kept() && dontRecalculate == old(dontRecalculate)
      ensures r == ValidateLevel(v)
      ensures r.Fail? ==>
        level == old(level) && experience == old(experience) &&
        AttributesAsBefore(old(attributes.values), old(attributes.calculations))
      ensures r.Pass? ==> level == v.i && experience == 0
      ensures r.Pass? && !dontRecalculate ==>
        RecomputedOnce(old(attributes.values), old(attributes.calculations))
      ensures r.Pass? && dontRecalculate ==>
        AttributesAsBefore(old(attributes.values), old(attributes.calculations))
    {
      r := ValidateLevel(v);
      if r.Fail? {
        return;
      }
      ghost var before, count := attributes.values, attributes.calculations;
      assert Complete(before);
      level := v.i;
      experience := 0;
      nextLevel := ComputeThreshold(BaseExp, level);
      if !dontRecalculate {
        RecalculateAttributes(true);
        assert RecomputedOnce(before, count);
      }
    }

    /** Whether setting the experience to `v` from this level and threshold moves through
        the level cascade. */
    static predicate Cascades(level: nat, nextLevel: nat, v: Value) {
      v.Integer? && ((v.i > 0 && v.i >= nextLevel) || (v.i < 0 && level > 1))
    }

    /** Where an integer write of `n` to the experience leaves a character at `level`
        with `points`: zero leaves it where it is, a gain climbs and a loss descends. */
    static function ExperienceWritten(level: nat, points: nat, n: int): Standing
      requires 1 <= level <= MaxLevel
    {
      if n == 0 then Standing(level, points)
      else if n > 0 then Gain(BaseExp, MaxLevel, level, n)
      else Lose(BaseExp, level, points, -n)
    }

    /** `experience=`: a non-integer fails; zero changes nothing, whatever the current
        experience; a positive value becomes the experience of the current level and
        cascades up, a negative one cascades down. A cascade recomputes the attributes
        exactly once, with reset. */
    method SetExperience(v: Value) returns (r: Outcome)
      requires Valid()
      modifies this, attributes
      ensures Valid() && Kept()
      ensures r == if v.Float? then Fail(NotAnInteger) else Pass
      ensures v.Float? ==> level == old(level) && experience == old(experience)
      ensures v.Integer? ==> Standing(level, experience) == ExperienceWritten(old(level), old(experience), v.i)
      ensures Cascades(old(level), old(nextLevel), v) ==>
        RecomputedOnce(old(attributes.values), old(attributes.calculations))
      ensures !Cascades(old(level), old(nextLevel), v) ==>
        AttributesAsBefore(old(attributes.values), old(attributes.calculations))
    {
      if v.Float? {
        return Fail(NotAnInteger);
      }
      r := Pass;
      if v.i == 0 {
        return;
      }
      ghost var before, count := attributes.values, attributes.calculations;
      if v.i > 0 {
        assert Cascades(level, nextLevel, v) == (v.i >= nextLevel);
        AddExperience(v.i);
      } else {
        assert Cascades(level, nextLevel, v) == (level > 1);
        ghost var l0, p0 := level, experience;
        SubtractExperience(v.i);
        assert Standing(level, experience) == Lose(BaseExp, l0, p0, -v.i);
      }
    }

    /** `add_experience`: below the threshold the amount is stored as it is; otherwise
        each threshold reached below the cap is paid and the level goes up, with one
        recomputation at the end, and what is left is pinned at the last threshold. */
    method AddExperience(e: nat)
      requires Valid()
      modifies this, attributes
      ensures Valid() && Kept()
      ensures Standing(level, experience) == Gain(BaseExp, MaxLevel, old(level), e)
      ensures e < old(nextLevel) ==> AttributesAsBefore(old(attributes.values), old(attributes.calculations))
      ensures e >= old(nextLevel) ==> RecomputedOnce(old(attributes.values), old(attributes.calculations))
    {
      if e < nextLevel {
        experience := e;
        return;
      }
      dontRecalculate := true;
      var rest := ClimbLevels(e);
      SettleClimb(rest);
    }

    /** The end of `add_experience`: one recomputation with reset, recomputation allowed
        again, and the points left pinned at the threshold of the level reached. */
    method SettleClimb(rest: nat)
      requires Inv() && dontRecalculate && !(rest >= nextLevel && level < MaxLevel)
      modifies this, attributes
      ensures Valid() && Kept() && level == old(level)
      ensures Standing(level, experience) == Gain(BaseExp, MaxLevel, level, rest)
      ensures RecomputedOnce(old(attributes.values), old(attributes.calculations))
    {
      ghost var before, count := attributes.values, attributes.calculations;
      assert Complete(before);
      assert Gain(BaseExp, MaxLevel, level, rest) == Standing(level, if rest > nextLevel then nextLevel else rest);
      RecalculateAttributes(true);
      dontRecalculate := false;
      experience := if rest > nextLevel then nextLevel else rest;
      assert RecomputedOnce(before, count);
    }

    /** The loop of `add_experience`: while the points reach the threshold below the cap,
        pay it and go up a level, with recomputation held back. */
    method ClimbLevels(e: nat) returns (rest: nat)
      requires Inv() && dontRecalculate
      modifies this, attributes
      ensures Inv() && dontRecalculate && Kept()
      ensures AttributesAsBefore(old(attributes.values), old(attributes.calculations))
      ensures !(rest >= nextLevel && level < MaxLevel)
      ensures Gain(BaseExp, MaxLevel, level, rest) == Gain(BaseExp, MaxLevel, old(level), e)
    {
      rest := e;
      while rest >= nextLevel && level < MaxLevel
        invariant Inv() && dontRecalculate && Kept()
        invariant AttributesAsBefore(old(attributes.values), old(attributes.calculations))
        invariant Gain(BaseExp, MaxLevel, level, rest) == Gain(BaseExp, MaxLevel, old(level), e)
        decreases MaxLevel - level
      {
        rest := rest - nextLevel;
        var _ := SetLevel(Integer(level + 1));
      }
    }

    /** `substract_experience` with `e < 0`: at level 1 the experience becomes 0.
        Otherwise the experience of the current level and `|e|` more are owed and paid
        down through the levels; one recomputation follows. */
    method SubtractExperience(e: int)
      requires Valid() && e < 0
      modifies this, attributes
      ensures Valid() && Kept()
      ensures Standing(level, experience) == Lose(BaseExp, old(level), old(experience), -e)
      ensures old(level) == 1 ==> AttributesAsBefore(old(attributes.values), old(attributes.calculations))
      ensures old(level) > 1 ==> RecomputedOnce(old(attributes.values), old(attributes.calculations))
    {
      if level == 1 {
        experience := 0;
        return;
      }
      ghost var before, count := attributes.values, attributes.calculations;
      assert Complete(before);
      ghost var target := Lose(BaseExp, level, experience, -e);
      assert target == Descend(BaseExp, level, experience, experience + -e);
      var owed: nat := experience + -e;
      dontRecalculate := true;
      owed := DropLevels(owed);
      ghost var settled := Settle(level, experience, owed);
      assert settled == target;
      RecalculateAttributes(true);
      dontRecalculate := false;
      if owed > experience {
        experience := 0;
      } else {
        experience := experience - owed;
      }
      assert Standing(level, experience) == settled;
    }

    /** The loop of `substract_experience`: pay the current experience, drop a level and
        fill it, until level 1 or until what is owed is below the filled level, with
        recomputation held back. */
    method DropLevels(owed0: nat) returns (owed: nat)
      requires Inv() && dontRecalculate && level >= 2 && owed0 >= experience
      modifies this, attributes
      ensures Inv() && dontRecalculate && Kept()
      ensures AttributesAsBefore(old(attributes.values), old(attributes.calculations))
      ensures Settle(level, experience, owed) == Descend(BaseExp, old(level), old(experience), owed0)
    {
      owed := owed0;
      ghost var target := Descend(BaseExp, level, experience, owed);
      while owed >= experience
        invariant Inv() && dontRecalculate && Kept() && level >= 2
        invariant AttributesAsBefore(old(attributes.values), old(attributes.calculations))
        invariant owed >= experience ==> Descend(BaseExp, level, experience, owed) == target
        invariant owed < experience ==> Settle(level, experience, owed) == target
        decreases level
      {
        ghost var l0, p0, o0 := level, experience, owed;
        owed := owed - experience;
        var _ := SetLevel(Integer(level - 1));
        experience := nextLevel;
        assert level == l0 - 1 && experience == Threshold(BaseExp, level) && owed == o0 - p0;
        assert target == if level == 1 || owed < experience then Settle(level, experience, owed)
                         else Descend(BaseExp, level, experience, owed);
        if level == 1 {
          break;
        }
      }
    }

    /** `job=`: new stats, the base stats plus the job's bonus, and a recomputation
        without reset, so health and mana are kept where the new totals allow. The new
        stats carry no listener: later writes to them do not recompute the attributes. */
    method SetJob(j: Option<Stats>)
      requires Valid() && (j.Some? ==> j.value.Valid())
      modifies this, attributes
      ensures Valid() && job == j && fresh(stats)
      ensures j.Some? ==> stats.values == Merged(baseStats.values, j.value.values)
      ensures j.None? ==> stats.values == baseStats.values
      ensures stats.changeListeners == []
      ensures level == old(level) && experience == old(experience)
      ensures crystals == old(crystals) && party == old(party)
      ensures attributes.calculations == old(attributes.calculations) + 1
      ensures attributes.values == Recalculated(attributes.formulas, old(attributes.values), stats.values, level, false)
    {
      job := j;
      if j.Some? {
        stats := baseStats.Plus(j.value);
      } else {
        stats := baseStats.Clone();
      }
      RecalculateAttributes(false);
    }

    /** `character.stats[s] = v`: the write as Stats does it, then each listener call
        addressed to this character recomputes the attributes without reset. */
    method WriteStat(s: Stat, v: Value) returns (r: Outcome, calls: seq<Notification>)
      requires Valid()
      modifies stats, attributes
      ensures Valid() && stats.changeListeners == old(stats.changeListeners)
      ensures v.Float? ==> r == Fail(NotAnInteger) && stats.values == old(stats.values) && calls == []
      ensures v.Integer? ==> r == Pass && stats.values == old(stats.values)[s := Clamp(v.i)]
      ensures Addressed(calls, RecalcHandle) ==
        if v.Integer? && Clamp(v.i) != old(stats.values)[s] then multiset(old(stats.changeListeners))[RecalcHandle] else 0
      ensures attributes.calculations == old(attributes.calculations) + Addressed(calls, RecalcHandle)
      ensures Addressed(calls, RecalcHandle) == 0 ==> attributes.values == old(attributes.values)
      ensures Addressed(calls, RecalcHandle) > 0 ==>
        attributes.values == Recalculated(attributes.formulas, old(attributes.values), stats.values, level, false)
    {
      r, calls := stats.Set(s, v);
      if calls != [] {
        AddressedNotify(stats.changeListeners, s, old(stats.values)[s], Clamp(v.i), RecalcHandle);
      }
      ghost var sv, sl := stats.values, stats.changeListeners;
      ghost var start := attributes.values;
      var i := 0;
      while i < |calls|
        invariant 0 <= i <= |calls|
        invariant stats.values == sv && stats.changeListeners == sl
        invariant attributes.Valid()
        invariant attributes.calculations == old(attributes.calculations) + Addressed(calls[..i], RecalcHandle)
        invariant Addressed(calls[..i], RecalcHandle) == 0 ==> attributes.values == start
        invariant Addressed(calls[..i], RecalcHandle) > 0 ==>
          attributes.values == Recalculated(attributes.formulas, start, sv, level, false)
      {
        assert calls[..i + 1] == calls[..i] + [calls[i]];
        AddressedAppend(calls[..i], [calls[i]], RecalcHandle);
        if calls[i].listener == RecalcHandle {
          RecalculatedIdempotent(attributes.formulas, start, sv, level);
          RecalculateAttributes(false);
        }
        i := i + 1;
      }
      assert calls[..i] == calls;
    }

    /** `crystals`: the bound crystals, as a value the caller cannot use to change them. */
    function Crystals(): (r: seq<Crystals.Crystal>)
      reads this, baseStats, stats, attributes, crystals
      requires Valid()
      ensures r == crystals && |r| <= MaxCrystals
      ensures forall i :: 0 <= i < |r| ==> r[i].boundTo == this
    {
      crystals
    }

    /** `validate_crystal_binding`: the crystal limit, then a crystal already held, then a
        crystal bound to anyone. */
    function ValidateCrystalBinding(c: Crystals.Crystal): (r: Outcome)
      reads this, c
      ensures r.Pass? <==> |crystals| < MaxCrystals && c !in crystals && c.boundTo == null
      ensures r.Fail? ==> r.error == if |crystals| >= MaxCrystals then CrystalLimitReached else CrystalAlreadyBound
    {
      if |crystals| >= MaxCrystals then Fail(CrystalLimitReached)
      else if c in crystals then Fail(CrystalAlreadyBound)
      else if c.BoundTo() != null then Fail(CrystalAlreadyBound)
      else Pass
    }

    /** `validate_crystal_element`: the bound crystals in order, failing at the first one
        of the same element. */
    method ValidateCrystalElement(c: Crystals.Crystal) returns (r: Outcome)
      ensures r.Pass? <==> !HoldsElement(crystals, c.element)
      ensures r.Fail? ==> r.error == SameElementCrystalAlreadyBound
    {
      var i := 0;
      while i < |crystals|
        invariant 0 <= i <= |crystals|
        invariant forall k :: 0 <= k < i ==> crystals[k].element != c.element
      {
        if crystals[i].element == c.element {
          return Fail(SameElementCrystalAlreadyBound);
        }
        i := i + 1;
      }
      return Pass;
    }

    /** `bind_crystal`: the guards in order; on success the crystal is bound to this
        character and appended. A refused crystal and the character are left as they
        were. */
    method BindCrystal(c: Crystals.Crystal) returns (r: Outcome)
      requires Valid()
      modifies this, c
      ensures Valid()
      ensures r == BindingCheck(|old(crystals)|, c in old(crystals), old(c.boundTo) != null, level,
                                HoldsElement(old(crystals), c.element))
      ensures r.Pass? ==> crystals == old(crystals) + [c] && c.boundTo == this
      ensures r.Fail? ==> crystals == old(crystals) && c.boundTo == old(c.boundTo)
      ensures c.level == old(c.level) && c.nextLevel == old(c.nextLevel) && c.ap == old(c.ap)
      ensures job == old(job) && stats == old(stats) && party == old(party)
      ensures level == old(level) && experience == old(experience)
    {
      r := ValidateCrystalBinding(c);
      if r.Fail? {
        return;
      }
      var minLevel := |crystals| * (MaxLevel / MaxCrystals);
      if level < minLevel {
        return Fail(LevelTooLowForCrystalBinding);
      }
      r := ValidateCrystalElement(c);
      if r.Fail? {
        return;
      }
      var _ := c.BindTo(this);
      crystals := crystals + [c];
    }
  }

  /** The experience thresholds of levels 1 to 10. */
  lemma ThresholdsUpTo10()
    ensures Threshold(100, 1) == 100 && Threshold(100, 2) == 150
    ensures Threshold(100, 3) == 225 && Threshold(100, 4) == 337
    ensures Threshold(100, 5) == 505 && Threshold(100, 6) == 757
    ensures Threshold(100, 7) == 1135 && Threshold(100, 8) == 1702 && Threshold(100, 9) == 2553
    ensures Threshold(100, 10) == 3829
  {
    assert Threshold(100, 2) == 150;
    assert Threshold(100, 3) == 225;
    assert Threshold(100, 4) == 337;
    assert Threshold(100, 5) == 505;
    assert Threshold(100, 6) == 757;
    assert Threshold(100, 7) == 1135;
    assert Threshold(100, 8) == 1702;
    assert Threshold(100, 9) == 2553;
  }

  lemma ThresholdsUpTo20()
    ensures Threshold(100, 20) == 220753
  {
    ThresholdsUpTo10();
    assert Threshold(100, 11) == 5743;
    assert Threshold(100, 12) == 8614;
    assert Threshold(100, 13) == 12921;
    assert Threshold(100, 14) == 19381;
    assert Threshold(100, 15) == 29071;
    assert Threshold(100, 16) == 43606;
    assert Threshold(100, 17) == 65409;
    assert Threshold(100, 18) == 98113;
    assert Threshold(100, 19) == 147169;
  }

  lemma ThresholdsUpTo30()
    ensures Threshold(100, 30) == 12729678
  {
    ThresholdsUpTo20();
    assert Threshold(100, 21) == 331129;
    assert Threshold(100, 22) == 496693;
    assert Threshold(100, 23) == 745039;
    assert Threshold(100, 24) == 1117558;
    assert Threshold(100, 25) == 1676337;
    assert Threshold(100, 26) == 2514505;
    assert Threshold(100, 27) == 3771757;
    assert Threshold(100, 28) == 5657635;
    assert Threshold(100, 29) == 8486452;
  }

  lemma ThresholdsUpTo40()
    ensures Threshold(100, 40) == 734057349
  {
    ThresholdsUpTo30();
    assert Threshold(100, 31) == 19094517;
    assert Threshold(100, 32) == 28641775;
    assert Threshold(100, 33) == 42962662;
    assert Threshold(100, 34) == 64443993;
    assert Threshold(100, 35) == 96665989;
    assert Threshold(100, 36) == 144998983;
    assert Threshold(100, 37) == 217498474;
    assert Threshold(100, 38) == 326247711;
    assert Threshold(100, 39) == 489371566;
  }

  /** The threshold of the last level. */
  lemma ThresholdsUpTo50()
    ensures Threshold(100, 50) == 42329445661
  {
    ThresholdsUpTo40();
    assert Threshold(100, 41) == 1101086023;
    assert Threshold(100, 42) == 1651629034;
    assert Threshold(100, 43) == 2477443551;
    assert Threshold(100, 44) == 3716165326;
    assert Threshold(100, 45) == 5574247989;
    assert Threshold(100, 46) == 8361371983;
    assert Threshold(100, 47) == 12542057974;
    assert Threshold(100, 48) == 18813086961;
    assert Threshold(100, 49) == 28219630441;
  }

  /** From level 1, experience 5000 settles on level 9 with 89; experience 90 followed by
      20 more, that is experience 110, settles on level 2 with 10; from level 10, experience
      -5000 settles on level 7 with 390; at level 1 a loss leaves no experience. */
  lemma ExperienceCascades()
    ensures Gain(100, 50, 1, 5000) == Standing(9, 89)
    ensures Gain(100, 50, 1, 90) == Standing(1, 90)
    ensures Gain(100, 50, 1, 110) == Standing(2, 10)
    ensures Lose(100, 10, 0, 5000) == Standing(7, 390)
    ensures Lose(100, 1, 60, 5) == Standing(1, 0)
  {
    ThresholdsUpTo10();
  }
}
