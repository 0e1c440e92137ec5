/** A character's derived attributes: a fixed table of kinds and bounds, values computed
    by formulas from the stats and the level, and the transient attributes health and mana
    that are bounded by the live value of their totals. */
module AttributeSet {
  import opened Errors
  import opened Values
  import opened StatBlock

  /** The attributes, in the order of the source's table. */
  datatype Attr =
    | Defense | TotalHealth | Attack | CriticalDamage | CriticalRate | AttackSpeed
    | Evasion | Accuracy | Speed | MagicPower | MagicCriticalDamage | MagicDefense
    | TotalMana | MagicCriticalRate | MagicAccuracy | MagicEvasion | CastingSpeed
    | Health | Mana

  const Order: seq<Attr> := [
    Defense, TotalHealth, Attack, CriticalDamage, CriticalRate, AttackSpeed,
    Evasion, Accuracy, Speed, MagicPower, MagicCriticalDamage, MagicDefense,
    TotalMana, MagicCriticalRate, MagicAccuracy, MagicEvasion, CastingSpeed,
    Health, Mana]

  function IndexOf(a: Attr): (k: nat)
    ensures k < |Order| && Order[k] == a
  {
    match a
    case Defense => 0 case TotalHealth => 1 case Attack => 2 case CriticalDamage => 3
    case CriticalRate => 4 case AttackSpeed => 5 case Evasion => 6 case Accuracy => 7
    case Speed => 8 case MagicPower => 9 case MagicCriticalDamage => 10
    case MagicDefense => 11 case TotalMana => 12 case MagicCriticalRate => 13
    case MagicAccuracy => 14 case MagicEvasion => 15 case CastingSpeed => 16
    case Health => 17 case Mana => 18
  }

  function AttrName(a: Attr): string {
    match a
    case Defense => "defense" case TotalHealth => "total_health" case Attack => "attack"
    case CriticalDamage => "critical_damage" case CriticalRate => "critical_rate"
    case AttackSpeed => "attack_speed" case Evasion => "evasion" case Accuracy => "accuracy"
    case Speed => "speed" case MagicPower => "magic_power"
    case MagicCriticalDamage => "magic_critical_damage" case MagicDefense => "magic_defense"
    case TotalMana => "total_mana" case MagicCriticalRate => "magic_critical_rate"
    case MagicAccuracy => "magic_accuracy" case MagicEvasion => "magic_evasion"
    case CastingSpeed => "casting_speed" case Health => "health" case Mana => "mana"
  }

  /** The first attribute of `order` called `name`. */
  function FindName(order: seq<Attr>, name: string): (r: Option<Attr>)
    ensures r.Some? ==> r.value in order && AttrName(r.value) == name
    ensures r.None? ==> forall i :: 0 <= i < |order| ==> AttrName(order[i]) != name
  {
    if order == [] then None
    else if AttrName(order[0]) == name then Some(order[0])
    else FindName(order[1..], name)
  }

  /** `validate_attribute`: the attribute a symbol names, if any. */
  function ParseAttr(name: string): (r: Option<Attr>)
    ensures r.Some? ==> AttrName(r.value) == name
    ensures r.None? ==> forall a: Attr :: AttrName(a) != name
  {
    var r := FindName(Order, name);
    if r.None? then
      assert forall a: Attr :: AttrName(a) != name by {
        forall a: Attr ensures AttrName(a) != name {
          var k := IndexOf(a);
          assert AttrName(Order[k]) != name;
        }
      }
      r
    else r
  }

  /** A limit: a literal, or the live value of another attribute. */
  datatype Bound = Literal(v: Value) | Reference(attr: Attr)

  datatype Properties = Properties(min: Bound, max: Option<Bound>, kind: Kind, hasFormula: bool)

  /** The Float attributes; all others are Integer. */
  predicate IsFloat(a: Attr) {
    match a
    case CriticalDamage | CriticalRate | Evasion | Accuracy | MagicCriticalDamage
       | MagicCriticalRate | MagicAccuracy | MagicEvasion => true
    case _ => false
  }

  /** The maximum of each attribute: the totals for health and mana, 70 for speed, 1 for
      the Float rates, none for the rest. */
  function MaxOf(a: Attr): Option<Bound> {
    match a
    case Health => Some(Reference(TotalHealth))
    case Mana => Some(Reference(TotalMana))
    case Speed => Some(Literal(Integer(70)))
    case CriticalRate | Evasion | Accuracy | MagicCriticalRate | MagicAccuracy | MagicEvasion =>
      Some(Literal(Integer(1)))
    case _ => None
  }

  /** The source's table: every minimum is the Integer literal 0; health and mana are the
      two attributes without a formula, bounded by their totals. */
  function Table(a: Attr): (p: Properties)
    ensures p.max.Some? && p.max.value.Reference? ==> !p.hasFormula
    ensures !p.hasFormula ==> p.kind == IntegerKind
  {
    Properties(
      Literal(Integer(0)),
      MaxOf(a),
      if IsFloat(a) then FloatKind else IntegerKind,
      a != Health && a != Mana)
  }

  /** Health and mana are exactly the attributes without a formula; they are Integer and
      bounded above by their totals. Every minimum is the Integer 0. */
  lemma TableMeaning(a: Attr)
    ensures !Table(a).hasFormula <==> a == Health || a == Mana
    ensures a == Health ==> Table(a).max == Some(Reference(TotalHealth)) && Table(a).kind == IntegerKind
    ensures a == Mana ==> Table(a).max == Some(Reference(TotalMana)) && Table(a).kind == IntegerKind
    ensures Table(a).min == Literal(Integer(0))
  {
  }

  /** The formulas, left uninterpreted: one for the Integer attributes and one for the
      Float ones, each a function of the attribute, the stats and the level. */
  datatype Formulas = Formulas(
    integral: (Attr, map<Stat, int>, int) -> int,
    fractional: (Attr, map<Stat, int>, int) -> real)

  /** What an attribute's formula yields, of the attribute's kind. */
  function FormulaValue(fs: Formulas, a: Attr, stats: map<Stat, int>, level: int): (v: Value)
    ensures v.KindOf() == Table(a).kind
  {
    if Table(a).kind == IntegerKind then Integer(fs.integral(a, stats, level))
    else Float(fs.fractional(a, stats, level))
  }

  /** Every attribute has a value. */
  ghost predicate Complete(m: map<Attr, Value>) {
    forall a: Attr :: a in m
  }

  /** `limit_value`: a literal bound, or the current value of the referenced attribute. */
  function LimitValue(m: map<Attr, Value>, b: Bound): Value
    requires Complete(m)
  {
    match b
    case Literal(v) => v
    case Reference(r) => m[r]
  }

  /** `validate_limits`: raise to the minimum, then lower to the maximum. */
  function ValidateLimits(m: map<Attr, Value>, a: Attr, v: Value): (r: Value)
    requires Complete(m)
    ensures var lo := LimitValue(m, Table(a).min);
      r == v || r == lo || (Table(a).max.Some? && r == LimitValue(m, Table(a).max.value))
    ensures Table(a).max.None? ==> !Less(r, LimitValue(m, Table(a).min))
    ensures Table(a).max.Some? ==> !Less(LimitValue(m, Table(a).max.value), r)
    ensures Table(a).max.Some? && !Less(LimitValue(m, Table(a).max.value), LimitValue(m, Table(a).min)) ==>
      !Less(r, LimitValue(m, Table(a).min))
    ensures (!Less(v, LimitValue(m, Table(a).min)) &&
             (Table(a).max.None? || !Less(LimitValue(m, Table(a).max.value), v))) ==> r == v
  {
    var p := Table(a);
    var lo := LimitValue(m, p.min);
    var raised := if Less(v, lo) then lo else v;
    if p.max.None? then raised
    else
      var hi := LimitValue(m, p.max.value);
      if Less(hi, raised) then hi else raised
  }

  /** The minimum is applied before the maximum: a value below the minimum ends at the
      minimum unless the maximum lies below it, and a value above the maximum, or any
      value when the maximum lies below the minimum, ends at the maximum. */
  lemma ValidateLimitsOrder(m: map<Attr, Value>, a: Attr, v: Value)
    requires Complete(m)
    ensures var lo := LimitValue(m, Table(a).min);
      Less(v, lo) && (Table(a).max.None? || !Less(LimitValue(m, Table(a).max.value), lo)) ==>
      ValidateLimits(m, a, v) == lo
    ensures Table(a).max.Some? ==>
      var lo, hi := LimitValue(m, Table(a).min), LimitValue(m, Table(a).max.value);
      Less(hi, v) || Less(hi, lo) ==> ValidateLimits(m, a, v) == hi
  {
  }

  /** An attribute of the right kind and within its bounds as they read now. A Float
      attribute may hold an Integer: its minimum is the Integer 0. */
  ghost predicate InBounds(m: map<Attr, Value>, a: Attr)
    requires Complete(m)
  {
    (Table(a).kind == IntegerKind ==> m[a].Integer?) &&
    !Less(m[a], LimitValue(m, Table(a).min)) &&
    (Table(a).max.Some? ==> !Less(LimitValue(m, Table(a).max.value), m[a]))
  }

  ghost predicate WellFormed(m: map<Attr, Value>) {
    Complete(m) && forall a: Attr :: InBounds(m, a)
  }

  /** The attributes of an `Attributes.new` without stats: every one at its minimum. */
  function Minimums(): (m: map<Attr, Value>)
    ensures Complete(m)
    ensures forall a: Attr :: m[a] == LimitValue(m, Table(a).min)
  {
    assert forall a: Attr :: a in Order by {
      forall a: Attr ensures a in Order { assert Order[IndexOf(a)] == a; }
    }
    map a: Attr | a in Order :: Integer(0)
  }

  lemma MinimumsWellFormed()
    ensures WellFormed(Minimums())
  {
    var m := Minimums();
    forall a: Attr ensures InBounds(m, a) {
      assert m[a] == Integer(0);
      assert a == Health || a == Mana ==> m[TotalHealth] == Integer(0) && m[TotalMana] == Integer(0);
    }
  }

  /** `update_transient_attribute`: keep the transient if it is below its total, otherwise
      lower it to the total. */
  function Reconcile(transient: Value, total: Value): (r: Value)
    ensures Less(transient, total) ==> r == transient
    ensures !Less(transient, total) ==> r == total
    ensures !Less(total, r)
  {
    if Less(transient, total) then transient else total
  }

  /** The transient attribute a total bounds, if `a` is a total. */
  function TransientOf(a: Attr): Option<Attr> {
    if a == TotalHealth then Some(Health) else if a == TotalMana then Some(Mana) else None
  }

  /** `set_attribute` once the kind check passed: store the value brought within its
      limits, then pull the paired transient down to a total that was set. */
  function Assigned(m: map<Attr, Value>, a: Attr, v: Value): (r: map<Attr, Value>)
    requires Complete(m)
    ensures Complete(r)
  {
    var stored := m[a := ValidateLimits(m, a, v)];
    match TransientOf(a)
    case None => stored
    case Some(t) => stored[t := Reconcile(stored[t], stored[a])]
  }

  /** A write of the right kind keeps every attribute well formed, stores exactly the value
      brought within the attribute's limits, pulls the paired transient down to the new
      total and never raises it, and leaves every other attribute as it was. */
  lemma {:induction false} AssignedMeaning(m: map<Attr, Value>, a: Attr, v: Value)
    requires WellFormed(m) && v.KindOf() == Table(a).kind
    ensures var r := Assigned(m, a, v);
      WellFormed(r) &&
      r[a] == ValidateLimits(m, a, v) &&
      (forall b: Attr :: b != a && Some(b) != TransientOf(a) ==> r[b] == m[b]) &&
      (TransientOf(a).Some? ==>
        var t := TransientOf(a).value;
        r[t] == Reconcile(m[t], r[a]) && !Less(m[t], r[t]))
  {
    var r := Assigned(m, a, v);
    assert Complete(r);
    assert InBounds(m, TotalHealth) && InBounds(m, TotalMana);
    assert InBounds(m, Health) && InBounds(m, Mana);
    forall b: Attr ensures InBounds(r, b) {
      AssignedInBounds(m, a, v, b);
    }
  }

  lemma {:induction false} AssignedInBounds(m: map<Attr, Value>, a: Attr, v: Value, b: Attr)
    requires WellFormed(m) && v.KindOf() == Table(a).kind
    ensures Complete(Assigned(m, a, v)) && InBounds(Assigned(m, a, v), b)
  {
    if b == a {
      AssignedTargetInBounds(m, a, v);
    } else if Some(b) == TransientOf(a) {
      AssignedTransientInBounds(m, a, v);
    } else {
      AssignedOtherInBounds(m, a, v, b);
    }
  }

  lemma {:induction false} AssignedTargetInBounds(m: map<Attr, Value>, a: Attr, v: Value)
    requires WellFormed(m) && v.KindOf() == Table(a).kind
    ensures Complete(Assigned(m, a, v)) && InBounds(Assigned(m, a, v), a)
  {
    var r := Assigned(m, a, v);
    var stored := ValidateLimits(m, a, v);
    assert r[a] == stored;
    if a == Health || a == Mana {
      var total := if a == Health then TotalHealth else TotalMana;
      assert InBounds(m, total);
      assert r[total] == m[total];
      assert !Less(m[total], stored) && !Less(stored, Integer(0));
    } else {
      assert MaxOf(a).Some? ==> !Less(MaxOf(a).value.v, Integer(0));
    }
  }

  lemma {:induction false} AssignedTransientInBounds(m: map<Attr, Value>, a: Attr, v: Value)
    requires WellFormed(m) && v.KindOf() == Table(a).kind && TransientOf(a).Some?
    ensures Complete(Assigned(m, a, v)) && InBounds(Assigned(m, a, v), TransientOf(a).value)
  {
    var t := TransientOf(a).value;
    var r := Assigned(m, a, v);
    var stored := ValidateLimits(m, a, v);
    assert r[a] == stored && r[t] == Reconcile(m[t], stored);
    assert InBounds(m, t);
  }

  lemma {:induction false} AssignedOtherInBounds(m: map<Attr, Value>, a: Attr, v: Value, b: Attr)
    requires Complete(m) && InBounds(m, b)
    requires b != a && Some(b) != TransientOf(a)
    ensures Complete(Assigned(m, a, v)) && InBounds(Assigned(m, a, v), b)
  {
    var r := Assigned(m, a, v);
    AssignedElsewhere(m, a, v, b);
    if b == Health {
      AssignedElsewhere(m, a, v, TotalHealth);
    } else if b == Mana {
      AssignedElsewhere(m, a, v, TotalMana);
    }
    InBoundsFrame(m, r, b);
  }

  /** A write leaves alone every attribute other than its target and that target's
      transient. */
  lemma {:induction false} AssignedElsewhere(m: map<Attr, Value>, a: Attr, v: Value, b: Attr)
    requires Complete(m) && b != a && Some(b) != TransientOf(a)
    ensures Complete(Assigned(m, a, v)) && Assigned(m, a, v)[b] == m[b]
  {
    var stored := m[a := ValidateLimits(m, a, v)];
    assert stored[b] == m[b];
    if TransientOf(a).Some? {
      var t := TransientOf(a).value;
      assert Assigned(m, a, v) == stored[t := Reconcile(stored[t], stored[a])];
    } else {
      assert Assigned(m, a, v) == stored;
    }
  }

  /** Whether an attribute is within bounds depends only on its value and on the
      attribute its maximum refers to. */
  lemma {:induction false} InBoundsFrame(m: map<Attr, Value>, r: map<Attr, Value>, b: Attr)
    requires Complete(m) && Complete(r) && InBounds(m, b)
    requires r[b] == m[b]
    requires b == Health ==> r[TotalHealth] == m[TotalHealth]
    requires b == Mana ==> r[TotalMana] == m[TotalMana]
    ensures InBounds(r, b)
  {
  }

  /** What a formula attribute becomes when recomputed. Its bounds are literals, so the
      values it is computed beside play no part. */
  function Computed(fs: Formulas, a: Attr, stats: map<Stat, int>, level: int): (v: Value)
    requires Table(a).hasFormula
    ensures !Less(v, Integer(0))
    ensures Table(a).kind == IntegerKind ==> v.Integer?
    ensures Table(a).max.Some? ==> !Less(Table(a).max.value.v, v)
  {
    ValidateLimits(Minimums(), a, FormulaValue(fs, a, stats, level))
  }

  lemma {:induction false} LiteralLimits(m: map<Attr, Value>, fs: Formulas, a: Attr, stats: map<Stat, int>, level: int)
    requires Complete(m) && Table(a).hasFormula
    ensures ValidateLimits(m, a, FormulaValue(fs, a, stats, level)) == Computed(fs, a, stats, level)
  {
  }

  /** `calculate_attributes` in closed form: every formula attribute recomputed, each
      transient pulled down to its new total, or with `reset` set equal to it. */
  function Recalculated(fs: Formulas, m: map<Attr, Value>, stats: map<Stat, int>, level: int, reset: bool): (r: map<Attr, Value>)
    requires Complete(m)
    ensures Complete(r)
  {
    map a: Attr | a in m :: RecalculatedAt(fs, m, stats, level, reset, a)
  }

  function RecalculatedAt(fs: Formulas, m: map<Attr, Value>, stats: map<Stat, int>, level: int, reset: bool, a: Attr): Value
    requires Complete(m)
  {
    if Table(a).hasFormula then Computed(fs, a, stats, level)
    else
      var t := Computed(fs, if a == Health then TotalHealth else TotalMana, stats, level);
      if reset then t else Reconcile(m[a], t)
  }

  /** A recomputation keeps the attributes well formed; with `reset` the transients end
      equal to their totals; without it a transient is kept exactly when it is below its
      new total, and is never raised. */
  lemma {:induction false} RecalculatedMeaning(fs: Formulas, m: map<Attr, Value>, stats: map<Stat, int>, level: int, reset: bool)
    requires WellFormed(m)
    ensures var r := Recalculated(fs, m, stats, level, reset);
      WellFormed(r) &&
      (forall a: Attr :: Table(a).hasFormula ==> r[a] == Computed(fs, a, stats, level)) &&
      (reset ==> r[Health] == r[TotalHealth] && r[Mana] == r[TotalMana]) &&
      (!reset ==> (r[Health] == m[Health] <==> Less(m[Health], r[TotalHealth]) || m[Health] == r[TotalHealth])) &&
      (!reset ==> (r[Mana] == m[Mana] <==> Less(m[Mana], r[TotalMana]) || m[Mana] == r[TotalMana])) &&
      (!reset ==> !Less(m[Health], r[Health]) && !Less(m[Mana], r[Mana]))
  {
    var r := Recalculated(fs, m, stats, level, reset);
    assert InBounds(m, Health) && InBounds(m, Mana);
    forall b: Attr ensures InBounds(r, b) {
      RecalculatedAtInBounds(fs, m, stats, level, reset, b);
    }
  }

  lemma {:induction false} RecalculatedAtInBounds(fs: Formulas, m: map<Attr, Value>, stats: map<Stat, int>, level: int, reset: bool, b: Attr)
    requires Complete(m) && InBounds(m, Health) && InBounds(m, Mana)
    ensures Complete(Recalculated(fs, m, stats, level, reset))
    ensures InBounds(Recalculated(fs, m, stats, level, reset), b)
  {
    if Table(b).hasFormula {
      RecalculatedFormulaInBounds(fs, m, stats, level, reset, b);
    } else {
      RecalculatedTransientInBounds(fs, m, stats, level, reset, b);
    }
  }

  lemma {:induction false} RecalculatedFormulaInBounds(fs: Formulas, m: map<Attr, Value>, stats: map<Stat, int>, level: int, reset: bool, b: Attr)
    requires Complete(m) && Table(b).hasFormula
    ensures Complete(Recalculated(fs, m, stats, level, reset))
    ensures InBounds(Recalculated(fs, m, stats, level, reset), b)
  {
    var r := Recalculated(fs, m, stats, level, reset);
    var p := Table(b);
    assert r[b] == Computed(fs, b, stats, level);
    assert LimitValue(r, p.min) == Integer(0);
    assert p.max.Some? ==> p.max.value.Literal? && LimitValue(r, p.max.value) == p.max.value.v;
  }

  lemma {:induction false} RecalculatedTransientInBounds(fs: Formulas, m: map<Attr, Value>, stats: map<Stat, int>, level: int, reset: bool, b: Attr)
    requires Complete(m) && InBounds(m, Health) && InBounds(m, Mana) && !Table(b).hasFormula
    ensures Complete(Recalculated(fs, m, stats, level, reset))
    ensures InBounds(Recalculated(fs, m, stats, level, reset), b)
  {
    var r := Recalculated(fs, m, stats, level, reset);
    assert b == Health || b == Mana;
    var total := if b == Health then TotalHealth else TotalMana;
    assert r[total] == Computed(fs, total, stats, level);
    assert r[total].Integer? && m[b].Integer?;
    assert Table(b) == Properties(Literal(Integer(0)), Some(Reference(total)), IntegerKind, false);
  }

  /** Recomputing twice without reset is the same as recomputing once. */
  lemma {:induction false} RecalculatedIdempotent(fs: Formulas, m: map<Attr, Value>, stats: map<Stat, int>, level: int)
    requires Complete(m)
    ensures Recalculated(fs, Recalculated(fs, m, stats, level, false), stats, level, false) ==
      Recalculated(fs, m, stats, level, false)
  {
    var once := Recalculated(fs, m, stats, level, false);
    var twice := Recalculated(fs, once, stats, level, false);
    forall a: Attr ensures twice[a] == once[a] {
      RecalculatedAtIdempotent(fs, m, stats, level, a);
    }
  }

  lemma {:induction false} RecalculatedAtIdempotent(fs: Formulas, m: map<Attr, Value>, stats: map<Stat, int>, level: int, a: Attr)
    requires Complete(m)
    ensures var once := Recalculated(fs, m, stats, level, false);
      RecalculatedAt(fs, once, stats, level, false, a) == once[a]
  {
    var once := Recalculated(fs, m, stats, level, false);
    if !Table(a).hasFormula {
      var t := Computed(fs, if a == Health then TotalHealth else TotalMana, stats, level);
      assert once[a] == Reconcile(m[a], t);
      assert t.Integer?;
      if !Less(once[a], t) {
        assert !Less(t, once[a]);
        assert once[a] == t;
      }
    }
  }

  /** A recomputation with reset does not depend on the values it starts from. */
  lemma {:induction false} RecalculatedResetForgets(fs: Formulas, m: map<Attr, Value>, n: map<Attr, Value>, stats: map<Stat, int>, level: int)
    requires Complete(m) && Complete(n)
    ensures Recalculated(fs, m, stats, level, true) == Recalculated(fs, n, stats, level, true)
  {
  }

  /** A fresh Float attribute holds the Integer 0, so writing its own value back is
      refused as the wrong kind. */
  lemma FreshFloatRefusesItsOwnValue()
    ensures Minimums()[CriticalRate] == Integer(0)
    ensures Minimums()[CriticalRate].KindOf() != Table(CriticalRate).kind
  {
  }

  class Attributes {
    const formulas: Formulas
    var values: map<Attr, Value>
    /** How many times `calculate_attributes` has run on this object. */
    ghost var calculations: nat

    ghost predicate Valid()
      reads this
    {
      WellFormed(values)
    }

    /** `Attributes.new(stats, level)`: every attribute at its minimum, then, when stats
        are given, a recomputation with reset. */
    constructor (fs: Formulas, stats: Option<map<Stat, int>>, level: int)
      ensures Valid() && formulas == fs
      ensures stats.None? ==> values == Minimums() && calculations == 0
      ensures stats.Some? ==> values == Recalculated(fs, Minimums(), stats.value, level, true) && calculations == 1
    {
      formulas := fs;
      values := Minimums();
      calculations := 0;
      new;
      MinimumsWellFormed();
      if stats.Some? {
        CalculateAttributes(stats.value, level, true);
      }
    }

    /** `attributes[name]`. */
    function Get(name: string): (r: Result<Value>)
      reads this
      requires Valid()
      ensures r.Err? <==> ParseAttr(name).None?
      ensures r.Err? ==> r.error == UnknownAttribute
      ensures r.Ok? ==> r.value == values[ParseAttr(name).value]
    {
      match ParseAttr(name)
      case None => Err(UnknownAttribute)
      case Some(a) => Ok(values[a])
    }

    /** `attributes[name] = v`: an unknown name or a value of the wrong kind fails and
        changes nothing. */
    method Set(name: string, v: Value) returns (r: Outcome)
      requires Valid()
      modifies this
      ensures Valid() && calculations == old(calculations)
      ensures ParseAttr(name).None? ==> r == Fail(UnknownAttribute) && values == old(values)
      ensures ParseAttr(name).Some? ==>
        var a := ParseAttr(name).value;
        if v.KindOf() != Table(a).kind then r == Fail(WrongKind) && values == old(values)
        else r == Pass && values == Assigned(old(values), a, v)
    {
      match ParseAttr(name)
      case None =>
        r := Fail(UnknownAttribute);
      case Some(a) =>
        r := SetAttribute(a, v);
    }

    /** `set_attribute`. */
    method SetAttribute(a: Attr, v: Value) returns (r: Outcome)
      requires Valid()
      modifies this
      ensures Valid() && calculations == old(calculations)
      ensures v.KindOf() != Table(a).kind ==> r == Fail(WrongKind) && values == old(values)
      ensures v.KindOf() == Table(a).kind ==> r == Pass && values == Assigned(old(values), a, v)
    {
      if v.KindOf() != Table(a).kind {
        return Fail(WrongKind);
      }
      AssignedMeaning(values, a, v);
      values := values[a := ValidateLimits(values, a, v)];
      var t := TransientOf(a);
      if t.Some? {
        UpdateTransient(t.value, a);
      }
      r := Pass;
    }

    /** `update_transient_attribute`. */
    method UpdateTransient(t: Attr, total: Attr)
      requires Complete(values)
      modifies this
      ensures values == old(values)[t := Reconcile(old(values)[t], old(values)[total])]
      ensures calculations == old(calculations)
    {
      if Less(values[t], values[total]) {
        return;
      }
      values := values[t := values[total]];
    }

    /** `calculate_attributes(stats, level, reset)`: every attribute with a formula, in
        table order, then with `reset` health and mana set to their totals. */
    method CalculateAttributes(stats: map<Stat, int>, level: int, reset: bool)
      requires Valid()
      modifies this
      ensures Valid() && calculations == old(calculations) + 1
      ensures values == Recalculated(formulas, old(values), stats, level, reset)
    {
      calculations := calculations + 1;
      ghost var start := values;
      RecomputeFormulas(stats, level);
      if reset {
        ghost var p := values;
        ResetTransients();
        ResetDone(formulas, start, stats, level, p, values);
      }
    }

    /** The end of `calculate_attributes` with reset: health, then mana, set to its
        total. */
    method ResetTransients()
      requires Valid()
      modifies this
      ensures Valid() && calculations == old(calculations)
      ensures values == WithTransientsReset(old(values))
    {
      assert InBounds(values, TotalHealth);
      var _ := SetAttribute(Health, values[TotalHealth]);
      assert InBounds(values, TotalMana);
      var _ := SetAttribute(Mana, values[TotalMana]);
    }

    /** The loop of `calculate_attributes` over the table. */
    method RecomputeFormulas(stats: map<Stat, int>, level: int)
      requires Valid()
      modifies this
      ensures Valid() && calculations == old(calculations)
      ensures values == Recalculated(formulas, old(values), stats, level, false)
    {
      ghost var start := values;
      var i := 0;
      while i < |Order|
        invariant 0 <= i <= |Order|
        invariant Valid() && calculations == old(calculations)
        invariant values == Partial(formulas, start, stats, level, i)
      {
        var a := Order[i];
        PartialStep(formulas, start, stats, level, i, values);
        if Table(a).hasFormula {
          var v := FormulaValue(formulas, a, stats, level);
          var _ := SetAttribute(a, v);
        }
        i := i + 1;
      }
      PartialDone(formulas, start, stats, level);
    }
  }

  /** The attributes once the first `i` entries of the table have been recomputed. */
  ghost function Partial(fs: Formulas, m: map<Attr, Value>, stats: map<Stat, int>, level: int, i: nat): (p: map<Attr, Value>)
    requires Complete(m)
    ensures Complete(p)
  {
    map a: Attr | a in m :: PartialAt(fs, m, stats, level, i, a)
  }

  ghost function PartialAt(fs: Formulas, m: map<Attr, Value>, stats: map<Stat, int>, level: int, i: nat, a: Attr): Value
    requires Complete(m)
  {
    if Table(a).hasFormula then (if IndexOf(a) < i then Computed(fs, a, stats, level) else m[a])
    else
      var total := if a == Health then TotalHealth else TotalMana;
      if IndexOf(total) < i then Reconcile(m[a], Computed(fs, total, stats, level)) else m[a]
  }

  lemma {:induction false} PartialStep(fs: Formulas, m: map<Attr, Value>, stats: map<Stat, int>, level: int, i: nat, p: map<Attr, Value>)
    requires Complete(m) && i < |Order|
    requires p == Partial(fs, m, stats, level, i)
    ensures Complete(p)
    ensures var a := Order[i];
      (Table(a).hasFormula ==>
        Assigned(p, a, FormulaValue(fs, a, stats, level)) == Partial(fs, m, stats, level, i + 1)) &&
      (!Table(a).hasFormula ==> p == Partial(fs, m, stats, level, i + 1))
  {
    var a := Order[i];
    OrderPositions(i);
    var q := Partial(fs, m, stats, level, i + 1);
    if Table(a).hasFormula {
      var r := Assigned(p, a, FormulaValue(fs, a, stats, level));
      forall b: Attr ensures r[b] == q[b] {
        PartialStepAt(fs, m, stats, level, i, p, b);
      }
      assert forall b: Attr :: b in r && b in q;
    } else {
      forall b: Attr ensures p[b] == q[b] {
        if b != a {
          PartialUntouched(fs, m, stats, level, i, b);
        }
      }
    }
  }

  lemma {:induction false} PartialStepAt(fs: Formulas, m: map<Attr, Value>, stats: map<Stat, int>, level: int, i: nat, p: map<Attr, Value>, b: Attr)
    requires Complete(m) && i < |Order| && Table(Order[i]).hasFormula && IndexOf(Order[i]) == i
    requires p == Partial(fs, m, stats, level, i)
    ensures Complete(p)
    ensures var a := Order[i];
      Assigned(p, a, FormulaValue(fs, a, stats, level))[b] == PartialAt(fs, m, stats, level, i + 1, b)
  {
    var a := Order[i];
    var v := FormulaValue(fs, a, stats, level);
    var stored := ValidateLimits(p, a, v);
    LiteralLimits(p, fs, a, stats, level);
    AssignedAt(p, a, v, b);
    if b == a {
    } else if Some(b) == TransientOf(a) {
      // The total that caps `b` is `a`, which is not yet done among the first `i`.
      assert !Table(b).hasFormula && (if b == Health then TotalHealth else TotalMana) == a;
      assert p[b] == PartialAt(fs, m, stats, level, i, b);
    } else {
      PartialUntouched(fs, m, stats, level, i, b);
    }
  }

  /** One attribute of `Assigned`, read off. */
  lemma {:induction false} AssignedAt(m: map<Attr, Value>, a: Attr, v: Value, b: Attr)
    requires Complete(m)
    ensures b in Assigned(m, a, v)
    ensures Assigned(m, a, v)[b] ==
      if b == a then ValidateLimits(m, a, v)
      else if Some(b) == TransientOf(a) then Reconcile(m[b], ValidateLimits(m, a, v))
      else m[b]
  {
  }

  lemma {:induction false} PartialUntouched(fs: Formulas, m: map<Attr, Value>, stats: map<Stat, int>, level: int, i: nat, b: Attr)
    requires Complete(m) && i < |Order| && IndexOf(Order[i]) == i
    requires b != Order[i] && Some(b) != TransientOf(Order[i])
    ensures PartialAt(fs, m, stats, level, i, b) == PartialAt(fs, m, stats, level, i + 1, b)
  {
    if !Table(b).hasFormula {
      var total := if b == Health then TotalHealth else TotalMana;
      assert total != Order[i];
    }
  }

  /** The table lists each attribute once. */
  lemma OrderPositions(i: nat)
    requires i < |Order|
    ensures IndexOf(Order[i]) == i
  {
  }

  lemma {:induction false} PartialDone(fs: Formulas, m: map<Attr, Value>, stats: map<Stat, int>, level: int)
    requires Complete(m)
    ensures Partial(fs, m, stats, level, |Order|) == Recalculated(fs, m, stats, level, false)
  {
  }

  /** Health set to its total, then mana to its total, each through `set_attribute`. */
  function WithTransientsReset(m: map<Attr, Value>): map<Attr, Value>
    requires Complete(m)
  {
    var h := Assigned(m, Health, m[TotalHealth]);
    Assigned(h, Mana, h[TotalMana])
  }

  lemma {:induction false} ResetDone(fs: Formulas, m: map<Attr, Value>, stats: map<Stat, int>, level: int,
                                      p: map<Attr, Value>, f: map<Attr, Value>)
    requires Complete(m)
    requires p == Recalculated(fs, m, stats, level, false)
    requires f == WithTransientsReset(p)
    ensures f == Recalculated(fs, m, stats, level, true)
  {
    var want := Recalculated(fs, m, stats, level, true);
    var th, tm := p[TotalHealth], p[TotalMana];
    assert th == Computed(fs, TotalHealth, stats, level);
    assert tm == Computed(fs, TotalMana, stats, level);
    // Each transient is capped by its own total, so writing the total stores it as is.
    assert ValidateLimits(p, Health, th) == th;
    var h := p[Health := th];
    assert ValidateLimits(h, Mana, tm) == tm;
    assert f == h[Mana := tm];
    forall b: Attr ensures f[b] == want[b] {
    }
    SameAttributes(f, want);
  }

  /** Two complete attribute maps that agree on every attribute are equal. */
  lemma SameAttributes(f: map<Attr, Value>, g: map<Attr, Value>)
    requires Complete(f) && Complete(g)
    requires forall b: Attr :: f[b] == g[b]
    ensures f == g
  {
    assert forall b: Attr :: b in f && b in g;
  }
}
