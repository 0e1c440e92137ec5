/** A character's six basic stats, each an integer clamped to [0, 50], with a list of
    listeners told about every write that changes a value. */
module StatBlock {
  import opened Errors
  import opened Values

  const MaxStats := 50
  const DefaultValue := 20

  datatype Stat = Con | Str | Dex | Int | Men | Wit

  /** The stats in the order the source's hash lists them. */
  const StatOrder: seq<Stat> := [Con, Str, Dex, Int, Men, Wit]

  function StatName(s: Stat): string {
    match s
    case Con => "con"
    case Str => "str"
    case Dex => "dex"
    case Int => "int"
    case Men => "men"
    case Wit => "wit"
  }

  /** The stat a symbol names, if it names one. */
  function ParseStat(name: string): (r: Option<Stat>)
    ensures r.Some? ==> StatName(r.value) == name
  {
    if name == "con" then Some(Con)
    else if name == "str" then Some(Str)
    else if name == "dex" then Some(Dex)
    else if name == "int" then Some(Int)
    else if name == "men" then Some(Men)
    else if name == "wit" then Some(Wit)
    else None
  }

  lemma ParseStatName(s: Stat)
    ensures ParseStat(StatName(s)) == Some(s)
  {
  }

  /** The value `set_stat` stores: above MaxStats becomes MaxStats, below 0 becomes 0. */
  function Clamp(v: int): (r: int)
    ensures 0 <= r <= MaxStats
    ensures 0 <= v <= MaxStats ==> r == v
    ensures v > MaxStats ==> r == MaxStats
    ensures v < 0 ==> r == 0
  {
    if v > MaxStats then MaxStats else if v < 0 then 0 else v
  }

  /** Every stat present and within bounds. */
  ghost predicate InRange(m: map<Stat, int>) {
    forall s: Stat :: s in m && 0 <= m[s] <= MaxStats
  }

  lemma EveryStatListed()
    ensures forall s: Stat :: s in StatOrder
  {
    forall s: Stat ensures s in StatOrder {
      match s
      case Con => assert StatOrder[0] == s;
      case Str => assert StatOrder[1] == s;
      case Dex => assert StatOrder[2] == s;
      case Int => assert StatOrder[3] == s;
      case Men => assert StatOrder[4] == s;
      case Wit => assert StatOrder[5] == s;
    }
  }

  /** The stats of a fresh Stats: all six at DefaultValue. */
  function Defaults(): (m: map<Stat, int>)
    ensures InRange(m) && forall s: Stat :: m[s] == DefaultValue
  {
    EveryStatListed();
    map s: Stat | s in StatOrder :: DefaultValue
  }

  /** The stats after folding `other` into `mine`, stat by stat. */
  function Merged(mine: map<Stat, int>, other: map<Stat, int>): map<Stat, int>
    requires InRange(mine) && InRange(other)
  {
    map s: Stat | s in StatOrder :: Clamp(mine[s] + other[s])
  }

  lemma {:induction false} MergedMeaning(mine: map<Stat, int>, other: map<Stat, int>)
    requires InRange(mine) && InRange(other)
    ensures InRange(Merged(mine, other))
    ensures forall s: Stat :: Merged(mine, other)[s] == Min(mine[s] + other[s], MaxStats)
    ensures Merged(mine, other) == Merged(other, mine)
  {
    EveryStatListed();
  }

  function Min(a: int, b: int): int {
    if a <= b then a else b
  }

  /** The stats after applying the overrides given at construction, in order: an unknown
      name fails with UnknownStat, a non-integer value with NotAnInteger, and the first
      failing entry decides the error. */
  function Overrides(base: map<Stat, int>, entries: seq<(string, Value)>): Result<map<Stat, int>> {
    if entries == [] then Ok(base)
    else
      match Overrides(base, entries[..|entries| - 1])
      case Err(e) => Err(e)
      case Ok(m) =>
        var (name, v) := entries[|entries| - 1];
        match ParseStat(name)
        case None => Err(UnknownStat)
        case Some(s) => if v.Float? then Err(NotAnInteger) else Ok(m[s := Clamp(v.i)])
  }

  /** The value the last well-formed entry naming `s` gives it, if any. */
  function LastValueFor(entries: seq<(string, Value)>, s: Stat): Option<int> {
    if entries == [] then None
    else
      var (name, v) := entries[|entries| - 1];
      if ParseStat(name) == Some(s) && v.Integer? then Some(v.i)
      else LastValueFor(entries[..|entries| - 1], s)
  }

  ghost predicate WellFormedEntries(entries: seq<(string, Value)>) {
    forall i :: 0 <= i < |entries| ==> ParseStat(entries[i].0).Some? && entries[i].1.Integer?
  }

  /** Construction succeeds exactly when every name is a stat and every value an integer;
      then each named stat holds the clamp of the last value given for it and every other
      stat keeps its default. */
  lemma {:induction false} OverridesMeaning(base: map<Stat, int>, entries: seq<(string, Value)>)
    requires InRange(base)
    ensures Overrides(base, entries).Ok? <==> WellFormedEntries(entries)
    ensures Overrides(base, entries).Ok? ==>
      var m := Overrides(base, entries).value;
      InRange(m) &&
      forall s: Stat :: m[s] == match LastValueFor(entries, s) case Some(v) => Clamp(v) case None => base[s]
  {
    if entries != [] {
      var init := entries[..|entries| - 1];
      OverridesMeaning(base, init);
      assert forall i :: 0 <= i < |init| ==> init[i] == entries[i];
      if WellFormedEntries(entries) {
        assert WellFormedEntries(init);
      }
    }
  }

  /** The listener calls a merge makes, stat by stat in `order`: one round per stat whose
      value the merge changes. */
  function MergeNotifications(listeners: seq<Handle>, mine: map<Stat, int>, other: map<Stat, int>, order: seq<Stat>): seq<Notification>
    requires InRange(mine) && InRange(other)
  {
    if order == [] then []
    else
      MergeNotifications(listeners, mine, other, order[..|order| - 1]) +
      MergeRound(listeners, mine, other, order[|order| - 1])
  }

  function StatIndex(s: Stat): (k: nat)
    ensures k < |StatOrder| && StatOrder[k] == s
  {
    match s case Con => 0 case Str => 1 case Dex => 2 case Int => 3 case Men => 4 case Wit => 5
  }

  /** A merge done for the first `i` stats of StatOrder. */
  function MergedUpTo(mine: map<Stat, int>, other: map<Stat, int>, i: nat): (m: map<Stat, int>)
    requires InRange(mine) && InRange(other)
    ensures InRange(m)
    ensures i >= |StatOrder| ==> m == Merged(mine, other)
  {
    EveryStatListed();
    map s: Stat | s in StatOrder :: if StatIndex(s) < i then Clamp(mine[s] + other[s]) else mine[s]
  }

  lemma {:induction false} MergedUpToStep(mine: map<Stat, int>, other: map<Stat, int>, i: nat)
    requires InRange(mine) && InRange(other) && i < |StatOrder|
    ensures var s := StatOrder[i];
      MergedUpTo(mine, other, i)[s := Clamp(mine[s] + other[s])] == MergedUpTo(mine, other, i + 1)
  {
    var s := StatOrder[i];
    assert StatIndex(s) == i;
    var a := MergedUpTo(mine, other, i)[s := Clamp(mine[s] + other[s])];
    var b := MergedUpTo(mine, other, i + 1);
    EveryStatListed();
    forall t: Stat ensures t in a && t in b && a[t] == b[t] {
      if t != s {
        assert StatIndex(t) != i;
      }
    }
  }

  function MergeRound(listeners: seq<Handle>, mine: map<Stat, int>, other: map<Stat, int>, s: Stat): seq<Notification>
    requires InRange(mine) && InRange(other)
  {
    var after := Clamp(mine[s] + other[s]);
    if after == mine[s] then [] else Notify(listeners, s, mine[s], after)
  }

  lemma {:induction false} MergeNotificationsStep(listeners: seq<Handle>, mine: map<Stat, int>, other: map<Stat, int>, order: seq<Stat>, n: nat)
    requires InRange(mine) && InRange(other) && n < |order|
    ensures MergeNotifications(listeners, mine, other, order[..n + 1]) ==
      MergeNotifications(listeners, mine, other, order[..n]) + MergeRound(listeners, mine, other, order[n])
  {
    assert order[..n + 1][..n] == order[..n];
  }

  lemma {:induction false} MergeStep(listeners: seq<Handle>, mine: map<Stat, int>, other: map<Stat, int>, i: nat)
    requires InRange(mine) && InRange(other) && i < |StatOrder|
    ensures var s := StatOrder[i];
      MergedUpTo(mine, other, i)[s] == mine[s] &&
      MergedUpTo(mine, other, i)[s := Clamp(mine[s] + other[s])] == MergedUpTo(mine, other, i + 1) &&
      MergeNotifications(listeners, mine, other, StatOrder[..i + 1]) ==
        MergeNotifications(listeners, mine, other, StatOrder[..i]) + MergeRound(listeners, mine, other, StatOrder[i])
  {
    assert StatIndex(StatOrder[i]) == i;
    MergedUpToStep(mine, other, i);
    MergeNotificationsStep(listeners, mine, other, StatOrder, i);
  }

  /** A listener, identified by a handle its owner gives it. */
  type Handle = nat

  /** One call of a listener with the stat, its value before the write and the value
      stored. */
  datatype Notification = Notification(listener: Handle, stat: Stat, before: int, after: int)

  function Notify(listeners: seq<Handle>, s: Stat, before: int, after: int): (calls: seq<Notification>)
    ensures |calls| == |listeners|
  {
    if listeners == [] then []
    else [Notification(listeners[0], s, before, after)] + Notify(listeners[1..], s, before, after)
  }

  /** Each listener is called once, in the order they were added. */
  lemma {:induction false} NotifyCallsEachListener(listeners: seq<Handle>, s: Stat, before: int, after: int, i: nat)
    requires i < |listeners|
    ensures Notify(listeners, s, before, after)[i] == Notification(listeners[i], s, before, after)
  {
    if i > 0 {
      NotifyCallsEachListener(listeners[1..], s, before, after, i - 1);
    }
  }

  /** How many of `calls` go to the listener `h`. */
  function Addressed(calls: seq<Notification>, h: Handle): nat {
    if calls == [] then 0
    else (if calls[0].listener == h then 1 else 0) + Addressed(calls[1..], h)
  }

  lemma {:induction false} AddressedAppend(x: seq<Notification>, y: seq<Notification>, h: Handle)
    ensures Addressed(x + y, h) == Addressed(x, h) + Addressed(y, h)
  {
    if x != [] {
      assert (x + y)[1..] == x[1..] + y;
      AddressedAppend(x[1..], y, h);
    } else {
      assert x + y == y;
    }
  }

  /** A write that notifies calls a listener once for each time it was added. */
  lemma {:induction false} AddressedNotify(listeners: seq<Handle>, s: Stat, before: int, after: int, h: Handle)
    ensures Addressed(Notify(listeners, s, before, after), h) == multiset(listeners)[h]
  {
    if listeners != [] {
      AddressedNotify(listeners[1..], s, before, after, h);
      assert listeners == [listeners[0]] + listeners[1..];
      assert multiset(listeners) == multiset([listeners[0]]) + multiset(listeners[1..]);
    }
  }

  class Stats {
    var values: map<Stat, int>
    var changeListeners: seq<Handle>

    ghost predicate Valid()
      reads this
    {
      InRange(values)
    }

    /** `Stats.new`: every stat at its default, no listener. */
    constructor ()
      ensures Valid() && values == Defaults() && changeListeners == []
    {
      values := Defaults();
      changeListeners := [];
    }

    constructor FromValues(m: map<Stat, int>)
      requires InRange(m)
      ensures Valid() && values == m && changeListeners == []
    {
      values := m;
      changeListeners := [];
    }

    /** `Stats.new(hash)`: the defaults, then each entry in turn. */
    static method New(entries: seq<(string, Value)>) returns (r: Result<Stats>)
      ensures r.Ok? <==> Overrides(Defaults(), entries).Ok?
      ensures r.Err? ==> r.error == Overrides(Defaults(), entries).error
      ensures r.Ok? ==>
        fresh(r.value) && r.value.Valid() &&
        r.value.values == Overrides(Defaults(), entries).value && r.value.changeListeners == []
    {
      var m := Defaults();
      var i := 0;
      while i < |entries|
        invariant 0 <= i <= |entries|
        invariant Overrides(Defaults(), entries[..i]) == Ok(m)
        invariant InRange(m)
      {
        assert entries[..i + 1][..i] == entries[..i];
        var (name, v) := entries[i];
        match ParseStat(name)
        case None =>
          PrefixErrorPersists(Defaults(), entries, i + 1);
          return Err(UnknownStat);
        case Some(s) =>
          if v.Float? {
            PrefixErrorPersists(Defaults(), entries, i + 1);
            return Err(NotAnInteger);
          }
          m := m[s := Clamp(v.i)];
        i := i + 1;
      }
      assert entries[..i] == entries;
      var st := new Stats.FromValues(m);
      return Ok(st);
    }

    /** `stats[stat]`. */
    function Get(s: Stat): (v: int)
      reads this
      requires Valid()
      ensures 0 <= v <= MaxStats
    {
      values[s]
    }

    /** `stats[stat] = v`: a non-integer fails and changes nothing; otherwise the clamp of
        `v` is stored and then, only if the stored value changed, every listener is called
        in order with the old and the stored value. */
    method Set(s: Stat, v: Value) returns (r: Outcome, calls: seq<Notification>)
      requires Valid()
      modifies this
      ensures Valid() && changeListeners == old(changeListeners)
      ensures v.Float? ==> r == Fail(NotAnInteger) && values == old(values) && calls == []
      ensures v.Integer? ==> r == Pass && values == old(values)[s := Clamp(v.i)]
      ensures v.Integer? ==>
        calls == if Clamp(v.i) == old(values)[s] then [] else Notify(changeListeners, s, old(values)[s], Clamp(v.i))
    {
      if v.Float? {
        return Fail(NotAnInteger), [];
      }
      calls := Store(s, v.i);
      r := Pass;
    }

    /** `set_stat`: store the clamped value, then notify on a real change. */
    method Store(s: Stat, v: int) returns (calls: seq<Notification>)
      requires Valid()
      modifies this
      ensures Valid() && changeListeners == old(changeListeners)
      ensures values == old(values)[s := Clamp(v)]
      ensures calls == if Clamp(v) == old(values)[s] then [] else Notify(changeListeners, s, old(values)[s], Clamp(v))
    {
      var before := values[s];
      values := values[s := Clamp(v)];
      calls := if Clamp(v) == before then [] else Notify(changeListeners, s, before, values[s]);
    }

    /** `self << other`: each stat becomes the clamp of its own value plus the other's, in
        the order of StatOrder; returns the receiver. The other Stats is left as it was
        unless it is the receiver itself. */
    method Merge(other: Stats) returns (r: Stats, calls: seq<Notification>)
      requires Valid() && other.Valid()
      modifies this
      ensures r == this && Valid() && changeListeners == old(changeListeners)
      ensures values == Merged(old(values), old(other.values))
      ensures other != this ==> other.values == old(other.values)
      ensures calls == MergeNotifications(changeListeners, old(values), old(other.values), StatOrder)
    {
      // The source reads the other's stat just before writing the receiver's; the loop
      // writes each stat once, after reading it, so reading them all first is the same,
      // even when `other` is the receiver.
      var theirs := other.values;
      var mine := values;
      calls := [];
      var i := 0;
      while i < |StatOrder|
        invariant 0 <= i <= |StatOrder|
        invariant changeListeners == old(changeListeners)
        invariant values == MergedUpTo(mine, theirs, i)
        invariant calls == MergeNotifications(changeListeners, mine, theirs, StatOrder[..i])
      {
        calls := MergeStat(mine, theirs, i, calls);
        i := i + 1;
      }
      assert StatOrder[..i] == StatOrder;
      r := this;
    }

    /** One round of `<<`: the `i`-th stat of StatOrder takes the clamped sum. */
    method MergeStat(mine: map<Stat, int>, theirs: map<Stat, int>, i: nat, before: seq<Notification>)
      returns (calls: seq<Notification>)
      requires InRange(mine) && InRange(theirs) && i < |StatOrder|
      requires values == MergedUpTo(mine, theirs, i)
      requires before == MergeNotifications(changeListeners, mine, theirs, StatOrder[..i])
      modifies this
      ensures changeListeners == old(changeListeners)
      ensures values == MergedUpTo(mine, theirs, i + 1)
      ensures calls == MergeNotifications(changeListeners, mine, theirs, StatOrder[..i + 1])
    {
      MergeStep(changeListeners, mine, theirs, i);
      var s := StatOrder[i];
      var c := Store(s, values[s] + theirs[s]);
      calls := before + c;
    }

    /** `self + other`: a new Stats with the clamped per-stat sums and no listener; both
        operands are left as they were. */
    method Plus(other: Stats) returns (r: Stats)
      requires Valid() && other.Valid()
      ensures fresh(r) && r.Valid() && r.changeListeners == []
      ensures r.values == Merged(values, other.values)
    {
      MergedMeaning(values, other.values);
      r := new Stats.FromValues(Merged(values, other.values));
    }

    /** `clone`: a new Stats with the same values and listeners. */
    method Clone() returns (r: Stats)
      requires Valid()
      ensures fresh(r) && r.Valid()
      ensures r.values == values && r.changeListeners == changeListeners
    {
      r := new Stats.FromValues(values);
      r.changeListeners := changeListeners;
    }

    /** `change_listeners << listener`. */
    method AddListener(h: Handle)
      requires Valid()
      modifies this
      ensures Valid() && values == old(values)
      ensures changeListeners == old(changeListeners) + [h]
    {
      changeListeners := changeListeners + [h];
    }
  }

  /** Once a prefix of the overrides fails, every longer prefix fails the same way. */
  lemma {:induction false} PrefixErrorPersists(base: map<Stat, int>, entries: seq<(string, Value)>, n: nat)
    requires n <= |entries|
    requires Overrides(base, entries[..n]).Err?
    ensures Overrides(base, entries) == Overrides(base, entries[..n])
    decreases |entries| - n
  {
    if n < |entries| {
      assert entries[..n + 1][..n] == entries[..n];
      PrefixErrorPersists(base, entries, n + 1);
    } else {
      assert entries[..n] == entries;
    }
  }
}
