/** Parties: between two and eight characters, without repetition, each pointing back to
    the party; the first member leads. A removal that leaves one member disperses the
    party for good. */
module Parties {
  import opened Errors
  import opened Seqs
  import Characters

  /** The most members a party can have. */
  const MaxSize: nat := 8
  /** The fewest members a party can be created with. */
  const MinSize: nat := 2

  type Character = Characters.Character

  /** `validate_characters` and the size checks of `initialize`, in order: too few, too
      many, a character already in a party, a character listed twice. */
  function ValidateCharacters(cs: seq<Character>): (r: Outcome)
    reads cs
    ensures r.Pass? <==>
      MinSize <= |cs| <= MaxSize && Distinct(cs) && forall i :: 0 <= i < |cs| ==> cs[i].party == null
    ensures |cs| < MinSize ==> r == Fail(TooFewCharacters)
    ensures MinSize <= |cs| && |cs| > MaxSize ==> r == Fail(TooManyCharacters)
    ensures MinSize <= |cs| <= MaxSize && r.Fail? ==> r.error == CharacterAlreadyInParty
  {
    UniqLengthIffDistinct(cs);
    if |cs| < MinSize then Fail(TooFewCharacters)
    else if |cs| > MaxSize then Fail(TooManyCharacters)
    else if !NoneInParty(cs) then Fail(CharacterAlreadyInParty)
    else if |cs| != |Uniq(cs)| then Fail(CharacterAlreadyInParty)
    else Pass
  }

  /** The loop of `validate_characters`: no character already belongs to a party. */
  function NoneInParty(cs: seq<Character>): (r: bool)
    reads cs
    ensures r <==> forall i :: 0 <= i < |cs| ==> cs[i].party == null
  {
    if cs == [] then true
    else cs[0].party == null && NoneInParty(cs[1..])
  }

  /** The state of a party as a value: its members in joining order, its leader and
      whether it has dispersed. */
  datatype Roster = Roster(members: seq<Character>, leader: Character, dispersed: bool)

  /** Members are distinct. A live party has two to eight members and is led by one of
      them; a dispersed one has none. */
  ghost predicate Shaped(p: Roster) {
    Distinct(p.members) &&
    (p.dispersed ==> p.members == []) &&
    (!p.dispersed ==> MinSize <= |p.members| <= MaxSize && p.leader in p.members)
  }

  /** What `remove(character)` does to the roster: the character is deleted, then the
      roster settles. */
  function Removed(p: Roster, c: Character): Roster {
    Settled(p.(members := RemoveAll(p.members, c)), c, c in p.members)
  }

  /** The end of `remove(character)`, once `p.members` is what the deletion left and
      `removed` says whether the character was deleted: if exactly one member is left,
      that member leaves too and the party disperses; if the deleted character led and
      members remain, the first of them leads. */
  function Settled(p: Roster, c: Character, removed: bool): Roster {
    var dispersing := |p.members| == 1;
    var left := if dispersing then [] else p.members;
    Roster(left,
           if removed && c == p.leader && left != [] then left[0] else p.leader,
           p.dispersed || dispersing)
  }

  /** A removal keeps a roster well-formed. A non-member changes nothing; otherwise the
      character is gone and the others keep their order, and either a party of more than
      two loses exactly that member (handing the lead to the first one left when it led)
      or a party of two disperses with no member at all. */
  lemma {:induction false} RemovedMeaning(p: Roster, c: Character)
    requires Shaped(p)
    ensures Shaped(Removed(p, c))
    ensures c !in Removed(p, c).members
    ensures c !in p.members ==> Removed(p, c) == p
    ensures c in p.members && |p.members| > MinSize ==>
      var q := Removed(p, c);
      q.members == RemoveAll(p.members, c) && |q.members| == |p.members| - 1 && !q.dispersed &&
      (forall x :: x in q.members <==> x in p.members && x != c) &&
      q.leader == if c == p.leader then q.members[0] else p.leader
    ensures c in p.members && |p.members| == MinSize ==> Removed(p, c) == Roster([], p.leader, true)
  {
    RemoveAllDistinct(p.members, c);
    RemoveAllMembers(p.members, c);
    if c !in p.members {
      assert RemoveAll(p.members, c) == p.members;
    }
  }

  class Party {
    /** The members, in the order they joined. */
    var members: seq<Character>
    var leader: Character
    var dispersed: bool

    /** The party's state as a value. */
    function State(): Roster
      reads this
    {
      Roster(members, leader, dispersed)
    }

    /** The roster is well-formed and every member points back to this party. */
    ghost predicate Valid()
      reads this, members
    {
      Shaped(State()) && forall x :: x in members ==> x.party == this
    }

    /** `initialize` once the characters passed validation: each gets this party as its
        party, the members are a copy of the array, and the first character leads. */
    constructor Init(cs: seq<Character>)
      requires ValidateCharacters(cs).Pass?
      modifies cs`party
      ensures Valid() && members == cs && leader == cs[0] && !dispersed
      ensures forall c :: c in cs ==> c.party == this
    {
      members := cs;
      leader := cs[0];
      dispersed := false;
      new;
      var i := 0;
      while i < |cs|
        invariant 0 <= i <= |cs|
        invariant members == cs && leader == cs[0] && !dispersed
        invariant forall k :: 0 <= k < i ==> cs[k].party == this
      {
        cs[i].party := this;
        i := i + 1;
      }
    }

    /** `Party.new(characters)`: a refused array changes no character; an accepted one
        yields a live party of exactly those characters, led by the first. */
    static method New(cs: seq<Character>) returns (r: Result<Party>)
      modifies cs`party
      ensures r.Err? <==> old(ValidateCharacters(cs)).Fail?
      ensures r.Err? ==> r.error == old(ValidateCharacters(cs)).error
      ensures r.Err? ==> forall c :: c in cs ==> c.party == old(c.party)
      ensures r.Ok? ==>
        fresh(r.value) && r.value.Valid() && r.value.members == cs && r.value.leader == cs[0] &&
        !r.value.dispersed && forall c :: c in cs ==> c.party == r.value
    {
      var o := ValidateCharacters(cs);
      if o.Fail? {
        return Err(o.error);
      }
      var p := new Party.Init(cs);
      return Ok(p);
    }

    /** `characters`: the members as a value; changing what the caller holds cannot change
        the party. */
    function Characters(): (r: seq<Character>)
      reads this, members
      requires Valid()
      ensures r == members
      ensures Distinct(r) && (dispersed ==> r == []) && (!dispersed ==> leader in r)
    {
      members
    }

    /** `length`. */
    function Length(): (n: nat)
      reads this, members
      requires Valid()
      ensures n == |members|
      ensures dispersed ==> n == 0
      ensures !dispersed ==> MinSize <= n <= MaxSize
    {
      |members|
    }

    /** `include?`. */
    function Includes(c: Character): (r: bool)
      reads this, members
      requires Valid()
      ensures r <==> c in members
      ensures r ==> c.party == this && !dispersed
    {
      c in members
    }

    /** `dispersed?`. */
    function Dispersed(): (r: bool)
      reads this, members
      requires Valid()
      ensures r ==> members == []
      ensures !r ==> |members| >= MinSize
    {
      dispersed
    }

    /** `self << character`: refused by a dispersed party, then by a full one, then for a
        character already in a party; otherwise the character joins at the end and points
        back to the party, and the party is returned so that calls chain. */
    method Add(c: Character) returns (r: Result<Party>)
      requires Valid()
      modifies this, c`party
      ensures Valid() && leader == old(leader) && dispersed == old(dispersed)
      ensures r.Err? <==> old(dispersed) || |old(members)| >= MaxSize || old(c.party) != null
      ensures r.Err? ==> members == old(members) && c.party == old(c.party)
      ensures old(dispersed) ==> r == Err(PartyHasDispersed)
      ensures !old(dispersed) && |old(members)| >= MaxSize ==> r == Err(PartyFull)
      ensures !old(dispersed) && |old(members)| < MaxSize && old(c.party) != null ==>
        r == Err(CharacterAlreadyInParty)
      ensures r.Ok? ==> r.value == this && members == old(members) + [c] && c.party == this
    {
      if dispersed {
        return Err(PartyHasDispersed);
      }
      if |members| >= MaxSize {
        return Err(PartyFull);
      }
      if c.party != null {
        return Err(CharacterAlreadyInParty);
      }
      // A member points back to this party, so `c` is not one.
      assert c !in members;
      c.party := this;
      DistinctSnoc(members, c);
      members := members + [c];
      return Ok(this);
    }

    /** `@characters.delete(character)` followed by clearing the back-reference of what
        was deleted. */
    method Delete(c: Character) returns (r: Option<Character>)
      requires Distinct(members) && forall x :: x in members ==> x.party == this
      modifies this`members, members`party
      ensures r == (if c in old(members) then Some(c) else None)
      ensures members == RemoveAll(old(members), c) && Distinct(members)
      ensures forall x :: x in members <==> x in old(members) && x != c
      ensures forall x :: x in members ==> x.party == this
      ensures c in old(members) ==> c.party == null && |members| == |old(members)| - 1
      ensures c !in old(members) ==> c.party == old(c.party)
    {
      RemoveAllDistinct(members, c);
      RemoveAllMembers(members, c);
      if c in members {
        members := RemoveAll(members, c);
        c.party := null;
        r := Some(c);
      } else {
        r := None;
      }
    }

    /** `remove(character)`: the roster becomes `Removed` of the old one, the removed
        character's back-reference is cleared, and so is that of the last member when the
        party disperses (its `leave_party` re-enters `remove`, which deletes it). The
        result is the character when it was a member and None otherwise. */
    method Remove(c: Character) returns (r: Option<Character>)
      requires Valid()
      modifies this, members`party
      ensures Valid()
      ensures r == (if c in old(members) then Some(c) else None)
      ensures State() == Removed(old(State()), c)
      ensures forall x :: x in old(members) ==> x.party == if x in members then this else null
    {
      ghost var before := State();
      r := Delete(c);
      RemovedMeaning(before, c);
      Settle(before.members, c, r.Some?);
    }

    /** The rest of `remove` once the character is deleted (`removed` says whether it
        was a member; `outer` holds the members before the deletion). After a dispersal
        no member is left, so the leader step only ever applies otherwise. */
    method Settle(ghost outer: seq<Character>, c: Character, removed: bool)
      requires forall x :: x in members ==> x.party == this && x in outer
      modifies this`members, this`leader, this`dispersed, outer`party
      ensures State() == Settled(old(State()), c, removed)
      ensures forall x :: x in members ==> x.party == this
      ensures forall x :: x in old(members) ==> x.party == if x in members then this else null
      ensures forall x :: x in outer && x !in old(members) ==> x.party == old(x.party)
    {
      if |members| == 1 {
        assert members[0] in outer;
        Disperse();
      } else if removed && c == leader && |members| > 0 {
        leader := members[0];
      }
    }

    /** The end of `remove` when one member is left: that member's `leave_party` calls
        `remove!` on this party, which deletes it and clears its back-reference (the
        nested call finds no member left, so it neither disperses nor changes the leader);
        then the party is marked dispersed. */
    method Disperse()
      requires |members| == 1 && members[0].party == this
      modifies this`members, this`dispersed, members`party
      ensures members == [] && dispersed && old(members)[0].party == null
    {
      var last := members[0];
      var _ := Delete(last);
      assert members == [] by {
        assert RemoveAll([last], last) == RemoveAll([], last);
      }
      dispersed := true;
    }

    /** `remove!(character)`: `remove`, but a non-member fails with CharacterNotFound. */
    method RemoveOrFail(c: Character) returns (r: Result<Character>)
      requires Valid()
      modifies this, members`party
      ensures Valid()
      ensures r.Err? <==> c !in old(members)
      ensures r.Err? ==> r.error == CharacterNotFound && State() == old(State()) && c.party == old(c.party)
      ensures r.Ok? ==> r.value == c && c.party == null && c !in members
      ensures State() == Removed(old(State()), c)
      ensures forall x :: x in old(members) ==> x.party == if x in members then this else null
    {
      ghost var before := State();
      var o := Remove(c);
      RemovedMeaning(before, c);
      if o.None? {
        return Err(CharacterNotFound);
      }
      return Ok(o.value);
    }

    /** `character.leave_party` for a character that is in this party or in none: without
        a party it fails with CharacterNotInParty; otherwise it is `remove!` on its party. */
    method LeaveParty(c: Character) returns (r: Outcome)
      requires Valid() && (c.party == null || c.party == this)
      modifies this, members`party
      ensures Valid()
      ensures old(c.party) == null ==> r == Fail(CharacterNotInParty) && State() == old(State())
      ensures old(c.party) != null && c in old(members) ==> r == Pass && c.party == null && c !in members
      ensures old(c.party) != null && c !in old(members) ==>
        r == Fail(CharacterNotFound) && State() == old(State())
      ensures old(c.party) != null ==> State() == Removed(old(State()), c)
      ensures forall x :: x in old(members) ==> x.party == if x in members then this else null
    {
      if c.party == null {
        return Fail(CharacterNotInParty);
      }
      var o := RemoveOrFail(c);
      r := if o.Err? then Fail(o.error) else Pass;
    }

    /** `leader = character`: only a current member can lead. */
    method SetLeader(c: Character) returns (r: Outcome)
      requires Valid()
      modifies this`leader
      ensures Valid()
      ensures c in members ==> r == Pass && leader == c
      ensures c !in members ==> r == Fail(CharacterNotFound) && leader == old(leader)
    {
      if c !in members {
        return Fail(CharacterNotFound);
      }
      leader := c;
      r := Pass;
    }
  }

  lemma DistinctSnoc<T>(s: seq<T>, x: T)
    requires Distinct(s) && x !in s
    ensures Distinct(s + [x])
  {
    forall i, j | 0 <= i < j < |s + [x]| ensures (s + [x])[i] != (s + [x])[j] {
      assert (s + [x])[i] == s[i];
      if j < |s| {
        assert (s + [x])[j] == s[j];
      }
    }
  }

  /** The elements left by a deletion are exactly the other ones. */
  lemma RemoveAllMembers<T>(s: seq<T>, x: T)
    ensures forall y :: y in RemoveAll(s, x) <==> y in s && y != x
  {
    forall y ensures y in RemoveAll(s, x) <==> y in s && y != x {
      assert y in RemoveAll(s, x) <==> multiset(RemoveAll(s, x))[y] > 0;
      assert y in s <==> multiset(s)[y] > 0;
    }
  }
}
