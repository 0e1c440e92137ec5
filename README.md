# Characters, crystals and parties of a role-playing game, in Dafny

This project models the core of a small Ruby role-playing-game library. The core has six parts:

- **Stats**: six basic integer stats (`con`, `str`, `dex`, `int`, `men`, `wit`).
  - Each defaults to 20 and is clamped to [0, 50] on every write.
  - They can be merged into another Stats (`<<`) or added into a new one (`+`).
  - Listeners are called after a write that changes a value.
- **Attributes**: a fixed table of 19 derived attributes.
  - Each attribute has a kind (Integer or Float) and a minimum.
  - Some also have a maximum, which is a literal or the live value of another attribute.
  - Seventeen of them are computed by formulas from the stats and the level.
  - The two transient attributes, health and mana, are bounded by `total_health` and `total_mana`. A total that falls pulls its transient down with it.
- **Characters**: a race, an optional job and the stats both give, the attributes, a level in [1, 50], and the experience of the current level.
  - Setting the experience cascades up or down through the levels.
  - A cascade recomputes the attributes exactly once, refilling health and mana.
  - Up to three crystals can be bound, behind ordered guards.
- **Crystals**: elemental items with a level in [1, 10] that never decreases, and AP that cascade up through the levels. A crystal can be bound to one character only.
- **Parties**: two to eight distinct characters, each pointing back to its party. The first member leads. A removal that leaves one member disperses the party for good.
- **Races**: a stats bonus and an element. The element is nil, one known element, or an array of distinct known elements.

## Model

Files:

- `leveling.dfy`: the threshold progression (`floor(x * 1.5)` per level) and the up/down cascades that characters and crystals share, as functions with their lemmas.
- `stats.dfy`, `attributes.dfy`, `character.dfy`, `crystal.dfy`, `party.dfy`: each Ruby class is a Dafny `class` with the same fields, and each method is proved against a specification function.
- `race.dfy`: the element checks are pure functions, and the race is a class.
- `errors.dfy`: every exception becomes a variant of one `Error` datatype. An operation that raises returns `Fail(e)` or `Err(e)` and changes nothing the source would not have changed.
- `values.dfy`: Ruby numbers are `Integer(int)` or `Float(real)`.

| member | source | states |
|---|---|---|
| StatBlock.Clamp | stats.rb:85-90 | the stored value lies in [0, 50]: a value inside stays, one above 50 becomes 50, one below 0 becomes 0 |
| StatBlock.Defaults | stats.rb:27-34 | a fresh Stats holds all six stats at 20 |
| StatBlock.ParseStatName | stats.rb:49-61 | each stat is reached by its own name |
| StatBlock.OverridesMeaning | stats.rb:36-41 | construction succeeds exactly when every name is a stat and every value an integer; each named stat then holds the clamp of the last value given for it, every other stat its default |
| StatBlock.PrefixErrorPersists | stats.rb:37-39 | the first failing entry decides the error of the whole construction |
| StatBlock.MergedMeaning | stats.rb:70-72 | merging gives every stat the clamp of the two values' sum, stays in range and is symmetric |
| StatBlock.NotifyCallsEachListener | tests/test_stats.rb:122-148 | the i-th call of a notifying write goes to the i-th listener, with the stat, the old and the stored value |
| StatBlock.AddressedNotify | tests/test_stats.rb:122-148 | a notifying write calls each listener once for each time it was added |
| StatBlock.Stats.constructor | stats.rb:24-34 | a Stats built without overrides holds the defaults and has no listener |
| StatBlock.Stats.New | stats.rb:24-42 | a Stats built from a hash fails exactly as the overrides fail, and otherwise holds their result |
| StatBlock.Stats.Get | stats.rb:57-60 | `stats[stat]` returns the stored value, which lies in [0, 50] |
| StatBlock.Stats.Set | tests/test_stats.rb:122-148 | a non-integer is refused with nothing changed and nobody called; an integer stores its clamp, and the listeners are called in order only when the stored value changed |
| StatBlock.Stats.Store | stats.rb:85-90 | the clamped value is stored and the other stats are kept |
| StatBlock.Stats.Merge | stats.rb:67-75 | `<<` leaves the receiver holding the merged stats and returns it; the argument is unchanged unless it is the receiver; the notifications are those of the changed stats, in stat order |
| StatBlock.Stats.Plus | tests/test_stats.rb:91-113 | `+` yields a new Stats of the merged values without listeners, and both operands are unchanged |
| StatBlock.Stats.Clone | character.rb:159 | the copy is a new Stats with the same values and listeners |
| StatBlock.Stats.AddListener | character.rb:75-77 | adding a listener appends it and leaves the values alone |
| AttributeSet.ParseAttr | attributes.rb:205-215 | a name is accepted exactly when it names an attribute |
| AttributeSet.Table | attributes.rb:14-125 | an attribute bounded by another attribute has no formula, and one without a formula is Integer |
| AttributeSet.TableMeaning | attributes.rb:14-125 | health and mana are exactly the attributes without a formula; they are Integer, their maxima are total_health and total_mana, and every minimum is the Integer 0 |
| AttributeSet.FormulaValue | attributes.rb:185-186 | a formula yields a value of its attribute's kind |
| AttributeSet.ValidateLimits | attributes.rb:257-281 | the result is the value, the minimum or the maximum, a reference bound reading the live attribute; it is never above the maximum, and never below the minimum unless the maximum lies below it; a value within the bounds is kept |
| AttributeSet.ValidateLimitsOrder | attributes.rb:257-271 | the minimum is applied before the maximum: a value below the minimum ends at the minimum unless the maximum is lower still; a value above the maximum, or any value when the maximum is below the minimum, ends at the maximum |
| AttributeSet.Minimums | attributes.rb:144-147 | a fresh Attributes holds every attribute at its declared minimum |
| AttributeSet.MinimumsWellFormed | attributes.rb:144-147 | the minimums satisfy every bound, health and mana included |
| AttributeSet.Reconcile | attributes.rb:244-249 | a transient stays exactly when it is below its total and otherwise becomes the total, so it never exceeds the total |
| AttributeSet.AssignedMeaning | attributes.rb:226-242 | a write of the right kind keeps every bound; it stores the limited value, pulls the paired transient down to a new total without ever raising it, and leaves every other attribute alone |
| AttributeSet.AssignedElsewhere | attributes.rb:235-241 | a write touches only its attribute and, for a total, that total's transient |
| AttributeSet.Computed | attributes.rb:185-186 | a recomputed formula attribute is at least 0; an Integer attribute holds an Integer (a Float attribute pushed to a limit holds that Integer limit, as accuracy's `max: 1` does); it is at most any literal maximum |
| AttributeSet.RecalculatedMeaning | attributes.rb:181-193 | recomputation keeps every bound and stores each formula attribute's computed value; with reset, health and mana end equal to their totals; without it, each transient is kept exactly when it does not exceed its new total and is never raised |
| AttributeSet.RecalculatedIdempotent | attributes.rb:181-188 | recomputing twice without reset equals recomputing once |
| AttributeSet.RecalculatedResetForgets | attributes.rb:189-192 | a recomputation with reset does not depend on the values it starts from |
| AttributeSet.FreshFloatRefusesItsOwnValue | attributes.rb:144-147 | a fresh Float attribute holds the Integer 0, so writing that value back fails the kind check |
| AttributeSet.Attributes.constructor | attributes.rb:133-150 | a new Attributes holds the minimums, or their recomputation with reset when stats are given |
| AttributeSet.Attributes.Get | attributes.rb:158-161 | `[]` fails exactly for an unknown name and otherwise returns the attribute's value |
| AttributeSet.Attributes.Set | attributes.rb:170-173 | `[]=` refuses an unknown name or a value of the wrong kind with nothing changed; otherwise it performs the write |
| AttributeSet.Attributes.SetAttribute | attributes.rb:226-242 | the kind check first; then the attributes become the write of the value, which keeps every bound |
| AttributeSet.Attributes.UpdateTransient | attributes.rb:244-249 | the transient is reconciled with its total and nothing else changes |
| AttributeSet.Attributes.CalculateAttributes | attributes.rb:181-193 | the attributes become the recomputation of the old ones, and every bound holds |
| AttributeSet.Attributes.RecomputeFormulas | attributes.rb:182-187 | the loop over the table leaves the recomputation without reset |
| AttributeSet.Attributes.ResetTransients | attributes.rb:189-192 | health, then mana, set to its total |
| Leveling.StepIsTruncatedProduct | character.rb:108 | `floor(x * 1.5)` on a non-negative integer is `x + x / 2` |
| Leveling.ComputeThreshold | character.rb:106-110 | the `times` loop yields the level's threshold |
| Leveling.GainMeaning | character.rb:251-267 | a gain settles below the cap with the points under the threshold, or at the cap with them at most the threshold; it never goes down a level and keeps every point up to the ceiling |
| Leveling.GainIdempotent | character.rb:265 | writing back the points a gain settled on changes nothing |
| Leveling.GainDependsOnlyOnTotal | character.rb:257-265 | two gains that land on the same total end on the same standing |
| Leveling.DescendMeaning | character.rb:285-291 | the descent loop ends lower, at level 1 or more, with the points at most the threshold, and loses exactly what was owed (never below 0) |
| Leveling.LoseMeaning | character.rb:275-301 | a loss lands the given amount below the start of the current level, never below 0 and never below level 1; it always drops a level unless already at level 1 |
| Leveling.LoseCanLeaveFullLevel | character.rb:285-300 | a loss can leave the experience equal to the threshold below the cap, e.g. level 4 with 50 losing 225 gives level 2 with 150 |
| Characters.ValidateLevel | character.rb:92-98 | a level is accepted exactly when it is an integer in [1, 50]; the non-integer check comes first |
| Characters.BindingCheck | character.rb:184-200 | the binding guards, in order: crystal limit, crystal already held or bound, level gate `count * (50 / 3)`, same element; each error arises exactly when the earlier guards pass |
| Characters.CrystalLevelGates | character.rb:194 | the second crystal needs level 16 and the third level 32 |
| Characters.ThresholdsUpTo10 | character.rb:106-110 | the experience thresholds 100, 150, 225, 337, 505, 757, 1135, 1702, 2553 and 3829 |
| Characters.ThresholdsUpTo50 | character.rb:106-110 | the threshold of level 50 is 42329445661 |
| Characters.ExperienceCascades | character.rb:251-301 | from level 1, 5000 gives level 9 with 89 and 110 gives level 2 with 10; from level 10 with 0, losing 5000 gives level 7 with 390; at level 1 a loss leaves 0 |
| Characters.Character.Init | character.rb:63-81 | the base stats are the defaults merged with the race's bonus; the stats add the job's bonus and carry the character's listener; the attributes are the minimums, at level 1 |
| Characters.Character.New | character.rb:63-84 | creation fails exactly when the level is refused; otherwise the character starts at that level with 0 experience and attributes recomputed once with reset |
| Characters.Character.RecalculateAttributes | character.rb:239-242 | the attributes become their recomputation from the current stats and level |
| Characters.Character.SetLevel | character.rb:91-113 | a refused level changes nothing; an accepted one sets the level, clears the experience and recomputes with reset exactly once unless a cascade holds recomputation back |
| Characters.Character.SetExperience | character.rb:123-135 | a non-integer fails and changes nothing; 0 changes nothing; otherwise the level and experience become the cascade up or down; a gain that reaches the threshold, or a loss above level 1, recomputes exactly once with reset, and any other write recomputes nothing |
| Characters.Character.AddExperience | character.rb:251-267 | a gain below the threshold is stored as it is; otherwise the level and experience become the gain's cascade, with one recomputation with reset |
| Characters.Character.ClimbLevels | character.rb:257-260 | the climb loop preserves the gain's outcome and leaves the attributes untouched |
| Characters.Character.SettleClimb | character.rb:262-265 | one recomputation with reset, then the leftover pinned at the threshold |
| Characters.Character.SubtractExperience | character.rb:275-301 | the level and experience become the loss's outcome; at level 1 nothing is recomputed, otherwise exactly one recomputation with reset |
| Characters.Character.DropLevels | character.rb:285-291 | the descent loop preserves the loss's outcome and leaves the attributes untouched |
| Characters.Character.SetJob | character.rb:153-161 | the stats become the base stats plus the job's bonus, in a new Stats without listener, and the attributes are recomputed without reset |
| Characters.Character.WriteStat | character.rb:75-77 | a stat write recomputes the attributes without reset once for each time the character's listener is called, and only if the stored value changed and the stats still carry the listener |
| Characters.Character.Crystals | character.rb:167-169 | the bound crystals, at most three, each bound to this character |
| Characters.Character.ValidateCrystalBinding | character.rb:214-219 | passes exactly below the limit, for a crystal neither held nor bound; the limit error comes first |
| Characters.Character.ValidateCrystalElement | character.rb:227-233 | passes exactly when no bound crystal has the same element |
| Characters.Character.BindCrystal | character.rb:184-200 | the result is the binding guards' verdict; on success the crystal is appended and bound to the character; on failure neither changes |
| Crystals.LevelError | crystal.rb:92-102 | a level passes exactly when it is an integer in [1, 10] not below the current one; otherwise the error is NotAnInteger, then LevelOutOfRange, then LevelBelowCurrent, each only when the earlier guards pass |
| Crystals.LevelNeverDecreases | crystal.rb:100-102 | a level below the current one is refused |
| Crystals.ApThresholds | crystal.rb:110-111 | the AP thresholds 45, 67, 100, 150, 225, 337, 505, 757, 1135, 1702 |
| Crystals.ApCascades | crystal.rb:129-135 | from level 1, 225 AP give level 4 with 13 and 10000 AP give level 10 with the threshold; from level 3, 300 AP give level 5 with 50 |
| Crystals.Crystal.constructor | crystal.rb:51-54 | a new crystal has level 1, threshold 45, no AP and no owner |
| Crystals.Crystal.New | crystal.rb:41-56 | an unknown element fails first; then the level is set as `level=` sets it |
| Crystals.Crystal.BoundTo | crystal.rb:80-82 | `bound_to` returns the character recorded by binding, null while unbound; the binding guard of a character reads it |
| Crystals.Crystal.BindTo | crystal.rb:65-75 | binding succeeds once; a bound crystal refuses whatever the argument and keeps its owner (the non-Character refusal is not modelled, see Left out) |
| Crystals.Crystal.SetLevel | crystal.rb:89-112 | the current level, compared numerically, changes nothing; a refused level changes nothing; otherwise the level is set, AP become 0 and the threshold is recomputed |
| Crystals.Crystal.SetAp | crystal.rb:122-139 | a non-integer or negative AP is refused with nothing changed; otherwise the level and AP become the gain's cascade |
| Crystals.Crystal.ClimbLevels | crystal.rb:130-133 | the loop preserves the gain's outcome and stops below the threshold or at the cap |
| Races.ValidateElement | race.rb:74-78 | an element passes exactly when it is known |
| Races.ValidateItemsMeaning | race.rb:61-67 | an array passes the item checks exactly when all its items are known symbols |
| Races.CheckElementMeaning | race.rb:30-42 | `element=` accepts exactly nil, one known symbol, or an array of distinct known symbols; a repetition is reported first |
| Races.Race.constructor | race.rb:20-23 | a race created without an element has none |
| Races.Race.New | race.rb:20-23 | creation with an element fails exactly as `element=` fails |
| Races.Race.SetElement | race.rb:30-42 | the result is the element check; the element is stored only when it passes and is kept otherwise |
| Seqs.UniqLengthIffDistinct | race.rb:57-59 | `length == uniq.length` holds exactly when nothing repeats |
| Seqs.RemoveAllDistinct | party.rb:83 | deleting a member of a repetition-free list shortens it by one and keeps it repetition-free |
| Parties.ValidateCharacters | party.rb:27-36 | creation is accepted exactly for 2 to 8 distinct characters, none in a party; too few, then too many, then CharacterAlreadyInParty |
| Parties.NoneInParty | party.rb:145-151 | no character already belongs to a party |
| Parties.RemovedMeaning | party.rb:82-93 | a removal keeps the roster well formed; a non-member changes nothing; a larger party loses exactly that member, keeping order, and the lead passes to the first remaining member only when the leader left; a party of two disperses with no member |
| Parties.Party.Init | party.rb:38-40 | the members are the characters, each pointing to this party, and the first leads |
| Parties.Party.New | party.rb:21-41 | a refused array changes no character; an accepted one yields a live party of exactly those characters, led by the first |
| Parties.Party.Characters | party.rb:44-46 | the members, as a value |
| Parties.Party.Length | party.rb:49-51 | the member count, 0 once dispersed and 2 to 8 otherwise |
| Parties.Party.Includes | party.rb:109-111 | true exactly for members, who point to this party |
| Parties.Party.Dispersed | party.rb:129-131 | a dispersed party has no member and a live one at least two |
| Parties.Party.Add | party.rb:62-75 | refused when dispersed, then when full, then for a character in a party, with nothing changed; otherwise the character is appended and points to the party, which is returned |
| Parties.Party.Delete | party.rb:83-84 | the character is deleted and its back-reference cleared; the others keep theirs |
| Parties.Party.Remove | party.rb:82-93 | returns the character exactly when it was a member; the roster becomes its removal, and exactly the characters who left have their back-reference cleared |
| Parties.Party.Settle | party.rb:86-91 | the roster settles after the deletion; only a member who leaves loses its back-reference |
| Parties.Party.Disperse | party.rb:86-88 | the last member leaves, and the party is empty and dispersed |
| Parties.Party.RemoveOrFail | party.rb:100-105 | the roster becomes its removal, as in `remove`: the lead passes on, a party of two disperses, and exactly the characters who left lose their back-reference; a non-member fails with CharacterNotFound and changes neither the roster nor its own party |
| Parties.Party.LeaveParty | character.rb:144-147 | a character without a party fails with CharacterNotInParty and changes nothing; otherwise the roster becomes its removal, as `remove!` makes it, and exactly the characters who left lose their back-reference |
| Parties.Party.SetLeader | party.rb:116-126 | only a current member can lead; anyone else is refused with the leader unchanged |

## Left out

- The formula lambdas of attributes.rb:14-121 are left uninterpreted. A `Formulas` value supplies one integer and one real function of the attribute, the stats and the level, so `floor`, `round(2)` and their floating point are not modelled.
- Float values are exact reals. The core only compares them with the literals 0, 1 and 70.
- Thresholds are computed exactly. `floor(x * 1.5)` in double precision equals `x + x / 2` only below 2^53; every threshold of both progressions is far below that.
- Ruby's reflection is replaced by enums and name parsers:
  - `Stats#method_missing` (stats.rb:49-61);
  - the generated accessors of hash_properties.rb.
- The `is_a?` and key-type checks are left out, most of them made vacuous by static types: a non-Hash, a non-Stats, a non-Race, a non-Job, a non-Character given to a Party, a non-Crystal, a non-Symbol attribute name, a non-Symbol stat name (tests/test_stats.rb:13-16: stat names are strings standing for symbols, so a String key such as `"con"` is accepted as the stat it names). Their ArgumentError paths do not exist here.
  - Only the Integer/Float kind checks remain.
  - Race's "not a Symbol or Array" check remains, as `NotAnElementValue`.
- Crystals.Crystal.BindTo: the argument is an `object`, because the Characters module imports Crystals and the reverse import would be a cycle; an unbound crystal given something other than a Character is therefore bound to it and passes, where crystal.rb:70-72 raises ArgumentError and leaves it unbound. The only caller in the model, `Characters.Character.BindCrystal`, passes the character itself.
- The element list comes from elements.rb, which is not part of this model. It is a parameter `known: set<string>`.
- A job and a race's stats are represented by their Stats. character_modifier.rb and job.rb only hold one.
- The exception classes of exceptions/ become variants of the `Errors.Error` datatype.
- The stats.rb in this repository has no `[]`, `[]=`, `+` or `change_listeners`. Those are taken as tests/test_stats.rb:91-148 and character.rb:75,159 use them: `Stats.Get`, `Stats.Set`, `Stats.Plus`, `Stats.AddListener`.
- Listeners are handles. A write returns the notifications it makes instead of running arbitrary code.
  - Only the character's own handle has an effect, a recomputation without reset.
  - A listener that is not callable (tests/test_stats.rb:132) is just another handle.
- StatBlock.Stats.Clone: an independent copy. A shallow Ruby `clone` would share the hash and the listener list with the base stats; whether it does depends on a version of stats.rb that is not part of this model.
- Parties.Party.LeaveParty: `leave_party` is a Character method, modelled on the Party side. It requires that the character's party is this party or none; a character of another party is a call on that party.
- Parties.Party.Remove: the re-entrant `leave_party` of the last member is inlined as `Disperse`, which has the same effect: the last member deleted and its back-reference cleared, the leader left as it was.
- AttributeSet.Attributes.constructor takes the stats as an optional map of values rather than a Stats object. The Integer check on its level is a type here.
- Characters.Character.WriteStat: writes through `character.stats` only. Listeners of other owners on the same Stats are reported as notifications, not run.
