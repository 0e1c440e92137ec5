/** The exceptions raised across the core, as one datatype, and the wrappers that carry them.
    Each variant names the Ruby exception class (or ArgumentError message) it stands for. */
module Errors {

  datatype Error =
    // ArgumentError raised by Stats, Attributes, Character, Crystal, Race and Party
    | UnknownStat            // "Unrecognized stat"
    | NotAnInteger           // "Integer expected"
    | UnknownAttribute       // "Unrecognized attribute"
    | WrongKind              // "Expected Integer/Float but got ..."
    | LevelOutOfRange        // "`level` must be between 1 and MAX_LEVEL"
    | LevelBelowCurrent      // "`level` must be greater or equal to ..."
    | NegativeAp             // "`ap` must be a positive integer"
    | UnknownElement         // "Unknown element" / "`element` should be a valid element"
    | NotAnElementValue      // "`element` should be a Symbol or an Array of Symbols"
    | DuplicateElement       // "Elements in the array should be unique"
    | NonSymbolElement       // "All elements of the array should be Symbols"
    | TooFewCharacters       // "Parties should be compraised of at least two characters"
    | TooManyCharacters      // "Party size cannot exceed MAX_SIZE characters"
    // Party exceptions
    | CharacterAlreadyInParty
    | CharacterNotFound
    | CharacterNotInParty
    | PartyFull
    | PartyHasDispersed
    // Crystal binding exceptions
    | CrystalLimitReached
    | CrystalAlreadyBound
    | LevelTooLowForCrystalBinding
    | SameElementCrystalAlreadyBound

  datatype Option<+T> = None | Some(value: T)

  datatype Result<+T> = Ok(value: T) | Err(error: Error)

  /** The result of a check or of an operation that returns nothing of interest. */
  datatype Outcome = Pass | Fail(error: Error)
}
