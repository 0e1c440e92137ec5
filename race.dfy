/** Races: a stats bonus and the element, elements or no element a character of the race
    is attuned to. */
module Races {
  import opened Errors
  import opened Seqs
  import opened StatBlock

  /** A value given where an element is expected: a symbol, or anything else (a string,
      nil, a number), kept only as its printed form. */
  datatype Item = Symbol(name: string) | NonSymbol(repr: string)

  /** What `element=` accepts: nil, one value, or an array of values. */
  datatype ElementArg = NoElement | One(item: Item) | Many(items: seq<Item>)

  /** `validate_element`: the element must be among the `known` ones. */
  function ValidateElement(known: set<string>, name: string): (r: Outcome)
    ensures r.Pass? <==> name in known
    ensures r.Fail? ==> r.error == UnknownElement
  {
    if name in known then Pass else Fail(UnknownElement)
  }

  /** The per-item checks of `validate_elements`, in array order: the first item that is
      not a symbol, or is an unknown element, decides the error. */
  function ValidateItems(known: set<string>, items: seq<Item>): Outcome {
    if items == [] then Pass
    else match items[0]
      case NonSymbol(_) => Fail(NonSymbolElement)
      case Symbol(name) =>
        match ValidateElement(known, name)
        case Fail(e) => Fail(e)
        case Pass => ValidateItems(known, items[1..])
  }

  /** `validate_elements`: uniqueness first, then each item. */
  function ValidateElements(known: set<string>, items: seq<Item>): Outcome {
    if |items| != |Uniq(items)| then Fail(DuplicateElement) else ValidateItems(known, items)
  }

  /** The validation `element=` performs before it assigns. A single value must be a symbol
      naming a known element. */
  function CheckElement(known: set<string>, arg: ElementArg): Outcome {
    match arg
    case NoElement => Pass
    case One(NonSymbol(_)) => Fail(NotAnElementValue)
    case One(Symbol(name)) => ValidateElement(known, name)
    case Many(items) => ValidateElements(known, items)
  }

  ghost predicate KnownSymbols(known: set<string>, items: seq<Item>) {
    forall i :: 0 <= i < |items| ==> items[i].Symbol? && items[i].name in known
  }

  lemma {:induction false} ValidateItemsMeaning(known: set<string>, items: seq<Item>)
    ensures ValidateItems(known, items).Pass? <==> KnownSymbols(known, items)
    ensures ValidateItems(known, items).Fail? ==>
      ValidateItems(known, items).error in {NonSymbolElement, UnknownElement}
  {
    if items != [] {
      ValidateItemsMeaning(known, items[1..]);
      if KnownSymbols(known, items) {
        assert KnownSymbols(known, items[1..]) by {
          forall i | 0 <= i < |items[1..]| ensures items[1..][i].Symbol? && items[1..][i].name in known {
            assert items[1..][i] == items[i + 1];
          }
        }
      }
      if items[0].Symbol? && items[0].name in known && KnownSymbols(known, items[1..]) {
        forall i | 0 <= i < |items| ensures items[i].Symbol? && items[i].name in known {
          if i > 0 { assert items[i] == items[1..][i - 1]; }
        }
      }
    }
  }

  /** `element=` accepts exactly nil, one known element, or an array of known elements
      without repetition; a repetition is reported before anything else about the array. */
  lemma {:induction false} CheckElementMeaning(known: set<string>, arg: ElementArg)
    ensures CheckElement(known, arg).Pass? <==>
      match arg
      case NoElement => true
      case One(item) => item.Symbol? && item.name in known
      case Many(items) => Distinct(items) && KnownSymbols(known, items)
    ensures arg.Many? && !Distinct(arg.items) ==> CheckElement(known, arg) == Fail(DuplicateElement)
  {
    if arg.Many? {
      UniqLengthIffDistinct(arg.items);
      ValidateItemsMeaning(known, arg.items);
    }
  }

  class Race {
    /** The stats bonus a character of the race receives. */
    const stats: Stats
    /** Read and written as both `element` and `elements`. */
    var element: ElementArg

    /** `Race.new(stats)`: no element. */
    constructor (s: Stats)
      ensures stats == s && element == NoElement
    {
      stats := s;
      element := NoElement;
    }

    /** `Race.new(stats, element)`: the element is set as `element=` sets it. */
    static method New(s: Stats, arg: ElementArg, known: set<string>) returns (r: Result<Race>)
      ensures r.Ok? <==> CheckElement(known, arg).Pass?
      ensures r.Err? ==> r.error == CheckElement(known, arg).error
      ensures r.Ok? ==> fresh(r.value) && r.value.stats == s && r.value.element == arg
    {
      var race := new Race(s);
      var o := race.SetElement(arg, known);
      if o.Fail? {
        return Err(o.error);
      }
      return Ok(race);
    }

    /** `element=` and `elements=`: the element is assigned only once every check passed;
        a refused value leaves the stored one as it was. */
    method SetElement(arg: ElementArg, known: set<string>) returns (r: Outcome)
      modifies this
      ensures r == CheckElement(known, arg)
      ensures r.Pass? ==> element == arg
      ensures r.Fail? ==> element == old(element)
    {
      r := CheckElement(known, arg);
      if r.Pass? {
        element := arg;
      }
    }
  }
}
