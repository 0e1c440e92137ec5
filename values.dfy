/** The numeric values the core stores: Ruby's Integer and Float. Float is modelled by the
    exact reals; the core only compares such values with the literals 0, 1 and 70. */
module Values {

  datatype Kind = IntegerKind | FloatKind

  datatype Value = Integer(i: int) | Float(f: real)
  {
    function KindOf(): Kind {
      if Integer? then IntegerKind else FloatKind
    }

    /** The number a value denotes; Ruby compares an Integer with a Float numerically. */
    function AsReal(): real {
      match this
      case Integer(n) => n as real
      case Float(x) => x
    }
  }

  /** Ruby's `a < b` between two numeric values. */
  predicate Less(a: Value, b: Value) {
    a.AsReal() < b.AsReal()
  }
}
