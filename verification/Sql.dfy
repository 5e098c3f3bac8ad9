/** SQL semantics shared by every table model: nullable columns, three-valued logic
    (section 8.12 of SQL-92, ISO/IEC 9075:1992) and the rule that a CHECK rejects a row
    only when its condition is FALSE (section 11.9). */
module Sql {

  /** A nullable column value. */
  datatype Option<+T> = None | Some(value: T)

  datatype Truth = True | False | Unknown {
    function And(other: Truth): Truth {
      if this == False || other == False then False
      else if this == True && other == True then True
      else Unknown
    }

    function Or(other: Truth): Truth {
      if this == True || other == True then True
      else if this == False && other == False then False
      else Unknown
    }
  }

  function Of(b: bool): Truth {
    if b then True else False
  }

  function IsNull<T>(value: Option<T>): Truth {
    Of(value.None?)
  }

  function NotNull<T>(value: Option<T>): Truth {
    Of(value.Some?)
  }

  /** `column = constant`, UNKNOWN on NULL. */
  function Eq<T(==)>(value: Option<T>, constant: T): Truth {
    if value.None? then Unknown else Of(value.value == constant)
  }

  /** A CHECK constraint accepts TRUE and UNKNOWN. */
  predicate Passes(t: Truth) {
    t != False
  }
}
