/** Option and Result values used in place of the library's nulls and exceptions. */
module Wrappers {

  datatype Option<+T> = None | Some(value: T)

  /** The exception kinds the library raises, as values. */
  datatype Fault =
    | InvalidArgument(field: string) // a guard of a validating constructor or request builder failed
    | BadFormat                      // int.Parse, uint.Parse, Enum.Parse or a token map rejected a field
    | MissingField(index: nat)       // split[index] past the end of the split response
    | NullString                     // .Length taken of an unset (null) string slot
    | NoMatch                        // First found no registry entry with the wanted code
    | NegativeLength                 // an array allocated with a negative length
    | NotImplemented                 // a transaction over the serial transport

  datatype Result<+T> = Ok(value: T) | Err(error: Fault) {
    predicate IsFailure() { Err? }

    function PropagateFailure<U>(): Result<U>
      requires Err?
    {
      Err(error)
    }

    function Extract(): T
      requires Ok?
    {
      value
    }
  }

  /** Turns a failed parse into BadFormat. */
  function OrBadFormat<T>(o: Option<T>): (r: Result<T>)
    ensures o.Some? <==> r.Ok?
    ensures o.Some? ==> r.value == o.value
    ensures o.None? ==> r == Err(BadFormat)
  {
    match o
    case Some(v) => Ok(v)
    case None => Err(BadFormat)
  }
}
