/** Values shared by every part of the attendance-report model: optional
    values, results, validation errors and the exceptions Ruby code raises. */
module Common {

  datatype Option<+T> = None | Some(value: T)

  datatype Result<+T, +E> = Ok(value: T) | Err(error: E)

  /** One entry of an ActiveRecord `errors` collection: the attribute it is
      filed under (`base` for record-level errors) and its message. */
  datatype FieldError = FieldError(attribute: string, message: string)

  /** `belongs_to :user`, which Rails requires by default: the user a
      record points at must exist. `users` holds the ids of the existing
      users. */
  function UserErrors(u: int, users: set<int>): (errs: seq<FieldError>)
    ensures errs == [] <==> u in users
    ensures errs != [] ==> errs == [FieldError("user", "must exist")]
  {
    if u in users then [] else [FieldError("user", "must exist")]
  }

  /** The exceptions the core raises or lets through. Ruby's
      NotImplementedError descends from ScriptError, not from StandardError,
      so a bare `rescue StandardError` does not catch it. */
  datatype Exception =
    | StandardError(message: string)
    | ArgumentError(message: string)
    | NotImplementedError(message: string)
  {
    predicate IsStandardError() { !NotImplementedError? }
  }

  /** How a Ruby method call ends: it returns, or an exception escapes it. */
  datatype Outcome = Returned | Raised(error: Exception)

  /** An exception raised by code the model does not contain (the database
      query behind a fetch, the CSV library, the storage service), given to
      the report pipeline as a parameter. `BuildRaises` escapes report
      building before its first row; `AttachRaises` escapes the attaching of
      the file, before anything is stored. */
  datatype Fault =
    | NoFault
    | BuildRaises(error: Exception)
    | AttachRaises(message: string)

  /** `Enumerable#map`: `f` applied to every element, in order. */
  function MapSeq<A, B>(xs: seq<A>, f: A -> B): (ys: seq<B>)
    ensures |ys| == |xs|
    ensures forall i :: 0 <= i < |xs| ==> ys[i] == f(xs[i])
  {
    if xs == [] then [] else MapSeq(xs[..|xs| - 1], f) + [f(xs[|xs| - 1])]
  }

  /** Ruby's `Integer#clamp(lo, hi)`. */
  function Clamp(x: int, lo: int, hi: int): (r: int)
    requires lo <= hi
    ensures lo <= r <= hi
    ensures lo <= x <= hi ==> r == x
    ensures x < lo ==> r == lo
    ensures hi < x ==> r == hi
  {
    if x < lo then lo else if hi < x then hi else x
  }
}
