/** Small failure-carrying datatypes shared by the whole model. */
module Wrappers {

  /** Python's `Optional[...]`: a field that may be `None`. */
  datatype Option<+T> = None | Some(value: T)

  /** What a Python call that may raise gives back: its value, or the raised message. */
  datatype Result<+T> = Success(value: T) | Failure(error: string)

  /** One call to an external text-generation collaborator: the text it returned,
      or the message of the exception it raised. */
  datatype Outcome = Ok(text: string) | Fail(msg: string)

  /** `x or ""` on an optional string. */
  function OrEmpty(x: Option<string>): (r: string)
    ensures x.Some? ==> r == x.value
    ensures x.None? ==> r == ""
  {
    if x.Some? then x.value else ""
  }
}
