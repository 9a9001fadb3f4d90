/** Outcome types, bytes and a few facts about sequences shared by every module. */
module Basics {
  datatype Option<+T> = None | Some(value: T) {
    predicate IsFailure() { None? }
    function PropagateFailure<U>(): Option<U>
      requires None?
    { None }
    function Extract(): T
      requires Some?
    { value }
  }

  /** The exceptions the modelled code raises, by the class its callers can tell apart. */
  datatype Error =
    | ValueError
    | TypeError
    | KeyError
    | TransportError
    | TimeoutError
    | ConnectionError
    | IncompleteRead
    | RuleFailure(code: int)

  datatype Result<+T> = Ok(value: T) | Err(error: Error) {
    predicate IsFailure() { Err? }
    function PropagateFailure<U>(): Result<U>
      requires Err?
    { Err(error) }
    function Extract(): T
      requires Ok?
    { value }
  }

  /** One name of a JSON object and what it maps to. */
  datatype Entry<+V> = Entry(key: string, value: V)

  type byte = b: int | 0 <= b < 256
  type Bytes = seq<byte>

  function OrElse<T>(o: Option<T>, e: Error): Result<T> {
    match o
    case Some(v) => Ok(v)
    case None => Err(e)
  }
}
