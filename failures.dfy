/** What a request caller can throw, as values, and the wrappers that carry them. */
module Failures {

  /** The messages the catalog's callers throw with, by name. */
  datatype Message = OlderClientsNotAllowed | PushingObsolete | KeptForOrdinals

  function Text(m: Message): string
  {
    match m
    case OlderClientsNotAllowed => "Older clients should not be allowed to talk to new masters"
    case PushingObsolete => "Transaction pushing requests are obsolete"
    case KeptForOrdinals => "Not used anymore, merely here to keep the ordinal ids of the others"
  }

  /** Distinct messages read differently, so comparing thrown messages by name
      is comparing their text. */
  lemma TextInjective(m: Message, n: Message)
    requires Text(m) == Text(n)
    ensures m == n
  {
  }

  datatype Failure =
    /** org.neo4j.helpers.ThisShouldNotHappenError(author, message) */
    | ThisShouldNotHappen(author: string, message: Message)
    | UnsupportedOperation(message: Message)
    /** a read past the buffer's writer index: the request is truncated */
    | IndexOutOfBounds
    /** `IdType.values()[index]` with an index outside the enum */
    | ArrayIndexOutOfBounds(index: int)
    /** `new long[size]` with a negative size */
    | NegativeArraySize(size: int)

  datatype Result<T> = Ok(value: T) | Err(failure: Failure)

  datatype Option<T> = None | Some(value: T)
}
