/** Values shared by the whole model: object identifiers, optional values and
    the errors that the network-graph component can raise. */
module Base {

  /** An object identifier, as the visualiser's `get_uid` hands it out. */
  type Uid = string

  datatype Option<+T> = None | Some(value: T)

  /** The exceptions the component lets escape to its caller. */
  datatype Error =
    | KeyError        // a uid the client names is not in `uids`
    | IndexError      // `pop(0)` on an empty search queue
    | AttributeError  // a queued object that is not a network gets expanded
    | ConfigError     // a parameter set on an object whose kind does not have it

  datatype Result<+T> = Ok(value: T) | Err(error: Error)

  datatype Outcome = Pass | Fail(error: Error)

  /** Sequence of distinct elements. */
  predicate Distinct<T(==)>(s: seq<T>) {
    forall i, j | 0 <= i < j < |s| :: s[i] != s[j]
  }
}
