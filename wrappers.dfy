/** Optional values and the error outcomes of the attribute-graph layer. */
module Wrappers {

  datatype Option<T> = None | Some(value: T)

  /** The exception kinds the modelled code raises or lets escape. */
  datatype Fault =
    | ValueError      // raised by the layer itself
    | RuntimeError    // raised by the host scene
    | AttributeError  // an attribute looked up on None or on the wrong object
    | TypeError       // a value of the wrong shape (`len` of a scalar)
    | KeyError        // a key missing from a record

  /** The outcome of an operation without a result value. */
  datatype Outcome = Pass | Fail(fault: Fault)

  /** The outcome of an operation that returns `T` when it does not raise. */
  datatype Result<T> = Ok(value: T) | Err(fault: Fault)

  /** The prefix one longer is the prefix with the next item appended. */
  lemma PrefixNext<T>(xs: seq<T>, i: int)
    requires 0 <= i < |xs|
    ensures xs[..i + 1] == xs[..i] + [xs[i]]
  {
  }
}
