/** Failure values shared by the serializer and the builder. */
module Results {

  /** The ways a save or a load aborts. */
  datatype Fault =
    | UnresolvedReference(memoId: nat)  // a memo id with no registered object
    | MalformedPairs                    // an odd-length key/value accumulator
    | UnhashableKey                     // a saved or loaded key that cannot key a dict
    | UnsupportedValue                  // an object with no field mapping to save
    | TypeResolution                    // the registry cannot resolve a class name
    | KindMismatch(memoId: nat)         // a memo entry a fill job cannot extend or assign into
    | BadIndex                          // a list item assignment whose key is no index of it

  datatype Option<+T> = None | Some(value: T)

  /** A failure-compatible result, usable with `:-`. */
  datatype Result<+T> = Ok(value: T) | Err(fault: Fault) {
    predicate IsFailure() { Err? }

    function PropagateFailure<U>(): Result<U>
      requires Err?
    {
      Err(fault)
    }

    function Extract(): T
      requires Ok?
    {
      value
    }
  }
}
