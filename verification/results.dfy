/** Errors the retrieval core can raise, and the value-or-error wrapper that
    stands for a Python call that either returns or raises. */
module Results {

  /** The exceptions of the retrieval path, one constructor per cause. */
  datatype Error =
    | DimMismatch(queryDim: nat, matrixDim: nat)  // the explicit ValueError, or np.dot on unequal lengths
    | RaggedMatrix                                 // np.asarray on rows of different lengths
    | NoToList                                     // `.tolist()` called on a plain Python list

  datatype Result<+T> = Ok(value: T) | Err(error: Error) {
    predicate IsFailure() { Err? }

    function PropagateFailure<U>(): Result<U>
      requires Err?
    {
      Err(error)
    }

    function Extract(): T
      requires Ok?
    {
      value
    }
  }
}
