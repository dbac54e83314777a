/** Outcomes of the modelled operations.  Python raises an exception where an
    operation cannot complete; the model returns `Err` with the kind of
    exception the interpreter (or the tensor library) would raise. */
module Results {

  /** The exception kinds that the modelled code paths can raise. */
  datatype Exception =
    | AssertionError     // a failed `assert` (unbuilt model, embedding padding index)
    | IndexError         // an index outside a list or an embedding table
    | KeyError           // a dictionary lookup of a missing key
    | TypeError          // calling or indexing `None`, `torch.FloatTensor(None)`
    | AttributeError     // touching `.bias` on an embedding layer
    | ZeroDivisionError  // integer division by a zero pool length
    | ValueError         // a loss whose input and target batch sizes differ
    | RuntimeError       // a tensor shape the library refuses

  datatype Option<+T> = None | Some(value: T)

  datatype Result<+R> = Ok(value: R) | Err(error: Exception) {

    predicate IsFailure() {
      Err?
    }

    function PropagateFailure<U>(): Result<U>
      requires Err?
    {
      Err(error)
    }

    function Extract(): R
      requires Ok?
    {
      value
    }
  }
}
