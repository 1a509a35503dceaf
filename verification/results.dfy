/** Failure outcomes of the conference's operations.

    The original program signals failure with Python exceptions or by waiting
    on a read. The model turns each into a value:
    - ValueError: `int(...)` was given text that is not a decimal integer;
    - IndexError: a list or the queue's backing list was indexed out of range;
    - Blocked: a blocking read that cannot complete in the current state:
      `readline` on an empty pipe, or `PriorityQueue.get` on an empty queue.
      The call waits until another process writes; the model stops there.
 */
module Results {

  datatype Failure = ValueError | IndexError | Blocked

  /** A value or the failure that replaced it; usable with `:-`. */
  datatype Result<+T> = Ok(value: T) | Err(failure: Failure) {

    predicate IsFailure() {
      Err?
    }

    function PropagateFailure<U>(): Result<U>
      requires Err?
    {
      Err(failure)
    }

    function Extract(): T
      requires Ok?
    {
      value
    }
  }
}
