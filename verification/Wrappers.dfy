// Result and option types shared by every module of the model.
module Wrappers {

  datatype Option<+T> = None | Some(value: T)

  // With the members that Dafny's `:-` asks for.
  datatype Result<+T, +E> = Ok(value: T) | Err(error: E) {
    predicate IsFailure() {
      Err?
    }

    function PropagateFailure<U>(): Result<U, E>
      requires Err?
    {
      Err(error)
    }

    function Extract(): T
      requires Ok?
    {
      value
    }
  }
}
