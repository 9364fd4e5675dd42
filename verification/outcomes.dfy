/** Failure values shared by every calculator variant. */
module Outcomes {

  /** What went wrong. The first two carry the text that the C++ exception's
      what() returns; the third stands for a step whose behaviour C++ leaves
      undefined (top() or pop() on an empty std::stack, element 0 of an empty
      vector), which the model turns into an explicit failure. */
  datatype Error =
    | Runtime(message: string)          // std::runtime_error thrown by the evaluator
    | InvalidArgument(message: string)  // std::invalid_argument thrown by std::stod
    | Undefined(what: string)           // undefined behaviour in the source

  /** The text an exception reports through what(). */
  function What(e: Error): string
  {
    match e
    case Runtime(m) => m
    case InvalidArgument(m) => m
    case Undefined(w) => w
  }

  /** Either a value or the error that stopped the computation. */
  datatype Result<+T> = Ok(value: T) | Err(error: Error) {
    predicate IsFailure() { Err? }

    function PropagateFailure<U>(): Result<U>
      requires Err?
    {
      Err(error)
    }

    function Extract(): T
      requires Ok?
    {
      value
    }
  }

  datatype Option<+T> = None | Some(value: T)
}
