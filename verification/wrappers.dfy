/** Failure-compatible wrappers used throughout the model. An exception thrown
    by the engine is modelled as an `Err` that every caller propagates with `:-`. */
module Wrappers {

  datatype Option<+T> = None | Some(value: T)

  datatype Result<+T, +E> = Ok(value: T) | Err(error: E) {

    predicate IsFailure() {
      Err?
    }

    function PropagateFailure<U>(): Result<U, E>
      requires Err?
    {
      Err(error)
    }

    function Extract(): T
      requires Ok?
    {
      value
    }
  }
}

/** The exceptions the engine throws, one constructor per throw site kind. */
module Errors {

  datatype Error =
    | NotAContextOperator      // Operator.ApplyFunction on a non-function operator
    | CannotNarrow             // Operator.ApplyFunctionLong on NoOp or a non-function operator
    | InvalidOperator          // Token.Operate on an operator it has no case for
    | DivideByZero             // integer division by zero
    | Overflow                 // long.MinValue / -1
    | NotAReference            // SetValue on a token without the ValueReference bit
    | UnresolvedReference      // a reference whose name neither store resolves
}
