/**
 * The exceptions the money model can raise, and a result type that carries either a value
 * or the exception that ended the operation.
 */
module Outcomes {

  /**
   * `CurrencyDoesNotExist(code)` is raised by a failed registry lookup; `TypeError` and
   * `MoneyComparisonError` by operators given an operand of the wrong kind; `AssertionError`
   * where `MoneyComparisonError` is raised with a Money, whose constructor asserts that its
   * argument is not one; `DecimalException`
   * stands for the `decimal` module's trapped signals (division by zero, undefined division,
   * text that is not a number); `KeyError(key)` for a failed dictionary lookup;
   * `AttributeError` for reading an attribute a value does not have.
   */
  datatype Error =
    | CurrencyDoesNotExist(code: string)
    | TypeError
    | MoneyComparisonError
    | AssertionError
    | DecimalException
    | KeyError(key: string)
    | AttributeError

  datatype Result<+T> = Success(value: T) | Failure(error: Error) {
    predicate IsFailure() {
      Failure?
    }

    function PropagateFailure<U>(): Result<U>
      requires Failure?
    {
      Failure(error)
    }

    function Extract(): T
      requires Success?
    {
      value
    }
  }

  datatype Option<+T> = None | Some(value: T)
}
