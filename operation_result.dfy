/** The uniform result of every event operation. */
module OperationResults {
  import opened Primitives
  import opened Enumerations

  /** A status, an optional message and an optional value (`default` when absent). */
  datatype OperationResult<T> = OperationResult(status: OperationStatus, message: Option<string>, value: Option<T>) {

    predicate IsSuccess()
    {
      status == OperationStatus.Success
    }

    /** What callers rely on: a value exactly when successful, a message exactly when not. */
    predicate IsWellFormed()
    {
      (IsSuccess() <==> value.Some?) && (IsSuccess() <==> message.None?)
    }

    /** The success factory. */
    static function Success(value: T): (r: OperationResult<T>)
      ensures r.IsSuccess() && r.IsWellFormed()
      ensures r.value == Some(value) && r.message == None
    {
      OperationResult(OperationStatus.Success, None, Some(value))
    }

    /** The failure factory; its callers only ever pass a failure kind. */
    static function Fail(status: OperationStatus, message: string): (r: OperationResult<T>)
      requires status.IsFailureKind()
      ensures !r.IsSuccess() && r.IsWellFormed()
      ensures r.status == status && r.message == Some(message) && r.value == None
    {
      OperationResult(status, Some(message), None)
    }
  }
}
