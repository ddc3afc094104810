/** Small datatypes and integer helpers shared by every module. */
module Prelude {

  /** Text that is only compared and looked up: stock codes, strategy names, order numbers. */
  type Text = int

  /** The empty string. */
  const EMPTY: Text := 0

  datatype Option<+T> = None | Some(value: T) {
    function GetOr(default: T): T {
      match this
      case Some(v) => v
      case None => default
    }
  }

  datatype Result<+T, +E> = Success(value: T) | Failure(error: E)

  function Max(a: int, b: int): int { if a >= b then a else b }

  function Min(a: int, b: int): int { if a <= b then a else b }
}
