/**
 * Small definitions shared by every component of the instance-selection engine:
 * nullable values, the clock origin and distinct lists.
 */
module Common {

  /** A C# nullable value (`string?`, `int?`, a reference that may be `null`). */
  datatype Option<+T> = None | Some(value: T) {

    /** The value, or `default` when it is null: C#'s `??` operator. */
    function GetOr(default: T): T {
      match this
      case Some(v) => v
      case None => default
    }
  }

  /**
   * Clock readings (`DateTime.UtcNow`) are integers of milliseconds counted
   * from `DateTime.MinValue`, the default value of every `DateTime` field.
   */
  const MinTime: int := 0

  /** No element of `s` occurs twice. */
  predicate Distinct<T(==)>(s: seq<T>) {
    forall i, j :: 0 <= i < j < |s| ==> s[i] != s[j]
  }
}
