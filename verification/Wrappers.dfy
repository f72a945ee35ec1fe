/** Small shared vocabulary: optional readings and the arithmetic on MiB figures. */
module Wrappers {

  /** A reading or a declaration that may be missing (Python's `None`). */
  datatype Option<+T> = None | Some(value: T) {
    function GetOr<U(==)>(default: T): T {
      match this
      case Some(v) => v
      case None => default
    }
  }

  function Max(a: real, b: real): real {
    if a < b then b else a
  }

  function Min(a: real, b: real): real {
    if a < b then a else b
  }

  function MaxInt(a: int, b: int): int {
    if a < b then b else a
  }

  lemma {:induction false} SmallerSet<T>(a: set<T>, b: set<T>)
    requires a <= b
    ensures |a| <= |b|
  {
    assert b == a + (b - a);
  }
}
