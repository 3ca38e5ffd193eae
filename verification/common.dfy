/** Failure-carrying values shared by every module: `Option` stands for a Java
    reference that may be null, `Result` for a call that may throw. */
module Common {

  datatype Option<+T> = None | Some(value: T) {
    function GetOr(default: T): T {
      match this
      case Some(v) => v
      case None => default
    }
  }

  datatype Result<+T, +E> = Success(value: T) | Failure(error: E)

  /** Java `int`: the range of a 32-bit two's-complement value. */
  type Int32 = x: int | -0x8000_0000 <= x < 0x8000_0000

  /** Java `long`: the range of a 64-bit two's-complement value. */
  type Int64 = x: int | -0x8000_0000_0000_0000 <= x < 0x8000_0000_0000_0000

  /** Java `byte`, kept as its unsigned bit pattern. */
  type Byte = bv8

  type Bytes = seq<Byte>

  /** True when no element occurs twice. */
  predicate NoDuplicates<T(==)>(s: seq<T>) {
    forall i, j :: 0 <= i < j < |s| ==> s[i] != s[j]
  }
}
