/** Optional values and fallible results, used wherever the source works with
    `null`, `Optional<T>` or a thrown exception. */
module Options {

  /** `None` stands for Java's `null` / an empty `Optional`, and for an absent
      or `undefined` property on the TypeScript side. */
  datatype Option<+T> = None | Some(value: T) {

    /** The value, or `default` when there is none (`x != null ? x : default`). */
    function GetOr(default: T): T {
      match this
      case Some(v) => v
      case None => default
    }
  }

  /** A computation that either produces a value or fails with an error. */
  datatype Result<+T, +E> = Success(value: T) | Failure(error: E)
}
