/** Optional values: the model's stand-in for JavaScript's `undefined`, `null`
    and the other "falsy" or absent inputs that the code tests for. */
module Maybe {

  datatype Option<+T> = None | Some(value: T) {

    /** The value, or `default` when there is none (JavaScript's `x ?? default`). */
    function GetOr(default: T): T {
      match this
      case Some(v) => v
      case None => default
    }
  }
}
