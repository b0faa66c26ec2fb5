/** The stock optional value, used where the program has Rust's `Option`. */
module Options {

  datatype Option<+T> = None | Some(value: T) {

    /** `unwrap_or`. */
    function GetOr(default: T): T {
      match this
      case Some(v) => v
      case None => default
    }
  }
}
