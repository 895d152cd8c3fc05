/** The conventional optional value and the result of a computation that may throw. */
module Options {

  datatype Option<+T> = None | Some(value: T) {
    function GetOr(default: T): T {
      if Some? then value else default
    }
  }

  datatype Result<+T> = Thrown | Ok(value: T)
}
