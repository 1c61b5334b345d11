/** Types that several components share. */
module Base {

  datatype Option<+T> = None | Some(value: T)

  datatype Result<+T, +E> = Ok(value: T) | Err(error: E)

  /** What becomes of one call that changes something behind an API. The caller sees
      Lost and Rejected as the same failure, although only Rejected left things as they were. */
  datatype Fate =
    | Acknowledged // applied, and the caller is told so
    | Lost         // applied, but the caller is told that it failed
    | Rejected     // not applied, and the caller is told that it failed
  {
    predicate Applied() { !Rejected? }
  }
}
