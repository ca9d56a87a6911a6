/** Small shared vocabulary. */
module Prelude {

  datatype Option<+T> = None | Some(value: T)

  type pos = x: int | 0 < x witness 1

  /** One when the condition holds: lets membership take part in a count. */
  function Count(b: bool): nat {
    if b then 1 else 0
  }
}
