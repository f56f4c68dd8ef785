/** The optional value used throughout the model. */
module Wrappers {
  datatype Option<+T> = None | Some(value: T)

  /** What a field that names an object holds: nothing when it is 0. */
  function Held(field: nat): set<nat> {
    if field == 0 then {} else {field}
  }
}
