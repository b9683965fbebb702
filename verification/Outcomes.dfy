// Results of operations that may refuse.
module Outcomes {
  datatype Option<+T> = None | Some(value: T)
}
