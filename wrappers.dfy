/** A nullable value: `None` stands for JavaScript's `null` (or a missing property). */
module Wrappers {
  datatype Option<+T> = None | Some(value: T)
}
