/** The optional value used wherever the source yields `null` or leaves a result out. */
module Wrappers {
  datatype Option<+T> = None | Some(value: T)
}
