/** The missing-value marker: None stands for a missing cell or a failed conversion (NaN). */
module Wrappers {

  datatype Option<+T> = None | Some(value: T)
}
