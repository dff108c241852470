/** The optional-value type used for pandas' missing values (NaN / None). */
module Wrappers {
  datatype Option<+T> = None | Some(value: T)
}
