/** The `T | null` results of the wrappers, with JavaScript's `null` as an explicit case. */
module Nullable {

  datatype Nullable<+T> = Null | Some(value: T)

}
