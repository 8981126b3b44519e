/** Option, used for the C# `string` parameter of the resolvers, which may be `null`. */
module Wrappers {

  /** `None` stands for a `null` reference, `Some(s)` for the string `s`. */
  datatype Option<+T> = None | Some(value: T)
}
