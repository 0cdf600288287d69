/** The optional-value datatype shared by the whole model: `None` stands for
    the `null` the bundle script returns when a search finds nothing. */
module Wrappers {

  datatype Option<+T> = None | Some(value: T)
}
