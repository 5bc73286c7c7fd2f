/** The optional value used wherever the processor returns "nothing" (an empty
    dictionary, `None`) instead of raising. */
module Wrappers {

  datatype Option<+T> = None | Some(value: T)
}
