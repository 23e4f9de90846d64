/** Python's "a value or None", as used for the paths the bot passes around. */
module Wrappers {

  datatype Option<+T> = None | Some(value: T)
}
