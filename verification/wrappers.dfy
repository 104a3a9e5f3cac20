/** An optional value, used for the tween's optional easing delegate. */
module Wrappers {

  datatype Option<+T> = None | Some(value: T)
}
