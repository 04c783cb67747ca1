/** The optional value used by the model where the wrapper itself may or may not produce something
    (the diagnostic line `run` may write, a rendering that may or may not be an Empty's). */
module Wrappers {

  datatype Option<+T> = None | Some(value: T)
}
