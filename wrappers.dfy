/** Python's `None`-or-value, used for the sensor's optional fields and for
    a property that may fall off the end of its body. */
module Wrappers {

  datatype Option<+T> = None | Some(value: T)

}
