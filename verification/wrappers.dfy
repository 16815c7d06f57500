/** The optional value used for a moving average that has no value yet
    (pandas' NaN for a window with too little history). */
module Wrappers {

  datatype Option<+T> = None | Some(value: T)
}
