/** The optional value used for missing (NaN) grid values and for the fitter's "no fit" outcome. */
module Wrappers {

  datatype Option<+T> = None | Some(value: T)
}
