/** The optional-value datatype used throughout the model.  A JavaScript
    `parseInt` that yields `NaN` is modelled as `None`. */
module Wrappers {

  datatype Option<+T> = None | Some(value: T)
}
