/** The optional-value datatype used for the dashboard's optional fields
    (a customer's email, an unset date bound, an unselected customer type). */
module Wrappers {

  datatype Option<+T> = None | Some(value: T)
}
