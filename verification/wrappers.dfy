/** The one failure-compatible datatype the model needs: JavaScript's
    `undefined` result of a failed `find`, and an optional response field. */
module Wrappers {

  datatype Option<+T> = None | Some(value: T)
}
