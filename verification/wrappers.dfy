/** The one optional-value type the model needs: a key code that may or may
    not be bound, a property lookup that may come back `undefined`. */
module Wrappers {

  datatype Option<+T> = None | Some(value: T)

}
