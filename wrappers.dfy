/** The optional value used throughout the model for "absent", a missing
    node or a lookup that found nothing. */
module Wrappers {
  datatype Option<T> = None | Some(value: T)
}
