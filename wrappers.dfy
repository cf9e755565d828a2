/** The optional-value type shared by the other modules: a missing input file,
    a missing results table, a failed `int()` conversion, no regular-expression match. */
module Wrappers {

  datatype Option<+T> = None | Some(value: T)
}
