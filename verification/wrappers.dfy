/** A value that may be absent: a nullable database column, or the result of a
    date operation that Python would abort with an exception. */
module Wrappers {

  datatype Option<+T> = None | Some(value: T)

}
