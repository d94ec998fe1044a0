/** The optional value used for a chunk's missing text, a missing class name and a regex that found nothing. */
module Wrappers {

  datatype Option<+T> = None | Some(value: T)
}
