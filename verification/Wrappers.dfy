/** The option type of the models: a NULL that may stand where a value can. */
module Wrappers {

  datatype Option<+T> = None | Some(value: T)
}
