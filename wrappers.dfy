/** The optional value used for every cell pandas may hold as NaN / NaT. */
module Wrappers {
  datatype Option<+T> = None | Some(value: T)
}
