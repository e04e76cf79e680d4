/** Datatypes shared by the models. */
module Prelude {
  datatype Option<+T> = None | Some(value: T)

  datatype Result<+T, +E> = Ok(value: T) | Err(error: E)

  function Smaller(a: nat, b: nat): nat { if a <= b then a else b }
}
