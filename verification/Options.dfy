/**
 * A value that may be missing, and a condition as a number.
 */
module Options {

  datatype Option<+T> = None | Some(value: T)

  function One(b: bool): nat { if b then 1 else 0 }
}
