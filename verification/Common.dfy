/** Datatypes and small sequence facts shared by the modules. */
module Common {
  datatype Option<+T> = None | Some(value: T)

  datatype Result<+T, +E> = Ok(value: T) | Err(error: E)

  /** One octet, as a number. */
  type Byte = b: int | 0 <= b < 256

  ghost predicate Distinct<T>(s: seq<T>) {
    forall i, j :: 0 <= i < j < |s| ==> s[i] != s[j]
  }

  /** `xs` joined, nothing between. */
  function Flatten<T>(xs: seq<seq<T>>): (r: seq<T>) {
    if xs == [] then [] else xs[0] + Flatten(xs[1..])
  }
}
