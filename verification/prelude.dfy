/** Types and functions that several modules share. */
module Prelude {

  datatype Option<+T> = None | Some(value: T)

  type Byte = b: nat | b < 256

  /** The sequence with the element at `k` taken out. */
  function Without<T>(s: seq<T>, k: nat): (r: seq<T>)
    requires k < |s|
    ensures |r| == |s| - 1
  {
    s[..k] + s[k + 1..]
  }
}
