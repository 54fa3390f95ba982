/** Definitions shared by the modules. */
module Common {

  type Byte = x: int | 0 <= x < 256

  datatype Option<T> = None | Some(value: T)

  /** Places in a list of length `limit`, in order. */
  ghost predicate Increasing(at: seq<nat>, limit: nat) {
    (forall i :: 0 <= i < |at| ==> at[i] < limit) && forall i, j :: 0 <= i < j < |at| ==> at[i] < at[j]
  }
}
