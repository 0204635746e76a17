/** Shared vocabulary of the model. */
module Prelude {
  datatype Option<+T> = None | Some(value: T)

  /** True when no value occurs at two positions of the sequence. */
  ghost predicate Distinct<T>(s: seq<T>) {
    forall i, j :: 0 <= i < j < |s| ==> s[i] != s[j]
  }
}
