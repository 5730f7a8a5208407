/** Failure-compatible results and the 32-bit counter arithmetic shared by every component. */
module Prelude {

  datatype Option<+T> = None | Some(value: T)

  datatype Result<+T, +E> = Success(value: T) | Failure(error: E)

  /** 2^31, half the range of a 32-bit counter. */
  const HALF: int := 0x8000_0000

  /** 2^32, the range of a 32-bit counter. */
  const FULL: int := 0x1_0000_0000

  /** `value & 0xFFFFFFFF`, which Python also takes modulo 2^32 for negative values. */
  function Mask(value: int): (r: int)
    ensures 0 <= r < FULL
  {
    value % FULL
  }

  predicate IsU32(value: int) {
    0 <= value < FULL
  }

  predicate Distinct<T(==)>(s: seq<T>) {
    forall i, j :: 0 <= i < j < |s| ==> s[i] != s[j]
  }

  /** A set that is not empty has an element; the verifier sees this by itself for other element types. */
  lemma HasNumber(s: set<int>)
    ensures s != {} ==> exists x :: x in s
  {
    if forall x :: x !in s {
      assert s == {};
    }
  }
}
