/** Values that may be missing, bytes, and times. */
module Wrappers {
  datatype Option<+T> = None | Some(value: T)

  type byte = b: int | 0 <= b < 256
  type Bytes = seq<byte>

  /** Bytes as text, each as the character with its code */
  predicate IsBytes(s: string) { forall c :: c in s ==> c < 256 as char }

  /** The time from `at` until `now`, which is never negative */
  function Since(now: nat, at: nat): nat { if now < at then 0 else now - at }

  lemma Assoc<T>(a: seq<T>, b: seq<T>, c: seq<T>)
    ensures a + b + c == a + (b + c)
  {}
}
