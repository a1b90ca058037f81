/** Small shared vocabulary: optional values, JavaScript's `x || null`
    on strings, and the "order-preserving subsequence" relation used by
    the list filters of the item views. */
module Common {

  /** A value that may be absent (`null` / `undefined` in the source). */
  datatype Option<+T> = None | Some(value: T)

  /** An operation that either succeeds or fails with a message. */
  datatype Outcome = Pass | Fail(message: string)

  /** `s || null` on a string: the empty string is falsy and becomes null. */
  function OrNull(s: string): (r: Option<string>)
    ensures r == None <==> s == ""
    ensures r.Some? ==> r.value == s
  {
    if s == "" then None else Some(s)
  }

  /** `a` is an order-preserving subsequence of `b`: `a` is obtained from
      `b` by deleting elements without reordering the rest. */
  ghost predicate IsSubsequence<T>(a: seq<T>, b: seq<T>)
    decreases |b|
  {
    if a == [] then true
    else if b == [] then false
    else (a[0] == b[0] && IsSubsequence(a[1..], b[1..])) || IsSubsequence(a, b[1..])
  }

  /** Concatenation is associative; stated once so that proofs about list
      functions need not rediscover it next to their own definitions. */
  lemma AppendAssoc<T>(x: seq<T>, y: seq<T>, z: seq<T>)
    ensures x + (y + z) == (x + y) + z
  {
  }
}
