/** The cleaning applied to every keystroke in the PIN fields, both on the
    unlock page and in the setup dialog: `value.replace(/\D/g, "").slice(0, 4)`. */
module PinInput {
  import opened Common
  import opened JsString
  import PinAuth

  const PinLength: nat := 4

  /** The cleaned field value: the first four ASCII digits of the input,
      in order, or all of them when it holds fewer. */
  function CleanPin(value: string): (r: string)
    ensures |r| <= PinLength && IsDigits(r)
    ensures |r| <= |KeepDigits(value)| && r == KeepDigits(value)[..|r|]
    ensures |r| == if |KeepDigits(value)| < PinLength then |KeepDigits(value)| else PinLength
  {
    Take(KeepDigits(value), PinLength)
  }

  /** A value the cleaning can produce. */
  predicate IsCleaned(s: string) {
    |s| <= PinLength && IsDigits(s)
  }

  /** Cleaning leaves a cleaned value alone. */
  lemma CleanPinOfCleaned(s: string)
    requires IsCleaned(s)
    ensures CleanPin(s) == s
  {
    KeepDigitsOfDigits(s);
  }

  /** Cleaning twice is cleaning once. */
  lemma CleanPinIdempotent(value: string)
    ensures CleanPin(CleanPin(value)) == CleanPin(value)
  {
    CleanPinOfCleaned(CleanPin(value));
  }

  /** The cleaned value keeps the digits of the input in their order. */
  lemma CleanPinIsSubsequence(value: string)
    ensures IsSubsequence(CleanPin(value), value)
  {
    KeepDigitsIsSubsequence(value);
    PrefixOfSubsequence(KeepDigits(value), value, |CleanPin(value)|);
  }

  lemma {:induction false} PrefixOfSubsequence<T>(a: seq<T>, b: seq<T>, n: nat)
    requires n <= |a| && IsSubsequence(a, b)
    ensures IsSubsequence(a[..n], b)
    decreases |b|
  {
    if n > 0 {
      if a[0] == b[0] && IsSubsequence(a[1..], b[1..]) {
        PrefixOfSubsequence(a[1..], b[1..], n - 1);
        assert a[..n][1..] == a[1..][..n - 1];
      } else {
        PrefixOfSubsequence(a, b[1..], n);
      }
    }
  }

  /** A cleaned value is a valid PIN exactly when it has four digits, so a
      full field always passes the check of `setupPin`. */
  lemma CleanedPinIsValid(s: string)
    requires IsCleaned(s)
    ensures PinAuth.IsValidPin(s) <==> |s| == PinLength
  {
  }
}
