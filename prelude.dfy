/** Small shared vocabulary: an optional value and order-preserving subsequences. */
module Prelude {

  /** JavaScript's `null` / `undefined` next to a present value. */
  datatype Option<+T> = None | Some(value: T)

  /** `sub` is obtained from `s` by deleting elements, keeping the order of the rest. */
  predicate IsSubsequence<T(==)>(sub: seq<T>, s: seq<T>)
    decreases |s|
  {
    if sub == [] then true
    else if s == [] then false
    else (sub[0] == s[0] && IsSubsequence(sub[1..], s[1..])) || IsSubsequence(sub, s[1..])
  }

  /** Every element of a subsequence occurs in the sequence it was taken from. */
  lemma {:induction false} SubsequenceElements<T>(sub: seq<T>, s: seq<T>)
    requires IsSubsequence(sub, s)
    ensures forall x :: x in sub ==> x in s
    decreases |s|
  {
    if sub != [] {
      if sub[0] == s[0] && IsSubsequence(sub[1..], s[1..]) {
        SubsequenceElements(sub[1..], s[1..]);
        forall x | x in sub ensures x in s {
          if x != sub[0] {
            assert x in sub[1..];
          }
        }
      } else {
        SubsequenceElements(sub, s[1..]);
      }
    }
  }

  /** A prefix of a subsequence is again a subsequence. */
  lemma {:induction false} SubsequencePrefix<T>(sub: seq<T>, s: seq<T>, k: nat)
    requires IsSubsequence(sub, s)
    requires k <= |sub|
    ensures IsSubsequence(sub[..k], s)
    decreases |s|
  {
    if k == 0 {
    } else if sub[0] == s[0] && IsSubsequence(sub[1..], s[1..]) {
      SubsequencePrefix(sub[1..], s[1..], k - 1);
      assert sub[..k][1..] == sub[1..][..k - 1];
    } else {
      SubsequencePrefix(sub, s[1..], k);
    }
  }

  /** Every prefix of a sequence is a subsequence of it. */
  lemma {:induction false} PrefixIsSubsequence<T>(s: seq<T>, k: nat)
    requires k <= |s|
    ensures IsSubsequence(s[..k], s)
    decreases |s|
  {
    if k > 0 {
      PrefixIsSubsequence(s[1..], k - 1);
      assert s[..k][1..] == s[1..][..k - 1];
    }
  }

  /** A sequence is empty exactly when nothing is an element of it. */
  lemma EmptyIffNoElement<T>(s: seq<T>)
    ensures s == [] <==> forall x :: x !in s
  {
    if s != [] {
      assert s[0] in s;
    }
  }
}
