/** Facts about slicing and concatenation, stated once for every element
    type so that proofs about sequences of strings use them as given. */
module Seqs {

  lemma TakeAll<T>(s: seq<T>)
    ensures s[..|s|] == s
  {
  }

  lemma AppendEmpty<T>(s: seq<T>)
    ensures s + [] == s && [] + s == s
  {
  }

  /** The prefix one longer is the prefix followed by the next element. */
  lemma TakeStep<T>(s: seq<T>, n: nat)
    requires n < |s|
    ensures s[..n + 1][..n] == s[..n]
    ensures s[..n + 1] == s[..n] + [s[n]]
  {
  }

  lemma SplitLast<T>(s: seq<T>)
    requires s != []
    ensures s == s[..|s| - 1] + [s[|s| - 1]]
  {
  }

  /** Dropping the appended element gives the original back. */
  lemma AppendLast<T>(a: seq<T>, x: T)
    ensures (a + [x])[..|a|] == a
    ensures (a + [x])[..|a + [x]| - 1] == a
  {
  }

  /** Dropping the last element of a concatenation drops it from the second part. */
  lemma DropLastOfAppend<T>(a: seq<T>, b: seq<T>)
    requires b != []
    ensures (a + b)[..|a + b| - 1] == a + b[..|b| - 1]
  {
  }

  lemma Associative<T>(a: seq<T>, b: seq<T>, c: seq<T>)
    ensures a + (b + c) == a + b + c
  {
  }

  lemma SliceAfter<T>(s: seq<T>, i: nat, k: nat)
    requires i + k <= |s|
    ensures s[i..][k..] == s[i + k..]
  {
  }

  lemma SliceFront<T>(s: seq<T>, k: nat)
    requires k <= |s|
    ensures s[0..k] == s[..k]
  {
  }

  lemma SliceShift<T>(s: seq<T>, d: nat, a: nat, b: nat)
    requires a <= b && d + b <= |s|
    ensures s[d..][a..b] == s[d + a..d + b]
  {
  }

  lemma ConcatAt<T>(a: seq<T>, b: seq<T>, i: nat)
    requires i < |b|
    ensures |a| + i < |a + b| && (a + b)[|a| + i] == b[i]
  {
  }

  lemma TakeDrop<T>(s: seq<T>, n: nat)
    requires n <= |s|
    ensures s[..n] + s[n..] == s
  {
  }

  lemma TakeTake<T>(s: seq<T>, m: nat, n: nat)
    requires m <= n <= |s|
    ensures s[..n][..m] == s[..m]
  {
  }

  /** Sequences of the same length that agree at every index are equal. */
  lemma Extensional<T>(a: seq<T>, b: seq<T>)
    requires |a| == |b|
    requires forall i :: 0 <= i < |a| ==> a[i] == b[i]
    ensures a == b
  {
  }
}
