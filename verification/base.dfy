/** Failure-compatible wrappers and sequence helpers shared by every module.
    PHP's nullable values become `Option`; thrown exceptions become the
    `Failure` arm of a `Result`. */
module Base {

  /** A PHP `?T` value: `None` stands for `null`. */
  datatype Option<+T> = None | Some(value: T)

  /** Either a value or the exception a PHP call would have thrown. */
  datatype Result<+T, +E> = Success(value: T) | Failure(error: E) {

    predicate IsFailure() {
      Failure?
    }

    function PropagateFailure<U>(): Result<U, E>
      requires Failure?
    {
      Failure(error)
    }

    function Extract(): T
      requires Success?
    {
      value
    }
  }

  /** `a` is obtained from `b` by deleting elements: same elements, same relative order. */
  predicate IsSubsequence<T(==)>(a: seq<T>, b: seq<T>)
    decreases |b|
  {
    if a == [] then true
    else if b == [] then false
    else if a[0] == b[0] then IsSubsequence(a[1..], b[1..])
    else IsSubsequence(a, b[1..])
  }

  /** No element occurs twice. */
  predicate Distinct<T(==)>(s: seq<T>) {
    forall i, j :: 0 <= i < j < |s| ==> s[i] != s[j]
  }

  /** Every element of a subsequence is an element of the whole. */
  lemma {:induction false} SubsequenceMembers<T>(a: seq<T>, b: seq<T>)
    requires IsSubsequence(a, b)
    ensures forall x :: x in a ==> x in b
    decreases |b|
  {
    if a == [] {
    } else if a[0] == b[0] {
      SubsequenceMembers(a[1..], b[1..]);
      forall x | x in a ensures x in b {
        if x != a[0] {
          assert x in a[1..];
        }
      }
    } else {
      SubsequenceMembers(a, b[1..]);
    }
  }

  /** Putting the same element in front of both sides keeps the relation. */
  lemma SubsequenceCons<T>(x: T, a: seq<T>, b: seq<T>)
    requires IsSubsequence(a, b)
    ensures IsSubsequence([x] + a, [x] + b)
  {
    assert ([x] + a)[1..] == a;
    assert ([x] + b)[1..] == b;
  }

  /** Adding an element in front of the larger side keeps the relation. */
  lemma {:induction false} SubsequenceSkip<T>(x: T, a: seq<T>, b: seq<T>)
    requires IsSubsequence(a, b)
    ensures IsSubsequence(a, [x] + b)
    decreases |b|, 1
  {
    assert ([x] + b)[1..] == b;
    if a == [] {
    } else if a[0] == x {
      // the greedy match takes x; what is left of a is still inside b
      SubsequenceDropHead(a, b);
    }
  }

  /** Dropping the first element of the smaller side keeps the relation. */
  lemma {:induction false} SubsequenceDropHead<T>(a: seq<T>, b: seq<T>)
    requires a != [] && IsSubsequence(a, b)
    ensures IsSubsequence(a[1..], b)
    decreases |b|, 0
  {
    if a[0] == b[0] {
      SubsequenceSkip(b[0], a[1..], b[1..]);
      assert [b[0]] + b[1..] == b;
    } else {
      SubsequenceDropHead(a, b[1..]);
      SubsequenceSkip(b[0], a[1..], b[1..]);
      assert [b[0]] + b[1..] == b;
    }
  }

  /** A subsequence of a sequence without repetitions has no repetitions either. */
  lemma {:induction false} SubsequenceDistinct<T>(a: seq<T>, b: seq<T>)
    requires IsSubsequence(a, b) && Distinct(b)
    ensures Distinct(a)
    decreases |b|
  {
    if a == [] {
    } else if a[0] == b[0] {
      SubsequenceDistinct(a[1..], b[1..]);
      SubsequenceMembers(a[1..], b[1..]);
      forall i, j | 0 <= i < j < |a| ensures a[i] != a[j] {
        if i == 0 {
          assert a[j] == a[1..][j - 1];
          assert a[j] in b[1..];
        } else {
          assert a[i] == a[1..][i - 1] && a[j] == a[1..][j - 1];
        }
      }
    } else {
      SubsequenceDistinct(a, b[1..]);
    }
  }
  /** A sequence is a subsequence of itself extended at the front. */
  lemma {:induction false} SubsequencePrefixed<T>(a: seq<T>, pre: seq<T>, b: seq<T>)
    requires IsSubsequence(a, b)
    ensures IsSubsequence(a, pre + b)
    decreases |pre|
  {
    if pre != [] {
      SubsequencePrefixed(a, pre[1..], b);
      SubsequenceSkip(pre[0], a, pre[1..] + b);
      assert [pre[0]] + (pre[1..] + b) == pre + b;
    } else {
      assert pre + b == b;
    }
  }

  /** Subsequences of two parts concatenate to a subsequence of the concatenated parts. */
  lemma {:induction false} SubsequenceConcat<T>(a1: seq<T>, b1: seq<T>, a2: seq<T>, b2: seq<T>)
    requires IsSubsequence(a1, b1) && IsSubsequence(a2, b2)
    ensures IsSubsequence(a1 + a2, b1 + b2)
    decreases |b1|
  {
    if a1 == [] {
      assert a1 + a2 == a2;
      SubsequencePrefixed(a2, b1, b2);
    } else if a1[0] == b1[0] {
      SubsequenceConcat(a1[1..], b1[1..], a2, b2);
      SubsequenceCons(a1[0], a1[1..] + a2, b1[1..] + b2);
      assert [a1[0]] + (a1[1..] + a2) == a1 + a2;
      assert [b1[0]] + (b1[1..] + b2) == b1 + b2;
    } else {
      SubsequenceConcat(a1, b1[1..], a2, b2);
      SubsequenceSkip(b1[0], a1 + a2, b1[1..] + b2);
      assert [b1[0]] + (b1[1..] + b2) == b1 + b2;
    }
  }
}
