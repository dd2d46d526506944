/** Generic facts about sequences that the model's proofs share: splitting
    a concatenation, mapping a function over a sequence, and pairing two
    sequences element by element. */
module Seqs {

  /** Splitting off the head of a concatenation. */
  lemma ConcatTail<T>(a: seq<T>, b: seq<T>)
    requires |a| > 0
    ensures (a + b)[0] == a[0] && (a + b)[1..] == a[1..] + b
  {}

  /** An empty prefix leaves a concatenation unchanged. */
  lemma ConcatEmpty<T>(a: seq<T>, b: seq<T>)
    requires |a| == 0
    ensures a + b == b
  {}

  /** A non-empty sequence is its prefix followed by its last element. */
  lemma SplitLast<T>(s: seq<T>)
    requires |s| > 0
    ensures s[..|s| - 1] + [s[|s| - 1]] == s
  {}

  /** `f` applied to every element, in order. */
  function MapSeq<A, B>(xs: seq<A>, f: A --> B): (ys: seq<B>)
    requires forall i :: 0 <= i < |xs| ==> f.requires(xs[i])
    ensures |ys| == |xs|
    ensures forall i :: 0 <= i < |xs| ==> ys[i] == f(xs[i])
  {
    seq(|xs|, i requires 0 <= i < |xs| => f(xs[i]))
  }

  /** Mapping over a sequence with one element in front. */
  lemma MapSeqCons<A, B>(x: A, xs: seq<A>, f: A --> B)
    requires f.requires(x) && forall i :: 0 <= i < |xs| ==> f.requires(xs[i])
    ensures forall i :: 0 <= i < |[x] + xs| ==> f.requires(([x] + xs)[i])
    ensures MapSeq([x] + xs, f) == [f(x)] + MapSeq(xs, f)
  {
    assert forall i :: 1 <= i <= |xs| ==> ([x] + xs)[i] == xs[i - 1];
    assert MapSeq([x] + xs, f) == [f(x)] + MapSeq(xs, f);
  }

  /** The pairs of corresponding elements of two sequences of equal length. */
  function Zip<A, B>(xs: seq<A>, ys: seq<B>): (zs: seq<(A, B)>)
    requires |xs| == |ys|
    ensures |zs| == |xs|
    ensures forall i :: 0 <= i < |xs| ==> zs[i] == (xs[i], ys[i])
  {
    seq(|xs|, i requires 0 <= i < |xs| => (xs[i], ys[i]))
  }

  /** Pairing a sequence with one element in front. */
  lemma ZipCons<A, B>(x: A, xs: seq<A>, ys: seq<B>)
    requires |ys| == |xs| + 1
    ensures Zip([x] + xs, ys) == [(x, ys[0])] + Zip(xs, ys[1..])
  {
    var l, r := Zip([x] + xs, ys), [(x, ys[0])] + Zip(xs, ys[1..]);
    forall i | 0 <= i < |l|
      ensures l[i] == r[i]
    {
      if i > 0 {
        assert ([x] + xs)[i] == xs[i - 1] && ys[i] == ys[1..][i - 1];
      }
    }
  }

  /** Indexing past the head of a sequence with one element in front. */
  lemma ConsIndex<T>(x: T, xs: seq<T>, k: nat)
    requires 0 < k <= |xs|
    ensures ([x] + xs)[k] == xs[k - 1]
  {}
}
