/** The greedy subsequence test of experiment variants, and what the kinds of variants mean for their steps.
 */
module Subsequences {

  /** Positions of right, strictly increasing, at which left is found. */
  predicate Embedding<T(==)>(left: seq<T>, right: seq<T>, at: seq<nat>) {
    && |at| == |left|
    && (forall i | 0 <= i < |at| :: at[i] < |right| && right[at[i]] == left[i])
    && (forall i, j | 0 <= i < j < |at| :: at[i] < at[j])
  }

  ghost predicate Embeds<T>(left: seq<T>, right: seq<T>) {
    exists at :: Embedding(left, right, at)
  }

  /** For each value of left in turn, the iterator over right is advanced past the value's next occurrence. */
  method Subsequence<T(==)>(left: seq<T>, right: seq<T>) returns (found: bool)
    ensures found <==> Embeds(left, right)
  {
    var next := 0;
    ghost var greedy: seq<nat> := [];
    for i := 0 to |left|
      invariant next <= |right| && |greedy| == i
      invariant Embedding(left[..i], right, greedy)
      invariant next == if i == 0 then 0 else greedy[i - 1] + 1
      invariant forall at | Embedding(left, right, at) :: forall k | 0 <= k < i :: greedy[k] <= at[k]
    {
      while next < |right| && right[next] != left[i]
        invariant next <= |right| && (i > 0 ==> greedy[i - 1] < next)
        invariant forall at | Embedding(left, right, at) :: next <= at[i]
        decreases |right| - next
      {
        next := next + 1;
      }
      if next == |right| {
        return false;
      }
      greedy := greedy + [next];
      next := next + 1;
    }
    assert left[..|left|] == left;
    return true;
  }

  // ---------------------------------------------------------------------------------------------
  // Steps counted

  lemma {:induction false} EmbeddedSteps<T>(left: seq<T>, right: seq<T>, at: seq<nat>)
    requires Embedding(left, right, at)
    ensures multiset(left) <= multiset(right) && |left| <= |right|
    decreases |left|
  {
    if left != [] {
      var n := |left| - 1;
      var cut := right[..at[n]];
      EmbeddedSteps(left[..n], cut, at[..n]);
      assert left == left[..n] + [left[n]];
      assert right == cut + [right[at[n]]] + right[at[n] + 1..];
    }
  }

  /** Leaving steps out makes the steps a proper part of the control's. */
  lemma OmissionDropsSteps<T>(normal: seq<T>, variant: seq<T>)
    requires |variant| < |normal| && Embeds(variant, normal)
    ensures multiset(variant) < multiset(normal)
  {
    var at :| Embedding(variant, normal, at);
    EmbeddedSteps(variant, normal, at);
    assert |multiset(variant)| == |variant| && |multiset(normal)| == |normal|;
  }

  lemma RepetitionAddsSteps<T>(normal: seq<T>, variant: seq<T>)
    requires |variant| > |normal| && Embeds(normal, variant)
    ensures multiset(normal) < multiset(variant)
  {
    OmissionDropsSteps(variant, normal);
  }
}
