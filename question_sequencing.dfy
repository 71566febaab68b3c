/**
 * QuestionManager.cs: the loaded questions, a shuffled order of their indices and a cursor into
 * that order. The cursor reaching the end of the order is the normal "no more questions" signal.
 */
module QuestionSequencing {
  import opened Wrappers
  import opened Questions

  /** The identity order 0, 1, ..., n-1. */
  function Indices(n: nat): (r: seq<int>)
    ensures |r| == n
    ensures forall k :: 0 <= k < n ==> r[k] == k
  {
    if n == 0 then [] else Indices(n - 1) + [n - 1]
  }

  /** The order is a rearrangement of the indices 0 .. n-1. */
  ghost predicate IsPermutationOfIndices(order: seq<int>, n: nat)
  {
    multiset(order) == multiset(Indices(n))
  }

  /** Each index below n occurs once in the identity order, and nothing else occurs in it. */
  lemma {:induction false} IndicesOccurOnce(n: nat, k: int)
    ensures multiset(Indices(n))[k] == if 0 <= k < n then 1 else 0
  {
    if n > 0 {
      IndicesOccurOnce(n - 1, k);
      assert Indices(n) == Indices(n - 1) + [n - 1];
    }
  }

  /** An element that sits at two distinct positions occurs at least twice. */
  lemma TwoPositionsTwoOccurrences<T>(s: seq<T>, p: nat, q: nat)
    requires p < q < |s| && s[p] == s[q]
    ensures multiset(s)[s[p]] >= 2
  {
    assert s == s[..p] + [s[p]] + s[p + 1..q] + [s[q]] + s[q + 1..];
  }

  /**
   * A permutation of 0 .. n-1 has length n, holds only indices below n and holds each of them
   * exactly once, at pairwise distinct positions.
   */
  lemma PermutationCoversEachIndexOnce(order: seq<int>, n: nat)
    requires IsPermutationOfIndices(order, n)
    ensures |order| == n
    ensures forall k :: 0 <= k < n ==> multiset(order)[k] == 1
    ensures forall p :: 0 <= p < |order| ==> 0 <= order[p] < n
    ensures forall p, q :: 0 <= p < q < |order| ==> order[p] != order[q]
  {
    calc {
      |order|;
      |multiset(order)|;
      |multiset(Indices(n))|;
      |Indices(n)|;
    }
    forall k | 0 <= k < n
      ensures multiset(order)[k] == 1
    {
      IndicesOccurOnce(n, k);
    }
    forall p | 0 <= p < |order|
      ensures 0 <= order[p] < n
    {
      assert order[p] in multiset(order);
      IndicesOccurOnce(n, order[p]);
    }
    forall p, q | 0 <= p < q < |order|
      ensures order[p] != order[q]
    {
      if order[p] == order[q] {
        TwoPositionsTwoOccurrences(order, p, q);
      }
    }
  }

  class QuestionManager {
    var questions: seq<Question>
    var order: seq<int>
    var currentIdx: int

    /** The cursor stays within the order, and the order only names loaded questions. */
    ghost predicate Valid()
      reads this
    {
      && 0 <= currentIdx <= |order|
      && forall p :: 0 <= p < |order| ==> 0 <= order[p] < |questions|
    }

    /** The question indices handed out since the last shuffle, in the order they were handed out. */
    ghost function Served(): seq<int>
      reads this
      requires Valid()
    {
      order[..currentIdx]
    }

    /** The question indices still to be handed out. */
    ghost function Pending(): seq<int>
      reads this
      requires Valid()
    {
      order[currentIdx..]
    }

    /** The component as the scene creates it: the questions given in the editor, no order yet. */
    constructor (questions: seq<Question>)
      ensures Valid()
      ensures this.questions == questions && order == [] && currentIdx == 0
    {
      this.questions := questions;
      order := [];
      currentIdx := 0;
    }

    /**
     * InitializeShuffle: rebuild the order as 0 .. Count-1, shuffle it by Fisher-Yates with a
     * j chosen in [0, i] at each step, and rewind the cursor.
     */
    method InitializeShuffle()
      modifies this
      ensures Valid()
      ensures questions == old(questions)
      ensures IsPermutationOfIndices(order, |questions|)
      ensures currentIdx == 0
      ensures Pending() == order && Served() == []
    {
      order := [];
      var i := 0;
      while i < |questions|
        invariant 0 <= i <= |questions| && questions == old(questions)
        invariant order == Indices(i)
      {
        order := order + [i];
        i := i + 1;
      }
      i := |order| - 1;
      while i > 0
        invariant i < |order| == |questions| && questions == old(questions)
        invariant IsPermutationOfIndices(order, |questions|)
      {
        var j :| 0 <= j <= i;
        SwapKeepsMultiset(order, i, j);
        order := Swapped(order, i, j);
        i := i - 1;
      }
      currentIdx := 0;
      PermutationCoversEachIndexOnce(order, |questions|);
    }

    /**
     * GetNextQuestion: nothing (null) when there are no questions or the cursor is at the end of
     * the order, without any change; otherwise the question the cursor names, and the cursor
     * moves on by one.
     */
    method GetNextQuestion() returns (q: Option<Question>)
      requires Valid()
      modifies this
      ensures Valid()
      ensures questions == old(questions) && order == old(order)
      ensures q.None? <==> (|questions| == 0 || old(currentIdx) >= |order|)
      ensures q.None? ==> currentIdx == old(currentIdx)
      ensures q.Some? ==> currentIdx == old(currentIdx) + 1
      ensures q.Some? ==> q.value == questions[order[old(currentIdx)]]
      ensures q.Some? ==> Served() == old(Served()) + [order[old(currentIdx)]]
      ensures q.Some? ==> old(Pending()) == [order[old(currentIdx)]] + Pending()
    {
      if |questions| == 0 {
        return None;
      }
      if currentIdx >= |order| {
        return None;
      }
      q := Some(questions[order[currentIdx]]);
      currentIdx := currentIdx + 1;
      assert order[..currentIdx] == order[..currentIdx - 1] + [order[currentIdx - 1]];
    }

    /** AddQuestion: append a question; the order and the cursor stay as they are. */
    method AddQuestion(q: Question)
      requires Valid()
      modifies this
      ensures Valid()
      ensures questions == old(questions) + [q]
      ensures order == old(order) && currentIdx == old(currentIdx)
    {
      questions := questions + [q];
    }
  }

  /**
   * Once the cursor has run through a freshly shuffled order, every question index has been
   * handed out exactly once, and no further question will be.
   */
  lemma DrainedOrderServedEachIndexOnce(m: QuestionManager)
    requires m.Valid() && IsPermutationOfIndices(m.order, |m.questions|)
    requires m.Pending() == []
    ensures |m.Served()| == |m.questions|
    ensures forall k :: 0 <= k < |m.questions| ==> multiset(m.Served())[k] == 1
    ensures m.currentIdx >= |m.order|
  {
    assert m.Served() == m.order;
    PermutationCoversEachIndexOnce(m.order, |m.questions|);
  }
}
