/** Question.cs: a quiz question and the shuffle of its three options done at every display. */
module Questions {

  /** A question as loaded: the prompt, the correct answer and the wrong answers. */
  datatype Question = Question(prompt: string, correctAnswer: string, wrongAnswers: seq<string>)

  /** A question can be displayed when it has the two wrong answers the shuffle reads. */
  predicate Displayable(q: Question)
  {
    |q.wrongAnswers| >= 2
  }

  /** The three answers a question is displayed with, in their unshuffled order. */
  function Answers(q: Question): seq<string>
    requires Displayable(q)
  {
    [q.correctAnswer, q.wrongAnswers[0], q.wrongAnswers[1]]
  }

  /** s holds a, b and c once each, in one of the six orders. */
  predicate IsArrangement(s: seq<string>, a: string, b: string, c: string)
  {
    && |s| == 3
    && ((s[0] == a && s[1] == b && s[2] == c) || (s[0] == a && s[1] == c && s[2] == b)
     || (s[0] == b && s[1] == a && s[2] == c) || (s[0] == b && s[1] == c && s[2] == a)
     || (s[0] == c && s[1] == a && s[2] == b) || (s[0] == c && s[1] == b && s[2] == a))
  }

  /** Two two-element multisets are equal only when their elements agree in some order. */
  lemma PairsEqual(x: string, y: string, b: string, c: string)
    requires multiset{x, y} == multiset{b, c}
    ensures (x == b && y == c) || (x == c && y == b)
  {
    assert x in multiset{b, c};
    if x == b {
      assert multiset{y} == multiset{x, y} - multiset{x} == multiset{c};
    } else {
      assert multiset{y} == multiset{x, y} - multiset{x} == multiset{b};
    }
  }

  /** Taking the same element out of two equal three-element multisets leaves equal pairs. */
  lemma DropCommon(x: string, y: string, z: string, b: string, c: string)
    requires multiset{x, y, z} == multiset{x, b, c}
    ensures multiset{y, z} == multiset{b, c}
  {
    assert multiset{y, z} == multiset{x, y, z} - multiset{x};
    assert multiset{b, c} == multiset{x, b, c} - multiset{x};
  }

  /** Three elements whose multiset is {a, b, c} are a, b and c in some order. */
  lemma TripleIsArrangement(x: string, y: string, z: string, a: string, b: string, c: string)
    requires multiset{x, y, z} == multiset{a, b, c}
    ensures IsArrangement([x, y, z], a, b, c)
  {
    assert x in multiset{a, b, c};
    if x == a {
      DropCommon(x, y, z, b, c);
      PairsEqual(y, z, b, c);
    } else if x == b {
      assert multiset{a, b, c} == multiset{x, a, c};
      DropCommon(x, y, z, a, c);
      PairsEqual(y, z, a, c);
    } else {
      assert multiset{a, b, c} == multiset{x, a, b};
      DropCommon(x, y, z, a, b);
      PairsEqual(y, z, a, b);
    }
  }

  /** For three elements, being an arrangement of a, b and c is having the multiset {a, b, c}. */
  lemma ArrangementIsPermutation(s: seq<string>, a: string, b: string, c: string)
    requires |s| == 3
    ensures IsArrangement(s, a, b, c) <==> multiset(s) == multiset{a, b, c}
  {
    assert s == [s[0], s[1], s[2]];
    assert multiset(s) == multiset{s[0], s[1], s[2]};
    if multiset(s) == multiset{a, b, c} {
      TripleIsArrangement(s[0], s[1], s[2], a, b, c);
    }
  }

  /** The sequence s with the elements at positions i and j exchanged. */
  function Swapped<T>(s: seq<T>, i: nat, j: nat): seq<T>
    requires i < |s| && j < |s|
  {
    s[i := s[j]][j := s[i]]
  }

  /** A swap of two of its slots leaves an arrangement of a, b and c an arrangement of them. */
  lemma SwapKeepsArrangement(s: seq<string>, i: nat, j: nat, a: string, b: string, c: string)
    requires IsArrangement(s, a, b, c) && i < 3 && j < 3
    ensures IsArrangement(Swapped(s, i, j), a, b, c)
  {
  }

  /** A swap, the step of a Fisher-Yates shuffle, only rearranges the elements. */
  lemma SwapKeepsMultiset<T>(s: seq<T>, i: nat, j: nat)
    requires i < |s| && j < |s|
    ensures |Swapped(s, i, j)| == |s|
    ensures multiset(Swapped(s, i, j)) == multiset(s)
  {
    var t := s[i := s[j]];
    assert multiset(t) == multiset(s) - multiset{s[i]} + multiset{s[j]};
  }

  /**
   * GetShuffledOptions: fill a three-slot array with the correct answer and the first two wrong
   * answers, then shuffle it by Fisher-Yates from the last slot down to slot 1, swapping slot i
   * with a slot j chosen in [0, i]. The choice of j is left to the environment (any value in range).
   */
  method GetShuffledOptions(q: Question) returns (options: seq<string>)
    requires Displayable(q)
    ensures |options| == 3
    ensures multiset(options) == multiset{q.correctAnswer, q.wrongAnswers[0], q.wrongAnswers[1]}
    ensures q.correctAnswer in options
    ensures IsArrangement(options, q.correctAnswer, q.wrongAnswers[0], q.wrongAnswers[1])
  {
    var arr := new string[3];
    arr[0] := q.correctAnswer;
    arr[1] := q.wrongAnswers[0];
    arr[2] := q.wrongAnswers[1];
    assert arr[..] == Answers(q);
    var i := arr.Length - 1;
    while i > 0
      invariant 0 <= i <= 2
      invariant multiset(arr[..]) == multiset(Answers(q))
      invariant IsArrangement(arr[..], q.correctAnswer, q.wrongAnswers[0], q.wrongAnswers[1])
    {
      var j :| 0 <= j <= i;
      ghost var before := arr[..];
      arr[i], arr[j] := arr[j], arr[i];
      assert arr[..] == Swapped(before, i, j);
      SwapKeepsMultiset(before, i, j);
      SwapKeepsArrangement(before, i, j, q.correctAnswer, q.wrongAnswers[0], q.wrongAnswers[1]);
      i := i - 1;
    }
    options := arr[..];
    assert q.correctAnswer in multiset(options);
  }
}
