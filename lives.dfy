/**
 * LivesManager.cs: the lives left in a test session, and the heart images that show them
 * (true when a heart shows the full sprite).
 */
module Lives {

  /** Decrement's rule, Mathf.Max(0, lives - 1): one life less, never below zero. */
  function Decremented(lives: int): (r: int)
    ensures r >= 0 && r >= lives - 1 && (r == 0 || r == lives - 1)
  {
    if lives - 1 > 0 then lives - 1 else 0
  }

  /** The lives left after k decrements. */
  function AfterDecrements(lives: int, k: nat): int
  {
    if k == 0 then lives else Decremented(AfterDecrements(lives, k - 1))
  }

  /**
   * From a non-negative count, k decrements leave max(0, lives - k): the count never goes up
   * and never goes below zero, whatever the number of wrong answers.
   */
  lemma {:induction false} DecrementsCountDown(lives: int, k: nat)
    requires lives >= 0
    ensures AfterDecrements(lives, k) == if lives - k > 0 then lives - k else 0
  {
    if k > 0 {
      DecrementsCountDown(lives, k - 1);
    }
  }

  /** More decrements never leave more lives, from any starting count once one has happened. */
  lemma {:induction false} DecrementsNonIncreasing(lives: int, j: nat, k: nat)
    requires 1 <= j <= k
    ensures 0 <= AfterDecrements(lives, k) <= AfterDecrements(lives, j)
  {
    if k > j {
      DecrementsNonIncreasing(lives, j, k - 1);
    }
  }

  /** The number of full hearts. */
  function FullCount(hearts: seq<bool>): nat
  {
    if hearts == [] then 0 else FullCount(hearts[..|hearts| - 1]) + (if hearts[|hearts| - 1] then 1 else 0)
  }

  /** Hearts filled by the rule "heart i is full iff i < lives" number min(lives, hearts), at least 0. */
  lemma {:induction false} FullCountOfFillRule(hearts: seq<bool>, lives: int)
    requires forall i :: 0 <= i < |hearts| ==> hearts[i] == (i < lives)
    ensures FullCount(hearts) == if lives <= 0 then 0 else if lives < |hearts| then lives else |hearts|
  {
    if hearts != [] {
      FullCountOfFillRule(hearts[..|hearts| - 1], lives);
    }
  }

  class LivesManager {
    var maxLives: int
    var currentLives: int
    const heartImages: array<bool>

    /** Heart i shows full exactly when i is below the lives left. */
    ghost predicate HeartsShown()
      reads this, heartImages
    {
      forall i :: 0 <= i < heartImages.Length ==> heartImages[i] == (i < currentLives)
    }

    /** The component as the scene starts it: Start() resets the lives. */
    constructor (maxLives: int, heartImages: array<bool>)
      modifies heartImages
      ensures this.maxLives == maxLives && this.heartImages == heartImages
      ensures currentLives == maxLives && HeartsShown()
    {
      this.maxLives := maxLives;
      this.heartImages := heartImages;
      currentLives := maxLives;
      new;
      UpdateHearts();
    }

    /** UpdateHearts: heart i gets the full sprite exactly when i < currentLives. */
    method UpdateHearts()
      modifies heartImages
      ensures HeartsShown()
    {
      var i := 0;
      while i < heartImages.Length
        invariant 0 <= i <= heartImages.Length
        invariant forall k :: 0 <= k < i ==> heartImages[k] == (k < currentLives)
      {
        heartImages[i] := i < currentLives;
        i := i + 1;
      }
    }

    /** ResetLives: back to the maximum, hearts redrawn. */
    method ResetLives()
      modifies this`currentLives, heartImages
      ensures currentLives == maxLives && HeartsShown()
    {
      currentLives := maxLives;
      UpdateHearts();
    }

    /** Decrement: one life less, floored at zero, hearts redrawn. */
    method Decrement()
      modifies this`currentLives, heartImages
      ensures currentLives == Decremented(old(currentLives))
      ensures old(currentLives) > 0 ==> currentLives == old(currentLives) - 1
      ensures old(currentLives) <= 0 ==> currentLives == 0
      ensures HeartsShown()
    {
      currentLives := Decremented(currentLives);
      UpdateHearts();
    }
  }
}
