/**
 * GameManager.cs: the round controller. It starts a session in practice or test mode, pulls the
 * questions one at a time, scores every tap on a mole, spends lives on wrong taps in test mode
 * and ends the session with a percentage score.
 *
 * Every tap is scored: there is no lock between a correct tap and the next question. A correct
 * tap starts the HitCorrectMole coroutine, whose delays end in one call of NextQuestion; each such
 * run is an entry of pendingHits, and the environment finishes the oldest one by calling
 * FinishHitCorrectMole. Nothing cancels a pending run: not the end of the session, not a reset.
 */
module Game {
  import opened Wrappers
  import opened Questions
  import opened QuestionSequencing
  import opened Timing
  import opened Lives
  import opened Interface
  import opened Recording

  datatype PlayMode = Practice | Test

  /** n / d rounded to the nearest integer, halves to the even neighbour (as Mathf.Round does). */
  function RoundHalfEven(n: int, d: int): int
    requires d > 0
  {
    var f, r := n / d, n % d;
    if 2 * r > d then f + 1
    else if 2 * r < d then f
    else if f % 2 == 0 then f else f + 1
  }

  /** RoundHalfEven gives an integer nearest to n / d, and the even one of two equally near. */
  lemma RoundHalfEvenIsNearest(n: int, d: int)
    requires d > 0
    ensures var q := RoundHalfEven(n, d);
      && 2 * (n - d * q) <= d && 2 * (d * q - n) <= d
      && (2 * (n - d * q) == d || 2 * (d * q - n) == d ==> q % 2 == 0)
  {
    var f, r := n / d, n % d;
    assert n == d * f + r;
    assert d * (f + 1) == d * f + d;
  }

  /** Multiplying by a positive number keeps the order. */
  lemma {:induction false} MulMonotone(d: int, a: int, b: int)
    requires d > 0
    ensures a <= b ==> d * a <= d * b
    decreases if a < b then b - a else 0
  {
    if a < b {
      MulMonotone(d, a + 1, b);
      assert d * (a + 1) == d * a + d;
    }
  }

  /** Rounding never reverses the order of two numerators. */
  lemma RoundHalfEvenMonotone(n1: int, n2: int, d: int)
    requires d > 0 && n1 <= n2
    ensures RoundHalfEven(n1, d) <= RoundHalfEven(n2, d)
  {
    var q1, q2 := RoundHalfEven(n1, d), RoundHalfEven(n2, d);
    if n1 < n2 {
      RoundHalfEvenIsNearest(n1, d);
      RoundHalfEvenIsNearest(n2, d);
      NearMultiplesOrdered(q1, q2, n1, n2, d);
    }
  }

  /** Multiples of d within half of d of two strictly ordered numerators are ordered the same way. */
  lemma NearMultiplesOrdered(q1: int, q2: int, n1: int, n2: int, d: int)
    requires d > 0 && n1 < n2 && 2 * (d * q1 - n1) <= d && 2 * (n2 - d * q2) <= d
    ensures q1 <= q2
  {
    MulMonotone(d, q2 + 1, q1);
    assert d * (q2 + 1) == d * q2 + d;
  }

  /** A numerator that is a multiple of the denominator rounds to the exact quotient. */
  lemma RoundHalfEvenExact(k: int, d: int)
    requires d > 0
    ensures RoundHalfEven(d * k, d) == k
  {
    RoundHalfEvenIsNearest(d * k, d);
    NearMultiplesEqual(RoundHalfEven(d * k, d), k, d);
  }

  /** Two multiples of d less than half of d apart are the same multiple. */
  lemma NearMultiplesEqual(q: int, k: int, d: int)
    requires d > 0 && 2 * (d * k - d * q) <= d && 2 * (d * q - d * k) <= d
    ensures q == k
  {
    MulMonotone(d, k + 1, q);
    assert d * (k + 1) == d * k + d;
    MulMonotone(d, q + 1, k);
    assert d * (q + 1) == d * q + d;
  }

  /** EndGame's score: round(100 * correctCount / max(1, totalAnswered)). */
  function Score(correctCount: int, totalAnswered: int): int
  {
    RoundHalfEven(100 * correctCount, if totalAnswered > 1 then totalAnswered else 1)
  }

  /**
   * With no more correct taps than taps, the score is a percentage: 0 when nothing was answered,
   * 100 when every tap was correct.
   */
  lemma ScoreIsPercentage(correctCount: int, totalAnswered: int)
    requires 0 <= correctCount <= totalAnswered
    ensures 0 <= Score(correctCount, totalAnswered) <= 100
    ensures totalAnswered == 0 ==> Score(correctCount, totalAnswered) == 0
    ensures 0 < totalAnswered == correctCount ==> Score(correctCount, totalAnswered) == 100
  {
    var d := if totalAnswered > 1 then totalAnswered else 1;
    assert 0 <= 100 * correctCount <= 100 * d;
    RoundHalfEvenExact(0, d);
    RoundHalfEvenExact(100, d);
    assert d * 0 == 0 && d * 100 == 100 * d;
    RoundHalfEvenMonotone(0, 100 * correctCount, d);
    RoundHalfEvenMonotone(100 * correctCount, 100 * d, d);
    if 0 < totalAnswered == correctCount {
      assert 100 * correctCount == 100 * d;
    }
  }

  /** More correct taps out of the same number of taps never give a lower score. */
  lemma ScoreMonotone(c1: int, c2: int, totalAnswered: int)
    requires c1 <= c2
    ensures Score(c1, totalAnswered) <= Score(c2, totalAnswered)
  {
    RoundHalfEvenMonotone(100 * c1, 100 * c2, if totalAnswered > 1 then totalAnswered else 1);
  }

  /** Worked scores: 4 of 10 is 40, 9 of 10 is 90, 1 of 8 (12.5) is 12, 3 of 8 (37.5) is 38. */
  lemma ScoreExamples()
    ensures Score(4, 10) == 40 && Score(9, 10) == 90
    ensures Score(1, 8) == 12 && Score(3, 8) == 38
  {
  }

  class GameManager {
    var mode: PlayMode

    const questionManager: QuestionManager
    const uiManager: UIManager
    const timer: TimerController
    const lives: LivesManager
    const recorder: DataRecorder

    var currentQuestion: Option<Question>
    var correctMoleIndex: int
    var totalAnswered: int
    var correctCount: int
    /** The moleIndex of each mole on screen, in spawning order. */
    var activeMoles: seq<int>
    /** The index argument of each HitCorrectMole run started and not yet finished, oldest first. */
    var pendingHits: seq<int>

    /** The objects the game manager and the components it drives consist of. */
    ghost function Repr(): set<object>
    {
      {this, questionManager, uiManager, timer, lives, recorder, lives.heartImages,
       uiManager.starImages, uiManager.practiceOptionTexts, uiManager.testOptionTexts}
    }

    /**
     * The scene's wiring: the timer draws on the same UI as the game, the heart and star images
     * are separate, each component is in a consistent state, and every loaded question has the
     * two wrong answers its display needs.
     */
    ghost predicate Wired()
      reads Repr()
    {
      && timer.ui == uiManager
      && lives.heartImages != uiManager.starImages
      && uiManager.Valid()
      && timer.Valid()
      && questionManager.Valid()
      && forall q :: q in questionManager.questions ==> Displayable(q)
    }

    /** The option widgets of the panel the current mode plays on. */
    ghost function ActiveOptionTexts(): array<string>
      reads this
    {
      if mode == Practice then uiManager.practiceOptionTexts else uiManager.testOptionTexts
    }

    /** The option widgets of the panel the current mode does not play on. */
    ghost function InactiveOptionTexts(): array<string>
      reads this
    {
      if mode == Practice then uiManager.testOptionTexts else uiManager.practiceOptionTexts
    }

    /** The question text of the panel the current mode does not play on. */
    ghost function InactiveQuestionText(): string
      reads this, uiManager
    {
      if mode == Practice then uiManager.testQuestionText else uiManager.practiceQuestionText
    }

    /** The session time and the maximum number of lives, which the game only reads, are as they were. */
    twostate predicate SettingsKept()
      reads this, timer, lives
    {
      timer.sessionTime == old(timer.sessionTime) && lives.maxLives == old(lives.maxLives)
    }

    /** The prompt and the option widgets of the other mode's panel are as they were. */
    twostate predicate InactivePanelKept()
      reads this, uiManager, uiManager.practiceOptionTexts, uiManager.testOptionTexts
    {
      InactiveQuestionText() == old(InactiveQuestionText()) && unchanged(InactiveOptionTexts())
    }

    /**
     * The session invariant: never more correct taps than taps, and while a question is up the
     * correct mole's slot holds that question's correct answer.
     */
    ghost predicate Valid()
      reads Repr()
    {
      && Wired()
      && 0 <= correctCount <= totalAnswered
      && -1 <= correctMoleIndex <= 2
      && (currentQuestion.Some? ==>
            && 0 <= correctMoleIndex <= 2
            && Matches(ActiveOptionTexts()[correctMoleIndex], currentQuestion.value.correctAnswer))
    }

    /**
     * Question q is up on the active panel: its prompt is shown, its three answers are on the
     * option widgets in some order, three moles are out and the correct one is the last slot
     * whose option matches the correct answer.
     */
    ghost predicate Shows(q: Question)
      reads Repr()
      requires Wired()
    {
      && activeMoles == [0, 1, 2]
      && Displayable(q)
      && IsArrangement(ActiveOptionTexts()[..3], q.correctAnswer, q.wrongAnswers[0], q.wrongAnswers[1])
      && correctMoleIndex == LastMatch(ActiveOptionTexts()[..3], q.correctAnswer)
      && (if mode == Practice then uiManager.practiceQuestionText else uiManager.testQuestionText) == q.prompt
    }

    /** The question the cursor named at position idx is up, and the cursor has moved past it. */
    ghost predicate ShowsQuestionAt(idx: int)
      reads Repr()
      requires Wired()
    {
      && 0 <= idx < |questionManager.order|
      && currentQuestion == Some(questionManager.questions[questionManager.order[idx]])
      && questionManager.currentIdx == idx + 1
      && Shows(currentQuestion.value)
    }

    /** What EndGame leaves: the result panel with the score, and in test mode a stopped timer. */
    ghost predicate EndedWith(completed: bool)
      reads Repr()
      requires Wired()
    {
      && uiManager.ShowsResult(Score(correctCount, totalAnswered), completed)
      && (mode == Test ==> timer.Stopped())
    }

    /**
     * What BeginGame leaves: a fresh shuffle, an empty log and zero counters; in test mode lives
     * at the maximum and a countdown from the session time started; and either the first
     * question of the new order up on the mode's panel, or, with no questions, the game ended as
     * completed with score 0.
     */
    ghost predicate Begun(timeUp: bool)
      reads Repr()
      requires Wired()
    {
      && IsPermutationOfIndices(questionManager.order, |questionManager.questions|)
      && recorder.responses == []
      && totalAnswered == 0 && correctCount == 0
      && (timeUp <==> mode == Test && timer.sessionTime <= 0)
      && (mode == Test ==> lives.currentLives == lives.maxLives && lives.HeartsShown())
      && !uiManager.homePanel && !uiManager.menuPanel
      && uiManager.practicePanel == (mode == Practice) && uiManager.testPanel == (mode == Test)
      && (|questionManager.order| > 0 ==>
            && ShowsQuestionAt(0)
            && !uiManager.winPanel
            && (mode == Test ==>
                  && timer.timeLeft == timer.sessionTime && timer.running == !timeUp
                  && uiManager.timerText == if timeUp then "00:00" else FormatTime(timer.sessionTime)))
      && (|questionManager.order| == 0 ==>
            && currentQuestion.None? && questionManager.currentIdx == 0
            && EndedWith(true) && Score(correctCount, totalAnswered) == 0)
    }

    /** The game manager wired to its components, before any session: no question, no moles. */
    constructor (questionManager: QuestionManager, uiManager: UIManager, timer: TimerController,
                 lives: LivesManager, recorder: DataRecorder)
      requires timer.ui == uiManager && lives.heartImages != uiManager.starImages
      requires uiManager.Valid() && timer.Valid() && questionManager.Valid()
      requires forall q :: q in questionManager.questions ==> Displayable(q)
      ensures Valid()
      ensures this.questionManager == questionManager && this.uiManager == uiManager
      ensures this.timer == timer && this.lives == lives && this.recorder == recorder
      ensures mode == Practice && currentQuestion == None && correctMoleIndex == -1
      ensures totalAnswered == 0 && correctCount == 0 && activeMoles == [] && pendingHits == []
    {
      this.questionManager := questionManager;
      this.uiManager := uiManager;
      this.timer := timer;
      this.lives := lives;
      this.recorder := recorder;
      mode := Practice;
      currentQuestion := None;
      correctMoleIndex := -1;
      totalAnswered := 0;
      correctCount := 0;
      activeMoles := [];
      pendingHits := [];
    }

    /** StartPractice: a practice session; the timer and the lives are not touched. */
    method StartPractice()
      requires Valid()
      modifies this`mode, questionManager, recorder, this`totalAnswered, this`correctCount,
        this`currentQuestion, this`correctMoleIndex, this`activeMoles, uiManager, timer, lives,
        lives.heartImages, uiManager.starImages, uiManager.practiceOptionTexts, uiManager.testOptionTexts
      ensures Valid() && mode == Practice && Begun(false)
      ensures unchanged(timer, lives, lives.heartImages) && uiManager.timerText == old(uiManager.timerText)
      ensures questionManager.questions == old(questionManager.questions)
      ensures pendingHits == old(pendingHits)
      ensures uiManager.testQuestionText == old(uiManager.testQuestionText) && unchanged(uiManager.testOptionTexts)
      ensures |questionManager.order| > 0 ==> uiManager.ResultKept()
      ensures |questionManager.order| == 0 ==>
        && correctMoleIndex == old(correctMoleIndex) && activeMoles == old(activeMoles)
        && uiManager.PromptsKept() && unchanged(uiManager.practiceOptionTexts, uiManager.testOptionTexts)
    {
      mode := Practice;
      var timeUp := BeginGame();
    }

    /**
     * StartTest: a test session. The timer's time-up signal, raised at once when the session
     * time is not positive, is handed back (timeUp).
     */
    method StartTest() returns (timeUp: bool)
      requires Valid()
      modifies this`mode, questionManager, recorder, this`totalAnswered, this`correctCount,
        this`currentQuestion, this`correctMoleIndex, this`activeMoles, uiManager, timer, lives,
        lives.heartImages, uiManager.starImages, uiManager.practiceOptionTexts, uiManager.testOptionTexts
      ensures Valid() && mode == Test && Begun(timeUp) && SettingsKept()
      ensures questionManager.questions == old(questionManager.questions)
      ensures pendingHits == old(pendingHits)
      ensures uiManager.practiceQuestionText == old(uiManager.practiceQuestionText)
      ensures unchanged(uiManager.practiceOptionTexts)
      ensures |questionManager.order| > 0 ==> uiManager.ResultKept()
      ensures |questionManager.order| == 0 ==>
        && correctMoleIndex == old(correctMoleIndex) && activeMoles == old(activeMoles)
        && uiManager.PromptsKept() && unchanged(uiManager.practiceOptionTexts, uiManager.testOptionTexts)
    {
      mode := Test;
      timeUp := BeginGame();
    }

    /**
     * BeginGame: reshuffle the questions, clear the log, zero the counters, show the mode's
     * panel; in test mode start the timer and reset the lives; then pull the first question.
     */
    method BeginGame() returns (timeUp: bool)
      requires Wired() && -1 <= correctMoleIndex <= 2
      modifies questionManager, recorder, this`totalAnswered, this`correctCount, this`currentQuestion,
        this`correctMoleIndex, this`activeMoles, uiManager, timer, lives, lives.heartImages,
        uiManager.starImages, uiManager.practiceOptionTexts, uiManager.testOptionTexts
      ensures Valid() && mode == old(mode) && Begun(timeUp) && SettingsKept()
      ensures mode == Practice ==> unchanged(timer, lives, lives.heartImages)
      ensures mode == Practice ==> uiManager.timerText == old(uiManager.timerText)
      ensures questionManager.questions == old(questionManager.questions)
      ensures pendingHits == old(pendingHits)
      ensures InactivePanelKept()
      ensures |questionManager.order| > 0 ==> uiManager.ResultKept()
      ensures |questionManager.order| == 0 ==>
        && correctMoleIndex == old(correctMoleIndex) && activeMoles == old(activeMoles)
        && uiManager.PromptsKept() && unchanged(ActiveOptionTexts())
    {
      timeUp := PrepareSession();
      NextQuestion();
    }

    /** The part of BeginGame before the first question is pulled. */
    method PrepareSession() returns (timeUp: bool)
      requires Wired()
      modifies questionManager, recorder, this`totalAnswered, this`correctCount,
        uiManager, timer, lives, lives.heartImages
      ensures Wired()
      ensures IsPermutationOfIndices(questionManager.order, |questionManager.questions|)
      ensures questionManager.questions == old(questionManager.questions) && questionManager.currentIdx == 0
      ensures recorder.responses == []
      ensures totalAnswered == 0 && correctCount == 0
      ensures uiManager.OnlyGamePanel(mode == Test) && uiManager.PromptsKept()
      ensures uiManager.winScore == old(uiManager.winScore)
      ensures uiManager.winImage == old(uiManager.winImage) && uiManager.loseImage == old(uiManager.loseImage)
      ensures SettingsKept()
      ensures timeUp <==> mode == Test && timer.sessionTime <= 0
      ensures mode == Test ==>
        && lives.currentLives == lives.maxLives && lives.HeartsShown()
        && timer.timeLeft == timer.sessionTime && timer.running == !timeUp
        && uiManager.timerText == if timeUp then "00:00" else FormatTime(timer.sessionTime)
      ensures mode == Practice ==>
        unchanged(timer, lives, lives.heartImages) && uiManager.timerText == old(uiManager.timerText)
    {
      questionManager.InitializeShuffle();
      recorder.Clear();
      totalAnswered := 0;
      correctCount := 0;
      uiManager.ShowGamePanel(mode == Test);
      timeUp := false;
      if mode == Test {
        timeUp := timer.StartTimer();
        lives.ResetLives();
      }
    }

    /**
     * NextQuestion: take the next question from the sequencer. With none left, end the game as
     * completed; otherwise display it on the mode's panel and spawn the moles for it.
     */
    method NextQuestion()
      requires Wired() && 0 <= correctCount <= totalAnswered && -1 <= correctMoleIndex <= 2
      modifies questionManager, this`currentQuestion, this`correctMoleIndex, this`activeMoles, timer,
        uiManager, uiManager.starImages, uiManager.practiceOptionTexts, uiManager.testOptionTexts
      ensures Valid()
      ensures timer.sessionTime == old(timer.sessionTime)
      ensures unchanged(questionManager`questions, questionManager`order)
      ensures uiManager.GamePanelsKept() && InactivePanelKept()
      ensures old(questionManager.currentIdx) < |questionManager.order| ==>
        && ShowsQuestionAt(old(questionManager.currentIdx))
        && unchanged(timer) && uiManager.timerText == old(uiManager.timerText)
        && uiManager.winPanel == old(uiManager.winPanel) && uiManager.ResultKept()
      ensures old(questionManager.currentIdx) >= |questionManager.order| ==>
        && currentQuestion.None? && questionManager.currentIdx == old(questionManager.currentIdx)
        && correctMoleIndex == old(correctMoleIndex) && activeMoles == old(activeMoles)
        && EndedWith(true) && uiManager.PromptsKept()
        && unchanged(uiManager.practiceOptionTexts, uiManager.testOptionTexts)
        && (mode == Practice ==> unchanged(timer) && uiManager.timerText == old(uiManager.timerText))
    {
      currentQuestion := questionManager.GetNextQuestion();
      ShowOrEnd();
    }

    /**
     * The rest of NextQuestion, once the next question is drawn: with none, the game ends as
     * completed; otherwise it is displayed on the mode's panel.
     */
    method ShowOrEnd()
      requires Wired() && 0 <= correctCount <= totalAnswered && -1 <= correctMoleIndex <= 2
      requires currentQuestion.Some? ==> currentQuestion.value in questionManager.questions
      modifies this`correctMoleIndex, this`activeMoles, timer,
        uiManager, uiManager.starImages, uiManager.practiceOptionTexts, uiManager.testOptionTexts
      ensures Valid()
      ensures timer.sessionTime == old(timer.sessionTime)
      ensures uiManager.GamePanelsKept() && InactivePanelKept()
      ensures currentQuestion.Some? ==>
        && Shows(currentQuestion.value)
        && unchanged(timer) && uiManager.timerText == old(uiManager.timerText)
        && uiManager.winPanel == old(uiManager.winPanel) && uiManager.ResultKept()
      ensures currentQuestion.None? ==>
        && correctMoleIndex == old(correctMoleIndex) && activeMoles == old(activeMoles)
        && EndedWith(true) && uiManager.PromptsKept()
        && unchanged(uiManager.practiceOptionTexts, uiManager.testOptionTexts)
        && (mode == Practice ==> unchanged(timer) && uiManager.timerText == old(uiManager.timerText))
    {
      if currentQuestion.None? {
        EndGame(true);
      } else {
        ShowQuestion(currentQuestion.value);
      }
    }

    /**
     * UIManager.DisplayQuestion on the mode's panel, with its callback SetCorrectIndex: the
     * question and its shuffled options are shown, and the slot found correct is remembered
     * while the moles are spawned.
     */
    method ShowQuestion(q: Question)
      requires Wired() && Displayable(q)
      modifies this`correctMoleIndex, this`activeMoles, uiManager`practiceQuestionText,
        uiManager`testQuestionText, uiManager.practiceOptionTexts, uiManager.testOptionTexts
      ensures Wired() && Shows(q)
      ensures 0 <= correctMoleIndex <= 2 && Matches(ActiveOptionTexts()[correctMoleIndex], q.correctAnswer)
      ensures ActiveOptionTexts()[3..] == old(ActiveOptionTexts()[3..])
      ensures InactivePanelKept() && uiManager.GamePanelsKept() && uiManager.ResultKept()
      ensures uiManager.winPanel == old(uiManager.winPanel) && uiManager.timerText == old(uiManager.timerText)
    {
      var isPractice := mode == Practice;
      var index := uiManager.DisplayQuestion(q, isPractice);
      SetCorrectIndex(index);
    }

    /** SetCorrectIndex: remember the correct slot and spawn the three moles. */
    method SetCorrectIndex(index: int)
      modifies this`correctMoleIndex, this`activeMoles
      ensures correctMoleIndex == index && activeMoles == [0, 1, 2]
    {
      correctMoleIndex := index;
      SpawnThreeMoles();
    }

    /** SpawnThreeMoles: replace the moles on screen with moles 0, 1 and 2, in that order. */
    method SpawnThreeMoles()
      modifies this`activeMoles
      ensures activeMoles == [0, 1, 2]
    {
      activeMoles := [];
      for i := 0 to 3
        invariant activeMoles == Indices(i)
      {
        activeMoles := activeMoles + [i];
      }
    }

    /**
     * OnMoleTapped: every tap counts as an answer. A tap on the correct slot also counts as
     * correct and starts a HitCorrectMole run. A wrong tap in test mode costs a life and ends the
     * game, not completed, once no life is left; in practice mode it changes nothing else. The
     * question on screen stays the same either way.
     */
    method OnMoleTapped(index: int)
      requires Valid()
      modifies Repr()
      ensures Valid()
      ensures totalAnswered == old(totalAnswered) + 1
      ensures correctCount == old(correctCount) + (if index == old(correctMoleIndex) then 1 else 0)
      ensures mode == old(mode) && currentQuestion == old(currentQuestion)
      ensures correctMoleIndex == old(correctMoleIndex) && activeMoles == old(activeMoles)
      ensures unchanged(questionManager, recorder) && SettingsKept()
      ensures unchanged(uiManager.practiceOptionTexts, uiManager.testOptionTexts)
      ensures index == old(correctMoleIndex) ==>
        && pendingHits == old(pendingHits) + [index]
        && unchanged(lives, lives.heartImages, timer, uiManager, uiManager.starImages)
      ensures index != old(correctMoleIndex) ==> pendingHits == old(pendingHits)
      ensures index != old(correctMoleIndex) && mode == Practice ==>
        unchanged(lives, lives.heartImages, timer, uiManager, uiManager.starImages)
      ensures index != old(correctMoleIndex) && mode == Test ==>
        && lives.currentLives == Decremented(old(lives.currentLives)) && lives.HeartsShown()
        && (lives.currentLives <= 0 ==>
              EndedWith(false) && uiManager.PromptsKept() && uiManager.GamePanelsKept())
        && (lives.currentLives > 0 ==> unchanged(timer, uiManager, uiManager.starImages))
    {
      totalAnswered := totalAnswered + 1;
      var isCorrect := index == correctMoleIndex;
      if isCorrect {
        correctCount := correctCount + 1;
        pendingHits := pendingHits + [index];
      } else {
        if mode == Test {
          lives.Decrement();
          if lives.currentLives <= 0 {
            EndGame(false);
            return;
          }
        }
      }
    }

    /**
     * The end of the oldest HitCorrectMole run, after its delays: the moles are cleared and
     * NextQuestion is called, once. With no run pending nothing happens.
     */
    method FinishHitCorrectMole()
      requires Valid()
      modifies Repr()
      ensures Valid() && SettingsKept()
      ensures old(pendingHits) == [] ==> unchanged(Repr())
      ensures old(pendingHits) != [] ==>
        && pendingHits == old(pendingHits)[1..]
        && mode == old(mode)
        && totalAnswered == old(totalAnswered) && correctCount == old(correctCount)
        && unchanged(lives, lives.heartImages, recorder)
        && unchanged(questionManager`questions, questionManager`order)
        && uiManager.GamePanelsKept() && InactivePanelKept()
      ensures old(pendingHits) != [] && old(questionManager.currentIdx) < |questionManager.order| ==>
        && ShowsQuestionAt(old(questionManager.currentIdx))
        && unchanged(timer) && uiManager.timerText == old(uiManager.timerText)
        && uiManager.winPanel == old(uiManager.winPanel) && uiManager.ResultKept()
      ensures old(pendingHits) != [] && old(questionManager.currentIdx) >= |questionManager.order| ==>
        && currentQuestion.None? && activeMoles == [] && EndedWith(true)
        && questionManager.currentIdx == old(questionManager.currentIdx)
        && correctMoleIndex == old(correctMoleIndex) && uiManager.PromptsKept()
        && unchanged(uiManager.practiceOptionTexts, uiManager.testOptionTexts)
        && (mode == Practice ==> unchanged(timer) && uiManager.timerText == old(uiManager.timerText))
    {
      if pendingHits == [] {
        return;
      }
      pendingHits := pendingHits[1..];
      activeMoles := [];
      NextQuestion();
    }

    /**
     * ResetToStart: stop the timer, reset the lives, clear the log, remove the moles, zero the
     * counters, forget the question (correct slot -1), show "00:00", and start a new session in
     * the mode played last.
     */
    method ResetToStart() returns (timeUp: bool)
      requires Valid()
      modifies this`mode, questionManager, recorder, this`totalAnswered, this`correctCount,
        this`currentQuestion, this`correctMoleIndex, this`activeMoles, uiManager, timer, lives,
        lives.heartImages, uiManager.starImages, uiManager.practiceOptionTexts, uiManager.testOptionTexts
      ensures Valid() && mode == old(mode) && Begun(timeUp) && SettingsKept()
      ensures lives.currentLives == lives.maxLives && lives.HeartsShown()
      ensures mode == Practice ==> timer.Stopped()
      ensures |questionManager.order| == 0 ==>
        && correctMoleIndex == -1 && activeMoles == []
        && uiManager.PromptsKept() && unchanged(uiManager.practiceOptionTexts, uiManager.testOptionTexts)
      ensures questionManager.questions == old(questionManager.questions)
      ensures pendingHits == old(pendingHits)
    {
      var lastMode := mode;
      ClearSession();
      if lastMode == Test {
        timeUp := StartTest();
      } else {
        StartPractice();
        timeUp := false;
      }
    }

    /** The part of ResetToStart before the new session is started. */
    method ClearSession()
      requires Valid()
      modifies timer, lives, lives.heartImages, recorder, uiManager`timerText, this`activeMoles,
        this`totalAnswered, this`correctCount, this`currentQuestion, this`correctMoleIndex
      ensures Valid() && SettingsKept()
      ensures timer.Stopped() && lives.currentLives == lives.maxLives && lives.HeartsShown()
      ensures activeMoles == [] && currentQuestion == None && correctMoleIndex == -1
      ensures recorder.responses == [] && totalAnswered == 0 && correctCount == 0
    {
      timer.StopTimer();
      lives.ResetLives();
      recorder.Clear();
      activeMoles := [];
      totalAnswered := 0;
      correctCount := 0;
      currentQuestion := None;
      correctMoleIndex := -1;
      uiManager.UpdateTimerText("00:00");
    }

    /**
     * ResetGame: stop the timer in test mode, remove the moles, zero the counters and go back to
     * the home panel. The question and the correct slot are left as they were.
     */
    method ResetGame()
      requires Valid()
      modifies Repr()
      ensures Valid()
      ensures totalAnswered == 0 && correctCount == 0 && activeMoles == []
      ensures uiManager.OnlyHome()
      ensures mode == Test ==> timer.Stopped()
      ensures mode == Practice ==> unchanged(timer) && uiManager.timerText == old(uiManager.timerText)
      ensures mode == old(mode) && currentQuestion == old(currentQuestion)
      ensures correctMoleIndex == old(correctMoleIndex) && pendingHits == old(pendingHits)
      ensures unchanged(questionManager, lives, lives.heartImages, recorder) && SettingsKept()
      ensures uiManager.PromptsKept() && uiManager.ResultKept()
      ensures unchanged(uiManager.practiceOptionTexts, uiManager.testOptionTexts)
    {
      if mode == Test {
        timer.StopTimer();
      }
      activeMoles := [];
      totalAnswered := 0;
      correctCount := 0;
      uiManager.ShowHome();
    }

    /**
     * EndGame: in test mode stop the timer; show the result panel with the score and the
     * completed flag exactly as given. The log's save to a file is not part of this model.
     */
    method EndGame(completed: bool)
      requires Wired()
      modifies timer, uiManager, uiManager.starImages
      ensures Wired() && EndedWith(completed) && timer.sessionTime == old(timer.sessionTime)
      ensures mode == Practice ==> unchanged(timer) && uiManager.timerText == old(uiManager.timerText)
      ensures uiManager.GamePanelsKept() && uiManager.PromptsKept()
    {
      if mode == Test {
        timer.StopTimer();
      }
      var score := Score(correctCount, totalAnswered);
      uiManager.ShowWinPanel(score, completed);
    }
  }
}
