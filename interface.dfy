/**
 * UIManager.cs: the decision logic of the user interface. Each panel is an "active" flag, each
 * text widget a string, each star image a flag that is true when it shows the filled sprite.
 */
module Interface {
  import opened Questions

  /** The characters C#'s char.IsWhiteSpace accepts, which string.Trim removes. */
  predicate IsWhiteSpace(c: char)
  {
    c in WhiteSpace
  }

  const WhiteSpace: set<char> := {
    '\t', '\n', '\U{000B}', '\U{000C}', '\r', ' ', '\U{0085}', '\U{00A0}', '\U{1680}',
    '\U{2000}', '\U{2001}', '\U{2002}', '\U{2003}', '\U{2004}', '\U{2005}', '\U{2006}',
    '\U{2007}', '\U{2008}', '\U{2009}', '\U{200A}', '\U{2028}', '\U{2029}', '\U{202F}',
    '\U{205F}', '\U{3000}'}

  /** s without its leading white space. */
  function TrimStart(s: string): string
  {
    if s != [] && IsWhiteSpace(s[0]) then TrimStart(s[1..]) else s
  }

  /** s without its trailing white space. */
  function TrimEnd(s: string): string
  {
    if s != [] && IsWhiteSpace(s[|s| - 1]) then TrimEnd(s[..|s| - 1]) else s
  }

  /** string.Trim: s without white space at either end. */
  function Trim(s: string): string
  {
    TrimEnd(TrimStart(s))
  }

  /** TrimStart cuts a prefix of white space and leaves no white space in front. */
  lemma {:induction false} TrimStartCutsWhiteSpacePrefix(s: string)
    ensures |TrimStart(s)| <= |s| && TrimStart(s) == s[|s| - |TrimStart(s)|..]
    ensures TrimStart(s) != [] ==> !IsWhiteSpace(TrimStart(s)[0])
    ensures forall k :: 0 <= k < |s| - |TrimStart(s)| ==> IsWhiteSpace(s[k])
  {
    if s != [] && IsWhiteSpace(s[0]) {
      var t := s[1..];
      TrimStartCutsWhiteSpacePrefix(t);
      assert TrimStart(s) == TrimStart(t);
      forall k | 0 <= k < |s| - |TrimStart(s)|
        ensures IsWhiteSpace(s[k])
      {
        if k > 0 {
          assert s[k] == t[k - 1];
        }
      }
    }
  }

  /** TrimEnd cuts a suffix of white space and leaves no white space at the end. */
  lemma {:induction false} TrimEndCutsWhiteSpaceSuffix(s: string)
    ensures |TrimEnd(s)| <= |s| && TrimEnd(s) == s[..|TrimEnd(s)|]
    ensures TrimEnd(s) != [] ==> !IsWhiteSpace(TrimEnd(s)[|TrimEnd(s)| - 1])
    ensures forall k :: |TrimEnd(s)| <= k < |s| ==> IsWhiteSpace(s[k])
  {
    if s != [] && IsWhiteSpace(s[|s| - 1]) {
      var t := s[..|s| - 1];
      TrimEndCutsWhiteSpaceSuffix(t);
      assert TrimEnd(s) == TrimEnd(t);
      forall k | |TrimEnd(s)| <= k < |s|
        ensures IsWhiteSpace(s[k])
      {
        if k < |s| - 1 {
          assert s[k] == t[k];
        }
      }
    }
  }

  /**
   * Trim keeps a contiguous piece of its argument, with only white space cut off at each end and
   * none left at either end of the piece.
   */
  lemma TrimCutsOnlyWhiteSpace(s: string)
    ensures exists a, b ::
      && 0 <= a <= b <= |s| && Trim(s) == s[a..b]
      && (forall k :: 0 <= k < a ==> IsWhiteSpace(s[k]))
      && (forall k :: b <= k < |s| ==> IsWhiteSpace(s[k]))
    ensures Trim(s) != [] ==> !IsWhiteSpace(Trim(s)[0]) && !IsWhiteSpace(Trim(s)[|Trim(s)| - 1])
  {
    var t := TrimStart(s);
    TrimStartCutsWhiteSpacePrefix(s);
    TrimEndCutsWhiteSpaceSuffix(t);
    var a := |s| - |t|;
    var b := a + |TrimEnd(t)|;
    assert Trim(s) == s[a..b];
  }

  /** An option text matches the correct answer when the two are equal once trimmed. */
  predicate Matches(option: string, answer: string)
  {
    Trim(option) == Trim(answer)
  }

  /**
   * The slot DisplayQuestion picks as correct: the LAST position whose text equals the correct
   * answer once both are trimmed, or -1 when there is none.
   */
  function LastMatch(options: seq<string>, answer: string): (r: int)
    ensures -1 <= r < |options|
    ensures r >= 0 ==> Matches(options[r], answer)
    ensures forall k :: r < k < |options| ==> !Matches(options[k], answer)
  {
    if options == [] then -1
    else if Matches(options[|options| - 1], answer) then |options| - 1
    else LastMatch(options[..|options| - 1], answer)
  }

  /** The slot is found whenever the correct answer itself is among the options. */
  lemma LastMatchFindsPresentAnswer(options: seq<string>, answer: string)
    requires answer in options
    ensures 0 <= LastMatch(options, answer) < |options|
  {
    var k :| 0 <= k < |options| && options[k] == answer;
    assert Matches(options[k], answer);
  }

  /** CalculateStars: 3 stars from 90, 2 from 60, 1 from 30, otherwise none. */
  function CalculateStars(score: int): (stars: int)
    ensures 0 <= stars <= 3
  {
    if score >= 90 then 3
    else if score >= 60 then 2
    else if score >= 30 then 1
    else 0
  }

  /** The rating is between 0 and 3 stars and never drops as the score rises. */
  lemma StarsBoundedAndMonotone(s1: int, s2: int)
    requires s1 <= s2
    ensures 0 <= CalculateStars(s1) <= CalculateStars(s2) <= 3
  {
  }

  /** The score interval each rating stands for. */
  lemma StarsThresholds(score: int, stars: int)
    requires stars == CalculateStars(score)
    ensures stars == 3 <==> 90 <= score
    ensures stars == 2 <==> 60 <= score < 90
    ensures stars == 1 <==> 30 <= score < 60
    ensures stars == 0 <==> score < 30
  {
  }

  class UIManager {
    var homePanel: bool
    var practicePanel: bool
    var testPanel: bool
    var menuPanel: bool
    var winPanel: bool

    var practiceQuestionText: string
    var testQuestionText: string
    var timerText: string
    /** The number the win panel shows as its percentage text. */
    var winScore: int

    const practiceOptionTexts: array<string>
    const testOptionTexts: array<string>
    /** true when star i shows the filled sprite */
    const starImages: array<bool>
    var winImage: bool
    var loseImage: bool

    /** The scene provides three option texts for each mode, as separate widgets. */
    ghost predicate Valid()
    {
      && practiceOptionTexts.Length >= 3
      && testOptionTexts.Length >= 3
      && practiceOptionTexts != testOptionTexts
    }

    /** Exactly the home panel is showing. */
    ghost predicate OnlyHome()
      reads this
    {
      homePanel && !practicePanel && !testPanel && !menuPanel && !winPanel
    }

    /** Exactly the game panel of the given mode is showing. */
    ghost predicate OnlyGamePanel(showTest: bool)
      reads this
    {
      !homePanel && practicePanel == !showTest && testPanel == showTest && !menuPanel && !winPanel
    }

    /** The win panel shows the score, the win or the lose image and the star rating. */
    ghost predicate ShowsResult(score: int, completed: bool)
      reads this, starImages
    {
      && winPanel
      && winImage == completed && loseImage == !completed
      && winScore == score
      && forall i :: 0 <= i < starImages.Length ==> starImages[i] == (i < CalculateStars(score))
    }

    /** The home, practice, test and menu panels are as they were. */
    twostate predicate GamePanelsKept()
      reads this
    {
      && homePanel == old(homePanel) && practicePanel == old(practicePanel)
      && testPanel == old(testPanel) && menuPanel == old(menuPanel)
    }

    /** Both question texts are as they were. */
    twostate predicate PromptsKept()
      reads this
    {
      practiceQuestionText == old(practiceQuestionText) && testQuestionText == old(testQuestionText)
    }

    /** The win panel's score, images and stars are as they were. */
    twostate predicate ResultKept()
      reads this, starImages
    {
      && winScore == old(winScore) && winImage == old(winImage) && loseImage == old(loseImage)
      && unchanged(starImages)
    }

    constructor (practiceOptionTexts: array<string>, testOptionTexts: array<string>,
                 starImages: array<bool>)
      requires practiceOptionTexts.Length >= 3 && testOptionTexts.Length >= 3
      requires practiceOptionTexts != testOptionTexts
      ensures Valid() && OnlyHome()
      ensures this.practiceOptionTexts == practiceOptionTexts
      ensures this.testOptionTexts == testOptionTexts
      ensures this.starImages == starImages
    {
      this.practiceOptionTexts := practiceOptionTexts;
      this.testOptionTexts := testOptionTexts;
      this.starImages := starImages;
      homePanel, practicePanel, testPanel, menuPanel, winPanel := true, false, false, false, false;
    }

    /** ToggleAll: every panel off; nothing else changes. */
    method ToggleAll()
      modifies this
      ensures !homePanel && !practicePanel && !testPanel && !menuPanel && !winPanel
      ensures practiceQuestionText == old(practiceQuestionText)
      ensures testQuestionText == old(testQuestionText)
      ensures timerText == old(timerText) && winScore == old(winScore)
      ensures winImage == old(winImage) && loseImage == old(loseImage)
    {
      homePanel, practicePanel, testPanel, menuPanel, winPanel := false, false, false, false, false;
    }

    /** ShowHome: only the home panel is left active. */
    method ShowHome()
      modifies this
      ensures OnlyHome()
      ensures practiceQuestionText == old(practiceQuestionText)
      ensures testQuestionText == old(testQuestionText)
      ensures timerText == old(timerText) && winScore == old(winScore)
      ensures winImage == old(winImage) && loseImage == old(loseImage)
    {
      ToggleAll();
      homePanel := true;
    }

    /** ShowGamePanel: only the test panel (showTest) or only the practice panel is left active. */
    method ShowGamePanel(showTest: bool)
      modifies this
      ensures OnlyGamePanel(showTest)
      ensures practiceQuestionText == old(practiceQuestionText)
      ensures testQuestionText == old(testQuestionText)
      ensures timerText == old(timerText) && winScore == old(winScore)
      ensures winImage == old(winImage) && loseImage == old(loseImage)
    {
      ToggleAll();
      if showTest {
        testPanel := true;
      } else {
        practicePanel := true;
      }
    }

    /**
     * ShowWinPanel: turn the win panel on (the other panels stay as they are), show the win image
     * exactly when the run was completed and the lose image otherwise, fill star i exactly when
     * i is below the rating, and show the score.
     */
    method ShowWinPanel(score: int, completed: bool)
      modifies this, starImages
      ensures ShowsResult(score, completed)
      ensures homePanel == old(homePanel) && practicePanel == old(practicePanel)
      ensures testPanel == old(testPanel) && menuPanel == old(menuPanel)
      ensures practiceQuestionText == old(practiceQuestionText)
      ensures testQuestionText == old(testQuestionText) && timerText == old(timerText)
    {
      winPanel := true;
      winImage := completed;
      loseImage := !completed;
      var stars := CalculateStars(score);
      var i := 0;
      while i < starImages.Length
        modifies starImages
        invariant 0 <= i <= starImages.Length
        invariant forall k :: 0 <= k < i ==> starImages[k] == (k < stars)
      {
        starImages[i] := i < stars;
        i := i + 1;
      }
      winScore := score;
    }

    /**
     * DisplayQuestion: shuffle the question's options, write the prompt and option i into the
     * widgets of the practice panel (isPractice) or of the test panel, and return the last slot
     * whose trimmed text equals the trimmed correct answer. The game manager is told this slot.
     */
    method DisplayQuestion(q: Question, isPractice: bool) returns (correctIndex: int)
      requires Valid() && Displayable(q)
      modifies this`practiceQuestionText, this`testQuestionText
      modifies practiceOptionTexts, testOptionTexts
      ensures isPractice ==> practiceQuestionText == q.prompt && testQuestionText == old(testQuestionText)
      ensures !isPractice ==> testQuestionText == q.prompt && practiceQuestionText == old(practiceQuestionText)
      ensures isPractice ==> unchanged(testOptionTexts)
      ensures !isPractice ==> unchanged(practiceOptionTexts)
      ensures var shown := if isPractice then practiceOptionTexts else testOptionTexts;
        && IsArrangement(shown[..3], q.correctAnswer, q.wrongAnswers[0], q.wrongAnswers[1])
        && shown[3..] == old(shown[3..])
        && correctIndex == LastMatch(shown[..3], q.correctAnswer)
        && 0 <= correctIndex < 3
        && Matches(shown[correctIndex], q.correctAnswer)
    {
      var options := GetShuffledOptions(q);
      correctIndex := -1;
      if isPractice {
        practiceQuestionText := q.prompt;
      } else {
        testQuestionText := q.prompt;
      }
      var shown := if isPractice then practiceOptionTexts else testOptionTexts;
      for i := 0 to 3
        modifies shown
        invariant shown[..i] == options[..i]
        invariant shown[3..] == old(shown[3..])
        invariant isPractice ==> unchanged(testOptionTexts)
        invariant !isPractice ==> unchanged(practiceOptionTexts)
        invariant correctIndex == LastMatch(options[..i], q.correctAnswer)
      {
        shown[i] := options[i];
        assert options[..i + 1][..i] == options[..i];
        if Matches(options[i], q.correctAnswer) {
          correctIndex := i;
        }
      }
      assert shown[..3] == options[..3] == options;
      LastMatchFindsPresentAnswer(options, q.correctAnswer);
    }

    /** UpdateTimerText: the timer widget shows t. */
    method UpdateTimerText(t: string)
      modifies this`timerText
      ensures timerText == t
    {
      timerText := t;
    }
  }
}
