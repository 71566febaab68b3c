# Whack-a-mole quiz: session bookkeeping

This project models the core of a quiz game played as whack-a-mole. Each question is shown
with three answers. The answers are on three moles, and the player taps the mole with the
correct answer. The model covers the state these components keep and change:

- **GameManager**: the round controller. It starts a session in practice or test mode, pulls
  questions one at a time, remembers which of the three slots is correct, scores every tap,
  spends a life on a wrong tap in test mode, advances after a correct hit, computes the final
  percentage and resets or restarts.
- **QuestionManager**: a Fisher–Yates permutation of the question indices, with a cursor that
  reports exhaustion.
- **Question.GetShuffledOptions**: a three-slot Fisher–Yates shuffle of the correct answer and
  two wrong answers. Its result, and the option widgets it is copied to, are stated to be one of
  the six orders of those three answers (`IsArrangement`), which for three entries is the same
  as having their multiset (`ArrangementIsPermutation`).
- **TimerController**: a countdown over whole seconds. It can be started, paused, resumed,
  ticked and stopped; it raises a time-up signal and formats its text as MM:SS.
- **LivesManager**: lives reset to the maximum, a decrement floored at zero, and the heart fill
  rule.
- **UIManager**: the correct-slot detection after the shuffle, the star rating, the result
  panel and the panel flags.
- **DataRecorder**: an append-only response log.

Each Dafny module matches one C# file: `Questions` (Question.cs), `QuestionSequencing`
(QuestionManager.cs), `Timing` (TimerController.cs), `Lives` (LivesManager.cs), `Interface`
(UIManager.cs), `Recording` (DataRecorder.cs) and `Game` (GameManager.cs). `Wrappers` holds
`Option`, which stands for a C# reference that may be `null`.

The C# components that update their fields are Dafny classes with the same fields. Panels and
images are `bool` flags: true means active, or showing the filled sprite. Text widgets are
strings, and the option, heart and star widget arrays are Dafny arrays of `string` or `bool`.

Randomness (`Random.Range`, `System.Random.Next`) is modelled as nondeterministic choice:
`j :| 0 <= j <= i`. The coroutines are modelled as steps that the environment fires:

- `TimerController.Tick` is one pass of the one-second tick loop. The tick routine is live
  exactly while `running` holds.
- Each correct tap appends its index to `GameManager.pendingHits`. These are the
  `HitCorrectMole` runs that have been started but not finished.
- `GameManager.FinishHitCorrectMole` is the end of the oldest pending run, after its delays.

Time-up is not handled by the game here. `TimerController.cs:73` calls `GameManager.TimeUp()`,
which `GameManager.cs` does not define. So the timer methods only return a `timeUp` flag for
the signal. `StartTest` and `BeginGame` pass that flag back to their caller.

The model follows the code as written:

- there is no round lock; every tap is scored, including taps made while a `HitCorrectMole`
  run is pending;
- `completed` goes to the result panel unchanged, with no threshold on the score;
- nothing cancels a pending advance;
- `RecordResponse` exists, but the game never calls it.

## Model

| member | source | states |
|---|---|---|
| Questions.GetShuffledOptions | Assets/Project/Scripts/Question.cs:10-27 | with at least two wrong answers, the result has 3 entries, its multiset is {correct, wrong[0], wrong[1]}, it is one of the six orders of those three answers, and it contains the correct answer |
| Questions.SwapKeepsMultiset | Assets/Project/Scripts/Question.cs:19-25 | one Fisher–Yates step, swapping positions i and j, keeps the multiset of the entries |
| Questions.SwapKeepsArrangement | Assets/Project/Scripts/Question.cs:19-25 | one Fisher–Yates step, swapping two of the three slots, leaves the options in one of the six orders of the three answers |
| Questions.ArrangementIsPermutation | Assets/Project/Scripts/Question.cs:10-27 | three options are in one of the six orders of the three answers exactly when they have the answers' multiset, so the displayed options are a permutation of the answers in both directions |
| QuestionSequencing.Indices | Assets/Project/Scripts/QuestionManager.cs:22 | the order list before shuffling has length n, and entry k is k |
| QuestionSequencing.IndicesOccurOnce | Assets/Project/Scripts/QuestionManager.cs:21-22 | each index 0..n-1 occurs exactly once in the unshuffled order, and no other value occurs |
| QuestionSequencing.PermutationCoversEachIndexOnce | Assets/Project/Scripts/QuestionManager.cs:19-34 | any permutation of 0..n-1 has length n, holds each index exactly once, has every entry in range, and has pairwise distinct entries |
| QuestionSequencing.QuestionManager.constructor | Assets/Project/Scripts/QuestionManager.cs:7-11 | the question list as given, an empty order and the cursor at 0 |
| QuestionSequencing.QuestionManager.InitializeShuffle | Assets/Project/Scripts/QuestionManager.cs:19-34 | order becomes a permutation of 0..Count-1 and the cursor goes to 0, so nothing is served yet and the whole order is pending; the questions are unchanged |
| QuestionSequencing.QuestionManager.GetNextQuestion | Assets/Project/Scripts/QuestionManager.cs:36-44 | returns None, with no state change, exactly when there are no questions or the cursor is at the end; otherwise returns questions[order[cursor]], moves the cursor up by exactly 1 and moves that index from pending to served |
| QuestionSequencing.QuestionManager.AddQuestion | Assets/Project/Scripts/QuestionManager.cs:46-50 | appends the question at the end of the list and leaves order and the cursor unchanged |
| QuestionSequencing.DrainedOrderServedEachIndexOnce | Assets/Project/Scripts/QuestionManager.cs:19-44 | once the cursor reaches the end of a shuffled order, every question index has been served exactly once |
| Interface.Trim | Assets/Project/Scripts/UIManager.cs:118 | string.Trim as TrimEnd after TrimStart; what it removes is stated by the three lemmas below |
| Interface.TrimStartCutsWhiteSpacePrefix | Assets/Project/Scripts/UIManager.cs:118 | TrimStart removes a prefix made only of white space and leaves no white space in front |
| Interface.TrimEndCutsWhiteSpaceSuffix | Assets/Project/Scripts/UIManager.cs:118 | TrimEnd removes a suffix made only of white space and leaves no white space at the end |
| Interface.TrimCutsOnlyWhiteSpace | Assets/Project/Scripts/UIManager.cs:118 | string.Trim keeps a contiguous piece of its argument; only white space is cut off, and none is left at either end |
| Interface.LastMatch | Assets/Project/Scripts/UIManager.cs:102-120 | the result is -1 or a slot whose text equals the correct answer once both are trimmed, and no later slot matches |
| Interface.LastMatchFindsPresentAnswer | Assets/Project/Scripts/UIManager.cs:101-123 | when the correct answer is among the options, the chosen slot is a real slot (never -1) |
| Interface.CalculateStars | Assets/Project/Scripts/UIManager.cs:80-86 | the rating is between 0 and 3 stars |
| Interface.StarsBoundedAndMonotone | Assets/Project/Scripts/UIManager.cs:80-86 | the rating is between 0 and 3 and never drops as the score rises |
| Interface.StarsThresholds | Assets/Project/Scripts/UIManager.cs:80-86 | in both directions: 3 stars iff score >= 90, 2 iff 60 <= score < 90, 1 iff 30 <= score < 60, 0 iff score < 30 |
| Interface.UIManager.constructor | Assets/Project/Scripts/UIManager.cs:6-39 | the option and star widgets as given, and the scene opening on the home panel alone |
| Interface.UIManager.ToggleAll | Assets/Project/Scripts/UIManager.cs:88-95 | all five panels are inactive; the texts and images are unchanged |
| Interface.UIManager.ShowHome | Assets/Project/Scripts/UIManager.cs:47-51 | the home panel is the only active panel |
| Interface.UIManager.ShowGamePanel | Assets/Project/Scripts/UIManager.cs:53-60 | exactly one panel is active: the test panel when showTest holds, otherwise the practice panel |
| Interface.UIManager.ShowWinPanel | Assets/Project/Scripts/UIManager.cs:62-78 | the win panel is active; the win image shows iff completed and the lose image iff not; star i is filled iff i < CalculateStars(score); the score is shown |
| Interface.UIManager.DisplayQuestion | Assets/Project/Scripts/UIManager.cs:99-124 | writes the prompt into the question text of the chosen panel only; the first three option widgets of that panel hold the question's three answers in one of the six orders (the same multiset, by ArrangementIsPermutation), the other panel's widgets and any widgets past the third are unchanged; the returned slot is LastMatch of those widgets, lies in 0..2, and matches the correct answer |
| Interface.UIManager.UpdateTimerText | Assets/Project/Scripts/UIManager.cs:145 | the timer text becomes the given string and nothing else changes |
| Timing.DigitsRoundTrip | Assets/Project/Scripts/TimerController.cs:84 | the decimal text of a natural number is a non-empty string of digits that reads back as the number; it is one digit long iff the number is below 10, and two digits long from 10 to 99 |
| Timing.PadTwoNatRoundTrip | Assets/Project/Scripts/TimerController.cs:84 | the "00" format of a natural number has at least two digits, exactly two below 100, and reads back as the number |
| Timing.FormatTime | Assets/Project/Scripts/TimerController.cs:80-85 | the minutes (rounded down) and the remaining seconds (C#'s remainder, which keeps the sign of t), each in the "00" format, joined by ':'; its properties are stated by the next two lemmas |
| Timing.FormatTimeFields | Assets/Project/Scripts/TimerController.cs:80-85 | for t >= 0 the text is at least two minute digits, ':' and exactly two second digits; the minutes read back as t div 60 and the seconds as t mod 60, which is below 60 |
| Timing.FormatTimeRoundTrip | Assets/Project/Scripts/TimerController.cs:80-85 | reading the MM:SS text of a non-negative time back gives the time |
| Timing.StoppedTextIsZero | Assets/Project/Scripts/TimerController.cs:103 | the "00:00" written on stop and on time-up is the formatting of zero seconds |
| Timing.TimerController.constructor | Assets/Project/Scripts/TimerController.cs:6-11 | the session time and the UI as given, not running, no time left |
| Timing.TimerController.StartInternalTimer | Assets/Project/Scripts/TimerController.cs:34-42 | sets running and shows FormatTime(timeLeft); when no time is left, the tick routine's first pass raises time-up at once, clears running and shows "00:00" |
| Timing.TimerController.StartTimer | Assets/Project/Scripts/TimerController.cs:16-20 | timeLeft becomes sessionTime, then StartInternalTimer runs: running with FormatTime(sessionTime) shown, or time-up iff sessionTime <= 0 |
| Timing.TimerController.ResumeTimer | Assets/Project/Scripts/TimerController.cs:25-29 | a no-op when running or when no time is left; otherwise sets running and shows the time, with timeLeft unchanged |
| Timing.TimerController.PauseTimer | Assets/Project/Scripts/TimerController.cs:47-55 | running is cleared; timeLeft and the text are unchanged |
| Timing.TimerController.Tick | Assets/Project/Scripts/TimerController.cs:60-75 | when not running, nothing happens and no signal is raised; otherwise timeLeft drops by exactly 1 and the new time is shown, and time-up fires, with running cleared and "00:00" shown, iff timeLeft reaches 0 |
| Timing.TimerController.IsTimeUp | Assets/Project/Scripts/TimerController.cs:109 | true exactly when no time is left (timeLeft <= 0); StopTimer's contract states that it holds after a stop |
| Timing.TimerController.StopTimer | Assets/Project/Scripts/TimerController.cs:95-109 | not running, timeLeft 0, "00:00" shown, and IsTimeUp holds |
| Lives.Decremented | Assets/Project/Scripts/LivesManager.cs:27 | Mathf.Max(0, lives - 1): never negative, at least lives - 1, and equal to one of the two |
| Lives.DecrementsCountDown | Assets/Project/Scripts/LivesManager.cs:25-29 | from a non-negative count, k decrements leave max(0, lives - k): one less each time while positive, and 0 stays 0 |
| Lives.DecrementsNonIncreasing | Assets/Project/Scripts/LivesManager.cs:25-29 | once at least one decrement has happened, more decrements never leave more lives; from a non-negative count this holds from the start (DecrementsCountDown) |
| Lives.FullCountOfFillRule | Assets/Project/Scripts/LivesManager.cs:31-40 | under the rule "heart i is full iff i < lives", the number of full hearts is min(max(lives, 0), hearts) |
| Lives.LivesManager.constructor | Assets/Project/Scripts/LivesManager.cs:6-17 | maxLives as given, and lives reset to it with the hearts drawn |
| Lives.LivesManager.UpdateHearts | Assets/Project/Scripts/LivesManager.cs:31-40 | heart i is full iff i < currentLives; the counts are unchanged |
| Lives.LivesManager.ResetLives | Assets/Project/Scripts/LivesManager.cs:19-23 | currentLives becomes maxLives and the hearts show it |
| Lives.LivesManager.Decrement | Assets/Project/Scripts/LivesManager.cs:25-29 | currentLives becomes max(0, currentLives - 1) and the hearts show it |
| Recording.DataRecorder.constructor | Assets/Project/Scripts/DataRecorder.cs:23 | the log starts empty |
| Recording.DataRecorder.Clear | Assets/Project/Scripts/DataRecorder.cs:25 | the log is empty |
| Recording.DataRecorder.RecordResponse | Assets/Project/Scripts/DataRecorder.cs:27-36 | the log grows by exactly one record, placed last, with question, chosen answer, correctness and timestamp as given; earlier records are unchanged |
| Game.RoundHalfEvenIsNearest | Assets/Project/Scripts/GameManager.cs:242 | Mathf.Round of n/d gives an integer within half a unit of n/d, and the even one when n/d lies exactly halfway |
| Game.RoundHalfEvenMonotone | Assets/Project/Scripts/GameManager.cs:242 | rounding never reverses the order of two numerators |
| Game.RoundHalfEvenExact | Assets/Project/Scripts/GameManager.cs:242 | a numerator that is an exact multiple rounds to its quotient |
| Game.Score | Assets/Project/Scripts/GameManager.cs:242 | 100 * correctCount / max(1, totalAnswered), rounded with halves to even; its properties are stated by the lemmas below |
| Game.ScoreIsPercentage | Assets/Project/Scripts/GameManager.cs:242 | with 0 <= correctCount <= totalAnswered the score is in 0..100; it is 0 when nothing was answered and 100 when every tap was correct |
| Game.ScoreMonotone | Assets/Project/Scripts/GameManager.cs:242 | more correct taps out of the same total never give a lower score |
| Game.ScoreExamples | Assets/Project/Scripts/GameManager.cs:242 | 4 of 10 scores 40, 9 of 10 scores 90, 1 of 8 (12.5) scores 12, and 3 of 8 (37.5) scores 38, with halves rounded to even |
| Game.GameManager.constructor | Assets/Project/Scripts/GameManager.cs:9-24 | the components as wired, practice mode, no question, correct slot -1, zero counters, no moles |
| Game.GameManager.StartPractice | Assets/Project/Scripts/GameManager.cs:32-36 | a practice session has begun (see BeginGame), so the first question, if any, is up with its three answers on the practice widgets; the timer, the lives and the timer text are untouched, and so are the test panel's question text and option widgets; when a question follows, the score, the win and lose images and the stars stay; with no question the correct slot, the moles, both question texts and the practice widgets stay |
| Game.GameManager.StartTest | Assets/Project/Scripts/GameManager.cs:38-42 | a test session has begun (see BeginGame), and the timer's time-up signal is passed back: it is raised exactly when the session time is not positive; the session time and the maximum number of lives are kept; the practice panel's question text and option widgets are untouched; when a question follows, the result widgets stay; with no question the correct slot, the moles, both question texts and both sets of option widgets stay |
| Game.GameManager.BeginGame | Assets/Project/Scripts/GameManager.cs:44-61 | the order is reshuffled into a permutation, the log cleared and both counters zeroed, and the mode's panel is the only one active; in test mode the lives are reset and the countdown starts from sessionTime, and the returned time-up flag holds exactly when test mode starts with a non-positive session time; in practice mode the timer and lives are untouched and the flag is false; the session time and the maximum number of lives are kept either way, and so are the other mode's question text and option widgets; then either the first question of the new order is up, with its three answers on the mode's widgets and the score, images and stars as they were, or, with no questions, the game has ended as completed with score 0 and the question texts and the mode's widgets as they were |
| Game.GameManager.PrepareSession | Assets/Project/Scripts/GameManager.cs:46-58 | the steps of BeginGame before the first question: the order is a fresh permutation with the cursor at 0, the log is empty, the counters are 0, only the mode's panel is active; the question texts, the score and the win and lose images, the session time and the maximum number of lives are kept; the time-up flag holds exactly in test mode with a non-positive session time; in test mode the countdown starts from sessionTime and the lives are at the maximum; in practice mode the timer and the lives are untouched |
| Game.GameManager.NextQuestion | Assets/Project/Scripts/GameManager.cs:66-78 | when the sequencer is exhausted, EndGame(true) runs, the question texts and option widgets stay and, in practice mode, the timer too; otherwise the next question of the order is shown on the mode's panel with its three answers on the option widgets in one of the six orders, three moles are out, and the correct slot holds its correct answer, while the timer, the result panel, the score, the win and lose images and the stars stay as they were; the session time, the question list, the order, the home, practice, test and menu panels and the other mode's text and widgets are kept either way |
| Game.GameManager.ShowOrEnd | Assets/Project/Scripts/GameManager.cs:70-77 | the branch of NextQuestion after the draw: with no question EndGame(true) runs and the correct slot, the moles, the question texts and the option widgets stay; with one it is shown (as ShowQuestion states) while the timer, the timer text and the result widgets stay |
| Game.GameManager.ShowQuestion | Assets/Project/Scripts/GameManager.cs:76-77 | DisplayQuestion on the mode's panel followed by its SetCorrectIndex callback: the prompt is shown, the three answers are on the option widgets in one of the six orders, the moles are 0, 1 and 2, and the correct slot is the last option widget matching the correct answer; the other mode's text and widgets, the panels and the result widgets stay |
| Game.GameManager.SetCorrectIndex | Assets/Project/Scripts/GameManager.cs:83-87 | remembers the slot and spawns the three moles |
| Game.GameManager.SpawnThreeMoles | Assets/Project/Scripts/GameManager.cs:89-121 | the moles on screen are exactly moles 0, 1 and 2, in that order |
| Game.GameManager.OnMoleTapped | Assets/Project/Scripts/GameManager.cs:126-151 | totalAnswered grows by exactly 1 on every tap; correctCount grows by 1 iff the index is the correct slot, which starts a pending HitCorrectMole run; a wrong tap in test mode decrements the lives and ends the game, not completed, iff no life is left, with the question texts and the home, practice, test and menu panels kept; a wrong tap in practice mode changes nothing else; the question, the correct slot, the sequencer, the log, the option widgets, the session time and the maximum number of lives never change; 0 <= correctCount <= totalAnswered is kept |
| Game.GameManager.FinishHitCorrectMole | Assets/Project/Scripts/GameManager.cs:153-184 | the oldest pending run finishes: the moles are cleared and NextQuestion runs exactly once; the counters, lives, hearts, log, question list, order, session time, panels and the other mode's text and widgets stay; then either the next question is up with its answers on the widgets and the timer, timer text, result panel, score, images and stars untouched, or the game has ended as completed with the question cursor, the correct slot, both question texts, both sets of option widgets and, in practice mode, the timer untouched, so a later run ends the game again; with no pending run nothing changes |
| Game.GameManager.ResetToStart | Assets/Project/Scripts/GameManager.cs:186-215 | the timer is stopped, the lives reset, the log cleared, the moles removed, the counters zeroed and the correct slot set to -1; then a new session begins in the mode played last, with time-up signalled exactly when that is test mode with a non-positive session time; the session time and the maximum number of lives are kept; with no questions both question texts and both sets of option widgets stay |
| Game.GameManager.ClearSession | Assets/Project/Scripts/GameManager.cs:188-208 | the steps of ResetToStart before the restart: the timer is stopped with "00:00" shown, the lives are at the maximum, the log is empty, there are no moles, both counters are 0, there is no question and the correct slot is -1; the session time and the maximum number of lives are kept |
| Game.GameManager.ResetGame | Assets/Project/Scripts/GameManager.cs:217-232 | the counters are zeroed, the moles removed and only the home panel is active; the timer is stopped in test mode and untouched in practice mode; the question, the correct slot, the sequencer, the lives, the log, the question and option texts, the stars, the score, the win and lose images, the session time and the maximum number of lives stay as they were |
| Game.GameManager.EndGame | Assets/Project/Scripts/GameManager.cs:237-246 | the result panel shows Score(correctCount, totalAnswered) with completed passed through unchanged; the timer is stopped in test mode only |

## Left out

- File I/O: `SaveToFile`, `SaveQuestionsToFile`, the JSON serialisation and `Debug.Log` are
  outside the model. EndGame does not save the log.
- Audio (`PlayOneShot`), `QuitApp`, animations, and hammer `SetActive` are presentation only.
  `Instantiate`/`Destroy` of mole objects and `FindObjectsOfType<Mole>` are modelled as
  `activeMoles` being cleared or set to the mole indices 0, 1 and 2.
- `Mole.cs` only forwards `moleIndex` on a click. It is the `index` argument of `OnMoleTapped`.
  `PopupUI.cs`, `ButtonPop.cs` and `SafeArea.cs` are float tweening and screen layout, and are
  not part of this model.
- `GameManager.TimeUp()` is called by the timer but not defined in `GameManager.cs`. Time-up is
  only a returned flag.
- Real coroutine scheduling is not modelled:
  - at most one tick routine is live at a time (overlapping tick routines are not modelled);
  - `HitCorrectMole` runs finish in the order they were started;
  - `StartCoroutine(Tick())` runs its first pass immediately, so when no time is left, time-up
    fires within `StartInternalTimer` itself.
- Float detail:
  - `sessionTime` and `timeLeft` are whole seconds;
  - the score is exact rational rounding with halves to even, and float rounding error is not
    modelled;
  - `CalculateStars` takes the rounded, integral score;
  - the result text `score + "%"` is modelled as the number `winScore`.
- The timestamp's `ToString("o")` formatting is not modelled. `RecordResponse` takes the
  timestamp as text.
- Questions.GetShuffledOptions: requires at least two wrong answers. With fewer, the C#
  indexing throws, and that exception path is not modelled. The result is a sequence, which
  stands for the fresh array.
- Interface.UIManager.DisplayQuestion: returns the correct slot to the caller, which then calls
  SetCorrectIndex. This replaces the `FindObjectOfType<GameManager>()` callback.
- Lives.DecrementsCountDown: proved only for a non-negative starting count; `Decrement` keeps
  that count non-negative.
- `GetTimeLeft` is a plain getter of `timeLeft` and has no member of its own.
- `UIManager.OnHomeButton`, `OnRestartButton` and `OnQuitButton` only forward to `ResetGame`,
  `ResetToStart` and `QuitApp`.
- Game.GameManager.ResetToStart: when a question follows, does not state that the other mode's
  question text and option widgets, and the score, images and stars, stay as they were.
  StartPractice and StartTest state these for the session they begin.
- Interface.UIManager.constructor: the scene's starting panel flags are set in the Unity
  editor, not in `UIManager.cs`. The model assumes that a scene opens on the home panel alone.
