/**
 * TimerController.cs: a countdown over whole seconds. The tick coroutine is live exactly while
 * the timer is running; each firing of it is one call of Tick, made by the environment once a
 * second has passed.
 */
module Timing {
  import opened Interface

  predicate IsDigit(c: char)
  {
    '0' <= c <= '9'
  }

  function DigitChar(d: int): char
    requires 0 <= d <= 9
  {
    ('0' as int + d) as char
  }

  /** The decimal digits of n, without leading zeros. */
  function Digits(n: nat): string
  {
    if n < 10 then [DigitChar(n)] else Digits(n / 10) + [DigitChar(n % 10)]
  }

  /** The number a string of decimal digits stands for. */
  function DecimalValue(s: string): int
  {
    if s == [] then 0 else 10 * DecimalValue(s[..|s| - 1]) + (s[|s| - 1] as int - '0' as int)
  }

  /** Reading back the digits of n gives n. */
  lemma {:induction false} DigitsRoundTrip(n: nat)
    ensures Digits(n) != [] && DecimalValue(Digits(n)) == n
    ensures forall k :: 0 <= k < |Digits(n)| ==> IsDigit(Digits(n)[k])
    ensures |Digits(n)| == 1 <==> n < 10
    ensures 10 <= n < 100 ==> |Digits(n)| == 2
  {
    if n >= 10 {
      DigitsRoundTrip(n / 10);
      var s := Digits(n);
      assert s[..|s| - 1] == Digits(n / 10);
    }
  }

  /** The C# custom format "00" of an integer: at least two digits, a minus sign in front when negative. */
  function PadTwo(n: int): string
  {
    if n < 0 then "-" + PadTwoNat(-n) else PadTwoNat(n)
  }

  function PadTwoNat(n: nat): string
  {
    if n < 10 then "0" + Digits(n) else Digits(n)
  }

  /** "00" formatting of a non-negative number gives at least two digits that read back as it. */
  lemma PadTwoNatRoundTrip(n: nat)
    ensures |PadTwoNat(n)| >= 2 && DecimalValue(PadTwoNat(n)) == n
    ensures forall k :: 0 <= k < |PadTwoNat(n)| ==> IsDigit(PadTwoNat(n)[k])
    ensures n < 100 ==> |PadTwoNat(n)| == 2
  {
    DigitsRoundTrip(n);
    if n < 10 {
      var s := PadTwoNat(n);
      assert s == ['0', DigitChar(n)];
      assert s[..1] == "0";
    }
  }

  /** Mathf.FloorToInt(t % 60f): C#'s remainder takes the sign of the dividend. */
  function SecondsField(t: int): int
  {
    if t >= 0 then t % 60 else -((-t) % 60)
  }

  /**
   * FormatTime: the whole minutes (rounded down) and the remaining seconds, each formatted "00",
   * joined by ':'.
   */
  function FormatTime(t: int): string
  {
    PadTwo(t / 60) + ":" + PadTwo(SecondsField(t))
  }

  /** Reads an "MM:SS" text back as a number of seconds. */
  function ParseTime(s: string): int
    requires |s| >= 3
  {
    60 * DecimalValue(s[..|s| - 3]) + DecimalValue(s[|s| - 2..])
  }

  /**
   * For a non-negative time, the text is at least two minute digits, ':' and exactly two second
   * digits; the minutes read back as t / 60 and the seconds as t mod 60, which is below 60.
   */
  lemma FormatTimeFields(t: nat)
    ensures var s := FormatTime(t);
      && |s| >= 5 && s[|s| - 3] == ':'
      && (forall k :: 0 <= k < |s| ==> k != |s| - 3 ==> IsDigit(s[k]))
      && DecimalValue(s[..|s| - 3]) == t / 60
      && DecimalValue(s[|s| - 2..]) == t % 60 < 60
  {
    PadTwoNatRoundTrip(t / 60);
    PadTwoNatRoundTrip(t % 60);
    var s := FormatTime(t);
    var m, sec := PadTwoNat(t / 60), PadTwoNat(t % 60);
    assert s == m + ":" + sec;
    assert s[..|s| - 3] == m;
    assert s[|s| - 2..] == sec;
  }

  /** Formatting a non-negative time and reading it back gives the time. */
  lemma FormatTimeRoundTrip(t: nat)
    ensures |FormatTime(t)| >= 5 && ParseTime(FormatTime(t)) == t
  {
    FormatTimeFields(t);
  }

  /** A stopped timer's text "00:00" is the formatting of zero seconds. */
  lemma StoppedTextIsZero()
    ensures FormatTime(0) == "00:00"
  {
    assert Digits(0) == "0";
  }

  class TimerController {
    var sessionTime: int
    var timeLeft: int
    var running: bool
    const ui: UIManager

    /** The tick coroutine only runs while time is left. */
    ghost predicate Valid()
      reads this
    {
      running ==> timeLeft > 0
    }

    /** What StopTimer leaves: not running, no time left, "00:00" shown. */
    ghost predicate Stopped()
      reads this, ui
    {
      !running && timeLeft == 0 && ui.timerText == "00:00"
    }

    /** IsTimeUp: no time is left. */
    predicate IsTimeUp()
      reads this
    {
      timeLeft <= 0
    }

    constructor (sessionTime: int, ui: UIManager)
      ensures Valid() && this.sessionTime == sessionTime && this.ui == ui
      ensures timeLeft == 0 && !running
    {
      this.sessionTime := sessionTime;
      this.ui := ui;
      timeLeft := 0;
      running := false;
    }

    /**
     * StartInternalTimer: mark the timer running, show the time left and start the tick
     * coroutine. The coroutine's first run happens at once: with no time left it ends straight
     * away, stops the timer, shows "00:00" and raises the time-up signal (timeUp).
     */
    method StartInternalTimer() returns (timeUp: bool)
      modifies this, ui`timerText
      ensures Valid() && timeLeft == old(timeLeft) && sessionTime == old(sessionTime)
      ensures timeUp <==> timeLeft <= 0
      ensures running == !timeUp
      ensures ui.timerText == if timeUp then "00:00" else FormatTime(timeLeft)
    {
      running := true;
      ui.UpdateTimerText(FormatTime(timeLeft));
      if timeLeft > 0 {
        timeUp := false;
      } else {
        running := false;
        ui.UpdateTimerText("00:00");
        timeUp := true;
      }
    }

    /** StartTimer: a fresh countdown from the session time. */
    method StartTimer() returns (timeUp: bool)
      modifies this, ui`timerText
      ensures Valid() && sessionTime == old(sessionTime)
      ensures timeLeft == sessionTime
      ensures timeUp <==> sessionTime <= 0
      ensures running == !timeUp
      ensures ui.timerText == if timeUp then "00:00" else FormatTime(sessionTime)
    {
      timeLeft := sessionTime;
      timeUp := StartInternalTimer();
    }

    /**
     * ResumeTimer: nothing when already running or when no time is left; otherwise the tick
     * coroutine restarts from the time left.
     */
    method ResumeTimer()
      requires Valid()
      modifies this, ui`timerText
      ensures Valid() && timeLeft == old(timeLeft) && sessionTime == old(sessionTime)
      ensures old(running) || old(timeLeft) <= 0 ==>
        running == old(running) && ui.timerText == old(ui.timerText)
      ensures !old(running) && old(timeLeft) > 0 ==>
        running && ui.timerText == FormatTime(timeLeft)
    {
      if running || timeLeft <= 0 {
        return;
      }
      var timeUp := StartInternalTimer();
    }

    /** PauseTimer: nothing when not running; otherwise the countdown halts where it is. */
    method PauseTimer()
      requires Valid()
      modifies this
      ensures Valid() && !running
      ensures timeLeft == old(timeLeft) && sessionTime == old(sessionTime)
    {
      if !running {
        return;
      }
      running := false;
    }

    /**
     * One firing of the tick coroutine, a second after the previous one. Without a live
     * coroutine (not running) nothing happens. Otherwise one second goes, the new time is shown,
     * and when that was the last second the timer stops, shows "00:00" and raises the time-up
     * signal (timeUp).
     */
    method Tick() returns (timeUp: bool)
      requires Valid()
      modifies this, ui`timerText
      ensures Valid() && sessionTime == old(sessionTime)
      ensures !old(running) ==> !timeUp && !running && timeLeft == old(timeLeft)
      ensures !old(running) ==> ui.timerText == old(ui.timerText)
      ensures old(running) ==> timeLeft == old(timeLeft) - 1
      ensures timeUp <==> old(running) && timeLeft == 0
      ensures timeUp ==> !running && ui.timerText == "00:00"
      ensures old(running) && !timeUp ==> running && ui.timerText == FormatTime(timeLeft)
    {
      if !running {
        return false;
      }
      timeLeft := timeLeft - 1;
      ui.UpdateTimerText(FormatTime(timeLeft));
      if running && timeLeft > 0 {
        return false;
      }
      running := false;
      ui.UpdateTimerText("00:00");
      timeUp := true;
    }

    /** StopTimer: stop the countdown, leave no time and show "00:00"; no time-up signal. */
    method StopTimer()
      modifies this, ui`timerText
      ensures Valid() && Stopped() && IsTimeUp() && sessionTime == old(sessionTime)
    {
      running := false;
      timeLeft := 0;
      ui.UpdateTimerText("00:00");
    }
  }
}
