/**
 * The rest timer: a countdown in whole seconds with play/pause, reset and
 * preset buttons, ticking once a second while a repeating timer is scheduled,
 * and its `MM:SS` display.
 */
module TimerView {

  /** The value the timer starts at and returns to on reset. */
  const DefaultSeconds: int := 60

  /** The timer's state: seconds left, whether it runs, and whether a repeating timer is scheduled. */
  datatype Countdown = Countdown(timeRemaining: int, isRunning: bool, hasTimer: bool)

  /** At most one timer exists, and it exists exactly while the countdown runs. */
  predicate WellFormed(c: Countdown) {
    c.hasTimer == c.isRunning
  }

  function Initial(): Countdown {
    Countdown(DefaultSeconds, false, false)
  }

  /** `startTimer`: mark running and schedule the repeating timer. */
  function Start(c: Countdown): Countdown {
    c.(isRunning := true, hasTimer := true)
  }

  /** `stopTimer`: mark stopped and invalidate and drop the timer. */
  function Stop(c: Countdown): Countdown {
    c.(isRunning := false, hasTimer := false)
  }

  /** The body of the repeating timer's closure. */
  function Tick(c: Countdown): Countdown {
    if c.timeRemaining > 0 then c.(timeRemaining := c.timeRemaining - 1) else Stop(c)
  }

  /** `resetTimer` */
  function Reset(c: Countdown): Countdown {
    Stop(c).(timeRemaining := DefaultSeconds)
  }

  /** `setTimer(seconds:)` */
  function SetTo(c: Countdown, seconds: int): Countdown {
    Stop(c).(timeRemaining := seconds)
  }

  /** The play/pause button's action. */
  function PlayPause(c: Countdown): Countdown {
    if c.isRunning then Stop(c) else Start(c)
  }

  /** `n` consecutive ticks. */
  function Ticks(c: Countdown, n: nat): Countdown
    decreases n
  {
    if n == 0 then c else Ticks(Tick(c), n - 1)
  }

  // ---------------------------------------------------------------------------
  // Properties of the state machine
  // ---------------------------------------------------------------------------

  lemma InitialState()
    ensures Initial().timeRemaining == 60 && !Initial().isRunning && !Initial().hasTimer
    ensures WellFormed(Initial())
  {
  }

  /** Every button and the tick keep at most one timer, present exactly while running. */
  lemma OperationsKeepWellFormed(c: Countdown, seconds: int)
    requires WellFormed(c)
    ensures WellFormed(Start(c)) && WellFormed(Stop(c)) && WellFormed(Tick(c))
    ensures WellFormed(Reset(c)) && WellFormed(SetTo(c, seconds)) && WellFormed(PlayPause(c))
  {
  }

  /** A tick counts down by exactly one while time is left and otherwise stops at zero. */
  lemma TickStep(c: Countdown)
    ensures c.timeRemaining > 0 ==> Tick(c) == c.(timeRemaining := c.timeRemaining - 1)
    ensures c.timeRemaining <= 0 ==>
      Tick(c).timeRemaining == c.timeRemaining && !Tick(c).isRunning && !Tick(c).hasTimer
    ensures c.timeRemaining >= 0 ==> Tick(c).timeRemaining >= 0
  {
  }

  /** However many ticks happen, a non-negative countdown never goes below zero. */
  lemma {:induction false} TicksNeverNegative(c: Countdown, n: nat)
    requires c.timeRemaining >= 0
    ensures 0 <= Ticks(c, n).timeRemaining <= c.timeRemaining
    decreases n
  {
    if n > 0 {
      TicksNeverNegative(Tick(c), n - 1);
    }
  }

  /**
   * From `n` seconds left, `k <= n` ticks leave `n - k` seconds and change
   * nothing else.
   */
  lemma {:induction false} TicksCountDown(c: Countdown, k: nat)
    requires k <= c.timeRemaining
    ensures Ticks(c, k) == c.(timeRemaining := c.timeRemaining - k)
    decreases k
  {
    if k > 0 {
      TicksCountDown(Tick(c), k - 1);
    }
  }

  /**
   * A running countdown from `n >= 0` reaches zero after exactly `n` ticks,
   * still running, and the next tick stops it at zero.
   */
  lemma RunsDownToZero(c: Countdown)
    requires c.timeRemaining >= 0 && c.isRunning
    ensures Ticks(c, c.timeRemaining) == c.(timeRemaining := 0)
    ensures Ticks(c, c.timeRemaining).isRunning
    ensures Tick(Ticks(c, c.timeRemaining)) == Countdown(0, false, false)
  {
    TicksCountDown(c, c.timeRemaining);
  }

  /** Stop, reset and set always leave the countdown stopped with no timer. */
  lemma ButtonsStop(c: Countdown, seconds: int)
    ensures !Stop(c).isRunning && !Stop(c).hasTimer && Stop(c).timeRemaining == c.timeRemaining
    ensures Reset(c) == Countdown(60, false, false)
    ensures SetTo(c, seconds) == Countdown(seconds, false, false)
  {
  }

  /** The play/pause button flips whether the countdown runs, and two presses restore a well-formed state. */
  lemma PlayPauseFlips(c: Countdown)
    ensures PlayPause(c).isRunning == !c.isRunning
    ensures PlayPause(c).timeRemaining == c.timeRemaining
    ensures WellFormed(c) ==> PlayPause(PlayPause(c)) == c
  {
  }

  // ---------------------------------------------------------------------------
  // The view's state, updated in place
  // ---------------------------------------------------------------------------

  class TimerView {
    var timeRemaining: int
    var isRunning: bool
    var hasTimer: bool

    function State(): Countdown
      reads this
    {
      Countdown(timeRemaining, isRunning, hasTimer)
    }

    ghost predicate Valid()
      reads this
    {
      WellFormed(State())
    }

    constructor ()
      ensures Valid() && State() == Initial()
    {
      timeRemaining := DefaultSeconds;
      hasTimer := false;
      isRunning := false;
    }

    method StartTimer()
      requires Valid()
      modifies this
      ensures Valid()
      ensures State() == Start(old(State()))
    {
      isRunning := true;
      hasTimer := true;
    }

    method StopTimer()
      requires Valid()
      modifies this
      ensures Valid()
      ensures State() == Stop(old(State()))
    {
      isRunning := false;
      hasTimer := false;
    }

    /** One firing of the repeating timer, which exists only while the countdown runs. */
    method TimerFired()
      requires Valid()
      requires hasTimer
      modifies this
      ensures Valid()
      ensures State() == Tick(old(State()))
    {
      if timeRemaining > 0 {
        timeRemaining := timeRemaining - 1;
      } else {
        StopTimer();
      }
    }

    method ResetTimer()
      requires Valid()
      modifies this
      ensures Valid()
      ensures State() == Reset(old(State()))
    {
      StopTimer();
      timeRemaining := DefaultSeconds;
    }

    method SetTimer(seconds: int)
      requires Valid()
      modifies this
      ensures Valid()
      ensures State() == SetTo(old(State()), seconds)
    {
      StopTimer();
      timeRemaining := seconds;
    }

    /** The play/pause button: stop when running, start otherwise. */
    method PlayPauseTapped()
      requires Valid()
      modifies this
      ensures Valid()
      ensures State() == PlayPause(old(State()))
      ensures isRunning == !old(isRunning)
    {
      if isRunning {
        StopTimer();
      } else {
        StartTimer();
      }
    }
  }

  // ---------------------------------------------------------------------------
  // `timeString(from:)`: "%02d:%02d" of minutes and seconds
  // ---------------------------------------------------------------------------

  /** Integer division truncating toward zero, as the platform's `/` on integers. */
  function Quot(a: int, d: int): int
    requires d > 0
  {
    if a >= 0 then a / d else -((-a) / d)
  }

  /** The remainder that goes with `Quot`; it takes the sign of the dividend. */
  function Rem(a: int, d: int): (r: int)
    requires d > 0
    ensures Quot(a, d) * d + r == a
    ensures a >= 0 ==> 0 <= r < d
    ensures a < 0 ==> -d < r <= 0
  {
    a - Quot(a, d) * d
  }

  function DigitChar(d: nat): char
    requires d < 10
  {
    "0123456789"[d]
  }

  predicate IsDigit(c: char) {
    '0' <= c <= '9'
  }

  /** The decimal numeral of `n`, without leading zeros. */
  function Digits(n: nat): (s: string)
    ensures |s| >= 1
    ensures forall i :: 0 <= i < |s| ==> IsDigit(s[i])
  {
    if n < 10 then [DigitChar(n)] else Digits(n / 10) + [DigitChar(n % 10)]
  }

  function DigitValue(c: char): (d: nat)
    requires IsDigit(c)
    ensures d < 10
  {
    (c as int) - ('0' as int)
  }

  /** The value of a string of decimal digits. */
  function DecimalValue(s: string): nat
    requires forall i :: 0 <= i < |s| ==> IsDigit(s[i])
  {
    if s == [] then 0 else 10 * DecimalValue(s[..|s| - 1]) + DigitValue(s[|s| - 1])
  }

  /** Reading the numeral back gives the number; it has one digit exactly below ten. */
  lemma {:induction false} DigitsRoundTrip(n: nat)
    ensures DecimalValue(Digits(n)) == n
    ensures |Digits(n)| == 1 <==> n < 10
    ensures n < 100 ==> |Digits(n)| <= 2
  {
    if n >= 10 {
      DigitsRoundTrip(n / 10);
      var s := Digits(n);
      assert s[..|s| - 1] == Digits(n / 10);
    }
  }

  /** `%02d`: at least two characters, zero-padded after any minus sign. */
  function Pad2(n: int): string {
    if n < 0 then "-" + Digits(-n)
    else if n < 10 then "0" + Digits(n)
    else Digits(n)
  }

  /** For a non-negative `n`, `%02d` is a numeral worth `n`, exactly two characters wide below 100. */
  lemma Pad2Value(n: nat)
    ensures forall i :: 0 <= i < |Pad2(n)| ==> IsDigit(Pad2(n)[i])
    ensures DecimalValue(Pad2(n)) == n
    ensures |Pad2(n)| >= 2
    ensures |Pad2(n)| == 2 <==> n < 100
  {
    DigitsRoundTrip(n);
    if n < 10 {
      assert Pad2(n)[..1] == "0";
    } else if n >= 100 {
      DigitsRoundTrip(n / 10);
      assert |Digits(n)| == |Digits(n / 10)| + 1;
    }
  }

  function TimeString(seconds: int): string {
    Pad2(Quot(seconds, 60)) + ":" + Pad2(Rem(seconds, 60))
  }

  /**
   * For a non-negative number of seconds below 100 minutes the display is
   * `MM:SS`, and reading the two fields back as minutes and seconds gives the
   * number of seconds, with the seconds field below 60.
   */
  lemma TimeStringRoundTrip(seconds: int)
    requires 0 <= seconds < 6000
    ensures var t := TimeString(seconds);
      && |t| == 5 && t[2] == ':'
      && IsDigit(t[0]) && IsDigit(t[1]) && IsDigit(t[3]) && IsDigit(t[4])
      && DecimalValue(t[..2]) < 100 && DecimalValue(t[3..]) < 60
      && DecimalValue(t[..2]) * 60 + DecimalValue(t[3..]) == seconds
  {
    var m, s := Quot(seconds, 60), Rem(seconds, 60);
    Pad2Value(m);
    Pad2Value(s);
    var t := TimeString(seconds);
    assert t[..2] == Pad2(m);
    assert t[3..] == Pad2(s);
  }

  /** `%02d` of the numbers the presets need. */
  lemma SmallPads()
    ensures Pad2(0) == "00" && Pad2(1) == "01" && Pad2(30) == "30"
  {
    assert Digits(30) == Digits(3) + [DigitChar(0)];
  }

  /** The presets of the view: 30 s, 60 s and 90 s. */
  lemma PresetStrings()
    ensures TimeString(30) == "00:30"
    ensures TimeString(60) == "01:00"
    ensures TimeString(90) == "01:30"
  {
    SmallPads();
  }

  /** Truncating division: a negative count shows as negative minutes and seconds. */
  lemma NegativeString()
    ensures TimeString(-90) == "-1:-30"
  {
    assert Digits(30) == "30";
  }
}
