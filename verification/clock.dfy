/**
 * The value side of the clock panel: the countdown and stopwatch displays,
 * the enabled/disabled pattern of their buttons, the countdown rule of one
 * tick, the lap list, the colour theme cycle, and the alarm list with the
 * minute check that rings and disarms alarms.
 */
module Clock {
  import opened Text
  import opened Lists

  // ---------------------------------------------------------------------------
  // Displays (`updateTimerDisplay`, `updateStopwatchDisplay`)
  // ---------------------------------------------------------------------------

  datatype HMS = HMS(hours: nat, minutes: nat, seconds: nat)

  /** Hours, minutes below 60 and seconds below 60 that add up to `total` seconds. */
  function SplitSeconds(total: nat): (r: HMS)
    ensures r.minutes < 60 && r.seconds < 60
    ensures r.hours * 3600 + r.minutes * 60 + r.seconds == total
  {
    HMS(total / 3600, (total % 3600) / 60, total % 60)
  }

  /** There is only one such decomposition. */
  lemma SplitSecondsUnique(total: nat, c: HMS)
    requires c.minutes < 60 && c.seconds < 60
    requires c.hours * 3600 + c.minutes * 60 + c.seconds == total
    ensures c == SplitSeconds(total)
  {
    var r := SplitSeconds(total);
    var a := c.minutes * 60 + c.seconds;
    var b := r.minutes * 60 + r.seconds;
    assert 0 <= a < 3600 && 0 <= b < 3600;
    assert c.hours * 3600 + a == r.hours * 3600 + b;
    assert c.hours == r.hours && a == b;
  }

  /** `HH:MM:SS`, each field padded to two digits (hours may use more). */
  function TimerDisplay(time: nat): (r: string)
    ensures |r| >= 8
    ensures time < 360000 ==> |r| == 8 && r[2] == ':' && r[5] == ':'
  {
    var c := SplitSeconds(time);
    PadTwo(c.hours) + ":" + PadTwo(c.minutes) + ":" + PadTwo(c.seconds)
  }

  /** Below 100 hours the display reads back as the time it shows. */
  lemma TimerDisplayReadsBack(time: nat)
    requires time < 360000
    ensures var r := TimerDisplay(time);
      AllDigits(r[..2]) && AllDigits(r[3..5]) && AllDigits(r[6..8])
      && Value(r[..2]) * 3600 + Value(r[3..5]) * 60 + Value(r[6..8]) == time
  {
    var c := SplitSeconds(time);
    var r := TimerDisplay(time);
    assert r[..2] == PadTwo(c.hours) && r[3..5] == PadTwo(c.minutes) && r[6..8] == PadTwo(c.seconds);
    ValueOfPadTwo(c.hours);
    ValueOfPadTwo(c.minutes);
    ValueOfPadTwo(c.seconds);
  }

  /**
   * The stopwatch counts tenths of a second: `HH:MM:SS.t` of the whole
   * seconds followed by the tenth digit (which the source calls
   * centiseconds).
   */
  function StopwatchDisplay(tenths: nat): (r: string)
    ensures |r| >= 10 && r[|r| - 2] == '.' && IsDigit(r[|r| - 1])
    ensures DigitValue(r[|r| - 1]) == tenths % 10
  {
    TimerDisplay(tenths / 10) + "." + [DigitChar(tenths % 10)]
  }

  /** Below 100 hours the stopwatch display reads back as the tenths it shows. */
  lemma StopwatchDisplayReadsBack(tenths: nat)
    requires tenths < 3600000
    ensures var r := StopwatchDisplay(tenths);
      |r| == 10 && AllDigits(r[..2]) && AllDigits(r[3..5]) && AllDigits(r[6..8])
      && (Value(r[..2]) * 3600 + Value(r[3..5]) * 60 + Value(r[6..8])) * 10 + DigitValue(r[9]) == tenths
  {
    var r := StopwatchDisplay(tenths);
    var t := TimerDisplay(tenths / 10);
    TimerDisplayReadsBack(tenths / 10);
    assert r[..2] == t[..2] && r[3..5] == t[3..5] && r[6..8] == t[6..8];
  }

  // ---------------------------------------------------------------------------
  // Buttons (`updateTimerButtons`, `updateStopwatchButtons`)
  // ---------------------------------------------------------------------------

  /** The state a panel's buttons are set for. */
  datatype PanelState = Running | Paused | Stopped

  datatype Buttons = Buttons(startDisabled: bool, pauseDisabled: bool, resetDisabled: bool, lapDisabled: bool)

  /**
   * The countdown's buttons: start and pause take turns (exactly one is
   * enabled), and reset is disabled only once stopped. The countdown has no
   * lap button; it is reported disabled.
   */
  function TimerButtons(s: PanelState): (b: Buttons)
    ensures b.startDisabled <==> s == Running
    ensures b.startDisabled != b.pauseDisabled
    ensures b.resetDisabled <==> s == Stopped
    ensures b.lapDisabled
  {
    match s
    case Running => Buttons(true, false, false, true)
    case Paused => Buttons(false, true, false, true)
    case Stopped => Buttons(false, true, true, true)
  }

  /** The stopwatch's buttons: as the countdown's, and lap goes with reset. */
  function StopwatchButtons(s: PanelState): (b: Buttons)
    ensures b.startDisabled <==> s == Running
    ensures b.startDisabled != b.pauseDisabled
    ensures b.resetDisabled <==> s == Stopped
    ensures b.lapDisabled == b.resetDisabled
  {
    TimerButtons(s).(lapDisabled := s == Stopped)
  }

  // ---------------------------------------------------------------------------
  // The countdown (`startTimer`, the interval callback, `timerFinished`)
  // ---------------------------------------------------------------------------

  /** The three input fields, each read as `parseInt(value) || 0`. */
  datatype TimerInputs = TimerInputs(hours: int, minutes: int, seconds: int)

  function InputSeconds(i: TimerInputs): int
  {
    i.hours * 3600 + i.minutes * 60 + i.seconds
  }

  /**
   * The time left and whether the countdown still runs after up to `n`
   * one-second ticks of a running countdown that has `t` seconds left: each
   * tick subtracts one, and the tick that reaches 0 (or less) stops it.
   */
  function Countdown(t: int, n: nat): (int, bool)
    decreases n
  {
    if n == 0 then (t, true)
    else if t - 1 <= 0 then (t - 1, false)
    else Countdown(t - 1, n - 1)
  }

  /** A countdown started with `t` seconds runs for exactly `t` ticks and stops at 0. */
  lemma {:induction false} CountdownRunsItsLength(t: int, n: nat)
    requires t > 0
    ensures Countdown(t, n) == if n < t then (t - n, true) else (0, false)
    decreases n
  {
    if n > 0 && t - 1 > 0 {
      CountdownRunsItsLength(t - 1, n - 1);
    }
  }

  // ---------------------------------------------------------------------------
  // Laps (`addLapTime`)
  // ---------------------------------------------------------------------------

  /** A lap: its number (from 1) and the stopwatch reading, in tenths. */
  datatype Lap = Lap(lap: nat, time: nat)

  /** Laps are numbered 1, 2, 3, … in order. */
  predicate LapsNumbered(laps: seq<Lap>)
  {
    forall k :: 0 <= k < |laps| ==> laps[k].lap == k + 1
  }

  /** Lap readings are positive, never decrease, and do not exceed the current reading. */
  predicate LapsOrdered(laps: seq<Lap>, now: nat)
  {
    (forall k :: 0 <= k < |laps| ==> 0 < laps[k].time <= now)
    && (forall i, j :: 0 <= i < j < |laps| ==> laps[i].time <= laps[j].time)
  }

  /** The lap list after pressing lap at reading `now`: a new lap only when the stopwatch is past 0. */
  function AddLap(laps: seq<Lap>, now: nat): (r: seq<Lap>)
    ensures LapsNumbered(laps) ==> LapsNumbered(r)
    ensures LapsOrdered(laps, now) ==> LapsOrdered(r, now)
    ensures now == 0 ==> r == laps
    ensures now > 0 ==> |r| == |laps| + 1 && r[..|laps|] == laps && r[|laps|].time == now
  {
    if now > 0 then laps + [Lap(|laps| + 1, now)] else laps
  }

  /** Later readings keep the lap list ordered. */
  lemma LapsOrderedLater(laps: seq<Lap>, now: nat, later: nat)
    requires LapsOrdered(laps, now) && now <= later
    ensures LapsOrdered(laps, later)
  {
  }

  // ---------------------------------------------------------------------------
  // Themes (`toggleTheme`)
  // ---------------------------------------------------------------------------

  const Themes: seq<string> := ["dark", "light", "blue", "purple"]

  /** JavaScript's `%`: the remainder takes the sign of the dividend. */
  function JsRemainder(a: int, b: int): (r: int)
    requires b > 0
    ensures a >= 0 ==> 0 <= r < b
    ensures a < 0 ==> -b < r <= 0
    ensures a >= 0 ==> r == a % b
    ensures a < 0 ==> r == (if a % b == 0 then 0 else a % b - b)
  {
    if a >= 0 then a % b else NegativeRemainder(a, b); -((-a) % b)
  }

  /** Dafny's `%` is the only remainder below the divisor that fits the division. */
  lemma EuclidRemainder(a: int, b: int, x: int, r: int)
    requires b > 0 && 0 <= r < b && a == x * b + r
    ensures a % b == r
  {
    var d := x - a / b;
    assert d * b == a % b - r;
  }

  /** For a negative dividend, the truncated remainder is the Euclidean one shifted down by the divisor, or 0. */
  lemma NegativeRemainder(a: int, b: int)
    requires a < 0 && b > 0
    ensures -((-a) % b) == (if a % b == 0 then 0 else a % b - b)
  {
    var q := -((-a) / b);
    var m := (-a) % b;
    assert -a == ((-a) / b) * b + m;
    assert a == q * b - m;
    if m == 0 {
      EuclidRemainder(a, b, q, 0);
    } else {
      assert a == (q - 1) * b + (b - m);
      EuclidRemainder(a, b, q - 1, b - m);
    }
  }

  /** `(currentThemeIndex + 1) % themes.length`. */
  function NextTheme(i: int): (r: int)
    ensures i >= -1 ==> 0 <= r < |Themes|
    ensures i < -1 ==> -|Themes| < r <= 0
    ensures i >= -1 ==> r == (i + 1) % |Themes|
    ensures i < -1 ==> r == (if (i + 1) % |Themes| == 0 then 0 else (i + 1) % |Themes| - |Themes|)
  {
    JsRemainder(i + 1, |Themes|)
  }

  /** `themes[currentThemeIndex]`; an index outside the list names no theme. */
  function ThemeName(i: int): (r: Option<string>)
    ensures r.Some? <==> 0 <= i < |Themes|
  {
    if 0 <= i < |Themes| then Some(Themes[i]) else None
  }

  /** From a valid index the themes cycle with period four, and every toggle changes the theme. */
  lemma ThemeCycle(i: int)
    requires 0 <= i < |Themes|
    ensures NextTheme(i) != i && ThemeName(NextTheme(i)) != ThemeName(i)
    ensures NextTheme(NextTheme(NextTheme(NextTheme(i)))) == i
  {
  }

  /** A stored index that names no theme becomes a valid one after at most four toggles. */
  lemma ThemeRecovers(i: int)
    ensures var j := NextTheme(NextTheme(NextTheme(NextTheme(i))));
      ThemeName(j).Some?
  {
  }

  // ---------------------------------------------------------------------------
  // Alarms (`toggleAlarm`, `deleteAlarm`, `checkAlarms`, `triggerAlarm`)
  // ---------------------------------------------------------------------------

  /** An alarm: `time` is `HH:MM`; alarms created from a task remember its id. */
  datatype Alarm = Alarm(id: int, time: string, labelText: string, enabled: bool, createdAt: string, todoId: Option<int>)

  /** The id an alarm is addressed by. */
  function AlarmId(a: Alarm): int
  {
    a.id
  }

  /** `toggleAlarm`: flips the first alarm with the id; an unknown id changes nothing. */
  function ToggleAlarm(alarms: seq<Alarm>, id: int): (r: seq<Alarm>)
    ensures |r| == |alarms|
    ensures FindBy(alarms, AlarmId, id).None? ==> r == alarms
    ensures FindBy(alarms, AlarmId, id).Some? ==>
      var i := FindBy(alarms, AlarmId, id).value;
      r[i] == alarms[i].(enabled := !alarms[i].enabled) && forall k :: 0 <= k < |alarms| && k != i ==> r[k] == alarms[k]
  {
    match FindBy(alarms, AlarmId, id)
    case None => alarms
    case Some(i) => alarms[i := alarms[i].(enabled := !alarms[i].enabled)]
  }

  /** Toggling the same alarm twice restores the list. */
  lemma ToggleAlarmTwice(alarms: seq<Alarm>, id: int)
    ensures ToggleAlarm(ToggleAlarm(alarms, id), id) == alarms
  {
    var once := ToggleAlarm(alarms, id);
    if FindBy(alarms, AlarmId, id).Some? {
      var i := FindBy(alarms, AlarmId, id).value;
      SameKeysSameFind(alarms, once, AlarmId, id);
      assert once[i := once[i].(enabled := !once[i].enabled)] == alarms;
    }
  }

  /** An alarm rings when it is enabled and its time is the current `HH:MM`. */
  predicate Rings(a: Alarm, now: string)
  {
    a.enabled && a.time == now
  }

  /** `triggerAlarm` disables an alarm that rings. */
  function AfterCheck(a: Alarm, now: string): (r: Alarm)
    ensures !Rings(r, now)
    ensures r.enabled <==> a.enabled && a.time != now
    ensures r.(enabled := a.enabled) == a
  {
    if Rings(a, now) then a.(enabled := false) else a
  }

  /** The list after a minute check: every ringing alarm disabled, nothing else changed. */
  function CheckedAlarms(alarms: seq<Alarm>, now: string): (r: seq<Alarm>)
    ensures |r| == |alarms|
    ensures forall k :: 0 <= k < |alarms| ==> r[k] == AfterCheck(alarms[k], now)
  {
    seq(|alarms|, k requires 0 <= k < |alarms| => AfterCheck(alarms[k], now))
  }

  /** The labels of the alarms that ring, in list order. */
  function RungLabels(alarms: seq<Alarm>, now: string): seq<string>
    decreases |alarms|
  {
    if alarms == [] then []
    else RungLabels(alarms[..|alarms| - 1], now) + (if Rings(alarms[|alarms| - 1], now) then [alarms[|alarms| - 1].labelText] else [])
  }

  /** Some label is rung exactly when some alarm rings. */
  lemma {:induction false} RungLabelsCount(alarms: seq<Alarm>, now: string)
    ensures |RungLabels(alarms, now)| == 0 <==> forall k :: 0 <= k < |alarms| ==> !Rings(alarms[k], now)
    decreases |alarms|
  {
    if alarms != [] {
      var init := alarms[..|alarms| - 1];
      RungLabelsCount(init, now);
      assert forall k :: 0 <= k < |init| ==> init[k] == alarms[k];
    }
  }

  /** A second check in the same minute rings nothing and changes nothing: each alarm rings once. */
  lemma CheckTwiceRingsOnce(alarms: seq<Alarm>, now: string)
    ensures RungLabels(CheckedAlarms(alarms, now), now) == []
    ensures CheckedAlarms(CheckedAlarms(alarms, now), now) == CheckedAlarms(alarms, now)
  {
    RungLabelsCount(CheckedAlarms(alarms, now), now);
  }
}
