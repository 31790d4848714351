/**
 * The application object. Its fields are the state the page keeps between
 * events: the to-do list and its filter, the timers and alarms created from
 * tasks, the countdown and the stopwatch, the habits, and the theme. Each
 * method is one event handler; the clock, the date, fresh ids and the
 * answers to prompts arrive as parameters, and the interval callbacks of the
 * countdown and the stopwatch are explicit tick methods.
 */
module App {
  import opened Text
  import opened Lists
  import opened Classifier
  import opened Extractor
  import opened Todos
  import opened Clock
  import opened Habits

  /** The timer entry remembered for a task that sets a countdown. */
  datatype TaskTimer = TaskTimer(id: int, todoId: int, duration: nat, originalText: string, createdAt: string)

  class VoiceTodoApp {
    var todos: seq<Todo>
    var filter: ListFilter
    var themeIndex: int
    var habits: seq<Habit>
    var alarms: seq<Alarm>
    var taskTimers: seq<TaskTimer>

    /** The countdown: its input fields, the seconds left, whether its interval runs, and its buttons. */
    var timerInputs: TimerInputs
    var timerTime: int
    var timerRunning: bool
    var timerPanel: PanelState
    /** Countdown starts scheduled one second after a task set a countdown under four hours. */
    var pendingStarts: nat

    /** The stopwatch: tenths of a second, whether its interval runs, its buttons, and the laps. */
    var stopwatchTime: nat
    var stopwatchRunning: bool
    var stopwatchPanel: PanelState
    var laps: seq<Lap>

    /**
     * The buttons show the running state, a running countdown has time
     * left, and the laps are numbered in order with readings that never
     * decrease.
     */
    predicate Valid()
      reads this
    {
      (timerPanel == Running <==> timerRunning) && (timerRunning ==> timerTime > 0)
      && (stopwatchPanel == Running <==> stopwatchRunning)
      && LapsNumbered(laps) && LapsOrdered(laps, stopwatchTime)
    }

    /**
     * The stored lists and theme index (`|| []`, `|| 0` already applied).
     * Startup (`init`, through `setupDatePicker`) sets the date filter to
     * today, so the first list shows today's tasks; no clock runs yet.
     */
    constructor (storedTodos: seq<Todo>, storedHabits: seq<Habit>, storedAlarms: seq<Alarm>,
                 storedTimers: seq<TaskTimer>, storedThemeIndex: int, today: string)
      ensures Valid()
      ensures todos == storedTodos && habits == storedHabits && alarms == storedAlarms && taskTimers == storedTimers
      ensures themeIndex == storedThemeIndex && filter == ListFilter(All, today, None)
      ensures timerTime == 0 && !timerRunning && stopwatchTime == 0 && !stopwatchRunning && laps == [] && pendingStarts == 0
      ensures timerInputs == TimerInputs(0, 0, 0) && timerPanel == Stopped && stopwatchPanel == Stopped
    {
      todos := storedTodos;
      filter := ListFilter(All, today, None);
      themeIndex := storedThemeIndex;
      habits := storedHabits;
      alarms := storedAlarms;
      taskTimers := storedTimers;
      timerInputs := TimerInputs(0, 0, 0);
      timerTime := 0;
      timerRunning := false;
      timerPanel := Stopped;
      pendingStarts := 0;
      stopwatchTime := 0;
      stopwatchRunning := false;
      stopwatchPanel := Stopped;
      laps := [];
    }

    // -------------------------------------------------------------------------
    // Tasks
    // -------------------------------------------------------------------------

    /** The tasks the list shows under the current filter. */
    function VisibleTodos(): (r: seq<Todo>)
      reads this
      ensures r == ShownTodos(todos, filter)
    {
      FilterTodosIsShown(todos, filter);
      FilterTodos(todos, filter)
    }

    /**
     * The effect of `checkAndCreateTimerOrAlarm` on the timer and alarm
     * state: a timer expression records a timer entry, fills the countdown
     * inputs and, under four hours, schedules a start; otherwise an alarm
     * expression adds an enabled alarm labelled with the text.
     */
    twostate predicate CreatedFromText(text: string, todoId: int, now: int, nowIso: string)
      reads this
    {
      match TimerFromText(text)
      case Some(d) =>
        taskTimers == old(taskTimers) + [TaskTimer(now, todoId, Seconds(d), text, nowIso)]
        && timerInputs == TimerInputs(d.hours, d.minutes, 0)
        && pendingStarts == old(pendingStarts) + (if AutoStarts(d) then 1 else 0)
        && alarms == old(alarms)
      case None =>
        taskTimers == old(taskTimers) && timerInputs == old(timerInputs) && pendingStarts == old(pendingStarts)
        && alarms == old(alarms) + (match AlarmFromText(text)
                                    case Some(t) => [Alarm(now, t, text, true, nowIso, Some(todoId))]
                                    case None => [])
    }

    /** `checkAndCreateTimerOrAlarm`. */
    method CheckAndCreateTimerOrAlarm(text: string, todoId: int, now: int, nowIso: string)
      requires Valid()
      modifies this`taskTimers, this`timerInputs, this`pendingStarts, this`alarms
      ensures Valid() && CreatedFromText(text, todoId, now, nowIso)
    {
      var timer := TimerFromText(text);
      if timer.Some? {
        var d := timer.value;
        taskTimers := taskTimers + [TaskTimer(now, todoId, Seconds(d), text, nowIso)];
        timerInputs := TimerInputs(d.hours, d.minutes, 0);
        if AutoStarts(d) {
          pendingStarts := pendingStarts + 1;
        }
      } else {
        var time := AlarmFromText(text);
        if time.Some? {
          alarms := alarms + [Alarm(now, time.value, text, true, nowIso, Some(todoId))];
        }
      }
    }

    /**
     * `addTodoByVoice`: appends an uncompleted task of the detected type,
     * dated with the selected day or else today, then looks for a timer or
     * alarm in its text.
     */
    method AddTodoByVoice(text: string, now: int, nowIso: string, today: string)
      requires Valid()
      modifies this`todos, this`taskTimers, this`timerInputs, this`pendingStarts, this`alarms
      ensures Valid()
      ensures todos == old(todos) + [Todo(now, text, false, nowIso, if filter.date != "" then filter.date else today, DetectTaskType(text))]
      ensures CreatedFromText(text, now, now, nowIso)
    {
      var day := if filter.date != "" then filter.date else today;
      todos := todos + [Todo(now, text, false, nowIso, day, DetectTaskType(text))];
      CheckAndCreateTimerOrAlarm(text, now, now, nowIso);
    }

    /**
     * `addTodo`: the typed text is trimmed and a blank text adds nothing;
     * the chosen date (else today) and the chosen type (else the detected
     * one) are used.
     */
    method AddTodo(input: string, dateInput: string, typeInput: Option<Category>, now: int, nowIso: string, today: string)
      returns (added: bool)
      requires Valid()
      modifies this`todos, this`taskTimers, this`timerInputs, this`pendingStarts, this`alarms
      ensures Valid()
      ensures added <==> Trim(input) != ""
      ensures !added ==> (todos == old(todos) && taskTimers == old(taskTimers) && alarms == old(alarms)
                          && timerInputs == old(timerInputs) && pendingStarts == old(pendingStarts))
      ensures added ==>
        var text := Trim(input);
        todos == old(todos) + [Todo(now, text, false, nowIso, if dateInput != "" then dateInput else today,
                                    if typeInput.Some? then typeInput.value else DetectTaskType(text))]
        && CreatedFromText(text, now, now, nowIso)
    {
      var text := Trim(input);
      added := text != "";
      if added {
        var kind := if typeInput.Some? then typeInput.value else DetectTaskType(text);
        var day := if dateInput != "" then dateInput else today;
        todos := todos + [Todo(now, text, false, nowIso, day, kind)];
        CheckAndCreateTimerOrAlarm(text, now, now, nowIso);
      }
    }

    /**
     * `selectRecommendation`: the chosen suggestion is added as it is (no
     * trim, no blank check) with its own type and the chosen date (else
     * today), then its timer or alarm is created.
     */
    method SelectRecommendation(text: string, kind: Category, dateInput: string, now: int, nowIso: string, today: string)
      requires Valid()
      modifies this`todos, this`taskTimers, this`timerInputs, this`pendingStarts, this`alarms
      ensures Valid()
      ensures todos == old(todos) + [Todo(now, text, false, nowIso, if dateInput != "" then dateInput else today, kind)]
      ensures CreatedFromText(text, now, now, nowIso)
    {
      var day := if dateInput != "" then dateInput else today;
      todos := todos + [Todo(now, text, false, nowIso, day, kind)];
      CheckAndCreateTimerOrAlarm(text, now, now, nowIso);
    }

    /** `completeTodoByNumber`. */
    method CompleteTodoByNumber(n: int)
      modifies this`todos
      ensures todos == CompleteNumber(old(todos), n)
    {
      todos := CompleteNumber(todos, n);
    }

    /** `deleteTodoByNumber`. */
    method DeleteTodoByNumber(n: int)
      modifies this`todos
      ensures todos == DeleteNumber(old(todos), n)
    {
      todos := DeleteNumber(todos, n);
    }

    /** `clearAllTodos`: an empty list stays empty, any other is emptied. */
    method ClearAllTodos()
      modifies this`todos
      ensures todos == []
    {
      if todos != [] {
        todos := [];
      }
    }

    /** `toggleTodo`. */
    method ToggleTodo(id: int)
      modifies this`todos
      ensures todos == ToggleId(old(todos), id)
    {
      todos := ToggleId(todos, id);
    }

    /** `deleteTodo`. */
    method DeleteTodo(id: int)
      modifies this`todos
      ensures todos == DeleteId(old(todos), id)
    {
      todos := DeleteId(todos, id);
    }

    /** `setFilter`, `setDateFilter` (an empty date means none) and `setTypeFilter`. */
    method SetFilter(status: StatusFilter)
      modifies this`filter
      ensures filter == old(filter).(status := status)
    {
      filter := filter.(status := status);
    }

    method SetDateFilter(date: string)
      modifies this`filter
      ensures filter == old(filter).(date := date)
    {
      filter := filter.(date := date);
    }

    method SetTypeFilter(kind: Option<Category>)
      modifies this`filter
      ensures filter == old(filter).(kind := kind)
    {
      filter := filter.(kind := kind);
    }

    twostate predicate ClockUntouched()
      reads this
    {
      taskTimers == old(taskTimers) && timerInputs == old(timerInputs)
      && pendingStarts == old(pendingStarts) && alarms == old(alarms)
    }

    /**
     * `processVoiceCommand`: the command `Dispatch` reads from the
     * transcript is carried out; prompts and the spoken task list change
     * nothing.
     */
    method ProcessVoiceCommand(transcript: string, now: int, nowIso: string, today: string)
      requires Valid()
      modifies this`todos, this`taskTimers, this`timerInputs, this`pendingStarts, this`alarms
      ensures Valid()
      ensures match Dispatch(transcript)
        case AddByVoice(text) =>
          todos == old(todos) + [Todo(now, text, false, nowIso, if filter.date != "" then filter.date else today, DetectTaskType(text))]
          && CreatedFromText(text, now, now, nowIso)
        case CompleteTask(n) => todos == CompleteNumber(old(todos), n) && ClockUntouched()
        case DeleteTask(n) => todos == DeleteNumber(old(todos), n) && ClockUntouched()
        case ClearAll => todos == [] && ClockUntouched()
        case _ => todos == old(todos) && ClockUntouched()
    {
      match Dispatch(transcript)
      case AddByVoice(text) => AddTodoByVoice(text, now, nowIso, today);
      case CompleteTask(n) => CompleteTodoByNumber(n);
      case DeleteTask(n) => DeleteTodoByNumber(n);
      case ClearAll => ClearAllTodos();
      case _ =>
    }

    // -------------------------------------------------------------------------
    // Countdown
    // -------------------------------------------------------------------------

    /** The user edits the countdown's input fields. */
    method SetTimerInputs(inputs: TimerInputs)
      modifies this`timerInputs
      ensures timerInputs == inputs
    {
      timerInputs := inputs;
    }

    /**
     * `startTimer`: does nothing while running; otherwise loads the inputs
     * and runs only when they add up to more than 0 seconds.
     */
    method StartTimer()
      requires Valid()
      modifies this`timerTime, this`timerRunning, this`timerPanel
      ensures Valid()
      ensures old(timerRunning) ==> timerTime == old(timerTime) && timerRunning && timerPanel == old(timerPanel)
      ensures !old(timerRunning) ==>
        timerTime == InputSeconds(timerInputs) && (timerRunning <==> timerTime > 0)
        && timerPanel == (if timerRunning then Running else old(timerPanel))
    {
      if timerRunning {
        return;
      }
      timerTime := InputSeconds(timerInputs);
      if timerTime <= 0 {
        return;
      }
      timerRunning := true;
      timerPanel := Running;
    }

    /** A scheduled start fires one second after the to-do that set the countdown. */
    method RunScheduledStart()
      requires Valid() && pendingStarts > 0
      modifies this`pendingStarts, this`timerTime, this`timerRunning, this`timerPanel
      ensures Valid() && pendingStarts == old(pendingStarts) - 1
      ensures old(timerRunning) ==> timerTime == old(timerTime) && timerRunning
      ensures !old(timerRunning) ==> timerTime == InputSeconds(timerInputs) && (timerRunning <==> timerTime > 0)
    {
      pendingStarts := pendingStarts - 1;
      StartTimer();
    }

    /** `pauseTimer`: only a running countdown pauses; the time left is kept. */
    method PauseTimer()
      requires Valid()
      modifies this`timerRunning, this`timerPanel
      ensures Valid() && !timerRunning
      ensures timerPanel == if old(timerRunning) then Paused else old(timerPanel)
    {
      if timerRunning {
        timerRunning := false;
        timerPanel := Paused;
      }
    }

    /** `resetTimer`. */
    method ResetTimer()
      requires Valid()
      modifies this`timerTime, this`timerRunning, this`timerPanel
      ensures Valid() && timerTime == 0 && !timerRunning && timerPanel == Stopped
    {
      timerRunning := false;
      timerTime := 0;
      timerPanel := Stopped;
    }

    /** One second of a running countdown; the tick that reaches 0 finishes it (`timerFinished`). */
    method TimerTick() returns (finished: bool)
      requires Valid() && timerRunning
      modifies this`timerTime, this`timerRunning, this`timerPanel
      ensures Valid()
      ensures (timerTime, timerRunning) == Countdown(old(timerTime), 1)
      ensures finished <==> !timerRunning
      ensures timerPanel == if finished then Stopped else Running
    {
      timerTime := timerTime - 1;
      finished := timerTime <= 0;
      if finished {
        timerRunning := false;
        timerPanel := Stopped;
      }
    }

    // -------------------------------------------------------------------------
    // Stopwatch
    // -------------------------------------------------------------------------

    /** `startStopwatch`: does nothing while running. */
    method StartStopwatch()
      requires Valid()
      modifies this`stopwatchRunning, this`stopwatchPanel
      ensures Valid() && stopwatchRunning && stopwatchPanel == Running
    {
      if stopwatchRunning {
        return;
      }
      stopwatchRunning := true;
      stopwatchPanel := Running;
    }

    /** `pauseStopwatch`: only a running stopwatch pauses; the reading is kept. */
    method PauseStopwatch()
      requires Valid()
      modifies this`stopwatchRunning, this`stopwatchPanel
      ensures Valid() && !stopwatchRunning
      ensures stopwatchPanel == if old(stopwatchRunning) then Paused else old(stopwatchPanel)
    {
      if stopwatchRunning {
        stopwatchRunning := false;
        stopwatchPanel := Paused;
      }
    }

    /** `resetStopwatch`: reading and laps cleared. */
    method ResetStopwatch()
      requires Valid()
      modifies this`stopwatchTime, this`stopwatchRunning, this`stopwatchPanel, this`laps
      ensures Valid() && stopwatchTime == 0 && !stopwatchRunning && laps == [] && stopwatchPanel == Stopped
    {
      stopwatchRunning := false;
      stopwatchTime := 0;
      laps := [];
      stopwatchPanel := Stopped;
    }

    /** One tenth of a second of a running stopwatch. */
    method StopwatchTick()
      requires Valid() && stopwatchRunning
      modifies this`stopwatchTime
      ensures Valid() && stopwatchTime == old(stopwatchTime) + 1
    {
      LapsOrderedLater(laps, stopwatchTime, stopwatchTime + 1);
      stopwatchTime := stopwatchTime + 1;
    }

    /** `addLapTime`: records the reading as the next lap, only past 0. */
    method AddLapTime() returns (recorded: bool)
      requires Valid()
      modifies this`laps
      ensures Valid() && laps == AddLap(old(laps), stopwatchTime)
      ensures recorded <==> stopwatchTime > 0
    {
      recorded := stopwatchTime > 0;
      laps := AddLap(laps, stopwatchTime);
    }

    // -------------------------------------------------------------------------
    // Alarms
    // -------------------------------------------------------------------------

    /**
     * `showAddAlarmModal`: the answered time must be exactly `HH:MM`
     * (a cancelled prompt answers ""); an empty label becomes "Alarm".
     */
    method AddAlarm(time: string, labelText: string, now: int, nowIso: string) returns (added: bool)
      modifies this`alarms
      ensures added <==> IsHHMM(time)
      ensures added ==> alarms == old(alarms) + [Alarm(now, time, if labelText == "" then "Alarm" else labelText, true, nowIso, None)]
      ensures !added ==> alarms == old(alarms)
    {
      added := IsHHMM(time);
      if added {
        var shown := if labelText == "" then "Alarm" else labelText;
        alarms := alarms + [Alarm(now, time, shown, true, nowIso, None)];
      }
    }

    /** `toggleAlarm`. */
    method ToggleAlarmById(id: int)
      modifies this`alarms
      ensures alarms == ToggleAlarm(old(alarms), id)
    {
      alarms := ToggleAlarm(alarms, id);
    }

    /** `deleteAlarm`: only when the user confirms. */
    method DeleteAlarmById(id: int, confirmed: bool)
      modifies this`alarms
      ensures alarms == if confirmed then DropBy(old(alarms), AlarmId, id) else old(alarms)
    {
      if confirmed {
        alarms := DropBy(alarms, AlarmId, id);
      }
    }

    /**
     * `checkAlarms` at the current `HH:MM`: every enabled alarm set for it
     * rings (its label is returned) and is disabled.
     */
    method CheckAlarms(currentTime: string) returns (rung: seq<string>)
      modifies this`alarms
      ensures alarms == CheckedAlarms(old(alarms), currentTime)
      ensures rung == RungLabels(old(alarms), currentTime)
    {
      var before := alarms;
      rung := [];
      var i := 0;
      while i < |alarms|
        invariant 0 <= i <= |alarms| == |before|
        invariant forall k :: 0 <= k < i ==> alarms[k] == AfterCheck(before[k], currentTime)
        invariant forall k :: i <= k < |alarms| ==> alarms[k] == before[k]
        invariant rung == RungLabels(before[..i], currentTime)
      {
        assert before[..i + 1][..i] == before[..i];
        if alarms[i].enabled && alarms[i].time == currentTime {
          rung := rung + [alarms[i].labelText];
          alarms := alarms[i := alarms[i].(enabled := false)];
        }
        i := i + 1;
      }
      assert before[..i] == before;
    }

    // -------------------------------------------------------------------------
    // Habits
    // -------------------------------------------------------------------------

    /** `showAddHabitModal`: an empty title adds nothing. */
    method AddHabit(title: string, description: string, now: int, nowIso: string) returns (added: bool)
      modifies this`habits
      ensures added <==> title != ""
      ensures habits == old(habits) + (if added then [Habit(now, title, description, nowIso, [])] else [])
    {
      added := title != "";
      if added {
        habits := habits + [Habit(now, title, description, nowIso, [])];
      }
    }

    /** `toggleHabitCompletion` on `today`. */
    method ToggleHabitCompletion(id: int, today: string)
      modifies this`habits
      ensures habits == ToggleHabit(old(habits), id, today)
    {
      habits := ToggleHabit(habits, id, today);
    }

    /** `deleteHabit`: only when the user confirms. */
    method DeleteHabitById(id: int, confirmed: bool)
      modifies this`habits
      ensures habits == if confirmed then DropBy(old(habits), HabitId, id) else old(habits)
    {
      if confirmed {
        habits := DropBy(habits, HabitId, id);
      }
    }

    // -------------------------------------------------------------------------
    // Theme
    // -------------------------------------------------------------------------

    /** `toggleTheme`. */
    method ToggleTheme()
      modifies this`themeIndex
      ensures themeIndex == NextTheme(old(themeIndex))
    {
      themeIndex := JsRemainder(themeIndex + 1, |Themes|);
    }

    function CurrentTheme(): (r: Option<string>)
      reads this
      ensures r.Some? <==> 0 <= themeIndex < |Themes|
    {
      ThemeName(themeIndex)
    }
  }
}
