# VoiceTodoApp, modelled in Dafny

VoiceTodoApp is a single-page to-do list driven by typing and by voice. A
single class, `VoiceTodoApp` in `script.js`, holds the logic this project
models:

- **Task classification.** Each new task gets a type (work, personal, study,
  health, shopping or other) from five keyword lists tried in a fixed
  priority order (`classifier.dfy`).
- **Timer and alarm phrases.** Seven timer patterns, then four alarm patterns,
  are tried against the lowercased text. The first one that matches creates a
  countdown entry (and schedules its start when under four hours) or an
  `HH:MM` alarm (`extractor.dfy`). Each pattern is a matcher proved equal to a
  declarative statement of the pattern, with the leftmost-match rule of
  `String.prototype.match`.
- **Recommendations.** Candidates come from recurring tasks by day, from the
  types of the last ten tasks, and from keywords and the hour. They are scored
  by word overlap with the input. Those scoring above 0 are sorted stably by
  score, highest first, and five are shown (`recommend.dfy`).
- **The to-do store.** The store covers the voice command dispatcher, task
  numbers counted among the uncompleted tasks, and the status/date/type list
  filter (`todos.dfy`). Add, complete, delete, toggle and clear are methods of
  the class (`app.dfy`).
- **Clock, stopwatch, alarms, habits and theme.** The countdown, the
  stopwatch and its laps, alarm checking, habit toggling and streaks, and
  theme cycling are fields and methods of the class. Each interval callback is
  an explicit tick method (`app.dfy`). The displays, button patterns, alarm
  lists and habit lists are functions (`clock.dfy`, `habits.dfy`).

Lookups and deletions by id, shared by tasks, alarms and habits, live in
`lists.dfy`. Shared string helpers live in `text.dfy`. They cover ASCII lowercasing,
`includes`, `split(' ')`, `trim`, `parseInt` of digit runs and
`padStart(2, '0')`.

The clock, the calendar date, fresh ids (`Date.now()`) and the answers to
`prompt`/`confirm` are parameters of the methods that use them:
- The habit streak takes `dateOf(i)`, the date `i` days before today.
- The alarm check takes the current `HH:MM`.
- The recommender takes the day of the week, the day of the month, the hour
  and the minute.

### Behaviour kept as the code writes it

- **am/pm.** The alarm conversion (script.js:2271-2279) looks for `am`/`pm`
  in `match[0]`, the text the alarm pattern matched (script.js:2187-2192).
  That text is only the trigger word (`alarm`, `remind`, `wake` or `at`),
  whitespace, digits and a colon, so the adjustment never fires. The built-in sample "Alarm at 3:00 PM for meeting"
  (script.js:1173) therefore stores an alarm at "03:00". The model keeps the
  adjustment as written (`Extractor.AdjustedHour`) and proves it is dead
  (`Extractor.AmPmNeverFires`).
- **Hour patterns.** The hour timer patterns (script.js:2179, 2181, 2184)
  accept only a number followed by the literal `hr`, optionally continued.
  "1 hour timer" matches no timer pattern (`Extractor.NoHoursWithoutHr`,
  `Extractor.NothingWithoutUnitOrColon`).

Other behaviour the model keeps as written:
- The smart alarm suggestions use `hour + 1` unwrapped, so at 23:xx they say
  "24".
- The stopwatch counts tenths of a second, though its display calls the last
  digit centiseconds.
- A countdown start reloads the inputs, so starting after a pause restarts
  rather than resumes.
- A complete or delete command carries the first number in the transcript,
  wherever it stands.

## Model

| member | source | states |
|---|---|---|
| Classifier.DetectTaskType | script.js:933-949 | the category returned has a keyword in the lowercased text, and no list earlier in the priority order does; `Other` only when no list matches |
| Classifier.KeywordMatches | script.js:933-949 | a keyword occurring in the lowercased text makes its list match |
| Classifier.ContainsWorkIsWork | script.js:933-949 | any text containing "work" (so also "homework", "workout") is a work task |
| Classifier.MeetingIsWork | script.js:933-949 | any text containing "meeting" is a work task |
| Classifier.SharedKeywordsArePersonal | script.js:933-949 | a text with "appointment", "grocery" or "shopping" is never health or shopping |
| Classifier.DetectIgnoresCase | script.js:933-949 | a text and its lowercased form get the same category |
| Classifier.SurroundingKeepsPriority | script.js:933-949 | words put before or after a text never move its category to a later list in the priority order |
| Text.Lower | script.js:2173 | lowercasing keeps the length and lowercases each character |
| Text.LowerIdempotent | script.js:2173 | lowercasing twice is lowercasing once |
| Text.ContainsIff | script.js:942 | `includes` holds exactly when the piece occurs at some index |
| Text.Split | script.js:1040-1041 | `split(' ')` yields at least one piece and no piece holds a space |
| Text.JoinSplit | script.js:1040-1041 | joining the pieces with single spaces gives back the text |
| Text.OccurrenceInsidePiece | script.js:1040-1055 | a space-free word found in a text lies inside one of its `split(' ')` pieces |
| Text.Trim | script.js:707 | the input is the result with only whitespace before and after it; the result has no whitespace at either end and is empty exactly for all-whitespace input |
| Text.NatToString | script.js:2282 | `String(n)`: at least one digit, no leading zero, a single digit exactly below 10 |
| Text.ValueOfNatToString | script.js:2282 | reading `String(n)` back gives n |
| Text.PadTwo | script.js:2282 | `padStart(2, '0')` of a number gives at least two digits, exactly two below 100 |
| Text.ValueOfPadTwo | script.js:2282 | reading the padded text back gives the number |
| Text.PadTwoOfValue | script.js:2282 | padding the value of a one- or two-digit capture gives the capture itself, or "0" before it |
| Extractor.MatchAtCorrect | script.js:2176-2192 | each matcher finds a match with given captures exactly when the regular expression accepts those captures at that index |
| Extractor.Search | script.js:2196 | `match` returns the leftmost index where the expression matches; none matches before it, and none at all when it fails |
| Extractor.LeftmostStartsRun | script.js:2177-2183 | the leftmost match of an expression starting with `(\d+)` starts at the beginning of a digit run, so the capture is the whole run |
| Extractor.NoMatchWithoutText | script.js:2176-2192 | a text lacking one of an expression's literals never matches it |
| Extractor.FirstPattern | script.js:2195-2210 | the first expression in list order that matches, with its match; all earlier ones fail |
| Extractor.FirstPatternIsFirst | script.js:2195-2210 | the expression chosen is the first in list order that matches; none chosen means none matches |
| Extractor.FindHit | script.js:2172-2211 | timer expressions are tried before alarm expressions and the first match wins; timer captures are non-empty digit runs; an alarm captures 1-2 hour digits and 2 minute digits |
| Extractor.FindHitTimer | script.js:2195-2201 | the first matching timer expression decides the timer, with its leftmost captures |
| Extractor.FindHitAlarm | script.js:2203-2210 | with no timer match, the first matching alarm expression decides the alarm |
| Extractor.FindHitNone | script.js:2172-2211 | nothing is created exactly when none of the eleven expressions matches |
| Extractor.TimerHitIsFirst | script.js:2195-2201 | a timer hit comes from the first matching timer expression |
| Extractor.AlarmHitIsFirst | script.js:2203-2210 | an alarm hit only when no timer expression matches, from the first matching alarm expression |
| Extractor.NoHoursWithoutHr | script.js:2178-2183 | without the literal "hr" no hours expression matches ("1 hour timer" sets no hours) |
| Extractor.NothingWithoutUnitOrColon | script.js:2176-2192 | a text with none of "min", "hr", ":" creates neither a timer nor an alarm |
| Extractor.TimerDuration | script.js:2214-2230 | minutes expressions set only minutes, hours expressions only hours, seconds are 0, duration is h*3600+m*60 |
| Extractor.TimerFromText | script.js:2214-2248 | a countdown is set exactly when a timer expression wins; its seconds are 0 |
| Extractor.TimerFromUnit | script.js:2219-2223 | a minutes or hours expression sets exactly the captured number in its unit |
| Extractor.ClockTimerSetsBoth | script.js:2223-2229 | `H:M timer` always sets both hours and minutes; the lone-capture branch is dead |
| Extractor.AdjustedHour | script.js:2271-2279 | the am/pm rule as written: the hour is kept, +12 on "pm" (unless 12), or 12 becomes 0 on "am" |
| Extractor.AlarmFromText | script.js:2268-2282 | an alarm time is produced exactly when no timer but an alarm expression wins |
| Extractor.AmPmNeverFires | script.js:2271-2279 | `match[0]` of an alarm contains neither "am" nor "pm", so the hour is never adjusted |
| Extractor.AlarmWordsHaveNoMarker | script.js:2187-2192 | none of the alarm words "alarm", "remind", "wake", "at" contains "am" or "pm" |
| Extractor.NoMarkerInAlarm | script.js:2271-2279 | a `match[0]` built from such a word, whitespace, digits and a colon contains neither marker |
| Extractor.AlarmKeepsDigits | script.js:2282 | an extracted alarm is the captured digits verbatim, hour zero-padded, and it always passes the manual `HH:MM` check |
| Todos.ActiveIndex | script.js:644-646 | the n-th uncompleted task (from 1) in list order; none exactly when n < 1 or n exceeds the number of uncompleted tasks |
| Todos.ActiveIndexUnique | script.js:644-646 | every uncompleted task has exactly one number: the count of uncompleted tasks before it, plus one |
| Lists.FindBy | script.js:740 | `find` by id (tasks here, alarms at 2041, habits at 1686): the first record with the id, or none when no record has it |
| Lists.FindByAt | script.js:740 | a record with the id and none before it is the one found |
| Lists.SameKeysSameFind | script.js:2041 | lists with the same ids at the same places find the same record, so changing a found record's other fields does not change what is found |
| Lists.DropBy | script.js:2052 | `filter` by id (alarms here, habits at 1708): exactly the records with another id remain; with no record to drop the list is unchanged |
| Lists.DropByAppend | script.js:2052 | dropping distributes over concatenation, so the remaining records keep their order |
| Todos.CompleteNumber | script.js:643-656 | only the n-th uncompleted task is marked done, one fewer uncompleted task; out of range changes nothing |
| Todos.DeleteNumber | script.js:658-672 | only the n-th uncompleted task is removed, the rest keep their order; out of range changes nothing |
| Todos.ToggleId | script.js:739-751 | flips only the first task with the id; an unknown id changes nothing |
| Todos.ToggleTwice | script.js:739-751 | toggling the same id twice restores the list |
| Todos.DeleteId | script.js:753-763 | removes only the first task with the id; an unknown id changes nothing |
| Todos.ShownTodos | script.js:781-801 | exactly the tasks that pass the status, date and type filters are listed |
| Todos.FilterTodosIsShown | script.js:781-801 | the three successive filters list exactly the tasks that pass all three, in list order |
| Todos.TaskNumber | script.js:613-616 | a number is read exactly when the transcript has a digit |
| Todos.TaskNumberIsFirstRun | script.js:613-616 | the number read is the whole first run of digits |
| Todos.RemoveAddPhrases | script.js:565 | removing the add phrases never lengthens the text and leaves a text without them unchanged |
| Todos.RemoveAddPhrasesDrops | script.js:565 | the scan removes an add phrase, in any case, at the first place one starts, keeps the text before it and goes on after it |
| Todos.Dispatch | script.js:562-611 | commands are recognised in the order add, complete, delete, clear all, list; an add carries the trimmed rest, and prompts exactly when that rest is empty; a transcript with no command words is added as it is |
| Todos.DispatchReadsNumber | script.js:572-592 | a complete/delete command acts exactly when a number is present, and on that number |
| Recommend.RelevanceScore | script.js:1039-1062 | the nested loops compute twice the matching word pairs plus the input words found in the text |
| Recommend.RowHitsPositive | script.js:1044-1049 | an input word scores in the pair pass exactly when some suggestion word matches it |
| Recommend.PairHitsPositive | script.js:1043-1050 | the pair pass scores exactly when some pair of words matches |
| Recommend.ScorePositiveIff | script.js:1039-1062 | the score is positive exactly when some input word and suggestion word match; the partial pass never scores alone |
| Recommend.EmptyInputWordMatchesAll | script.js:1039-1062 | an empty input word (double or trailing space) makes the score at least twice the number of suggestion words |
| Recommend.RecurringTasks | script.js:2110-2136 | 1 to 4 recurring tasks, always including "Drink water" |
| Recommend.RecurringTasksByDay | script.js:2113-2129 | the weekly tasks exactly on Monday, Friday and Sunday, the monthly ones exactly on the 1st and the 15th, the exercise session exactly on Monday, Wednesday and Friday |
| Recommend.LastTen | script.js:2140 | `slice(-10)` is the suffix of the list holding its last min(10, n) tasks |
| Recommend.PatternSuggestions | script.js:2138-2163 | at most three pattern suggestions |
| Recommend.PatternSuggestionsTriggers | script.js:2140-2157 | "Take a break" exactly on more than three work tasks among the last ten, "Review notes" on more than two study tasks, "Call family" on more than two personal tasks |
| Recommend.PatternSuggestionsIgnoreOlder | script.js:2140 | tasks older than the last ten never change the pattern suggestions |
| Recommend.PatternSuggestionsNeedTasks | script.js:2138-2163 | all three pattern suggestions need at least ten tasks |
| Recommend.SmartSuggestions | script.js:983-1037 | at most sixteen keyword and hour suggestions |
| Recommend.SmartMeeting | script.js:988-991 | every suggestion of the meeting pair is offered exactly when the lowercased input contains "meet" or "call" |
| Recommend.SmartShopping | script.js:993-996 | every suggestion of the shopping pair is offered exactly when the input contains "buy" or "shop" |
| Recommend.SmartStudy | script.js:998-1001 | every suggestion of the study pair is offered exactly when the input contains "study" or "learn" |
| Recommend.SmartFitness | script.js:1003-1006 | every suggestion of the fitness pair is offered exactly when the input contains "exercise" or "gym" |
| Recommend.SmartHour | script.js:1009-1016 | each working-hours suggestion exactly from 9 to 17 o'clock, each evening suggestion exactly from 18 to 22 |
| Recommend.SmartTimer | script.js:1019-1023 | each of the three timer phrases is offered exactly when the input contains "timer" or "time" |
| Recommend.SmartAlarm | script.js:1025-1034 | each of the three alarm phrases, for the given hour and minute, is offered exactly when the input contains "alarm", "remind" or "wake" |
| Recommend.SmartSuggestionsNone | script.js:983-1037 | with no keyword and an hour outside 9 to 22 nothing is suggested |
| Recommend.SmartAlarmAtMidnight | script.js:1027-1031 | the next hour is not wrapped: at 23:xx the alarm suggestion says "24:" |
| Recommend.ScoreAll | script.js:971-975 | each candidate paired with its own score, in order |
| Recommend.Positive | script.js:976 | exactly the scored candidates with score above 0 are kept |
| Recommend.PositiveWithScore | script.js:976 | for every positive score, the filter keeps exactly the entries with that score, in order |
| Recommend.InsertDesc | script.js:977 | insertion adds exactly the element |
| Recommend.SortDesc | script.js:977 | sorting is a permutation |
| Recommend.SortDescSorted | script.js:977 | the sorted scores do not increase |
| Recommend.SortDescStable | script.js:977 | for every score, the elements with that score keep their order (stable sort) |
| Recommend.TopFive | script.js:978 | `slice(0, 5)` is a prefix of length min(5, n) |
| Recommend.Recommendations | script.js:963-981 | at most five recommendations |
| Recommend.RankMembers | script.js:963-981 | each shown item is a candidate with its own positive score |
| Recommend.RankSorted | script.js:963-981 | shown scores do not increase |
| Recommend.RankStable | script.js:963-981 | for every positive score, the shown items with that score are the first candidates with that score, in candidate order |
| Recommend.RankKeepsBest | script.js:963-981 | a positive candidate is left out only when five are shown, each scoring at least as much |
| Recommend.RecommendationsProperties | script.js:963-981 | for the concatenated candidates: each shown item is a candidate with its own positive score, scores do not increase, and ties keep candidate order |
| Recommend.ShownRecommendations | script.js:952-960 | nothing is shown for inputs shorter than two characters; otherwise the recommendations |
| Clock.SplitSeconds | script.js:1821-1824 | hours, minutes < 60 and seconds < 60 adding up to the time |
| Clock.SplitSecondsUnique | script.js:1821-1824 | that decomposition is the only one |
| Clock.TimerDisplay | script.js:1821-1828 | `HH:MM:SS` of eight characters below 100 hours |
| Clock.TimerDisplayReadsBack | script.js:1821-1828 | the countdown display reads back as the time shown |
| Clock.StopwatchDisplay | script.js:1898-1907 | the display ends with "." and the tenths digit |
| Clock.StopwatchDisplayReadsBack | script.js:1898-1907 | the stopwatch display reads back as the tenths shown |
| Clock.TimerButtons | script.js:1830-1848 | exactly one of start/pause is enabled, start disabled only while running, reset disabled only when stopped |
| Clock.StopwatchButtons | script.js:1909-1931 | as the countdown's, with lap enabled exactly when reset is |
| Clock.CountdownRunsItsLength | script.js:1776-1783 | a countdown started at t > 0 runs for exactly t ticks and stops at 0 |
| Clock.AddLap | script.js:1886-1896 | a lap is added only past 0, numbered next, with the current reading; numbering and ordering are kept |
| Clock.LapsOrderedLater | script.js:1854-1857 | the stopwatch advancing keeps the laps ordered |
| Clock.JsRemainder | script.js:41 | JavaScript `%`: the remainder has the dividend's sign, agrees with `%` on non-negatives, and on a negative dividend is the Euclidean remainder minus the divisor (or 0) |
| Clock.NextTheme | script.js:41 | the next index is `(i + 1) % 4` from an index of at least -1, hence a valid theme, and the truncated remainder below that |
| Clock.ThemeName | script.js:42 | an index names a theme exactly when it is within the four themes |
| Clock.ThemeCycle | script.js:40-47 | from a valid index every toggle changes the theme and four toggles return to it |
| Clock.ThemeRecovers | script.js:40-47 | any stored index names a theme after four toggles |
| Clock.ToggleAlarm | script.js:2040-2048 | flips only the first alarm with the id; an unknown id changes nothing |
| Clock.ToggleAlarmTwice | script.js:2040-2048 | toggling twice restores the list |
| Clock.AfterCheck | script.js:2074-2082 | an alarm that rings is disabled; nothing else of it changes |
| Clock.CheckedAlarms | script.js:2059-2072 | the minute check applies that to every alarm and keeps the list length |
| Clock.RungLabelsCount | script.js:2059-2072 | something rings exactly when some alarm is enabled at the current time |
| Clock.CheckTwiceRingsOnce | script.js:2059-2083 | a second check in the same minute rings nothing and changes nothing |
| Habits.RemoveDay | script.js:1694 | every copy of the day is removed, other days kept |
| Habits.ToggleDay | script.js:1689-1699 | today is done afterwards exactly when it was not before; other days unchanged |
| Habits.ToggleDayTwice | script.js:1689-1699 | two toggles from not-done restore the list; from done they leave today once, at the end |
| Habits.CalculateStreak | script.js:1666-1683 | the streak is the number of consecutive done days back from today, at most 365, 0 when today is not done |
| Habits.ToggleHabit | script.js:1685-1704 | toggles today only in the first habit with the id; unknown id changes nothing |
| App.VoiceTodoApp.constructor | script.js:3-36 | the stored lists and theme index are loaded, the date filter starts on today (`init`, 96 and 908-913), no clock runs, the timer inputs are zero, both panels are stopped, and the class invariant holds |
| App.VoiceTodoApp.VisibleTodos | script.js:781-801 | the listed tasks are those passing the current filter |
| App.VoiceTodoApp.CheckAndCreateTimerOrAlarm | script.js:2172-2304 | a winning timer expression appends a timer entry, fills the inputs and schedules a start under four hours; otherwise a winning alarm expression appends an enabled alarm labelled with the text |
| App.VoiceTodoApp.AddTodoByVoice | script.js:618-641 | appends an uncompleted task of the detected type dated with the selected day or today, then creates its timer or alarm |
| App.VoiceTodoApp.AddTodo | script.js:703-737 | a blank trimmed text adds nothing; otherwise appends with the chosen date and type or their defaults, then creates its timer or alarm |
| App.VoiceTodoApp.SelectRecommendation | script.js:1115-1156 | appends the chosen suggestion untrimmed, with its own type and the selected day or today, then creates its timer or alarm |
| App.VoiceTodoApp.CompleteTodoByNumber | script.js:643-656 | the list becomes `CompleteNumber` of the old list |
| App.VoiceTodoApp.DeleteTodoByNumber | script.js:658-672 | the list becomes `DeleteNumber` of the old list |
| App.VoiceTodoApp.ClearAllTodos | script.js:674-686 | the list is empty afterwards |
| App.VoiceTodoApp.ToggleTodo | script.js:739-751 | the list becomes `ToggleId` of the old list |
| App.VoiceTodoApp.DeleteTodo | script.js:753-763 | the list becomes `DeleteId` of the old list |
| App.VoiceTodoApp.SetFilter | script.js:765-775 | only the status filter changes |
| App.VoiceTodoApp.SetDateFilter | script.js:915-918 | only the date filter changes |
| App.VoiceTodoApp.SetTypeFilter | script.js:927-930 | only the type filter changes |
| App.VoiceTodoApp.ProcessVoiceCommand | script.js:562-611 | carries out the dispatched command; prompts and listing change nothing |
| App.VoiceTodoApp.SetTimerInputs | script.js:1765-1767 | the countdown inputs become the typed values |
| App.VoiceTodoApp.StartTimer | script.js:1762-1787 | no-op while running; otherwise reloads the inputs and runs only when they total more than 0 |
| App.VoiceTodoApp.RunScheduledStart | script.js:2260-2264 | a scheduled start fires `startTimer` |
| App.VoiceTodoApp.PauseTimer | script.js:1789-1796 | stops a running countdown, keeping its time; buttons to paused |
| App.VoiceTodoApp.ResetTimer | script.js:1798-1808 | time 0, stopped, buttons to stopped |
| App.VoiceTodoApp.TimerTick | script.js:1776-1783 | one step of `Countdown`; finishing stops the timer and resets the buttons |
| App.VoiceTodoApp.StartStopwatch | script.js:1851-1861 | the stopwatch runs afterwards |
| App.VoiceTodoApp.PauseStopwatch | script.js:1863-1870 | the stopwatch stops, keeping its reading |
| App.VoiceTodoApp.ResetStopwatch | script.js:1872-1884 | reading 0, laps cleared, stopped |
| App.VoiceTodoApp.StopwatchTick | script.js:1854-1857 | the reading advances by one tenth; laps stay ordered |
| App.VoiceTodoApp.AddLapTime | script.js:1886-1896 | the laps become `AddLap` of the old laps at the current reading |
| App.VoiceTodoApp.AddAlarm | script.js:1964-1985 | an alarm is added exactly when the time is `HH:MM`, enabled, labelled "Alarm" when no label is given |
| App.VoiceTodoApp.ToggleAlarmById | script.js:2040-2048 | the alarms become `ToggleAlarm` of the old list |
| App.VoiceTodoApp.DeleteAlarmById | script.js:2050-2057 | on confirmation the alarms become `DropBy` of the old list on the alarm id |
| App.VoiceTodoApp.CheckAlarms | script.js:2059-2083 | the loop disables exactly the ringing alarms and returns their labels in order |
| App.VoiceTodoApp.AddHabit | script.js:1558-1577 | a habit with no completed days is added exactly when the title is not empty |
| App.VoiceTodoApp.ToggleHabitCompletion | script.js:1685-1704 | the habits become `ToggleHabit` of the old list |
| App.VoiceTodoApp.DeleteHabitById | script.js:1706-1713 | on confirmation the habits become `DropBy` of the old list on the habit id |
| App.VoiceTodoApp.ToggleTheme | script.js:40-47 | the index becomes `NextTheme` of the old index, that is `(i + 1) % 4` |
| App.VoiceTodoApp.CurrentTheme | script.js:42 | a theme is named exactly when the index is within the four themes |

## Left out

- Rendering and event wiring (HTML building, charts, calendar view, task numbering in the list) is not modelled; only the state and the filter the list is built from are.
- App.VoiceTodoApp.constructor: the timer inputs start at zero and both panels stopped; their first values come from the page markup, which is not part of this model.
- `localStorage` persistence: the stores are in-memory sequences; the constructor takes the already-parsed stored values.
- Speech recognition and synthesis, notifications, toasts and the alarm sound: messages are not modelled, so listing tasks and the "please say…" prompts change nothing.
- Real time: intervals and timeouts are the explicit tick and scheduled-start methods; `new Date()` values are parameters.
- Floating-point values (voice volume and speed, analytics ratios, the match-percentage badge).
- `Date.now()` and random ids are parameters; a task and the timer or alarm it creates get the same id.
- Per-task time tracking (`toggleTimer`, `activeTimers`, `stopTimer`), goals, analytics and debug helpers are not part of this model.
- `problem-solver.js` is not part of this model (browser diagnostics only).
- Text.Lower: ASCII lowercasing only; `toLowerCase` on non-ASCII letters is not modelled.
- Text.IsSpace: ASCII whitespace only, not the Unicode spaces JavaScript's `\s` and `trim` also accept.
- Recommend.ShownRecommendations: the two-character test counts Unicode characters, not the UTF-16 code units `value.length` counts, so a single character outside the Basic Multilingual Plane shows recommendations in the app but not in the model.
- Text.Value: exact on any length of digits, not rounded past 2^53 as `parseInt` is.
- Extractor.TimerFromUnit: stated for every text, not evaluated on the sample sentences ("study for 30 minutes timer" is an instance: 30 minutes, 1800 seconds).
- Extractor.AlarmKeepsDigits: stated for every text; "alarm at 3:00 pm" storing "03:00" is an instance, not checked on that literal.
- Extractor.AlarmTime: has no contract of its own; its properties are stated by `AlarmKeepsDigits` and `AmPmNeverFires`.
- App.VoiceTodoApp.CheckAndCreateTimerOrAlarm: the `if (!this.taskTimers)` reload is left out, since the constructor always sets the list.
- App.VoiceTodoApp.StartTimer: the `timerInterval` handle is the `timerRunning` flag; a start scheduled while one is pending is counted, not timed.
- App.VoiceTodoApp.AddHabit: the habit's stored `streak: 0` field, never read, is left out.
- Recommend.SmartSuggestions: the `Date.now() + Math.random()` ids of suggestions are left out.
