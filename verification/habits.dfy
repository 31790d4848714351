/**
 * Habits: a habit records the days (`YYYY-MM-DD`) it was done. Today's box
 * toggles today's date in that list, the streak counts back from today, and
 * a habit is deleted by id.
 */
module Habits {
  import opened Text
  import opened Lists

  datatype Habit = Habit(id: int, title: string, description: string, createdAt: string, completedDays: seq<string>)

  /** `completedDays.filter(day => day !== today)`. */
  function RemoveDay(days: seq<string>, day: string): (r: seq<string>)
    ensures forall d :: d in r <==> d in days && d != day
    ensures day !in days ==> r == days
    decreases |days|
  {
    if days == [] then []
    else
      assert days == [days[0]] + days[1..];
      (if days[0] != day then [days[0]] else []) + RemoveDay(days[1..], day)
  }

  /** Today's box: unchecking removes every copy of today, checking appends it. */
  function ToggleDay(days: seq<string>, today: string): (r: seq<string>)
    ensures today in r <==> today !in days
    ensures forall d :: d != today ==> (d in r <==> d in days)
  {
    if today in days then RemoveDay(days, today) else days + [today]
  }

  /**
   * Checking and unchecking today gives back the list; unchecking and
   * checking again leaves today once, at the end.
   */
  lemma ToggleDayTwice(days: seq<string>, today: string)
    ensures today !in days ==> ToggleDay(ToggleDay(days, today), today) == days
    ensures today in days ==> ToggleDay(ToggleDay(days, today), today) == RemoveDay(days, today) + [today]
  {
    if today !in days {
      RemoveAppended(days, today);
    }
  }

  lemma {:induction false} RemoveAppended(days: seq<string>, day: string)
    requires day !in days
    ensures RemoveDay(days + [day], day) == days
    decreases |days|
  {
    if days == [] {
      assert RemoveDay([day], day) == [] + RemoveDay([], day);
    } else {
      RemoveAppended(days[1..], day);
      assert (days + [day])[1..] == days[1..] + [day];
      assert (days + [day])[0] == days[0];
    }
  }

  /**
   * `calculateStreak`: counts the days back from today (day 0) that are
   * done, stopping at the first day that is not or after 365 days.
   * `dateOf(i)` is the date `i` days before today.
   */
  method CalculateStreak(habit: Habit, dateOf: nat -> string) returns (streak: nat)
    ensures streak <= 365
    ensures forall i :: 0 <= i < streak ==> dateOf(i) in habit.completedDays
    ensures streak < 365 ==> dateOf(streak) !in habit.completedDays
  {
    streak := 0;
    var i := 0;
    while i < 365
      invariant 0 <= i <= 365 && streak == i
      invariant forall j :: 0 <= j < i ==> dateOf(j) in habit.completedDays
    {
      if dateOf(i) in habit.completedDays {
        streak := streak + 1;
      } else {
        break;
      }
      i := i + 1;
    }
  }

  /** The id a habit is addressed by. */
  function HabitId(h: Habit): int
  {
    h.id
  }

  /** `toggleHabitCompletion`: toggles today in the first habit with the id; an unknown id changes nothing. */
  function ToggleHabit(habits: seq<Habit>, id: int, today: string): (r: seq<Habit>)
    ensures |r| == |habits|
    ensures FindBy(habits, HabitId, id).None? ==> r == habits
    ensures FindBy(habits, HabitId, id).Some? ==>
      var i := FindBy(habits, HabitId, id).value;
      r[i] == habits[i].(completedDays := ToggleDay(habits[i].completedDays, today))
      && forall k :: 0 <= k < |habits| && k != i ==> r[k] == habits[k]
  {
    match FindBy(habits, HabitId, id)
    case None => habits
    case Some(i) => habits[i := habits[i].(completedDays := ToggleDay(habits[i].completedDays, today))]
  }
}
