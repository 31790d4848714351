/**
 * The recommendation engine: three candidate sources (recurring tasks by
 * day, suggestions from the types of the last ten tasks, and suggestions
 * triggered by keywords of the input and by the hour), the relevance score
 * of a candidate against the input, and the pipeline that keeps the
 * candidates with a positive score, sorts them by score (stably, highest
 * first) and shows the first five.
 */
module Recommend {
  import opened Text
  import opened Classifier
  import opened Todos

  /** A candidate recommendation. */
  datatype Suggestion = Suggestion(text: string, kind: Category)

  // ---------------------------------------------------------------------------
  // Relevance score (`calculateRelevanceScore`)
  // ---------------------------------------------------------------------------

  /** An input word and a suggestion word match when either contains the other. */
  predicate WordsMatch(inputWord: string, suggestionWord: string)
  {
    Contains(suggestionWord, inputWord) || Contains(inputWord, suggestionWord)
  }

  /** The number of suggestion words that match one input word. */
  function RowHits(inputWord: string, suggestionWords: seq<string>): nat
    decreases |suggestionWords|
  {
    if suggestionWords == [] then 0
    else
      var last := if WordsMatch(inputWord, suggestionWords[|suggestionWords| - 1]) then 1 else 0;
      RowHits(inputWord, suggestionWords[..|suggestionWords| - 1]) + last
  }

  /** The number of matching (input word, suggestion word) pairs. */
  function PairHits(inputWords: seq<string>, suggestionWords: seq<string>): nat
    decreases |inputWords|
  {
    if inputWords == [] then 0
    else PairHits(inputWords[..|inputWords| - 1], suggestionWords) + RowHits(inputWords[|inputWords| - 1], suggestionWords)
  }

  /** The number of input words contained in the lowercased suggestion text. */
  function PartialHits(inputWords: seq<string>, lowerText: string): nat
    decreases |inputWords|
  {
    if inputWords == [] then 0
    else PartialHits(inputWords[..|inputWords| - 1], lowerText) + (if Contains(lowerText, inputWords[|inputWords| - 1]) then 1 else 0)
  }

  /** Two points per matching word pair and one per input word found in the suggestion text; words are split on single spaces. */
  function Score(input: string, suggestionText: string): nat
  {
    var inputWords := Split(Lower(input));
    2 * PairHits(inputWords, Split(Lower(suggestionText))) + PartialHits(inputWords, Lower(suggestionText))
  }

  /** `calculateRelevanceScore`: the two `forEach` passes that accumulate the score. */
  method RelevanceScore(input: string, suggestionText: string) returns (score: nat)
    ensures score == Score(input, suggestionText)
  {
    var inputWords := Split(Lower(input));
    var suggestionWords := Split(Lower(suggestionText));
    score := 0;
    var i := 0;
    while i < |inputWords|
      invariant 0 <= i <= |inputWords|
      invariant score == 2 * PairHits(inputWords[..i], suggestionWords)
    {
      var j := 0;
      while j < |suggestionWords|
        invariant 0 <= j <= |suggestionWords|
        invariant score == 2 * PairHits(inputWords[..i], suggestionWords) + 2 * RowHits(inputWords[i], suggestionWords[..j])
      {
        if Contains(suggestionWords[j], inputWords[i]) || Contains(inputWords[i], suggestionWords[j]) {
          score := score + 2;
        }
        assert suggestionWords[..j + 1][..j] == suggestionWords[..j];
        j := j + 1;
      }
      assert suggestionWords[..j] == suggestionWords;
      assert inputWords[..i + 1][..i] == inputWords[..i];
      i := i + 1;
    }
    assert inputWords[..i] == inputWords;
    var lowerText := Lower(suggestionText);
    var pairs := score;
    i := 0;
    while i < |inputWords|
      invariant 0 <= i <= |inputWords|
      invariant score == pairs + PartialHits(inputWords[..i], lowerText)
    {
      if Contains(lowerText, inputWords[i]) {
        score := score + 1;
      }
      assert inputWords[..i + 1][..i] == inputWords[..i];
      i := i + 1;
    }
    assert inputWords[..i] == inputWords;
  }

  lemma {:induction false} RowHitsPositive(inputWord: string, suggestionWords: seq<string>)
    ensures RowHits(inputWord, suggestionWords) > 0 <==>
      exists j :: 0 <= j < |suggestionWords| && WordsMatch(inputWord, suggestionWords[j])
    decreases |suggestionWords|
  {
    if suggestionWords != [] {
      var init := suggestionWords[..|suggestionWords| - 1];
      RowHitsPositive(inputWord, init);
      if exists j :: 0 <= j < |suggestionWords| && WordsMatch(inputWord, suggestionWords[j]) {
        var j :| 0 <= j < |suggestionWords| && WordsMatch(inputWord, suggestionWords[j]);
        if j < |init| {
          assert init[j] == suggestionWords[j];
        }
      }
      if exists j :: 0 <= j < |init| && WordsMatch(inputWord, init[j]) {
        var j :| 0 <= j < |init| && WordsMatch(inputWord, init[j]);
        assert suggestionWords[j] == init[j];
      }
    }
  }

  /** Some pair of words matches. */
  predicate SomePairMatches(inputWords: seq<string>, suggestionWords: seq<string>)
  {
    exists i, j :: 0 <= i < |inputWords| && 0 <= j < |suggestionWords| && WordsMatch(inputWords[i], suggestionWords[j])
  }

  lemma {:induction false} PairHitsPositive(inputWords: seq<string>, suggestionWords: seq<string>)
    ensures PairHits(inputWords, suggestionWords) > 0 <==> SomePairMatches(inputWords, suggestionWords)
    decreases |inputWords|
  {
    if inputWords != [] {
      var init := inputWords[..|inputWords| - 1];
      var last := inputWords[|inputWords| - 1];
      PairHitsPositive(init, suggestionWords);
      RowHitsPositive(last, suggestionWords);
      if SomePairMatches(inputWords, suggestionWords) {
        var i, j :| 0 <= i < |inputWords| && 0 <= j < |suggestionWords| && WordsMatch(inputWords[i], suggestionWords[j]);
        if i < |init| {
          assert init[i] == inputWords[i];
        }
      }
      if SomePairMatches(init, suggestionWords) {
        var i, j :| 0 <= i < |init| && 0 <= j < |suggestionWords| && WordsMatch(init[i], suggestionWords[j]);
        assert inputWords[i] == init[i];
      }
    }
  }

  /** An input word counted by the partial pass is contained in the text. */
  lemma {:induction false} PartialHitsWitness(inputWords: seq<string>, lowerText: string)
    requires PartialHits(inputWords, lowerText) > 0
    ensures exists i :: 0 <= i < |inputWords| && Contains(lowerText, inputWords[i])
    decreases |inputWords|
  {
    var init := inputWords[..|inputWords| - 1];
    if !Contains(lowerText, inputWords[|inputWords| - 1]) {
      PartialHitsWitness(init, lowerText);
      var i :| 0 <= i < |init| && Contains(lowerText, init[i]);
      assert inputWords[i] == init[i];
    }
  }

  /**
   * The score is positive exactly when some input word and some suggestion
   * word match: an input word found in the suggestion text lies inside one
   * of its words, so the partial pass never scores on its own.
   */
  lemma ScorePositiveIff(input: string, suggestionText: string)
    ensures Score(input, suggestionText) > 0 <==> SomePairMatches(Split(Lower(input)), Split(Lower(suggestionText)))
  {
    var inputWords := Split(Lower(input));
    var lowerText := Lower(suggestionText);
    PairHitsPositive(inputWords, Split(lowerText));
    if PartialHits(inputWords, lowerText) > 0 {
      PartialHitsWitness(inputWords, lowerText);
      var i :| 0 <= i < |inputWords| && Contains(lowerText, inputWords[i]);
      ContainsIff(lowerText, inputWords[i]);
      var at :| OccursAt(lowerText, inputWords[i], at);
      OccurrenceInsidePiece(lowerText, inputWords[i], at);
      var b :| 0 <= b < |Split(lowerText)| && Contains(Split(lowerText)[b], inputWords[i]);
      assert WordsMatch(inputWords[i], Split(lowerText)[b]);
    }
  }

  lemma {:induction false} EmptyWordMatchesAll(suggestionWords: seq<string>)
    ensures RowHits("", suggestionWords) == |suggestionWords|
    decreases |suggestionWords|
  {
    if suggestionWords != [] {
      EmptyWordMatchesAll(suggestionWords[..|suggestionWords| - 1]);
      ContainsEmpty(suggestionWords[|suggestionWords| - 1]);
    }
  }

  lemma {:induction false} PairHitsAtLeastRow(inputWords: seq<string>, suggestionWords: seq<string>, i: nat)
    requires i < |inputWords|
    ensures PairHits(inputWords, suggestionWords) >= RowHits(inputWords[i], suggestionWords)
    decreases |inputWords|
  {
    var init := inputWords[..|inputWords| - 1];
    if i < |init| {
      assert init[i] == inputWords[i];
      PairHitsAtLeastRow(init, suggestionWords, i);
    }
  }

  /**
   * An empty input word, which a double or trailing space produces, matches
   * every suggestion word: the score is then at least twice the number of
   * suggestion words.
   */
  lemma EmptyInputWordMatchesAll(input: string, suggestionText: string)
    requires "" in Split(Lower(input))
    ensures Score(input, suggestionText) >= 2 * |Split(Lower(suggestionText))|
  {
    var inputWords := Split(Lower(input));
    var i :| 0 <= i < |inputWords| && inputWords[i] == "";
    EmptyWordMatchesAll(Split(Lower(suggestionText)));
    PairHitsAtLeastRow(inputWords, Split(Lower(suggestionText)), i);
  }

  // ---------------------------------------------------------------------------
  // Candidate sources
  // ---------------------------------------------------------------------------

  /**
   * `getRecurringTasks` for a day of the week (0 is Sunday) and a day of the
   * month: one weekly task on Monday, Friday or Sunday, one monthly task on
   * the 1st or the 15th, always "Drink water", and an exercise session on
   * Monday, Wednesday and Friday.
   */
  function RecurringTasks(dayOfWeek: int, dayOfMonth: int): (r: seq<Suggestion>)
    ensures 1 <= |r| <= 4
    ensures DrinkWater in r
  {
    (if dayOfWeek == 1 then [PlanGoals] else [])
    + (if dayOfWeek == 5 then [ReviewProgress] else [])
    + (if dayOfWeek == 0 then [PlanNextWeek] else [])
    + (if dayOfMonth == 1 then [BudgetReview] else [])
    + (if dayOfMonth == 15 then [CheckIn] else [])
    + [DrinkWater]
    + (if dayOfWeek == 1 || dayOfWeek == 3 || dayOfWeek == 5 then [ExerciseSession] else [])
  }

  // The recurring tasks, named once for the lemmas about them.
  const PlanGoals := Suggestion("Plan weekly goals", Work)
  const ReviewProgress := Suggestion("Review weekly progress", Work)
  const PlanNextWeek := Suggestion("Plan next week", Personal)
  const BudgetReview := Suggestion("Monthly budget review", Personal)
  const CheckIn := Suggestion("Mid-month check-in", Work)
  const DrinkWater := Suggestion("Drink water", Health)
  const ExerciseSession := Suggestion("Exercise session", Health)

  /** The weekly tasks come on their own day of the week. */
  lemma RecurringWeekly(dayOfWeek: int, dayOfMonth: int)
    ensures PlanGoals in RecurringTasks(dayOfWeek, dayOfMonth) <==> dayOfWeek == 1
    ensures ReviewProgress in RecurringTasks(dayOfWeek, dayOfMonth) <==> dayOfWeek == 5
    ensures PlanNextWeek in RecurringTasks(dayOfWeek, dayOfMonth) <==> dayOfWeek == 0
  {
    assert |PlanGoals.text| != |PlanNextWeek.text|;
    assert PlanGoals.text[0] == 'P' && ReviewProgress.text[0] == 'R' && PlanNextWeek.text[0] == 'P';
    assert BudgetReview.text[0] == 'M' && CheckIn.text[0] == 'M' && DrinkWater.text[0] == 'D' && ExerciseSession.text[0] == 'E';
  }

  /** The monthly tasks come on their own day of the month. */
  lemma RecurringMonthly(dayOfWeek: int, dayOfMonth: int)
    ensures BudgetReview in RecurringTasks(dayOfWeek, dayOfMonth) <==> dayOfMonth == 1
    ensures CheckIn in RecurringTasks(dayOfWeek, dayOfMonth) <==> dayOfMonth == 15
  {
    assert |BudgetReview.text| != |CheckIn.text|;
    assert PlanGoals.text[0] == 'P' && ReviewProgress.text[0] == 'R' && PlanNextWeek.text[0] == 'P';
    assert BudgetReview.text[0] == 'M' && CheckIn.text[0] == 'M' && DrinkWater.text[0] == 'D' && ExerciseSession.text[0] == 'E';
  }

  /** The exercise session comes on Monday, Wednesday and Friday. */
  lemma RecurringExercise(dayOfWeek: int, dayOfMonth: int)
    ensures ExerciseSession in RecurringTasks(dayOfWeek, dayOfMonth) <==> dayOfWeek == 1 || dayOfWeek == 3 || dayOfWeek == 5
  {
    assert PlanGoals.text[0] == 'P' && ReviewProgress.text[0] == 'R' && PlanNextWeek.text[0] == 'P';
    assert BudgetReview.text[0] == 'M' && CheckIn.text[0] == 'M' && DrinkWater.text[0] == 'D' && ExerciseSession.text[0] == 'E';
  }

  /** Each recurring task is offered exactly on its days; "Drink water" every day. */
  lemma RecurringTasksByDay(dayOfWeek: int, dayOfMonth: int)
    ensures Suggestion("Plan weekly goals", Work) in RecurringTasks(dayOfWeek, dayOfMonth) <==> dayOfWeek == 1
    ensures Suggestion("Review weekly progress", Work) in RecurringTasks(dayOfWeek, dayOfMonth) <==> dayOfWeek == 5
    ensures Suggestion("Plan next week", Personal) in RecurringTasks(dayOfWeek, dayOfMonth) <==> dayOfWeek == 0
    ensures Suggestion("Monthly budget review", Personal) in RecurringTasks(dayOfWeek, dayOfMonth) <==> dayOfMonth == 1
    ensures Suggestion("Mid-month check-in", Work) in RecurringTasks(dayOfWeek, dayOfMonth) <==> dayOfMonth == 15
    ensures Suggestion("Exercise session", Health) in RecurringTasks(dayOfWeek, dayOfMonth)
      <==> dayOfWeek == 1 || dayOfWeek == 3 || dayOfWeek == 5
  {
    RecurringWeekly(dayOfWeek, dayOfMonth);
    RecurringMonthly(dayOfWeek, dayOfMonth);
    RecurringExercise(dayOfWeek, dayOfMonth);
  }

  /** The last ten tasks (`slice(-10)`). */
  function LastTen(todos: seq<Todo>): (r: seq<Todo>)
    ensures |r| == if |todos| < 10 then |todos| else 10
    ensures r == todos[|todos| - |r|..]
  {
    if |todos| <= 10 then todos else todos[|todos| - 10..]
  }

  /** How many tasks have a type. */
  function CountKind(todos: seq<Todo>, kind: Category): nat
    decreases |todos|
  {
    if todos == [] then 0 else CountKind(todos[..|todos| - 1], kind) + (if todos[|todos| - 1].kind == kind then 1 else 0)
  }

  lemma {:induction false} CountKindBound(todos: seq<Todo>, kind: Category)
    ensures CountKind(todos, kind) <= |todos|
    decreases |todos|
  {
    if todos != [] {
      CountKindBound(todos[..|todos| - 1], kind);
    }
  }

  /**
   * `getPatternSuggestions`: among the last ten tasks, more than three work
   * tasks suggest a break, more than two study tasks a review, more than two
   * personal tasks a call.
   */
  function PatternSuggestions(todos: seq<Todo>): (r: seq<Suggestion>)
    ensures |r| <= 3
  {
    var recent := LastTen(todos);
    (if CountKind(recent, Work) > 3 then [Suggestion("Take a break", Health)] else [])
    + (if CountKind(recent, Study) > 2 then [Suggestion("Review notes", Study)] else [])
    + (if CountKind(recent, Personal) > 2 then [Suggestion("Call family", Personal)] else [])
  }

  /** Each pattern suggestion is offered exactly when its type passes its threshold among the last ten tasks. */
  lemma PatternSuggestionsTriggers(todos: seq<Todo>)
    ensures Suggestion("Take a break", Health) in PatternSuggestions(todos) <==> CountKind(LastTen(todos), Work) > 3
    ensures Suggestion("Review notes", Study) in PatternSuggestions(todos) <==> CountKind(LastTen(todos), Study) > 2
    ensures Suggestion("Call family", Personal) in PatternSuggestions(todos) <==> CountKind(LastTen(todos), Personal) > 2
  {
    var rest, review, call := Suggestion("Take a break", Health), Suggestion("Review notes", Study), Suggestion("Call family", Personal);
    assert rest != review && rest != call && review != call;
  }

  /** Only the last ten tasks count: older tasks never change the pattern suggestions. */
  lemma PatternSuggestionsIgnoreOlder(older: seq<Todo>, recent: seq<Todo>)
    requires |recent| >= 10
    ensures PatternSuggestions(older + recent) == PatternSuggestions(recent)
  {
    var all := older + recent;
    assert all[|all| - 10..] == recent[|recent| - 10..];
  }

  /** Six tasks of one type out of the last ten leave room for at most one other type over its threshold. */
  lemma PatternSuggestionsNeedTasks(todos: seq<Todo>)
    ensures |PatternSuggestions(todos)| == 3 ==> |todos| >= 10
  {
    var recent := LastTen(todos);
    if |PatternSuggestions(todos)| == 3 {
      CountKindsBound(recent);
    }
  }

  /** Work, study and personal counts together never exceed the number of tasks. */
  lemma {:induction false} CountKindsBound(todos: seq<Todo>)
    ensures CountKind(todos, Work) + CountKind(todos, Study) + CountKind(todos, Personal) <= |todos|
    decreases |todos|
  {
    if todos != [] {
      CountKindsBound(todos[..|todos| - 1]);
    }
  }

  // The groups `getSmartSuggestions` offers, in the order it pushes them.
  const MeetingIdeas: seq<Suggestion> :=
    [Suggestion("Schedule team meeting", Work), Suggestion("Call client about project", Work)]
  const ShoppingIdeas: seq<Suggestion> :=
    [Suggestion("Buy groceries", Shopping), Suggestion("Order office supplies", Shopping)]
  const StudyIdeas: seq<Suggestion> :=
    [Suggestion("Review course materials", Study), Suggestion("Complete assignment", Study)]
  const FitnessIdeas: seq<Suggestion> :=
    [Suggestion("Go for a run", Health), Suggestion("Gym workout session", Health)]
  const WorkHourIdeas: seq<Suggestion> :=
    [Suggestion("Check emails", Work), Suggestion("Update project status", Work)]
  const EveningIdeas: seq<Suggestion> :=
    [Suggestion("Plan tomorrow", Personal), Suggestion("Family time", Personal)]
  const TimerIdeas: seq<Suggestion> :=
    [Suggestion("Study for 30 minutes timer", Study), Suggestion("Workout for 45 minutes timer", Health),
     Suggestion("Focus work for 2 hours timer", Work)]

  /** The alarm group names the next hour, unwrapped, and the current minute. */
  function AlarmIdeas(hour: nat, minute: nat): seq<Suggestion>
  {
    var nextHour := PadTwo(hour + 1);
    [Suggestion("Alarm at " + nextHour + ":" + PadTwo(minute) + " for meeting", Work),
     Suggestion("Remind me at " + nextHour + ":30 to call mom", Personal),
     Suggestion("Wake up at 7:00 AM tomorrow", Personal)]
  }

  // What the lowercased input has to contain for each keyword group.
  predicate AsksMeeting(lower: string) { Contains(lower, "meet") || Contains(lower, "call") }
  predicate AsksShopping(lower: string) { Contains(lower, "buy") || Contains(lower, "shop") }
  predicate AsksStudy(lower: string) { Contains(lower, "study") || Contains(lower, "learn") }
  predicate AsksFitness(lower: string) { Contains(lower, "exercise") || Contains(lower, "gym") }
  predicate AsksTimer(lower: string) { Contains(lower, "timer") || Contains(lower, "time") }
  predicate AsksAlarm(lower: string) { Contains(lower, "alarm") || Contains(lower, "remind") || Contains(lower, "wake") }

  /** A group offered only when its condition holds. */
  function Offer(when: bool, ideas: seq<Suggestion>): seq<Suggestion>
  {
    if when then ideas else []
  }

  /**
   * `getSmartSuggestions`: the keyword groups of the lowercased input, the
   * working-hours (9 to 17) or evening (18 to 22) pair, then the timer and
   * alarm groups.
   */
  function SmartSuggestions(input: string, hour: nat, minute: nat): (r: seq<Suggestion>)
    ensures |r| <= 16
  {
    var lower := Lower(input);
    Offer(AsksMeeting(lower), MeetingIdeas) + Offer(AsksShopping(lower), ShoppingIdeas)
    + Offer(AsksStudy(lower), StudyIdeas) + Offer(AsksFitness(lower), FitnessIdeas)
    + (if 9 <= hour <= 17 then WorkHourIdeas else Offer(18 <= hour <= 22, EveningIdeas))
    + Offer(AsksTimer(lower), TimerIdeas) + Offer(AsksAlarm(lower), AlarmIdeas(hour, minute))
  }

  /** No suggestion of another group starts like one of the alarm group and has its type. */
  lemma NotAlarmIdea(x: Suggestion, hour: nat, minute: nat)
    requires x.text != []
    requires x.text[0] == 'A' ==> x.kind != Work
    requires x.text[0] == 'R' || x.text[0] == 'W' ==> x.kind != Personal
    ensures x !in AlarmIdeas(hour, minute)
  {
    var ideas := AlarmIdeas(hour, minute);
    assert ideas[0].text[0] == 'A' && ideas[1].text[0] == 'R' && ideas[2].text[0] == 'W';
  }

  /** The meeting group is offered exactly when the input asks for it. */
  lemma SmartMeeting(input: string, hour: nat, minute: nat)
    ensures forall x :: x in MeetingIdeas ==> (x in SmartSuggestions(input, hour, minute) <==> AsksMeeting(Lower(input)))
  {
    forall x | x in MeetingIdeas
      ensures x in SmartSuggestions(input, hour, minute) <==> AsksMeeting(Lower(input))
    {
      assert x == MeetingIdeas[0] || x == MeetingIdeas[1];
      assert x !in ShoppingIdeas && x !in StudyIdeas && x !in FitnessIdeas && x !in EveningIdeas;
      assert x !in WorkHourIdeas && x !in TimerIdeas;
      NotAlarmIdea(x, hour, minute);
    }
  }

  /** The shopping group is offered exactly when the input asks for it. */
  lemma SmartShopping(input: string, hour: nat, minute: nat)
    ensures forall x :: x in ShoppingIdeas ==> (x in SmartSuggestions(input, hour, minute) <==> AsksShopping(Lower(input)))
  {
    forall x | x in ShoppingIdeas
      ensures x in SmartSuggestions(input, hour, minute) <==> AsksShopping(Lower(input))
    {
      assert x == ShoppingIdeas[0] || x == ShoppingIdeas[1];
      assert x !in MeetingIdeas && x !in StudyIdeas && x !in FitnessIdeas && x !in WorkHourIdeas && x !in EveningIdeas;
      assert x !in TimerIdeas;
      NotAlarmIdea(x, hour, minute);
    }
  }

  /** The study group is offered exactly when the input asks for it. */
  lemma SmartStudy(input: string, hour: nat, minute: nat)
    ensures forall x :: x in StudyIdeas ==> (x in SmartSuggestions(input, hour, minute) <==> AsksStudy(Lower(input)))
  {
    forall x | x in StudyIdeas
      ensures x in SmartSuggestions(input, hour, minute) <==> AsksStudy(Lower(input))
    {
      assert x == StudyIdeas[0] || x == StudyIdeas[1];
      assert x !in MeetingIdeas && x !in ShoppingIdeas && x !in FitnessIdeas && x !in WorkHourIdeas && x !in EveningIdeas;
      assert |TimerIdeas[0].text| != |x.text|;
      assert x !in TimerIdeas;
      NotAlarmIdea(x, hour, minute);
    }
  }

  /** The fitness group is offered exactly when the input asks for it. */
  lemma SmartFitness(input: string, hour: nat, minute: nat)
    ensures forall x :: x in FitnessIdeas ==> (x in SmartSuggestions(input, hour, minute) <==> AsksFitness(Lower(input)))
  {
    forall x | x in FitnessIdeas
      ensures x in SmartSuggestions(input, hour, minute) <==> AsksFitness(Lower(input))
    {
      assert x == FitnessIdeas[0] || x == FitnessIdeas[1];
      assert x !in MeetingIdeas && x !in ShoppingIdeas && x !in StudyIdeas && x !in WorkHourIdeas && x !in EveningIdeas;
      assert |TimerIdeas[1].text| != |x.text|;
      assert x !in TimerIdeas;
      NotAlarmIdea(x, hour, minute);
    }
  }

  /** The timer group is offered exactly when the input asks for it. */
  lemma SmartTimer(input: string, hour: nat, minute: nat)
    ensures forall x :: x in TimerIdeas ==> (x in SmartSuggestions(input, hour, minute) <==> AsksTimer(Lower(input)))
  {
    forall x | x in TimerIdeas
      ensures x in SmartSuggestions(input, hour, minute) <==> AsksTimer(Lower(input))
    {
      assert x == TimerIdeas[0] || x == TimerIdeas[1] || x == TimerIdeas[2];
      assert |StudyIdeas[0].text| != |x.text| && |StudyIdeas[1].text| != |x.text|;
      assert x !in MeetingIdeas && x !in ShoppingIdeas && x !in StudyIdeas && x !in FitnessIdeas;
      assert x !in WorkHourIdeas && x !in EveningIdeas;
      NotAlarmIdea(x, hour, minute);
    }
  }

  /** A suggestion that starts like one of the alarm group and has its type is in none of the fixed groups. */
  lemma NotFixedIdea(x: Suggestion)
    requires x.text != []
    requires (x.text[0] == 'A' && x.kind == Work) || ((x.text[0] == 'R' || x.text[0] == 'W') && x.kind == Personal)
    ensures x !in MeetingIdeas && x !in ShoppingIdeas && x !in StudyIdeas && x !in FitnessIdeas
    ensures x !in WorkHourIdeas && x !in EveningIdeas && x !in TimerIdeas
  {
  }

  /** The alarm group is offered exactly when the input asks for it. */
  lemma SmartAlarm(input: string, hour: nat, minute: nat)
    ensures forall x :: x in AlarmIdeas(hour, minute) ==> (x in SmartSuggestions(input, hour, minute) <==> AsksAlarm(Lower(input)))
  {
    var ideas := AlarmIdeas(hour, minute);
    assert ideas[0].text[0] == 'A' && ideas[1].text[0] == 'R' && ideas[2].text[0] == 'W';
    forall x | x in ideas
      ensures x in SmartSuggestions(input, hour, minute) <==> AsksAlarm(Lower(input))
    {
      assert x == ideas[0] || x == ideas[1] || x == ideas[2];
      NotFixedIdea(x);
    }
  }

  /** The working-hours pair is offered exactly from 9 to 17 o'clock, the evening pair exactly from 18 to 22. */
  lemma SmartHour(input: string, hour: nat, minute: nat)
    ensures forall x :: x in WorkHourIdeas ==> (x in SmartSuggestions(input, hour, minute) <==> 9 <= hour <= 17)
    ensures forall y :: y in EveningIdeas ==> (y in SmartSuggestions(input, hour, minute) <==> 18 <= hour <= 22)
  {
    forall x | x in WorkHourIdeas
      ensures x in SmartSuggestions(input, hour, minute) <==> 9 <= hour <= 17
    {
      assert x == WorkHourIdeas[0] || x == WorkHourIdeas[1];
      assert x !in MeetingIdeas && x !in ShoppingIdeas && x !in StudyIdeas && x !in FitnessIdeas && x !in EveningIdeas;
      assert x !in TimerIdeas;
      NotAlarmIdea(x, hour, minute);
    }
    forall y | y in EveningIdeas
      ensures y in SmartSuggestions(input, hour, minute) <==> 18 <= hour <= 22
    {
      assert y == EveningIdeas[0] || y == EveningIdeas[1];
      assert y !in MeetingIdeas && y !in ShoppingIdeas && y !in StudyIdeas && y !in FitnessIdeas && y !in WorkHourIdeas;
      assert y !in TimerIdeas;
      NotAlarmIdea(y, hour, minute);
    }
  }

  /** Without a keyword, outside 9 to 22 o'clock nothing is suggested. */
  lemma SmartSuggestionsNone(input: string, hour: nat, minute: nat)
    requires !(9 <= hour <= 22)
    requires var lower := Lower(input);
      !AsksMeeting(lower) && !AsksShopping(lower) && !AsksStudy(lower) && !AsksFitness(lower)
      && !AsksTimer(lower) && !AsksAlarm(lower)
    ensures SmartSuggestions(input, hour, minute) == []
  {
  }

  /** The alarm suggestion names the next hour without wrapping: at 23:xx it says "24". */
  lemma SmartAlarmAtMidnight(input: string, minute: nat)
    requires AsksAlarm(Lower(input))
    ensures Suggestion("Alarm at 24:" + PadTwo(minute) + " for meeting", Work) in SmartSuggestions(input, 23, minute)
  {
    assert NatToString(24) == NatToString(2) + [DigitChar(4)] == "24";
    assert AlarmIdeas(23, minute)[0] == Suggestion("Alarm at 24:" + PadTwo(minute) + " for meeting", Work);
  }

  /** The input the recommender reads besides the text: the to-do list and the clock, as parameters. */
  datatype Context = Context(todos: seq<Todo>, dayOfWeek: int, dayOfMonth: int, hour: nat, minute: nat)

  /** All candidates, in the order they are concatenated. */
  function Candidates(input: string, ctx: Context): seq<Suggestion>
  {
    RecurringTasks(ctx.dayOfWeek, ctx.dayOfMonth) + PatternSuggestions(ctx.todos) + SmartSuggestions(input, ctx.hour, ctx.minute)
  }

  // ---------------------------------------------------------------------------
  // Ranking (`generateSmartRecommendations`)
  // ---------------------------------------------------------------------------

  datatype Scored = Scored(suggestion: Suggestion, score: nat)

  /** `map` that attaches the score. */
  function ScoreAll(input: string, cs: seq<Suggestion>): (r: seq<Scored>)
    ensures |r| == |cs|
    ensures forall k :: 0 <= k < |cs| ==> r[k] == Scored(cs[k], Score(input, cs[k].text))
    decreases |cs|
  {
    if cs == [] then [] else [Scored(cs[0], Score(input, cs[0].text))] + ScoreAll(input, cs[1..])
  }

  /** `filter(suggestion => suggestion.score > 0)`. */
  function Positive(xs: seq<Scored>): (r: seq<Scored>)
    ensures forall k :: 0 <= k < |r| ==> r[k].score > 0 && r[k] in xs
    ensures forall x :: x in xs && x.score > 0 ==> x in r
    decreases |xs|
  {
    if xs == [] then [] else (if xs[0].score > 0 then [xs[0]] else []) + Positive(xs[1..])
  }

  /** Inserts `x` before the first element whose score is not above its own. */
  function InsertDesc(x: Scored, xs: seq<Scored>): (r: seq<Scored>)
    ensures |r| == |xs| + 1
    ensures multiset(r) == multiset(xs) + multiset{x}
    decreases |xs|
  {
    if xs == [] || xs[0].score <= x.score then [x] + xs
    else
      assert xs == [xs[0]] + xs[1..];
      [xs[0]] + InsertDesc(x, xs[1..])
  }

  /** The comparator sort `(a, b) => b.score - a.score`, which is stable: insertion from the back. */
  function SortDesc(xs: seq<Scored>): (r: seq<Scored>)
    ensures multiset(r) == multiset(xs)
    decreases |xs|
  {
    if xs == [] then []
    else
      assert xs == [xs[0]] + xs[1..];
      InsertDesc(xs[0], SortDesc(xs[1..]))
  }

  predicate SortedDesc(xs: seq<Scored>)
  {
    forall i, j :: 0 <= i < j < |xs| ==> xs[i].score >= xs[j].score
  }

  lemma {:induction false} InsertDescSorted(x: Scored, xs: seq<Scored>)
    requires SortedDesc(xs)
    ensures SortedDesc(InsertDesc(x, xs))
    decreases |xs|
  {
    if !(xs == [] || xs[0].score <= x.score) {
      InsertDescSorted(x, xs[1..]);
      var r := InsertDesc(x, xs);
      assert r[1..] == InsertDesc(x, xs[1..]);
      forall k | 1 <= k < |r|
        ensures r[0].score >= r[k].score
      {
        assert r[k] in multiset(InsertDesc(x, xs[1..]));
        assert r[k] == x || r[k] in multiset(xs[1..]);
      }
    }
  }

  lemma {:induction false} SortDescSorted(xs: seq<Scored>)
    ensures SortedDesc(SortDesc(xs))
    decreases |xs|
  {
    if xs != [] {
      SortDescSorted(xs[1..]);
      InsertDescSorted(xs[0], SortDesc(xs[1..]));
    }
  }

  /** The elements with score `v`, in order. */
  function WithScore(xs: seq<Scored>, v: nat): seq<Scored>
    decreases |xs|
  {
    if xs == [] then [] else (if xs[0].score == v then [xs[0]] else []) + WithScore(xs[1..], v)
  }

  lemma WithScoreCons(y: Scored, ys: seq<Scored>, v: nat)
    ensures WithScore([y] + ys, v) == (if y.score == v then [y] else []) + WithScore(ys, v)
  {
    assert ([y] + ys)[0] == y && ([y] + ys)[1..] == ys;
  }

  lemma {:induction false} InsertDescWithScore(x: Scored, xs: seq<Scored>, v: nat)
    requires SortedDesc(xs)
    ensures WithScore(InsertDesc(x, xs), v) == (if x.score == v then [x] else []) + WithScore(xs, v)
    decreases |xs|
  {
    if xs == [] || xs[0].score <= x.score {
      WithScoreCons(x, xs, v);
    } else {
      var tail := xs[1..];
      assert SortedDesc(tail);
      InsertDescWithScore(x, tail, v);
      WithScoreCons(xs[0], InsertDesc(x, tail), v);
      assert xs == [xs[0]] + tail;
      WithScoreCons(xs[0], tail, v);
    }
  }

  /** Stability: for every score, the elements with that score keep their relative order. */
  lemma {:induction false} SortDescStable(xs: seq<Scored>, v: nat)
    ensures WithScore(SortDesc(xs), v) == WithScore(xs, v)
    decreases |xs|
  {
    if xs != [] {
      SortDescStable(xs[1..], v);
      SortDescSorted(xs[1..]);
      InsertDescWithScore(xs[0], SortDesc(xs[1..]), v);
    }
  }

  /** The filter keeps, for every positive score, exactly the elements with that score, in order. */
  lemma {:induction false} PositiveWithScore(xs: seq<Scored>, v: nat)
    requires v > 0
    ensures WithScore(Positive(xs), v) == WithScore(xs, v)
    decreases |xs|
  {
    if xs != [] {
      PositiveWithScore(xs[1..], v);
      if xs[0].score > 0 {
        WithScoreCons(xs[0], Positive(xs[1..]), v);
      } else {
        assert Positive(xs) == Positive(xs[1..]);
      }
    }
  }

  /** Taking a prefix keeps, for every score, a prefix of the elements with that score. */
  lemma {:induction false} WithScorePrefix(xs: seq<Scored>, n: nat, v: nat)
    requires n <= |xs|
    ensures WithScore(xs[..n], v) <= WithScore(xs, v)
    decreases n
  {
    if n > 0 {
      assert xs[..n][0] == xs[0] && xs[..n][1..] == xs[1..][..n - 1];
      WithScorePrefix(xs[1..], n - 1, v);
    }
  }

  /** `slice(0, 5)`. */
  function TopFive(xs: seq<Scored>): (r: seq<Scored>)
    ensures |r| <= 5 && r <= xs
    ensures |xs| >= 5 ==> |r| == 5
  {
    if |xs| <= 5 then xs else xs[..5]
  }

  /** Score, filter, stable sort by descending score, keep five. */
  function Rank(input: string, cs: seq<Suggestion>): seq<Scored>
  {
    TopFive(SortDesc(Positive(ScoreAll(input, cs))))
  }

  /** The recommendations for an input: the ranked candidates. */
  function Recommendations(input: string, ctx: Context): (r: seq<Scored>)
    ensures |r| <= 5
  {
    Rank(input, Candidates(input, ctx))
  }

  /** Every ranked entry is a candidate with its own score, which is positive. */
  lemma RankMembers(input: string, cs: seq<Suggestion>)
    ensures var r := Rank(input, cs);
      forall k :: 0 <= k < |r| ==>
        r[k].score > 0 && r[k].suggestion in cs && r[k].score == Score(input, r[k].suggestion.text)
  {
    var all := ScoreAll(input, cs);
    var pos := Positive(all);
    var sorted := SortDesc(pos);
    var r := Rank(input, cs);
    forall k | 0 <= k < |r|
      ensures r[k].score > 0 && r[k].suggestion in cs && r[k].score == Score(input, r[k].suggestion.text)
    {
      assert r[k] == sorted[k];
      assert r[k] in multiset(sorted);
      assert r[k] in pos;
      var j :| 0 <= j < |all| && all[j] == r[k];
      assert cs[j] == r[k].suggestion;
    }
  }

  /** The ranked entries come in non-increasing order of score. */
  lemma RankSorted(input: string, cs: seq<Suggestion>)
    ensures SortedDesc(Rank(input, cs))
  {
    SortDescSorted(Positive(ScoreAll(input, cs)));
  }

  /**
   * Ties keep the order of the candidates: for each score, the ranked
   * entries are the first candidates with that score, in candidate order.
   */
  lemma RankStable(input: string, cs: seq<Suggestion>, v: nat)
    ensures v > 0 ==> WithScore(Rank(input, cs), v) <= WithScore(ScoreAll(input, cs), v)
    ensures WithScore(Rank(input, cs), v) <= WithScore(Positive(ScoreAll(input, cs)), v)
  {
    if v > 0 {
      PositiveWithScore(ScoreAll(input, cs), v);
    }
    var pos := Positive(ScoreAll(input, cs));
    var sorted := SortDesc(pos);
    var n := if |sorted| <= 5 then |sorted| else 5;
    assert TopFive(sorted) == sorted[..n];
    WithScorePrefix(sorted, n, v);
    SortDescStable(pos, v);
  }

  lemma TopFiveOfSorted(sorted: seq<Scored>, x: Scored)
    requires SortedDesc(sorted)
    requires x in multiset(sorted) - multiset(TopFive(sorted))
    ensures |TopFive(sorted)| == 5
    ensures forall k :: 0 <= k < 5 ==> TopFive(sorted)[k].score >= x.score
  {
    var r := TopFive(sorted);
    if |sorted| <= 5 {
      assert false;
    }
    var rest := sorted[5..];
    assert sorted == r + rest;
    assert multiset(sorted) == multiset(r) + multiset(rest);
    assert x in multiset(rest);
    var m :| 0 <= m < |rest| && rest[m] == x;
    forall k | 0 <= k < 5
      ensures r[k].score >= x.score
    {
      assert r[k] == sorted[k] && x == sorted[5 + m];
    }
  }

  /** A positive candidate that is not shown only happens when five are shown, each scoring at least as much. */
  lemma RankKeepsBest(input: string, cs: seq<Suggestion>, x: Scored)
    requires x in multiset(Positive(ScoreAll(input, cs))) - multiset(Rank(input, cs))
    ensures |Rank(input, cs)| == 5
    ensures forall k :: 0 <= k < 5 ==> Rank(input, cs)[k].score >= x.score
  {
    var pos := Positive(ScoreAll(input, cs));
    SortDescSorted(pos);
    TopFiveOfSorted(SortDesc(pos), x);
  }

  /**
   * What is shown: each recommendation is a candidate with its score, which
   * is positive; scores do not increase down the list; and among equal
   * scores the candidates keep the order of the concatenated sources.
   */
  lemma RecommendationsProperties(input: string, ctx: Context, v: nat)
    ensures var r := Recommendations(input, ctx);
      forall k :: 0 <= k < |r| ==>
        r[k].score > 0 && r[k].suggestion in Candidates(input, ctx) && r[k].score == Score(input, r[k].suggestion.text)
    ensures SortedDesc(Recommendations(input, ctx))
    ensures v > 0 ==> WithScore(Recommendations(input, ctx), v) <= WithScore(ScoreAll(input, Candidates(input, ctx)), v)
  {
    var cs := Candidates(input, ctx);
    RankMembers(input, cs);
    RankSorted(input, cs);
    RankStable(input, cs, v);
  }

  /** `handleInputChange`: inputs shorter than two characters show nothing. */
  function ShownRecommendations(input: string, ctx: Context): (r: Option<seq<Scored>>)
    ensures r.None? <==> |input| < 2
    ensures r.Some? ==> r.value == Recommendations(input, ctx)
  {
    if |input| < 2 then None else Some(Recommendations(input, ctx))
  }
}
