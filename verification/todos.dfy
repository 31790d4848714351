/**
 * The to-do store as values: the todo record, the list operations that
 * address a task by its number among the uncompleted tasks or by its id,
 * the status/date/type filter of the to-do list, and the voice-command
 * dispatcher with its task-number reader.
 */
module Todos {
  import opened Text
  import opened Lists
  import opened Classifier

  /** A task. `date` is the `YYYY-MM-DD` day it belongs to; ids are opaque numbers. */
  datatype Todo = Todo(id: int, text: string, completed: bool, createdAt: string, date: string, kind: Category)

  // ---------------------------------------------------------------------------
  // Addressing a task by number
  // ---------------------------------------------------------------------------

  /** The number of uncompleted tasks. */
  function CountActive(todos: seq<Todo>): nat
  {
    if todos == [] then 0 else CountActive(todos[..|todos| - 1]) + (if todos[|todos| - 1].completed then 0 else 1)
  }

  lemma {:induction false} CountActiveAppend(a: seq<Todo>, b: seq<Todo>)
    ensures CountActive(a + b) == CountActive(a) + CountActive(b)
    decreases |b|
  {
    if b == [] {
      assert a + b == a;
    } else {
      assert (a + b)[..|a + b| - 1] == a + b[..|b| - 1];
      CountActiveAppend(a, b[..|b| - 1]);
    }
  }

  /**
   * The index in `todos` of the `n`-th uncompleted task (counted from 1),
   * as `todos.filter(t => !t.completed)[n - 1]` picks it; none when `n` is
   * not between 1 and the number of uncompleted tasks.
   */
  function ActiveIndex(todos: seq<Todo>, n: int): (r: Option<nat>)
    ensures r.Some? ==> r.value < |todos| && !todos[r.value].completed && CountActive(todos[..r.value]) == n - 1
    ensures r.None? <==> n < 1 || n > CountActive(todos)
    decreases |todos|
  {
    if n < 1 || n > CountActive(todos) then None
    else if n == CountActive(todos[..|todos| - 1]) + 1 && !todos[|todos| - 1].completed then
      assert todos[..|todos| - 1] == todos[..|todos| - 1];
      Some(|todos| - 1)
    else
      var r := ActiveIndex(todos[..|todos| - 1], n);
      assert todos[..|todos| - 1][..r.value] == todos[..r.value];
      Some(r.value)
  }

  /** Two uncompleted tasks at different places have different numbers: the numbering is one-to-one. */
  lemma {:induction false} ActiveIndexUnique(todos: seq<Todo>, n: int, i: nat)
    requires i < |todos| && !todos[i].completed && CountActive(todos[..i]) == n - 1
    ensures ActiveIndex(todos, n) == Some(i)
    decreases |todos|
  {
    var last := |todos| - 1;
    var init := todos[..last];
    assert todos[..|todos| - 1] == init;
    if i == last {
      assert CountActive(todos) == n;
    } else {
      assert init[..i] == todos[..i];
      ActiveIndexUnique(init, n, i);
      assert CountActive(todos) >= CountActive(init) >= n;
    }
  }

  /** `completeTodoByNumber`: marks the `n`-th uncompleted task done; an out-of-range number changes nothing. */
  function CompleteNumber(todos: seq<Todo>, n: int): (r: seq<Todo>)
    ensures |r| == |todos|
    ensures ActiveIndex(todos, n).None? ==> r == todos
    ensures ActiveIndex(todos, n).Some? ==> CountActive(r) == CountActive(todos) - 1
    ensures forall k :: 0 <= k < |todos| && Some(k) != ActiveIndex(todos, n) ==> r[k] == todos[k]
    ensures ActiveIndex(todos, n).Some? ==>
      var i := ActiveIndex(todos, n).value; r[i] == todos[i].(completed := true)
  {
    match ActiveIndex(todos, n)
    case None => todos
    case Some(i) =>
      var r := todos[i := todos[i].(completed := true)];
      CountActiveAppend(todos[..i], todos[i..]);
      assert todos[..i] + todos[i..] == todos;
      CountActiveAppend(r[..i], r[i..]);
      assert r[..i] + r[i..] == r;
      CountActiveAppend(todos[i..i + 1], todos[i + 1..]);
      assert todos[i..i + 1] + todos[i + 1..] == todos[i..];
      CountActiveAppend(r[i..i + 1], r[i + 1..]);
      assert r[i..i + 1] + r[i + 1..] == r[i..];
      assert r[..i] == todos[..i] && r[i + 1..] == todos[i + 1..];
      assert CountActive(r[i..i + 1]) == 0 && CountActive(todos[i..i + 1]) == 1;
      r
  }

  /** `deleteTodoByNumber`: removes the `n`-th uncompleted task, keeping the others in order. */
  function DeleteNumber(todos: seq<Todo>, n: int): (r: seq<Todo>)
    ensures ActiveIndex(todos, n).None? ==> r == todos
    ensures ActiveIndex(todos, n).Some? ==>
      var i := ActiveIndex(todos, n).value; r == todos[..i] + todos[i + 1..] && |r| == |todos| - 1
  {
    match ActiveIndex(todos, n)
    case None => todos
    case Some(i) => todos[..i] + todos[i + 1..]
  }

  // ---------------------------------------------------------------------------
  // Addressing a task by id
  // ---------------------------------------------------------------------------

  /** The id a task is addressed by. */
  function TodoId(t: Todo): int
  {
    t.id
  }

  /** `toggleTodo`: flips the flag of the first task with the id; an unknown id changes nothing. */
  function ToggleId(todos: seq<Todo>, id: int): (r: seq<Todo>)
    ensures |r| == |todos|
    ensures FindBy(todos, TodoId, id).None? ==> r == todos
    ensures forall k :: 0 <= k < |todos| && Some(k) != FindBy(todos, TodoId, id) ==> r[k] == todos[k]
    ensures FindBy(todos, TodoId, id).Some? ==>
      var i := FindBy(todos, TodoId, id).value; r[i] == todos[i].(completed := !todos[i].completed)
  {
    match FindBy(todos, TodoId, id)
    case None => todos
    case Some(i) => todos[i := todos[i].(completed := !todos[i].completed)]
  }

  /** Toggling the same id twice gives back the list. */
  lemma ToggleTwice(todos: seq<Todo>, id: int)
    ensures ToggleId(ToggleId(todos, id), id) == todos
  {
    var once := ToggleId(todos, id);
    match FindBy(todos, TodoId, id)
    case None =>
    case Some(i) =>
      assert FindBy(once, TodoId, id) == Some(i) by {
        assert forall k :: 0 <= k < i ==> once[k] == todos[k];
        FindByAt(once, TodoId, id, i);
      }
  }

  /** `deleteTodo`: removes the first task with the id; an unknown id changes nothing. */
  function DeleteId(todos: seq<Todo>, id: int): (r: seq<Todo>)
    ensures FindBy(todos, TodoId, id).None? ==> r == todos
    ensures FindBy(todos, TodoId, id).Some? ==>
      var i := FindBy(todos, TodoId, id).value; r == todos[..i] + todos[i + 1..] && |r| == |todos| - 1
  {
    match FindBy(todos, TodoId, id)
    case None => todos
    case Some(i) => todos[..i] + todos[i + 1..]
  }

  // ---------------------------------------------------------------------------
  // The to-do list filter (`renderTodos`)
  // ---------------------------------------------------------------------------

  datatype StatusFilter = All | ActiveOnly | CompletedOnly

  /** The filter state: status, selected day (`""` for none) and selected type (none for all). */
  datatype ListFilter = ListFilter(status: StatusFilter, date: string, kind: Option<Category>)

  function StatusKeeps(status: StatusFilter, t: Todo): bool
  {
    match status
    case All => true
    case ActiveOnly => !t.completed
    case CompletedOnly => t.completed
  }

  /** `todos.filter(...)` by completion status. */
  function KeepStatus(todos: seq<Todo>, status: StatusFilter): seq<Todo>
    decreases |todos|
  {
    if todos == [] then []
    else (if StatusKeeps(status, todos[0]) then [todos[0]] else []) + KeepStatus(todos[1..], status)
  }

  /** `todos.filter(todo => todo.date === date)`. */
  function KeepDate(todos: seq<Todo>, date: string): seq<Todo>
    decreases |todos|
  {
    if todos == [] then []
    else (if todos[0].date == date then [todos[0]] else []) + KeepDate(todos[1..], date)
  }

  /** `todos.filter(todo => todo.type === kind)`. */
  function KeepKind(todos: seq<Todo>, kind: Category): seq<Todo>
    decreases |todos|
  {
    if todos == [] then []
    else (if todos[0].kind == kind then [todos[0]] else []) + KeepKind(todos[1..], kind)
  }

  /** The three filters in the order `renderTodos` applies them: status, then day, then type. */
  function FilterTodos(todos: seq<Todo>, f: ListFilter): seq<Todo>
  {
    var byStatus := if f.status == All then todos else KeepStatus(todos, f.status);
    var byDate := if f.date != "" then KeepDate(byStatus, f.date) else byStatus;
    if f.kind.Some? then KeepKind(byDate, f.kind.value) else byDate
  }

  /** A task is listed when it passes all three filters. */
  predicate Shown(f: ListFilter, t: Todo)
  {
    StatusKeeps(f.status, t) && (f.date == "" || t.date == f.date) && (f.kind.None? || t.kind == f.kind.value)
  }

  /** The tasks that pass all three filters, in list order, in one pass. */
  function ShownTodos(todos: seq<Todo>, f: ListFilter): (r: seq<Todo>)
    ensures |r| <= |todos|
    ensures forall k :: 0 <= k < |r| ==> Shown(f, r[k]) && r[k] in todos
    ensures forall t :: t in todos && Shown(f, t) ==> t in r
    decreases |todos|
  {
    if todos == [] then []
    else (if Shown(f, todos[0]) then [todos[0]] else []) + ShownTodos(todos[1..], f)
  }

  /** The first step of each filter: the head is kept or dropped, the rest is filtered. */
  lemma FilterStep(x: Todo, rest: seq<Todo>, f: ListFilter)
    ensures KeepStatus([x] + rest, f.status) == (if StatusKeeps(f.status, x) then [x] else []) + KeepStatus(rest, f.status)
    ensures KeepDate([x] + rest, f.date) == (if x.date == f.date then [x] else []) + KeepDate(rest, f.date)
    ensures f.kind.Some? ==>
      KeepKind([x] + rest, f.kind.value) == (if x.kind == f.kind.value then [x] else []) + KeepKind(rest, f.kind.value)
  {
    assert ([x] + rest)[0] == x && ([x] + rest)[1..] == rest;
  }

  /** The filter pipeline lists exactly the tasks that pass all three filters, in list order. */
  lemma {:induction false} FilterTodosIsShown(todos: seq<Todo>, f: ListFilter)
    ensures FilterTodos(todos, f) == ShownTodos(todos, f)
    decreases |todos|
  {
    if todos != [] {
      var x, rest := todos[0], todos[1..];
      assert todos == [x] + rest;
      FilterTodosIsShown(rest, f);
      var a := if f.status == All then todos else KeepStatus(todos, f.status);
      var a' := if f.status == All then rest else KeepStatus(rest, f.status);
      var sx := StatusKeeps(f.status, x);
      FilterStep(x, rest, f);
      assert a == (if sx then [x] else []) + a';
      var b := if f.date != "" then KeepDate(a, f.date) else a;
      var b' := if f.date != "" then KeepDate(a', f.date) else a';
      var dx := sx && (f.date == "" || x.date == f.date);
      if sx {
        FilterStep(x, a', f);
      } else {
        assert a == a';
      }
      assert b == (if dx then [x] else []) + b';
      if dx {
        FilterStep(x, b', f);
      } else {
        assert b == b';
      }
    }
  }

  // ---------------------------------------------------------------------------
  // Voice commands (`processVoiceCommand`, `extractTaskNumber`)
  // ---------------------------------------------------------------------------

  /** The first decimal number in a text (`transcript.match(/\d+/)` read by `parseInt`), if any. */
  function TaskNumber(t: string): (r: Option<nat>)
    ensures r.None? <==> forall k :: 0 <= k < |t| ==> !IsDigit(t[k])
  {
    var i := FirstDigit(t, 0);
    if i == |t| then None else Some(Value(t[i..DigitEnd(t, i)]))
  }

  /** The index of the first digit at or after `i`, or `|t|`. */
  function FirstDigit(t: string, i: nat): (j: nat)
    requires i <= |t|
    ensures i <= j <= |t| && (j < |t| ==> IsDigit(t[j]))
    ensures forall k :: i <= k < j ==> !IsDigit(t[k])
    decreases |t| - i
  {
    if i == |t| || IsDigit(t[i]) then i else FirstDigit(t, i + 1)
  }

  /** The number read is the whole digit run that starts at the first digit of the text. */
  lemma TaskNumberIsFirstRun(t: string, i: nat, j: nat)
    requires i < j <= |t| && AllDigits(t[i..j]) && (j == |t| || !IsDigit(t[j]))
    requires forall k :: 0 <= k < i ==> !IsDigit(t[k])
    ensures TaskNumber(t) == Some(Value(t[i..j]))
  {
    assert IsDigit(t[i..j][0]);
    assert FirstDigit(t, 0) == i;
    forall k | i <= k < j
      ensures IsDigit(t[k])
    {
      assert t[k] == t[i..j][k - i];
    }
    DigitRunIsMaximal(t, i, j);
  }

  /** The phrases an add command is recognised by; each is eight characters long. */
  const AddPhrases: seq<string> := ["add task", "add todo", "new task"]

  /** An add phrase, in any case, starts at index `i`. */
  predicate PhraseAt(s: string, i: int)
  {
    0 <= i && i + 8 <= |s| && Lower(s[i..i + 8]) in AddPhrases
  }

  lemma PhraseAtTail(s: string)
    requires |s| > 0
    ensures forall i :: 0 <= i ==> (PhraseAt(s[1..], i) <==> PhraseAt(s, i + 1))
  {
    forall i | 0 <= i
      ensures PhraseAt(s[1..], i) <==> PhraseAt(s, i + 1)
    {
      if 0 <= i && i + 8 <= |s[1..]| {
        assert s[1..][i..i + 8] == s[i + 1..i + 9];
      }
    }
  }

  /**
   * `replace(/(add task|add todo|new task)/gi, '')`: scanning left to right,
   * an occurrence of a phrase in any case is dropped and the scan goes on
   * after it; every other character is kept.
   */
  function RemoveAddPhrases(s: string): (r: string)
    ensures |r| <= |s|
    ensures (forall i :: !PhraseAt(s, i)) ==> r == s
    decreases |s|
  {
    if PhraseAt(s, 0) then RemoveAddPhrases(s[8..])
    else if s == [] then []
    else
      PhraseAtTail(s);
      [s[0]] + RemoveAddPhrases(s[1..])
  }

  /**
   * The scan drops a phrase where it meets one: when no phrase starts
   * inside `a`, a phrase `p` (in any case) right after `a` is removed and
   * the scan goes on after it.
   */
  lemma {:induction false} RemoveAddPhrasesDrops(a: string, p: string, b: string)
    requires Lower(p) in AddPhrases
    requires forall i :: 0 <= i < |a| ==> !PhraseAt(a + p + b, i)
    ensures RemoveAddPhrases(a + p + b) == a + RemoveAddPhrases(b)
    decreases |a|
  {
    var s := a + p + b;
    assert |p| == |Lower(p)| == 8;
    if a == [] {
      assert s == p + b;
      assert s[0..8] == p;
      assert PhraseAt(s, 0);
      assert s[8..] == b;
    } else {
      var t := a[1..] + p + b;
      assert s == [a[0]] + t;
      assert s[1..] == t;
      assert !PhraseAt(s, 0);
      assert RemoveAddPhrases(s) == [s[0]] + RemoveAddPhrases(t);
      PhraseAtTail(s);
      forall i | 0 <= i < |a[1..]|
        ensures !PhraseAt(t, i)
      {
        assert !PhraseAt(s, i + 1);
      }
      RemoveAddPhrasesDrops(a[1..], p, b);
      assert a == [a[0]] + a[1..];
    }
  }

  /** What a transcript asks for. */
  datatype Command =
    | AddByVoice(text: string)   // add the text as a task
    | PromptTask                 // an add command with nothing to add
    | CompleteTask(n: nat)
    | PromptComplete             // a complete command without a number
    | DeleteTask(n: nat)
    | PromptDelete               // a delete command without a number
    | ClearAll
    | ListTasks

  predicate IsAddCommand(t: string)
  {
    Contains(t, "add task") || Contains(t, "add todo") || Contains(t, "new task")
  }

  predicate IsCompleteCommand(t: string)
  {
    Contains(t, "complete task") || Contains(t, "mark done") || Contains(t, "finish task")
  }

  predicate IsDeleteCommand(t: string)
  {
    Contains(t, "delete task") || Contains(t, "remove task")
  }

  predicate IsClearCommand(t: string)
  {
    Contains(t, "clear all") || Contains(t, "delete all") || Contains(t, "remove all")
  }

  predicate IsListCommand(t: string)
  {
    Contains(t, "list tasks") || Contains(t, "show tasks") || Contains(t, "read tasks")
  }

  /**
   * `processVoiceCommand`: the keyword checks run in the order add,
   * complete, delete, clear all, list; a transcript that matches none is
   * added as a task as it is. The checks are case-sensitive.
   */
  function Dispatch(transcript: string): (c: Command)
    ensures c.AddByVoice? && IsAddCommand(transcript) ==> Trim(RemoveAddPhrases(transcript)) == c.text != ""
    ensures c.AddByVoice? && !IsAddCommand(transcript) ==> c.text == transcript
    ensures c.PromptTask? <==> IsAddCommand(transcript) && Trim(RemoveAddPhrases(transcript)) == ""
    ensures (!IsAddCommand(transcript) && !IsCompleteCommand(transcript) && !IsDeleteCommand(transcript)
             && !IsClearCommand(transcript) && !IsListCommand(transcript)) ==> c == AddByVoice(transcript)
    ensures (c.CompleteTask? || c.PromptComplete?) <==> !IsAddCommand(transcript) && IsCompleteCommand(transcript)
    ensures (c.DeleteTask? || c.PromptDelete?) <==>
      !IsAddCommand(transcript) && !IsCompleteCommand(transcript) && IsDeleteCommand(transcript)
    ensures c.ClearAll? <==>
      !IsAddCommand(transcript) && !IsCompleteCommand(transcript) && !IsDeleteCommand(transcript) && IsClearCommand(transcript)
    ensures c.ListTasks? <==>
      !IsAddCommand(transcript) && !IsCompleteCommand(transcript) && !IsDeleteCommand(transcript)
      && !IsClearCommand(transcript) && IsListCommand(transcript)
  {
    if IsAddCommand(transcript) then
      var taskText := Trim(RemoveAddPhrases(transcript));
      if taskText != "" then AddByVoice(taskText) else PromptTask
    else if IsCompleteCommand(transcript) then
      match TaskNumber(transcript)
      case Some(n) => CompleteTask(n)
      case None => PromptComplete
    else if IsDeleteCommand(transcript) then
      match TaskNumber(transcript)
      case Some(n) => DeleteTask(n)
      case None => PromptDelete
    else if IsClearCommand(transcript) then ClearAll
    else if IsListCommand(transcript) then ListTasks
    else AddByVoice(transcript)
  }

  /** A complete or delete command carries the first number of the transcript. */
  lemma DispatchReadsNumber(transcript: string)
    requires !IsAddCommand(transcript) && (IsCompleteCommand(transcript) || IsDeleteCommand(transcript))
    ensures var c := Dispatch(transcript);
      (c.CompleteTask? || c.DeleteTask?) <==> TaskNumber(transcript).Some?
    ensures var c := Dispatch(transcript);
      c.CompleteTask? ==> Some(c.n) == TaskNumber(transcript)
    ensures var c := Dispatch(transcript);
      c.DeleteTask? ==> Some(c.n) == TaskNumber(transcript)
  {
  }
}
