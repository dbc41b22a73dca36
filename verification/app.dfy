/** The controller of the `App` component: the record of its five state
    hooks, one pure transition per handler, the render guards, and the
    priority-star helper. Each awaited call into the document store is an
    input of the transition (`Remote`), and each transition reports the
    store calls it issued, in order. */
module App {
  import opened Wrappers
  import opened Todos
  import Text

  /** `(todos, newTodoText, newTodoPriority, isLoading, error)`. */
  datatype State = State(
    todos: seq<Todo>,
    newTodoText: string,
    newTodoPriority: int,
    isLoading: bool,
    error: Option<string>)

  /** A call into the store module, with the arguments the controller
      passes. */
  datatype Call =
    | GetTodos
    | AddTodo(text: string, priority: int)
    | ToggleTodoComplete(id: string, currentStatus: bool)
    | UpdateTodoPriority(id: string, newPriority: int)
    | DeleteTodo(id: string)

  /** The state a handler leaves behind and the store calls it made. */
  datatype Step = Step(state: State, calls: seq<Call>)

  const DefaultPriority := 3

  const FetchFailed := "TODOリストの読み込みに失敗しました。"
  const AddFailed := "TODOの追加に失敗しました。"
  const ToggleFailed := "TODOの更新に失敗しました。"
  const PriorityFailed := "重要度の変更に失敗しました。"
  const DeleteFailed := "TODOの削除に失敗しました。"

  /** The hooks' initial values: an empty list, empty input, the default
      priority, loading, no error. */
  function Initial(): State
  {
    State([], "", DefaultPriority, true, None)
  }

  // ----- Render guards -----

  predicate ShowsError(s: State) { s.error.Some? }

  predicate ShowsLoading(s: State) { s.isLoading }

  /** The list is rendered only when not loading and there is no error. */
  predicate ShowsList(s: State) { !s.isLoading && s.error.None? }

  predicate ShowsEmptyNotice(s: State) { ShowsList(s) && |s.todos| == 0 }

  /** The submit button is enabled only when not loading and the trimmed
      input is non-empty. */
  predicate CanSubmit(s: State) { !s.isLoading && !Text.IsBlank(s.newTodoText) }

  /** The items the user sees. */
  function VisibleTodos(s: State): seq<Todo>
  {
    if ShowsList(s) then s.todos else []
  }

  /** The initial render shows only the loading indicator: no list, no
      error, submit disabled. */
  lemma InitialRender()
    ensures ShowsLoading(Initial()) && !ShowsError(Initial())
    ensures VisibleTodos(Initial()) == [] && !ShowsEmptyNotice(Initial())
    ensures !CanSubmit(Initial())
    ensures Initial().newTodoPriority == DefaultPriority
  {
  }

  // ----- fetchTodos -----

  /** The synchronous start of a reload: loading on, error cleared. */
  function StartFetch(s: State): (r: State)
    ensures ShowsLoading(r) && !ShowsError(r) && !ShowsList(r) && !CanSubmit(r)
    ensures r.todos == s.todos && r.newTodoText == s.newTodoText
    ensures r.newTodoPriority == s.newTodoPriority
  {
    s.(isLoading := true, error := None)
  }

  /** The end of a reload once `getTodos` settled: the fetched list on
      success, the old list kept and an error on failure; loading off in
      both cases. */
  function FinishFetch(s: State, fetched: Remote<seq<Todo>>): (r: State)
    requires s.isLoading && s.error.None?
    ensures !r.isLoading
    ensures r.newTodoText == s.newTodoText && r.newTodoPriority == s.newTodoPriority
    ensures fetched.Success? ==> r.todos == fetched.value && r.error.None?
    ensures fetched.Failure? ==> r.todos == s.todos && r.error == Some(FetchFailed)
  {
    var settled := match fetched
      case Success(list) => s.(todos := list)
      case Failure => s.(error := Some(FetchFailed));
    settled.(isLoading := false)
  }

  /** `fetchTodos` as one atomic transition. */
  function FetchTodos(s: State, fetched: Remote<seq<Todo>>): (r: Step)
    ensures r.calls == [GetTodos]
    ensures !r.state.isLoading
    ensures r.state.newTodoText == s.newTodoText && r.state.newTodoPriority == s.newTodoPriority
    ensures fetched.Success? ==> r.state.todos == fetched.value && r.state.error.None?
    ensures fetched.Failure? ==> r.state.todos == s.todos && r.state.error == Some(FetchFailed)
  {
    Step(FinishFetch(StartFetch(s), fetched), [GetTodos])
  }

  /** A successful reload shows exactly the fetched list, in the order the
      store returned it, whatever error was shown before. */
  lemma ReloadShowsFetched(s: State, list: seq<Todo>)
    ensures VisibleTodos(FetchTodos(s, Success(list)).state) == list
    ensures ShowsEmptyNotice(FetchTodos(s, Success(list)).state) <==> list == []
  {
  }

  /** A failed reload keeps the previous list in the state but hides it
      behind the error message. */
  lemma FailedReloadHidesStaleList(s: State)
    ensures FetchTodos(s, Failure).state.todos == s.todos
    ensures ShowsError(FetchTodos(s, Failure).state)
    ensures VisibleTodos(FetchTodos(s, Failure).state) == []
    ensures !ShowsEmptyNotice(FetchTodos(s, Failure).state)
  {
  }

  // ----- handleAddTodo -----

  /** `handleAddTodo`: blank input is ignored without any call; otherwise
      `addTodo(text, priority)`, and on success the input is reset and the
      list reloaded (the reload is not awaited by the source; here it runs
      to completion as part of the same transition). */
  function HandleAddTodo(s: State, added: Remote<string>, fetched: Remote<seq<Todo>>): (r: Step)
    ensures Text.IsBlank(s.newTodoText) ==> r.state == s && r.calls == []
    ensures !Text.IsBlank(s.newTodoText) && added.Success? ==>
      && r.calls == [AddTodo(s.newTodoText, s.newTodoPriority), GetTodos]
      && r.state.newTodoText == [] && r.state.newTodoPriority == DefaultPriority
      && !r.state.isLoading
      && (fetched.Success? ==> r.state.todos == fetched.value && r.state.error.None?)
      && (fetched.Failure? ==> r.state.todos == s.todos && r.state.error == Some(FetchFailed))
    ensures !Text.IsBlank(s.newTodoText) && added.Failure? ==>
      && r.calls == [AddTodo(s.newTodoText, s.newTodoPriority)]
      && r.state.error == Some(AddFailed)
      && r.state.(error := s.error) == s
  {
    if Text.IsBlank(s.newTodoText) then Step(s, [])
    else
      var call := AddTodo(s.newTodoText, s.newTodoPriority);
      match added
      case Success(_) =>
        var cleared := s.(newTodoText := "", newTodoPriority := DefaultPriority);
        var reload := FetchTodos(cleared, fetched);
        Step(reload.state, [call] + reload.calls)
      case Failure =>
        Step(s.(error := Some(AddFailed)), [call])
  }

  /** Whitespace-only input is a no-op, exactly as empty input is. */
  lemma AddWhitespaceIsNoop(s: State, added: Remote<string>, fetched: Remote<seq<Todo>>)
    requires Text.AllWhitespace(s.newTodoText)
    ensures HandleAddTodo(s, added, fetched) == Step(s, [])
  {
    Text.BlankIffAllWhitespace(s.newTodoText);
  }

  /** A successful add followed by a successful reload clears any earlier
      error and shows the reloaded list. */
  lemma AddClearsEarlierError(s: State, id: string, list: seq<Todo>)
    requires !Text.IsBlank(s.newTodoText) && s.error.Some?
    ensures VisibleTodos(HandleAddTodo(s, Success(id), Success(list)).state) == list
    ensures !ShowsError(HandleAddTodo(s, Success(id), Success(list)).state)
  {
  }

  /** When the submit button is enabled, submitting calls `addTodo` with the
      typed text and the chosen priority. */
  lemma SubmitEnabledCallsAdd(s: State, added: Remote<string>, fetched: Remote<seq<Todo>>)
    requires CanSubmit(s)
    ensures HandleAddTodo(s, added, fetched).calls[0] == AddTodo(s.newTodoText, s.newTodoPriority)
  {
  }

  // ----- handleToggleComplete, handleChangePriority, handleDeleteTodo -----

  /** `handleToggleComplete(id, completed)`: on success the list is patched
      with `!completed` on the items carrying `id`; on failure only the
      error changes. */
  function HandleToggleComplete(s: State, id: string, completed: bool, outcome: Remote<()>): (r: Step)
    ensures r.calls == [ToggleTodoComplete(id, completed)]
    ensures outcome.Success? ==>
      && r.state.todos == ToggleCompleted(s.todos, id, completed)
      && r.state.(todos := s.todos) == s
    ensures outcome.Failure? ==>
      && r.state.error == Some(ToggleFailed)
      && r.state.(error := s.error) == s
  {
    var call := ToggleTodoComplete(id, completed);
    match outcome
    case Success(_) => Step(s.(todos := ToggleCompleted(s.todos, id, completed)), [call])
    case Failure => Step(s.(error := Some(ToggleFailed)), [call])
  }

  /** `handleChangePriority(id, newPriority)`. */
  function HandleChangePriority(s: State, id: string, newPriority: int, outcome: Remote<()>): (r: Step)
    ensures r.calls == [UpdateTodoPriority(id, newPriority)]
    ensures outcome.Success? ==>
      && r.state.todos == SetPriority(s.todos, id, newPriority)
      && r.state.(todos := s.todos) == s
    ensures outcome.Failure? ==>
      && r.state.error == Some(PriorityFailed)
      && r.state.(error := s.error) == s
  {
    var call := UpdateTodoPriority(id, newPriority);
    match outcome
    case Success(_) => Step(s.(todos := SetPriority(s.todos, id, newPriority)), [call])
    case Failure => Step(s.(error := Some(PriorityFailed)), [call])
  }

  /** `handleDeleteTodo(id)`. */
  function HandleDeleteTodo(s: State, id: string, outcome: Remote<()>): (r: Step)
    ensures r.calls == [DeleteTodo(id)]
    ensures outcome.Success? ==>
      && r.state.todos == RemoveId(s.todos, id)
      && r.state.(todos := s.todos) == s
    ensures outcome.Failure? ==>
      && r.state.error == Some(DeleteFailed)
      && r.state.(error := s.error) == s
  {
    var call := DeleteTodo(id);
    match outcome
    case Success(_) => Step(s.(todos := RemoveId(s.todos, id)), [call])
    case Failure => Step(s.(error := Some(DeleteFailed)), [call])
  }

  /** The checkbox passes the item's own flag, so on a list with unique ids
      clicking item `k` flips exactly that item's completion. */
  lemma CheckboxFlipsItem(s: State, k: int)
    requires UniqueIds(s.todos) && 0 <= k < |s.todos|
    ensures var r := HandleToggleComplete(s, s.todos[k].id, s.todos[k].completed, Success(())).state;
      && r.todos[k] == s.todos[k].(completed := !s.todos[k].completed)
      && forall i :: 0 <= i < |s.todos| && i != k ==> r.todos[i] == s.todos[i]
  {
  }

  // ----- User actions and runs of them -----

  /** One user action together with the outcomes of the store calls it
      triggers. */
  datatype Action =
    | Reload(fetched: Remote<seq<Todo>>)
    | Submit(added: Remote<string>, fetched: Remote<seq<Todo>>)
    | Toggle(id: string, completed: bool, outcome: Remote<()>)
    | ChangePriority(id: string, newPriority: int, outcome: Remote<()>)
    | Delete(id: string, outcome: Remote<()>)
    | TypeText(text: string)
    | PickPriority(priority: int)

  /** Actions that patch or edit local state without reloading the list. */
  predicate IsLocal(a: Action)
  {
    a.Toggle? || a.ChangePriority? || a.Delete? || a.TypeText? || a.PickPriority?
  }

  /** The text input's `onChange`: only the typed text changes, and no
      store call is made. */
  function EditText(s: State, text: string): (r: Step)
    ensures r.calls == []
    ensures r.state.newTodoText == text && r.state.(newTodoText := s.newTodoText) == s
  {
    Step(s.(newTodoText := text), [])
  }

  /** The priority select's `onChange`: only the chosen priority changes,
      and no store call is made. */
  function EditPriority(s: State, priority: int): (r: Step)
    ensures r.calls == []
    ensures r.state.newTodoPriority == priority
      && r.state.(newTodoPriority := s.newTodoPriority) == s
  {
    Step(s.(newTodoPriority := priority), [])
  }

  /** The widgets the rendered page offers in state `s`: the input, the
      select and the submit button are disabled while loading, and the
      per-item checkbox, select and delete button exist only while the list
      is rendered. A reload (the mount effect) is always possible. */
  predicate Offered(s: State, a: Action)
  {
    match a
    case Reload(_) => true
    case Submit(_, _) => CanSubmit(s)
    case TypeText(_) => !s.isLoading
    case PickPriority(_) => !s.isLoading
    case Toggle(_, _, _) => ShowsList(s)
    case ChangePriority(_, _, _) => ShowsList(s)
    case Delete(_, _) => ShowsList(s)
  }

  /** Applies one action as an atomic transition. Every action is accepted
      in every state; `Offered` says which ones the page lets a user take. */
  function Dispatch(s: State, a: Action): (r: Step)
  {
    match a
    case Reload(fetched) => FetchTodos(s, fetched)
    case Submit(added, fetched) => HandleAddTodo(s, added, fetched)
    case Toggle(id, completed, outcome) => HandleToggleComplete(s, id, completed, outcome)
    case ChangePriority(id, p, outcome) => HandleChangePriority(s, id, p, outcome)
    case Delete(id, outcome) => HandleDeleteTodo(s, id, outcome)
    case TypeText(text) => EditText(s, text)
    case PickPriority(p) => EditPriority(s, p)
  }

  /** Applies the actions one after the other, each as an atomic
      transition, collecting the store calls in order. */
  function Run(s: State, actions: seq<Action>): (r: Step)
    decreases |actions|
  {
    if actions == [] then Step(s, [])
    else
      var first := Dispatch(s, actions[0]);
      var rest := Run(first.state, actions[1..]);
      Step(rest.state, first.calls + rest.calls)
  }

  /** What a local action keeps from `before` to `after`: the list is
      derived from the old one and no longer, ids stay unique, an error is
      never cleared, and the loading flag is untouched. */
  predicate KeepsLocal(before: State, after: State)
  {
    && DerivedFrom(after.todos, before.todos) && |after.todos| <= |before.todos|
    && (UniqueIds(before.todos) ==> UniqueIds(after.todos))
    && (before.error.Some? ==> after.error.Some?)
    && after.isLoading == before.isLoading
  }

  /** Every local action keeps the local invariant. */
  lemma LocalStep(s: State, a: Action)
    requires IsLocal(a)
    ensures KeepsLocal(s, Dispatch(s, a).state)
  {
    match a
    case Toggle(id, completed, outcome) =>
      ToggleCompletedPreserves(s.todos, id, completed);
      assert KeepsLocal(s, HandleToggleComplete(s, id, completed, outcome).state);
    case ChangePriority(id, p, outcome) =>
      SetPriorityPreserves(s.todos, id, p);
      assert KeepsLocal(s, HandleChangePriority(s, id, p, outcome).state);
    case Delete(id, outcome) =>
      RemoveIdPreserves(s.todos, id);
      assert KeepsLocal(s, HandleDeleteTodo(s, id, outcome).state);
    case TypeText(_) =>
    case PickPriority(_) =>
  }

  /** Without a reload or a submit, no run of actions invents an item,
      changes an id or a text, grows the list, breaks id uniqueness, clears
      an error or changes the loading flag. */
  lemma {:induction false} LocalRunInvariant(s: State, actions: seq<Action>)
    requires forall i :: 0 <= i < |actions| ==> IsLocal(actions[i])
    ensures KeepsLocal(s, Run(s, actions).state)
    decreases |actions|
  {
    if actions != [] {
      var mid := Dispatch(s, actions[0]).state;
      var last := Run(s, actions).state;
      LocalStep(s, actions[0]);
      LocalRunInvariant(mid, actions[1..]);
      assert last == Run(mid, actions[1..]).state;
    }
  }

  /** Once an error shows, no run of local actions brings back the
      per-item controls: they stay hidden until the next reload or add. */
  lemma ErrorHidesItemControls(s: State, actions: seq<Action>, a: Action)
    requires s.error.Some?
    requires forall i :: 0 <= i < |actions| ==> IsLocal(actions[i])
    requires a.Toggle? || a.ChangePriority? || a.Delete?
    ensures !Offered(Run(s, actions).state, a)
  {
    LocalRunInvariant(s, actions);
  }

  /** Once a reload has finished, nothing sets the loading flag again: every
      transition ends with it off. */
  lemma {:induction false} LoadedStaysLoaded(s: State, actions: seq<Action>)
    requires !s.isLoading
    ensures !Run(s, actions).state.isLoading
    decreases |actions|
  {
    if actions != [] {
      var mid := Dispatch(s, actions[0]).state;
      assert !mid.isLoading;
      LoadedStaysLoaded(mid, actions[1..]);
    }
  }

  /** Toggling an item off-then-on through the checkbox protocol, i.e.
      `toggle(id, false)` then `toggle(id, true)`, issues the two store
      calls with opposite flags and leaves the items of `id` uncompleted;
      when they were uncompleted before, the list is restored. */
  lemma ToggleBackAndForth(s: State, id: string)
    ensures var r := Run(s, [Toggle(id, false, Success(())), Toggle(id, true, Success(()))]);
      && r.calls == [ToggleTodoComplete(id, false), ToggleTodoComplete(id, true)]
      && r.state.todos == ToggleCompleted(s.todos, id, true)
      && ((forall i :: 0 <= i < |s.todos| && s.todos[i].id == id ==> !s.todos[i].completed)
          ==> r.state.todos == s.todos)
  {
    var actions := [Toggle(id, false, Success(())), Toggle(id, true, Success(()))];
    var first := Dispatch(s, actions[0]);
    var second := Dispatch(first.state, actions[1]);
    assert actions[1..] == [actions[1]];
    assert Run(second.state, actions[1..][1..]) == Step(second.state, []);
    assert Run(first.state, actions[1..]) == Step(second.state, second.calls);
    ToggleLastWins(s.todos, id, false);
    if forall i :: 0 <= i < |s.todos| && s.todos[i].id == id ==> !s.todos[i].completed {
      ToggleRoundTrip(s.todos, id, false);
    }
  }

  /** A double-clicked delete whose second call fails: the item is gone
      once, the error is shown, and the list is otherwise as after one
      delete. */
  lemma DoubleDelete(s: State, id: string)
    ensures var r := Run(s, [Delete(id, Success(())), Delete(id, Failure)]);
      && r.calls == [DeleteTodo(id), DeleteTodo(id)]
      && r.state.todos == RemoveId(s.todos, id)
      && r.state.error == Some(DeleteFailed)
  {
    var actions := [Delete(id, Success(())), Delete(id, Failure)];
    var first := Dispatch(s, actions[0]);
    var second := Dispatch(first.state, actions[1]);
    assert actions[1..] == [actions[1]];
    assert Run(second.state, actions[1..][1..]) == Step(second.state, []);
    assert Run(first.state, actions[1..]) == Step(second.state, second.calls);
  }

  // ----- renderPriorityStars -----

  const FilledStar := '★'
  const EmptyStar := '☆'

  /** `'★'.repeat(priority) + '☆'.repeat(5 - priority)`: five stars, the
      first `priority` filled, for a priority in 0..5; a RangeError (None)
      otherwise. */
  function RenderPriorityStars(priority: int): (r: Option<string>)
    ensures r.Some? <==> 0 <= priority <= 5
    ensures r.Some? ==> (|r.value| == 5
      && forall i :: 0 <= i < 5 ==> r.value[i] == (if i < priority then FilledStar else EmptyStar))
  {
    match (Text.Repeat(FilledStar, priority), Text.Repeat(EmptyStar, 5 - priority))
    case (Some(filled), Some(empty)) => Some(filled + empty)
    case _ => None
  }

  /** The number of filled stars in a rendering. */
  function CountFilled(stars: string): (n: nat)
    ensures n <= |stars|
  {
    if stars == [] then 0
    else (if stars[0] == FilledStar then 1 else 0) + CountFilled(stars[1..])
  }

  lemma {:induction false} CountFilledPrefix(stars: string, k: nat)
    requires k <= |stars|
    requires forall i :: 0 <= i < |stars| ==> (stars[i] == FilledStar <==> i < k)
    ensures CountFilled(stars) == k
  {
    if stars != [] {
      var tail := stars[1..];
      var k' := if k == 0 then 0 else k - 1;
      forall i | 0 <= i < |tail|
        ensures tail[i] == FilledStar <==> i < k'
      {
        assert tail[i] == stars[i + 1];
      }
      CountFilledPrefix(tail, k');
    }
  }

  /** Reading the filled stars back recovers the priority. */
  lemma StarsRoundTrip(priority: int)
    requires 0 <= priority <= 5
    ensures CountFilled(RenderPriorityStars(priority).value) == priority
  {
    CountFilledPrefix(RenderPriorityStars(priority).value, priority);
  }
}
