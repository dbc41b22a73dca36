# firebase-todo-app controller, modelled in Dafny

This project models the controller inside the `App` component of a small
task-tracking client (`src/App.jsx`). The component keeps five pieces of
state — the list `todos`, the input `newTodoText`, the input
`newTodoPriority`, the flag `isLoading` and the message `error` — and five
handlers move that record to a new state depending on whether their call
into the document store resolved or rejected:

- `fetchTodos` reloads the list (loading on and error cleared first, loading
  off at the end);
- `handleAddTodo` ignores blank input, otherwise calls `addTodo`, resets the
  input and reloads;
- `handleToggleComplete`, `handleChangePriority` and `handleDeleteTodo`
  write to the store and, on success, patch the local list in place with a
  `map` keyed on `id` or a `filter` dropping the `id`.

Files and modules:

- `wrappers.dfy` (`Wrappers`): `Option` (for `null`) and `Remote<T>`, the
  outcome of one awaited store call (`Success(value)` or `Failure`).
- `text.dfy` (`Text`): `String.prototype.trim` (two index scans) over the ECMAScript
  WhiteSpace and LineTerminator characters, the blank test `!s.trim()`, and
  `String.prototype.repeat` with its RangeError for a negative count.
- `todos.dfy` (`Todos`): the `Todo` record and the three list patches, with
  their algebra (last write wins, round trips, commutation, order-preserving
  filter, id uniqueness, no invented items).
- `app.dfy` (`App`): the state record, the store calls a handler issues, one
  pure transition per handler, the render guards, runs of user actions, and
  `renderPriorityStars`.

Every transition returns the new state together with the list of store
calls it issued, so "no call is made" and the arguments of each call are
stated, not assumed. The store itself is not modelled: each call's outcome
(and the fetched list) is an input.

Details of the code a reader might not expect, all modelled as written:

- A failed reload does not clear the list; it only sets the error, and the
  stale list is then hidden by the render guard (`!isLoading && !error`).
- The toggle patch writes the negation of the flag passed to the handler,
  not the negation of the item's current field. The checkbox passes the
  item's own field, so on a list with unique ids the effect is a flip
  (`App.CheckboxFlipsItem`); with a stale flag the write is a no-op on that
  item.
- Priority is not range-checked anywhere in the controller, so no range
  invariant is asserted on `todos`.

## Model

| member | source | states |
|---|---|---|
| Text.TrimBounds | src/App.jsx:36 | `trim()` keeps one contiguous slice of the text: everything before it and after it is whitespace, and a non-empty slice neither starts nor ends with whitespace |
| Text.BlankIffAllWhitespace | src/App.jsx:36 | the add guard `!newTodoText.trim()` holds exactly when every character of the text is whitespace (the empty text included) |
| Text.Repeat | src/App.jsx:100 | `repeat(n)` yields n copies of the character for n >= 0 and a RangeError for a negative count |
| Todos.ToggleCompleted | src/App.jsx:55-59 | same length and order; items with another id are unchanged; items with the id keep id, text and priority and get `completed = !completed` from the passed flag |
| Todos.SetPriority | src/App.jsx:71-75 | same length and order; items with another id are unchanged; items with the id keep id, text and completion and get the new priority |
| Todos.RemoveId | src/App.jsx:90 | the result holds exactly the items whose id differs (membership both ways), no item carries the id, and its length is the input's minus the number of items with that id |
| Todos.RemoveIdConcat | src/App.jsx:90 | the delete filter distributes over concatenation, so it keeps the surviving items in their original relative order |
| Todos.RemoveAbsentId | src/App.jsx:90 | deleting an id no item carries leaves the list unchanged |
| Todos.RemoveIdIdempotent | src/App.jsx:90 | deleting the same id twice equals deleting it once |
| Todos.RemovePresentUnique | src/App.jsx:90 | on a list with unique ids, deleting a present id removes exactly one item |
| Todos.RemoveIdKeepsUnique | src/App.jsx:90 | deleting keeps ids unique |
| Todos.ToggleLastWins | src/App.jsx:55-59 | toggling with a flag and then with its negation equals the second toggle alone |
| Todos.ToggleRoundTrip | src/App.jsx:55-59 | when the items of the id already hold the first flag, toggling with it and back restores the list |
| Todos.SetPriorityLastWins | src/App.jsx:71-75 | two priority changes of one id: the later value wins |
| Todos.ToggleAndSetPriorityCommute | src/App.jsx:55-75 | the completion and priority patches commute, for any two ids |
| Todos.RemoveAfterToggle | src/App.jsx:55-90 | deleting an id after toggling it equals deleting it directly |
| Todos.RemoveAfterSetPriority | src/App.jsx:71-90 | deleting an id after changing its priority equals deleting it directly |
| Todos.ToggleCompletedPreserves | src/App.jsx:55-59 | the completion patch keeps exactly the same (id, text) pairs and keeps ids unique |
| Todos.SetPriorityPreserves | src/App.jsx:71-75 | the priority patch keeps exactly the same (id, text) pairs and keeps ids unique |
| Todos.RemoveIdPreserves | src/App.jsx:90 | the delete patch keeps only (id, text) pairs of its input and keeps ids unique |
| App.InitialRender | src/App.jsx:7-11 | the initial state shows the loading indicator only: no list, no empty notice, no error, submit disabled, priority 3 |
| App.StartFetch | src/App.jsx:14-16 | a reload begins with loading on and the error cleared, so nothing but the loading indicator shows and submit is disabled; list and inputs untouched |
| App.FinishFetch | src/App.jsx:17-25 | after `getTodos` settles loading is off; success installs the fetched list verbatim with no error; failure keeps the old list and sets the read error |
| App.FetchTodos | src/App.jsx:14-26 | a reload issues exactly one `getTodos`, ends not loading, leaves the inputs alone, and on success shows the fetched list, on failure keeps the list and sets the read error |
| App.ReloadShowsFetched | src/App.jsx:143-177 | after a successful reload the visible list is exactly the fetched list, and the empty notice shows exactly when it is empty, whatever error was shown before |
| App.FailedReloadHidesStaleList | src/App.jsx:20-22 | after a failed reload the state still holds the old list, but the error shows and the guard at line 143 hides every item |
| App.HandleAddTodo | src/App.jsx:34-48 | blank input: state unchanged and no call; success: calls `addTodo(text, priority)` then `getTodos`, text reset to empty, priority to 3, reload outcome as in a reload; failure: only the add error is set and only `addTodo` was called |
| App.AddWhitespaceIsNoop | src/App.jsx:36 | submitting whitespace-only text makes no call and changes nothing |
| App.AddClearsEarlierError | src/App.jsx:40-43 | a successful add whose reload succeeds clears an earlier error and shows the reloaded list |
| App.SubmitEnabledCallsAdd | src/App.jsx:131 | whenever the submit button is enabled, submitting calls `addTodo` with the typed text and chosen priority |
| App.HandleToggleComplete | src/App.jsx:51-65 | issues one `toggleTodoComplete(id, completed)`; success patches only the list with the completion patch; failure sets only the update error |
| App.HandleChangePriority | src/App.jsx:68-81 | issues one `updateTodoPriority(id, p)`; success patches only the list with the priority patch; failure sets only the priority error |
| App.HandleDeleteTodo | src/App.jsx:84-96 | issues one `deleteTodo(id)`; success patches only the list with the delete filter; failure sets only the delete error |
| App.EditText | src/App.jsx:113 | typing changes only the input text and makes no store call |
| App.EditPriority | src/App.jsx:120 | choosing a priority changes only the chosen priority and makes no store call |
| App.ErrorHidesItemControls | src/App.jsx:143-170 | once an error shows, no run of toggles, priority changes, deletes or input edits makes the per-item checkbox, select or delete button available again |
| App.CheckboxFlipsItem | src/App.jsx:147-151 | clicking an item's checkbox, which passes the item's own flag, flips exactly that item's completion on a list with unique ids |
| App.LocalStep | src/App.jsx:51-96 | a toggle, priority change, delete or input edit never invents an item, never grows the list, keeps ids unique, never clears an error and never touches the loading flag |
| App.LocalRunInvariant | src/App.jsx:51-96 | the same holds for any run of such actions: items keep their ids and texts, the list only shrinks, an error persists until the next reload |
| App.LoadedStaysLoaded | src/App.jsx:14-96 | once the loading flag is off, no run of handlers turns it back on at the end of a transition |
| App.ToggleBackAndForth | src/App.jsx:51-65 | `toggle(id, false)` then `toggle(id, true)` issues two store calls with opposite flags and leaves the id's items uncompleted, restoring the list when they were uncompleted before |
| App.DoubleDelete | src/App.jsx:84-96 | a double-clicked delete whose second call fails issues two `deleteTodo` calls, leaves the list as after one delete, and shows the delete error |
| App.RenderPriorityStars | src/App.jsx:99-101 | for a priority in 0..5 the result is five stars, the first `priority` filled and the rest empty; any other priority raises a RangeError |
| App.StarsRoundTrip | src/App.jsx:99-101 | counting the filled stars of a rendering recovers the priority |

## Left out

- The store module `src/api/firebase/firestore.js`: each of its calls is an outcome passed into the transition; how the store assigns ids, orders by `createdAt` and stamps the server time is not modelled, so the add-then-reload round trip ("the new item comes back first") is not stated.
- The connection setup in `src/config/firebase.js`: environment variables and SDK initialisation.
- `createdAt`: only a store-side sort key; the controller never reads it.
- Asynchrony: every handler is one atomic transition. In particular the reload started by a successful add is not awaited in the source, and overlapping reloads or deletes can interleave there; the model runs them one after the other.
- The mount effect (`useEffect` calling `fetchTodos`, with `useCallback` memoisation): a run that starts from `App.Initial` with a `Reload` action stands for it.
- JavaScript coercions: `Number(...)` on the select values (priority is an `int` here) and the `todo.priority || 3` fallback shown in the row's select.
- Markup, styling, `e.preventDefault()` and `console` logging.
- `App.Dispatch` and `App.Run` accept every action in every state and ignore the page's enable and render gating (input, select and submit disabled while loading at src/App.jsx:115-131; per-item controls only while the list is rendered at src/App.jsx:143). `App.Offered` states that gating, but `App.LocalRunInvariant` and `App.LoadedStaysLoaded` are proved for all runs, including ones the page cannot produce; only `App.ErrorHidesItemControls` uses `App.Offered`.
- `App.VisibleTodos` is the plain render guard; its properties are the lemmas above.
