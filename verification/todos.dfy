/** The task record and the three in-place patches the controller applies to
    its local list after a successful write: the `map` that flips completion,
    the `map` that sets a priority, and the `filter` that drops an id. */
module Todos {

  /** One task as the controller holds it. The server timestamp `createdAt`
      is only a sort key on the store side and is left out. */
  datatype Todo = Todo(id: string, text: string, completed: bool, priority: int)

  /** Some item of `todos` carries `id`. */
  predicate HasId(todos: seq<Todo>, id: string)
  {
    exists i :: 0 <= i < |todos| && todos[i].id == id
  }

  /** No two items share an id (the store's document ids are unique). */
  predicate UniqueIds(todos: seq<Todo>)
  {
    forall i, j :: 0 <= i < j < |todos| ==> todos[i].id != todos[j].id
  }

  /** How many items carry `id`. */
  function CountId(todos: seq<Todo>, id: string): (n: nat)
    ensures n <= |todos|
    ensures n == 0 <==> !HasId(todos, id)
  {
    if todos == [] then 0
    else (if todos[0].id == id then 1 else 0) + CountId(todos[1..], id)
  }

  /** The (id, text) pairs of a list: the part of an item no handler of
      the controller may change. */
  function IdTexts(todos: seq<Todo>): set<(string, string)>
  {
    set x | x in todos :: (x.id, x.text)
  }

  /** Every item of `after` comes from an item of `before` with the same id
      and the same text: the patches never invent an item or edit a text. */
  predicate DerivedFrom(after: seq<Todo>, before: seq<Todo>)
  {
    IdTexts(after) <= IdTexts(before)
  }

  /** The patch of a successful toggle: every item whose id is `id` gets
      `completed := !completed`, where `completed` is the flag the caller
      passed, not the item's own field. */
  function ToggleCompleted(todos: seq<Todo>, id: string, completed: bool): (r: seq<Todo>)
    ensures |r| == |todos|
    ensures forall i :: 0 <= i < |todos| && todos[i].id != id ==> r[i] == todos[i]
    ensures forall i :: 0 <= i < |todos| && todos[i].id == id ==>
      && r[i].id == id && r[i].text == todos[i].text
      && r[i].priority == todos[i].priority && r[i].completed == !completed
  {
    if todos == [] then []
    else
      var head := if todos[0].id == id then todos[0].(completed := !completed) else todos[0];
      [head] + ToggleCompleted(todos[1..], id, completed)
  }

  /** The patch of a successful priority change: every item whose id is `id`
      gets `priority := priority`. */
  function SetPriority(todos: seq<Todo>, id: string, priority: int): (r: seq<Todo>)
    ensures |r| == |todos|
    ensures forall i :: 0 <= i < |todos| && todos[i].id != id ==> r[i] == todos[i]
    ensures forall i :: 0 <= i < |todos| && todos[i].id == id ==>
      && r[i].id == id && r[i].text == todos[i].text
      && r[i].completed == todos[i].completed && r[i].priority == priority
  {
    if todos == [] then []
    else
      var head := if todos[0].id == id then todos[0].(priority := priority) else todos[0];
      [head] + SetPriority(todos[1..], id, priority)
  }

  /** The patch of a successful delete: the items whose id differs from
      `id`, in their original order. */
  function RemoveId(todos: seq<Todo>, id: string): (r: seq<Todo>)
    ensures |r| + CountId(todos, id) == |todos|
    ensures forall x :: x in r <==> x in todos && x.id != id
    ensures !HasId(r, id)
  {
    if todos == [] then []
    else (if todos[0].id == id then [] else [todos[0]]) + RemoveId(todos[1..], id)
  }

  // ----- Order and exactness of the delete patch -----

  /** Filtering distributes over concatenation; together with the one-item
      case this pins the result down as an order-preserving filter. */
  lemma {:induction false} RemoveIdConcat(a: seq<Todo>, b: seq<Todo>, id: string)
    ensures RemoveId(a + b, id) == RemoveId(a, id) + RemoveId(b, id)
  {
    if a == [] {
      assert a + b == b;
    } else {
      assert (a + b)[0] == a[0];
      assert (a + b)[1..] == a[1..] + b;
      RemoveIdConcat(a[1..], b, id);
    }
  }

  /** Deleting an id nobody carries leaves the list as it was; in particular
      a second delete of the same id changes nothing. */
  lemma {:induction false} RemoveAbsentId(todos: seq<Todo>, id: string)
    requires !HasId(todos, id)
    ensures RemoveId(todos, id) == todos
  {
    if todos != [] {
      assert todos[0].id != id;
      assert !HasId(todos[1..], id) by {
        forall i | 0 <= i < |todos[1..]|
          ensures todos[1..][i].id != id
        {
          assert todos[1..][i] == todos[i + 1];
        }
      }
      RemoveAbsentId(todos[1..], id);
      assert todos == [todos[0]] + todos[1..];
    }
  }

  lemma RemoveIdIdempotent(todos: seq<Todo>, id: string)
    ensures RemoveId(RemoveId(todos, id), id) == RemoveId(todos, id)
  {
    RemoveAbsentId(RemoveId(todos, id), id);
  }

  /** With unique ids an id occurs at most once. */
  lemma {:induction false} CountUnique(todos: seq<Todo>, id: string)
    requires UniqueIds(todos)
    ensures CountId(todos, id) <= 1
  {
    if todos != [] {
      var tail := todos[1..];
      assert UniqueIds(tail) by {
        forall i, j | 0 <= i < j < |tail|
          ensures tail[i].id != tail[j].id
        {
          assert tail[i] == todos[i + 1] && tail[j] == todos[j + 1];
        }
      }
      CountUnique(tail, id);
      if todos[0].id == id {
        assert !HasId(tail, id) by {
          forall i | 0 <= i < |tail|
            ensures tail[i].id != id
          {
            assert tail[i] == todos[i + 1];
          }
        }
      }
    }
  }

  /** Deleting a present id from a list with unique ids removes exactly one
      item. */
  lemma RemovePresentUnique(todos: seq<Todo>, id: string)
    requires UniqueIds(todos) && HasId(todos, id)
    ensures |RemoveId(todos, id)| == |todos| - 1
  {
  }

  /** A list with unique ids is its head followed by a tail with unique ids
      that does not carry the head's id. */
  lemma UniqueIdsCons(todos: seq<Todo>)
    requires todos != []
    ensures UniqueIds(todos) <==> UniqueIds(todos[1..]) && !HasId(todos[1..], todos[0].id)
  {
  }

  /** Deleting keeps ids unique. */
  lemma {:induction false} RemoveIdKeepsUnique(todos: seq<Todo>, id: string)
    requires UniqueIds(todos)
    ensures UniqueIds(RemoveId(todos, id))
  {
    if todos != [] {
      var tail := todos[1..];
      UniqueIdsCons(todos);
      RemoveIdKeepsUnique(tail, id);
      var rest := RemoveId(tail, id);
      if todos[0].id != id {
        var r := [todos[0]] + rest;
        assert r[1..] == rest;
        UniqueIdsCons(r);
      }
    }
  }

  // ----- The two map patches -----

  /** Toggling with `c` and then with `!c` is the same as the second toggle
      alone: the last written flag wins. */
  lemma ToggleLastWins(todos: seq<Todo>, id: string, c: bool)
    ensures ToggleCompleted(ToggleCompleted(todos, id, c), id, !c) == ToggleCompleted(todos, id, !c)
  {
  }

  /** If every item with `id` is currently uncompleted when `c` is false (or
      completed when `c` is true), toggling with `c` and back with `!c`
      restores the list. */
  lemma ToggleRoundTrip(todos: seq<Todo>, id: string, c: bool)
    requires forall i :: 0 <= i < |todos| && todos[i].id == id ==> todos[i].completed == c
    ensures ToggleCompleted(ToggleCompleted(todos, id, c), id, !c) == todos
  {
    ToggleLastWins(todos, id, c);
  }

  /** Two priority changes of the same id: the later value wins. */
  lemma SetPriorityLastWins(todos: seq<Todo>, id: string, p: int, q: int)
    ensures SetPriority(SetPriority(todos, id, p), id, q) == SetPriority(todos, id, q)
  {
  }

  /** Completion and priority patches touch disjoint fields, so they
      commute, whatever the ids. */
  lemma ToggleAndSetPriorityCommute(todos: seq<Todo>, a: string, c: bool, b: string, p: int)
    ensures ToggleCompleted(SetPriority(todos, b, p), a, c) == SetPriority(ToggleCompleted(todos, a, c), b, p)
  {
  }

  /** Deleting an id right after patching it is the same as deleting it
      directly: the patch only touched the items the delete drops. */
  lemma {:induction false} RemoveAfterToggle(todos: seq<Todo>, id: string, c: bool)
    ensures RemoveId(ToggleCompleted(todos, id, c), id) == RemoveId(todos, id)
  {
    if todos != [] {
      var t := ToggleCompleted(todos, id, c);
      assert t[1..] == ToggleCompleted(todos[1..], id, c);
      RemoveAfterToggle(todos[1..], id, c);
    }
  }

  lemma {:induction false} RemoveAfterSetPriority(todos: seq<Todo>, id: string, p: int)
    ensures RemoveId(SetPriority(todos, id, p), id) == RemoveId(todos, id)
  {
    if todos != [] {
      var t := SetPriority(todos, id, p);
      assert t[1..] == SetPriority(todos[1..], id, p);
      RemoveAfterSetPriority(todos[1..], id, p);
    }
  }

  // ----- What every patch preserves -----

  /** The completion patch keeps every item's id and text and keeps ids
      unique. */
  lemma ToggleCompletedPreserves(todos: seq<Todo>, id: string, c: bool)
    ensures IdTexts(ToggleCompleted(todos, id, c)) == IdTexts(todos)
    ensures UniqueIds(todos) ==> UniqueIds(ToggleCompleted(todos, id, c))
  {
    var t := ToggleCompleted(todos, id, c);
    forall x | x in t
      ensures (x.id, x.text) in IdTexts(todos)
    {
      var i :| 0 <= i < |t| && t[i] == x;
      assert todos[i] in todos;
    }
    forall y | y in todos
      ensures (y.id, y.text) in IdTexts(t)
    {
      var i :| 0 <= i < |todos| && todos[i] == y;
      assert t[i] in t;
    }
  }

  /** The priority patch keeps every item's id and text and keeps ids
      unique. */
  lemma SetPriorityPreserves(todos: seq<Todo>, id: string, p: int)
    ensures IdTexts(SetPriority(todos, id, p)) == IdTexts(todos)
    ensures UniqueIds(todos) ==> UniqueIds(SetPriority(todos, id, p))
  {
    var t := SetPriority(todos, id, p);
    forall x | x in t
      ensures (x.id, x.text) in IdTexts(todos)
    {
      var i :| 0 <= i < |t| && t[i] == x;
      assert todos[i] in todos;
    }
    forall y | y in todos
      ensures (y.id, y.text) in IdTexts(t)
    {
      var i :| 0 <= i < |todos| && todos[i] == y;
      assert t[i] in t;
    }
  }

  /** The delete patch keeps only items of its input and keeps ids unique. */
  lemma RemoveIdPreserves(todos: seq<Todo>, id: string)
    ensures DerivedFrom(RemoveId(todos, id), todos)
    ensures UniqueIds(todos) ==> UniqueIds(RemoveId(todos, id))
  {
    if UniqueIds(todos) {
      RemoveIdKeepsUnique(todos, id);
    }
  }
}
