/** The todo store: its state, the reducer over todo actions, and the
    `useReducer` cell that applies dispatched actions one after another. */
module TodoContext {
  import opened TodoTypes

  /** The store's state: the todos in insertion order. */
  datatype TodoState = TodoState(todos: seq<Todo>)

  /** The state the provider starts from: no todos. */
  const InitialState: TodoState := TodoState([])

  /** The ids of a list of todos. */
  function Ids(todos: seq<Todo>): set<int>
  {
    set t | t in todos :: t.id
  }

  /** No two positions of the list carry the same id. */
  predicate UniqueIds(todos: seq<Todo>)
  {
    forall i, j :: 0 <= i < j < |todos| ==> todos[i].id != todos[j].id
  }

  /** The list with every todo whose id is `id` filtered out, keeping the
      order of the rest (the `filter` of the REMOVE_TODO case). */
  function WithoutId(todos: seq<Todo>, id: int): (r: seq<Todo>)
    ensures |r| <= |todos|
    ensures forall k :: 0 <= k < |r| ==> r[k].id != id
    ensures forall t :: t in r <==> t in todos && t.id != id
  {
    if todos == [] then []
    else if todos[0].id != id then [todos[0]] + WithoutId(todos[1..], id)
    else WithoutId(todos[1..], id)
  }

  /** The reducer: ADD_TODO appends its payload at the end, REMOVE_TODO drops
      every todo with the given id. It never fails and never mutates `state`. */
  function TodoReducer(state: TodoState, action: TodoAction): (r: TodoState)
    ensures action.AddTodo? ==>
      |r.todos| == |state.todos| + 1 &&
      r.todos[..|state.todos|] == state.todos &&
      r.todos[|state.todos|] == action.todo
    ensures action.RemoveTodo? ==>
      |r.todos| <= |state.todos| &&
      (forall t :: t in r.todos ==> t in state.todos && t.id != action.id) &&
      (forall t :: t in state.todos && t.id != action.id ==> t in r.todos)
  {
    match action
    case AddTodo(todo) => TodoState(state.todos + [todo])
    case RemoveTodo(id) => TodoState(WithoutId(state.todos, id))
  }

  /** `a` can be obtained from `b` by deleting elements: same relative order. */
  ghost predicate IsSubsequence(a: seq<Todo>, b: seq<Todo>)
    decreases |b|
  {
    if a == [] then true
    else if b == [] then false
    else (a[0] == b[0] && IsSubsequence(a[1..], b[1..])) || IsSubsequence(a, b[1..])
  }

  /** Removal keeps the survivors in their original relative order. */
  lemma {:induction false} WithoutIdIsSubsequence(todos: seq<Todo>, id: int)
    ensures IsSubsequence(WithoutId(todos, id), todos)
    decreases |todos|
  {
    if todos != [] {
      WithoutIdIsSubsequence(todos[1..], id);
      var rest := WithoutId(todos[1..], id);
      if todos[0].id != id {
        assert WithoutId(todos, id) == [todos[0]] + rest;
        assert ([todos[0]] + rest)[1..] == rest;
      }
    }
  }

  /** Removal deletes every copy of a todo with that id and keeps every copy
      of every other todo: it changes the multiset of todos exactly so. */
  lemma {:induction false} WithoutIdCounts(todos: seq<Todo>, id: int)
    ensures forall t :: multiset(WithoutId(todos, id))[t] ==
                        if t.id == id then 0 else multiset(todos)[t]
    decreases |todos|
  {
    if todos != [] {
      WithoutIdCounts(todos[1..], id);
      assert todos == [todos[0]] + todos[1..];
    }
  }

  /** Removal leaves the list as it was exactly when no todo has the id. */
  lemma {:induction false} WithoutIdUnchangedIffAbsent(todos: seq<Todo>, id: int)
    ensures WithoutId(todos, id) == todos <==> id !in Ids(todos)
    decreases |todos|
  {
    if todos != [] {
      WithoutIdUnchangedIffAbsent(todos[1..], id);
      assert todos == [todos[0]] + todos[1..];
      if id in Ids(todos) {
        var t :| t in todos && t.id == id;
        assert t !in WithoutId(todos, id);
      } else {
        assert todos[0] in todos;
        assert id !in Ids(todos[1..]) by {
          forall t | t in todos[1..] ensures t.id != id {
            assert t in todos;
          }
        }
      }
    }
  }

  /** Removal shortens the list exactly when some todo carries the id. */
  lemma WithoutIdShrinksIffPresent(todos: seq<Todo>, id: int)
    ensures |WithoutId(todos, id)| < |todos| <==> id in Ids(todos)
  {
    WithoutIdUnchangedIffAbsent(todos, id);
    WithoutIdIsSubsequence(todos, id);
    if |WithoutId(todos, id)| == |todos| {
      SubsequenceOfSameLength(WithoutId(todos, id), todos);
    }
  }

  /** A subsequence as long as the sequence it is taken from is that sequence. */
  lemma {:induction false} SubsequenceOfSameLength(a: seq<Todo>, b: seq<Todo>)
    requires IsSubsequence(a, b) && |a| == |b|
    ensures a == b
    decreases |b|
  {
    if a != [] {
      SubsequenceLength(a, b[1..]);
      assert !IsSubsequence(a, b[1..]);
      SubsequenceOfSameLength(a[1..], b[1..]);
      assert a == [a[0]] + a[1..];
      assert b == [b[0]] + b[1..];
    }
  }

  /** A subsequence is never longer than the sequence it is taken from. */
  lemma {:induction false} SubsequenceLength(a: seq<Todo>, b: seq<Todo>)
    ensures IsSubsequence(a, b) ==> |a| <= |b|
    decreases |b|
  {
    if a != [] && b != [] {
      SubsequenceLength(a[1..], b[1..]);
      SubsequenceLength(a, b[1..]);
    }
  }

  /** Removing the same id twice is the same as removing it once. */
  lemma WithoutIdIdempotent(todos: seq<Todo>, id: int)
    ensures WithoutId(WithoutId(todos, id), id) == WithoutId(todos, id)
  {
    WithoutIdUnchangedIffAbsent(WithoutId(todos, id), id);
  }

  /** Filtering a concatenation filters each part. */
  lemma {:induction false} WithoutIdConcat(a: seq<Todo>, b: seq<Todo>, id: int)
    ensures WithoutId(a + b, id) == WithoutId(a, id) + WithoutId(b, id)
    decreases |a|
  {
    if a != [] {
      WithoutIdConcat(a[1..], b, id);
      assert (a + b)[1..] == a[1..] + b;
    } else {
      assert a + b == b;
    }
  }

  /** ADD_TODO does not look for an existing id: a todo whose id is already
      present is appended all the same, and the list then holds that id twice. */
  lemma AddDuplicateIdIsKept(state: TodoState, todo: Todo)
    requires todo.id in Ids(state.todos)
    ensures var r := TodoReducer(state, AddTodo(todo));
      todo in r.todos && r.todos[|r.todos| - 1] == todo && !UniqueIds(r.todos)
  {
    var r := TodoReducer(state, AddTodo(todo));
    var u :| u in state.todos && u.id == todo.id;
    var i :| 0 <= i < |state.todos| && state.todos[i] == u;
    assert r.todos[i] == u;
    assert r.todos[|state.todos|] == todo;
  }

  /** An action keeps the ids of a unique-id list unique exactly when it is
      not an ADD_TODO whose id is already present. */
  lemma ReducerKeepsUniqueIds(state: TodoState, action: TodoAction)
    requires UniqueIds(state.todos)
    ensures UniqueIds(TodoReducer(state, action).todos) <==>
            !(action.AddTodo? && action.todo.id in Ids(state.todos))
  {
    match action
    case AddTodo(todo) =>
      if todo.id in Ids(state.todos) {
        AddDuplicateIdIsKept(state, todo);
      } else {
        var r := TodoReducer(state, action).todos;
        forall i, j | 0 <= i < j < |r| ensures r[i].id != r[j].id {
          if j == |state.todos| {
            assert r[i] == state.todos[i];
            assert r[i] in state.todos;
          } else {
            assert r[i] == state.todos[i] && r[j] == state.todos[j];
          }
        }
      }
    case RemoveTodo(id) =>
      WithoutIdKeepsUniqueIds(state.todos, id);
  }

  /** Filtering never creates a repeated id. */
  lemma {:induction false} WithoutIdKeepsUniqueIds(todos: seq<Todo>, id: int)
    requires UniqueIds(todos)
    ensures UniqueIds(WithoutId(todos, id))
    decreases |todos|
  {
    if todos != [] {
      assert UniqueIds(todos[1..]) by {
        forall i, j | 0 <= i < j < |todos[1..]|
          ensures todos[1..][i].id != todos[1..][j].id
        {
          assert todos[1..][i] == todos[i + 1] && todos[1..][j] == todos[j + 1];
        }
      }
      WithoutIdKeepsUniqueIds(todos[1..], id);
      var rest := WithoutId(todos[1..], id);
      if todos[0].id != id {
        var r := [todos[0]] + rest;
        forall i, j | 0 <= i < j < |r| ensures r[i].id != r[j].id {
          if i == 0 {
            assert r[j] == rest[j - 1] && r[j] in todos[1..];
            var k :| 0 <= k < |todos[1..]| && todos[1..][k] == r[j];
            assert todos[k + 1] == r[j];
          } else {
            assert r[i] == rest[i - 1] && r[j] == rest[j - 1];
          }
        }
      }
    }
  }

  /** The state after applying `actions` in order, one reducer step each. */
  function Replay(state: TodoState, actions: seq<TodoAction>): (r: TodoState)
    ensures |r.todos| <= |state.todos| + |actions|
    ensures actions == [] ==> r == state
    decreases |actions|
  {
    if actions == [] then state
    else Replay(TodoReducer(state, actions[0]), actions[1..])
  }

  /** Replaying one more action is one more reducer step. */
  lemma {:induction false} ReplaySnoc(state: TodoState, actions: seq<TodoAction>, action: TodoAction)
    ensures Replay(state, actions + [action]) == TodoReducer(Replay(state, actions), action)
    decreases |actions|
  {
    if actions == [] {
      assert [] + [action] == [action];
    } else {
      assert (actions + [action])[1..] == actions[1..] + [action];
      ReplaySnoc(TodoReducer(state, actions[0]), actions[1..], action);
    }
  }

  // ---- Reference description of a run of actions --------------------------

  /** The list with every todo whose id is in `ids` filtered out. */
  function WithoutIds(todos: seq<Todo>, ids: set<int>): seq<Todo>
    decreases |todos|
  {
    if todos == [] then []
    else (if todos[0].id in ids then [] else [todos[0]]) + WithoutIds(todos[1..], ids)
  }

  /** Every id some REMOVE_TODO in `actions` removes. */
  function RemovedIds(actions: seq<TodoAction>): set<int>
    decreases |actions|
  {
    if actions == [] then {}
    else (if actions[0].RemoveTodo? then {actions[0].id} else {}) + RemovedIds(actions[1..])
  }

  /** The todos added by `actions` that no later REMOVE_TODO removes, in the
      order in which they were added. */
  function Survivors(actions: seq<TodoAction>): seq<Todo>
    decreases |actions|
  {
    if actions == [] then []
    else match actions[0]
      case AddTodo(t) =>
        (if t.id in RemovedIds(actions[1..]) then [] else [t]) + Survivors(actions[1..])
      case RemoveTodo(_) => Survivors(actions[1..])
  }

  lemma {:induction false} WithoutIdsConcat(a: seq<Todo>, b: seq<Todo>, ids: set<int>)
    ensures WithoutIds(a + b, ids) == WithoutIds(a, ids) + WithoutIds(b, ids)
    decreases |a|
  {
    if a != [] {
      WithoutIdsConcat(a[1..], b, ids);
      assert (a + b)[1..] == a[1..] + b;
    } else {
      assert a + b == b;
    }
  }

  lemma {:induction false} WithoutIdAsWithoutIds(todos: seq<Todo>, id: int, ids: set<int>)
    ensures WithoutIds(WithoutId(todos, id), ids) == WithoutIds(todos, {id} + ids)
    decreases |todos|
  {
    if todos != [] {
      WithoutIdAsWithoutIds(todos[1..], id, ids);
      if todos[0].id != id {
        assert ([todos[0]] + WithoutId(todos[1..], id))[1..] == WithoutId(todos[1..], id);
      }
    }
  }

  /** Running any sequence of actions from a state keeps the old todos whose
      ids are never removed, followed by the added todos that survive, each
      group in its original order. */
  lemma {:induction false} ReplayCharacterised(state: TodoState, actions: seq<TodoAction>)
    ensures Replay(state, actions).todos ==
            WithoutIds(state.todos, RemovedIds(actions)) + Survivors(actions)
    decreases |actions|
  {
    if actions == [] {
      WithoutIdsNone(state.todos);
    } else {
      var rest := actions[1..];
      var next := TodoReducer(state, actions[0]);
      ReplayCharacterised(next, rest);
      match actions[0]
      case AddTodo(t) =>
        WithoutIdsConcat(state.todos, [t], RemovedIds(rest));
        assert [t][1..] == [];
        assert RemovedIds(actions) == RemovedIds(rest);
      case RemoveTodo(id) =>
        WithoutIdAsWithoutIds(state.todos, id, RemovedIds(rest));
    }
  }

  lemma {:induction false} WithoutIdsNone(todos: seq<Todo>)
    ensures WithoutIds(todos, {}) == todos
    decreases |todos|
  {
    if todos != [] {
      WithoutIdsNone(todos[1..]);
      assert todos == [todos[0]] + todos[1..];
    }
  }

  /** From the initial state, the store holds exactly the added todos that are
      not removed later, in insertion order. */
  lemma ReplayFromInitial(actions: seq<TodoAction>)
    ensures Replay(InitialState, actions).todos == Survivors(actions)
  {
    ReplayCharacterised(InitialState, actions);
  }

  /** Adding {1,"a"} then {2,"b"} gives both in that order; removing id 1
      afterwards leaves {2,"b"}. */
  lemma AddAddRemoveScenario()
    ensures Replay(InitialState, [AddTodo(Todo(1, "a")), AddTodo(Todo(2, "b"))]).todos
            == [Todo(1, "a"), Todo(2, "b")]
    ensures Replay(InitialState, [AddTodo(Todo(1, "a")), AddTodo(Todo(2, "b")), RemoveTodo(1)]).todos
            == [Todo(2, "b")]
  {
    ReplayFromInitial([AddTodo(Todo(1, "a")), AddTodo(Todo(2, "b"))]);
    ReplayFromInitial([AddTodo(Todo(1, "a")), AddTodo(Todo(2, "b")), RemoveTodo(1)]);
  }

  // ---- The reducer cell ---------------------------------------------------

  /** The state cell `useReducer(todoReducer, initialState)` provides: the
      current state and the log of actions dispatched to it so far. */
  class TodoStore {
    var state: TodoState
    var dispatched: seq<TodoAction>

    /** The state is always the initial state with every dispatched action
        applied in dispatch order. */
    ghost predicate Valid()
      reads this
    {
      state == Replay(InitialState, dispatched)
    }

    constructor ()
      ensures Valid()
      ensures state == InitialState && dispatched == []
    {
      state := InitialState;
      dispatched := [];
    }

    /** Hands one action to the reducer and stores the state it returns. */
    method Dispatch(action: TodoAction)
      requires Valid()
      modifies this
      ensures Valid()
      ensures dispatched == old(dispatched) + [action]
      ensures state == TodoReducer(old(state), action)
    {
      ReplaySnoc(InitialState, dispatched, action);
      state := TodoReducer(state, action);
      dispatched := dispatched + [action];
    }
  }
}
