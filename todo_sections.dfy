/** The todo view: the input guard of `addTodo`, the Remove button of each
    todo item, the list they render and the missing-provider failure. */
module TodoSections {
  import opened Wrappers
  import opened TodoTypes
  import opened TodoContext

  // ---- String.prototype.trim -----------------------------------------------

  /** The characters JavaScript's `trim` strips: the ECMAScript WhiteSpace
      code points (tab, vertical tab, form feed, space, no-break space, the
      byte order mark and the other space separators) and the LineTerminator
      code points (line feed, carriage return, line and paragraph separator). */
  predicate IsTrimmable(c: char)
  {
    c == '\t' || c == '\n' || c == '\U{000B}' || c == '\U{000C}' || c == '\r' ||
    c == ' ' || c == '\U{00A0}' || c == '\U{1680}' ||
    ('\U{2000}' <= c <= '\U{200A}') ||
    c == '\U{2028}' || c == '\U{2029}' || c == '\U{202F}' || c == '\U{205F}' ||
    c == '\U{3000}' || c == '\U{FEFF}'
  }

  /** `s` without its leading trimmable characters. */
  function TrimStart(s: string): (r: string)
    ensures |r| <= |s| && r == s[|s| - |r|..]
    ensures r == [] || !IsTrimmable(r[0])
    ensures forall k :: 0 <= k < |s| - |r| ==> IsTrimmable(s[k])
  {
    if s != [] && IsTrimmable(s[0]) then TrimStart(s[1..]) else s
  }

  /** `s` without its trailing trimmable characters. */
  function TrimEnd(s: string): (r: string)
    ensures |r| <= |s| && r == s[..|r|]
    ensures r == [] || !IsTrimmable(r[|r| - 1])
    ensures forall k :: |r| <= k < |s| ==> IsTrimmable(s[k])
  {
    if s != [] && IsTrimmable(s[|s| - 1]) then TrimEnd(s[..|s| - 1]) else s
  }

  /** `s.trim()`: a contiguous slice of `s`, starting where the leading
      trimmable characters end, that neither begins nor ends with a trimmable
      character; everything cut off on either side is trimmable. */
  function Trim(s: string): (r: string)
    ensures |r| <= |s|
    ensures r == [] || (!IsTrimmable(r[0]) && !IsTrimmable(r[|r| - 1]))
    ensures var i := |s| - |TrimStart(s)|;
      i + |r| <= |s| && r == s[i..i + |r|] &&
      (forall k :: 0 <= k < i ==> IsTrimmable(s[k])) &&
      (forall k :: i + |r| <= k < |s| ==> IsTrimmable(s[k]))
  {
    TrimEndsAreNotTrimmable(s);
    TrimIsSlice(s);
    TrimTailIsTrimmable(s);
    TrimEnd(TrimStart(s))
  }

  /** The trimmed string neither begins nor ends with a trimmable character. */
  lemma TrimEndsAreNotTrimmable(s: string)
    ensures var r := TrimEnd(TrimStart(s));
      r == [] || (!IsTrimmable(r[0]) && !IsTrimmable(r[|r| - 1]))
  {
    var t := TrimStart(s);
    var r := TrimEnd(t);
    if r != [] {
      assert r[0] == t[0];
    }
  }

  /** The trimmed string is the slice of `s` that starts after the leading
      trimmable characters. */
  lemma TrimIsSlice(s: string)
    ensures var i := |s| - |TrimStart(s)|; var r := TrimEnd(TrimStart(s));
      i + |r| <= |s| && r == s[i..i + |r|]
  {
    var t := TrimStart(s);
    var i := |s| - |t|;
    var r := TrimEnd(t);
    SliceOfSuffix(s, i, |r|);
  }

  /** A prefix of a suffix is a slice. */
  lemma SliceOfSuffix(s: string, i: nat, n: nat)
    requires i + n <= |s|
    ensures s[i..][..n] == s[i..i + n]
  {
  }

  /** Everything after the trimmed slice, in the original string, is trimmable. */
  lemma TrimTailIsTrimmable(s: string)
    ensures var t := TrimStart(s); var i := |s| - |t|;
      forall k :: i + |TrimEnd(t)| <= k < |s| ==> IsTrimmable(s[k])
  {
    var t := TrimStart(s);
    var i := |s| - |t|;
    forall k | i + |TrimEnd(t)| <= k < |s| ensures IsTrimmable(s[k]) {
      assert s[k] == t[k - i];
    }
  }

  /** `newTodo.trim() === ""`, the guard of `addTodo`: true exactly when the
      input is empty or made only of whitespace and line terminators. */
  predicate IsBlank(s: string): (b: bool)
    ensures b <==> forall k :: 0 <= k < |s| ==> IsTrimmable(s[k])
  {
    BlankIffAllTrimmable(s);
    Trim(s) == ""
  }

  /** `trim` yields the empty string exactly when every character of the
      input is trimmable. */
  lemma BlankIffAllTrimmable(s: string)
    ensures Trim(s) == "" <==> forall k :: 0 <= k < |s| ==> IsTrimmable(s[k])
  {
    var t := TrimStart(s);
    assert |t| > 0 ==> t[0] == s[|s| - |t|];
    assert Trim(s) == "" ==> t == [];
  }

  // ---- The provider context ------------------------------------------------

  /** The error both components throw when rendered outside a provider. */
  const MissingProviderMessage: string := "TodoComponent must be used within a TodoProvider"

  /** `useContext(TodoContext)` followed by the components' guard: outside a
      provider the component fails at once instead of proceeding. */
  function UseTodoContext(context: Option<TodoStore>): (r: Result<TodoStore, string>)
    ensures r.Err? <==> context.None?
    ensures r.Ok? ==> r.value == context.value
    ensures r.Err? ==> r.error == MissingProviderMessage
  {
    match context
    case None => Err(MissingProviderMessage)
    case Some(store) => Ok(store)
  }

  // ---- Rendering -----------------------------------------------------------

  /** What one rendered `TodoItem` shows and what its Remove button dispatches. */
  datatype ItemView = ItemView(key: int, text: string, onRemove: TodoAction)

  /** The action a todo's Remove button dispatches: REMOVE_TODO with exactly
      that todo's id. */
  function RemoveActionFor(todo: Todo): (a: TodoAction)
    ensures a.RemoveTodo? && a.id == todo.id
  {
    RemoveTodo(todo.id)
  }

  /** `state.todos.map(...)`: one item per todo, in state order, keyed by id. */
  function RenderTodos(todos: seq<Todo>): (r: seq<ItemView>)
    ensures |r| == |todos|
    ensures forall k :: 0 <= k < |r| ==>
      r[k].key == todos[k].id && r[k].text == todos[k].text &&
      r[k].onRemove == RemoveActionFor(todos[k])
  {
    if todos == [] then []
    else [ItemView(todos[0].id, todos[0].text, RemoveActionFor(todos[0]))] + RenderTodos(todos[1..])
  }

  /** Clicking Remove on the k-th rendered item takes that todo (and every
      other todo with its id) out of the state, keeps every todo with another
      id, and shortens the list. */
  lemma RemoveClickRemovesItsTodo(state: TodoState, k: nat)
    requires k < |state.todos|
    ensures var after := TodoReducer(state, RenderTodos(state.todos)[k].onRemove).todos;
      state.todos[k] !in after &&
      |after| < |state.todos| &&
      (forall t :: t in state.todos && t.id != state.todos[k].id ==> t in after)
  {
    var id := state.todos[k].id;
    assert state.todos[k] in state.todos;
    WithoutIdShrinksIffPresent(state.todos, id);
  }

  /** A todo that is added and then removed by its own Remove button is gone
      again, and the rest of the list is what removing its id before would
      have left. */
  lemma AddThenRemoveItsOwn(state: TodoState, todo: Todo)
    ensures TodoReducer(TodoReducer(state, AddTodo(todo)), RemoveActionFor(todo)).todos
            == WithoutId(state.todos, todo.id)
  {
    WithoutIdConcat(state.todos, [todo], todo.id);
    assert WithoutId([todo], todo.id) == [];
  }

  // ---- The components ------------------------------------------------------

  /** `TodoMainSection`: the text field's state `newTodo` and the provider's
      store it dispatches to. */
  class TodoMainSection {
    const store: TodoStore
    var newTodo: string

    /** A section mounted inside a provider starts with an empty input. */
    constructor (store: TodoStore)
      ensures this.store == store && newTodo == ""
    {
      this.store := store;
      newTodo := "";
    }

    /** Mounting reads the context and fails when there is no provider. */
    static method Mount(context: Option<TodoStore>) returns (r: Result<TodoMainSection, string>)
      ensures r.Err? <==> context.None?
      ensures r.Err? ==> r.error == MissingProviderMessage
      ensures r.Ok? ==> fresh(r.value) && r.value.store == context.value && r.value.newTodo == ""
    {
      var store := UseTodoContext(context);
      match store
      case Err(e) => r := Err(e);
      case Ok(s) =>
        var section := new TodoMainSection(s);
        r := Ok(section);
    }

    /** The input's `onChange`: the field holds whatever was typed. */
    method OnInputChange(value: string)
      modifies this
      ensures newTodo == value
    {
      newTodo := value;
    }

    /** `addTodo`, with `Date.now()` passed in as `now`. Blank input changes
      nothing; otherwise exactly one ADD_TODO carrying `now` and the input as
      typed (untrimmed) is dispatched and the input is cleared. */
    method AddTodo(now: int)
      requires store.Valid()
      modifies this, store
      ensures store.Valid()
      ensures IsBlank(old(newTodo)) ==>
        newTodo == old(newTodo) &&
        store.dispatched == old(store.dispatched) && store.state == old(store.state)
      ensures !IsBlank(old(newTodo)) ==>
        newTodo == "" &&
        store.dispatched == old(store.dispatched) + [TodoTypes.AddTodo(Todo(now, old(newTodo)))] &&
        store.state.todos == old(store.state.todos) + [Todo(now, old(newTodo))]
    {
      if IsBlank(newTodo) {
        return;
      }
      store.Dispatch(TodoTypes.AddTodo(Todo(now, newTodo)));
      newTodo := "";
    }

    /** The items this section renders from the current state. */
    function Items(): (r: seq<ItemView>)
      reads this, store
      ensures |r| == |store.state.todos|
    {
      RenderTodos(store.state.todos)
    }
  }

  /** `TodoItem`: one rendered todo and the store its Remove button dispatches to. */
  class TodoItem {
    const todo: Todo
    const store: TodoStore

    constructor (todo: Todo, store: TodoStore)
      ensures this.todo == todo && this.store == store
    {
      this.todo := todo;
      this.store := store;
    }

    /** Mounting reads the context and fails when there is no provider. */
    static method Mount(todo: Todo, context: Option<TodoStore>) returns (r: Result<TodoItem, string>)
      ensures r.Err? <==> context.None?
      ensures r.Err? ==> r.error == MissingProviderMessage
      ensures r.Ok? ==> fresh(r.value) && r.value.store == context.value && r.value.todo == todo
    {
      var store := UseTodoContext(context);
      match store
      case Err(e) => r := Err(e);
      case Ok(s) =>
        var item := new TodoItem(todo, s);
        r := Ok(item);
    }

    /** The Remove button: dispatches REMOVE_TODO with this todo's id, after
      which no todo with that id is left and every other todo remains. */
    method OnRemoveClick()
      requires store.Valid()
      modifies store
      ensures store.Valid()
      ensures store.dispatched == old(store.dispatched) + [RemoveTodo(todo.id)]
      ensures store.state == TodoReducer(old(store.state), RemoveTodo(todo.id))
      ensures forall t :: t in store.state.todos ==> t.id != todo.id
      ensures forall t :: t in old(store.state.todos) && t.id != todo.id ==> t in store.state.todos
    {
      store.Dispatch(RemoveActionFor(todo));
    }
  }
}
