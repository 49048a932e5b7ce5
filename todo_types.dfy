/** The shared types of the todo example: a todo record and the reducer's actions. */
module TodoTypes {

  /** A todo: a numeric id (the creation timestamp in practice) and its text. */
  datatype Todo = Todo(id: int, text: string)

  /** The actions the todo reducer understands: add a whole todo, or remove
      every todo carrying a given id (the payload is the id alone). */
  datatype TodoAction =
    | AddTodo(todo: Todo)
    | RemoveTodo(id: int)
}
