/** The records the todo table works on, as the getAllTodosWithUser query
    returns them, and the two values of the table's sort direction. */
module TodoModel {

  datatype Option<+T> = None | Some(value: T)

  /** The user a todo is assigned to. */
  datatype User = User(id: string, name: string)

  /** One todo of the query result; `user` is None for an unassigned todo. */
  datatype Todo = Todo(id: string, title: string, completed: bool, user: Option<User>)

  /** The `data` object of the query; `getTodos` is None when the field is absent. */
  datatype QueryData = QueryData(getTodos: Option<seq<Todo>>)

  /** The `order` state: "asc" or "desc". */
  datatype Direction = Asc | Desc

  /** The assigned user's name, with an unassigned todo counting as "". */
  function UserName(t: Todo): string {
    if t.user.Some? then t.user.value.name else ""
  }
}
