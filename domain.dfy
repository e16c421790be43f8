/** The records the game screen receives from the server, reduced to the fields its
    helpers read. Identifiers are compared with `===` on numbers, so they are integers. */
module Domain {

  /** A room: one entry of the `categories` list (`/api/todo-categories`). */
  datatype Category = Category(
    categoryId: int,
    categoryName: string,
    difficultyMultiplier: real)

  /** A task card (`/api/todos`). A todo carries its category twice: the flat
      `category_id` and an embedded `category` object. Nothing makes the two agree, and
      the screen reads one or the other depending on the helper. */
  datatype Todo = Todo(
    todoId: int,
    title: string,
    categoryId: int,
    category: Category,
    baseCoinValue: int,
    completed: bool)

  /** The test `c.category_id === id`. */
  function HasCategoryId(id: int): Category -> bool
  {
    (c: Category) => c.categoryId == id
  }

  /** The test `todo.category_id === id`, on the flat field. */
  function FiledUnder(id: int): Todo -> bool
  {
    (t: Todo) => t.categoryId == id
  }

  /** The test `todo.category.category_id === id`, on the embedded category. */
  function EmbeddedIn(id: int): Todo -> bool
  {
    (t: Todo) => t.category.categoryId == id
  }

  /** The test `todo.completed`. */
  function IsCompleted(): Todo -> bool
  {
    (t: Todo) => t.completed
  }

  /** The two category fields of a todo name the same room. */
  predicate Consistent(t: Todo)
  {
    t.categoryId == t.category.categoryId
  }
}
