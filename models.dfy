/** The two tables of the database, `categories` and `todo_items`, as row values.
    Timestamps are opaque instants supplied by the caller in place of the database's
    `now()`. */
module Models {
  import opened Wrappers
  import opened Dates

  type Timestamp = nat

  /** Declared column widths; they are declarations only (see the README). */
  const TitleMaxLength := 200
  const CategoryNameMaxLength := 100
  const StatusMaxLength := 20
  const PriorityMaxLength := 20

  /** Column defaults of `todo_items.status` and `todo_items.priority`. */
  const DefaultStatus := "pending"
  const DefaultPriority := "medium"

  /** A `categories` row without its key. */
  datatype Category = Category(name: string, createdAt: Timestamp)

  /** A `todo_items` row without its key; `categoryId` is the nullable foreign key. */
  datatype TodoItem = TodoItem(
    title: string,
    description: Option<string>,
    status: string,
    priority: string,
    dueDate: Option<Date>,
    categoryId: Option<int>,
    createdAt: Timestamp,
    updatedAt: Timestamp)

  /** The six columns a client can write: everything but the two timestamps. */
  predicate SameColumns(a: TodoItem, b: TodoItem) {
    a.(createdAt := 0, updatedAt := 0) == b.(createdAt := 0, updatedAt := 0)
  }

  /** The row the insert produces: the column default stands in for a value that is not
      given, and both timestamps take the insert's `now()`. */
  function NewTodoItem(title: string, description: Option<string>, status: Option<string>,
                       priority: Option<string>, dueDate: Option<Date>, categoryId: Option<int>,
                       now: Timestamp): (row: TodoItem)
    ensures row.title == title && row.description == description
    ensures row.dueDate == dueDate && row.categoryId == categoryId
    ensures row.status == (if status.Some? then status.value else DefaultStatus)
    ensures row.priority == (if priority.Some? then priority.value else DefaultPriority)
    ensures row.createdAt == now && row.updatedAt == now
  {
    TodoItem(title, description, status.GetOr(DefaultStatus), priority.GetOr(DefaultPriority),
             dueDate, categoryId, now, now)
  }

  /** The `onupdate` rule of `updated_at`: the flush writes the row only when a column
      value differs from what was loaded, and only such a write takes a new `now()`;
      `created_at` is never rewritten. */
  function Touch(before: TodoItem, after: TodoItem, now: Timestamp): (row: TodoItem)
    ensures SameColumns(row, after) && row.createdAt == before.createdAt
    ensures row.updatedAt == (if SameColumns(before, after) then before.updatedAt else now)
    ensures SameColumns(before, after) ==> row == before
  {
    if SameColumns(before, after) then before
    else after.(createdAt := before.createdAt, updatedAt := now)
  }

  /** ON DELETE SET NULL, applied to one row when category `id` goes away: the database
      rewrites the key only, so `updated_at` stays as it was. */
  function Unlink(row: TodoItem, id: int): (r: TodoItem)
    ensures r.categoryId == (if row.categoryId == Some(id) then None else row.categoryId)
    ensures r.(categoryId := row.categoryId) == row
  {
    if row.categoryId == Some(id) then row.(categoryId := None) else row
  }
}
