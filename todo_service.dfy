/** The todo and category services over an in-memory copy of the two tables: a class
    holding `id → row` maps for `todo_items` and `categories` and the two auto-increment
    counters. Every method is one request's transaction. */
module TodoService {
  import opened Wrappers
  import opened Dates
  import opened Models
  import opened Schemas

  /** The three optional filters of `list_todos`. */
  datatype Filter = Filter(status: Option<string>, priority: Option<string>, categoryId: Option<int>)

  const NoFilter := Filter(None, None, None)

  /** A status or priority filter is active when it is a non-empty string; the category
      filter is active whenever it is given, 0 included. */
  predicate Matches(row: TodoItem, f: Filter) {
    && (f.status.None? || f.status.value == "" || row.status == f.status.value)
    && (f.priority.None? || f.priority.value == "" || row.priority == f.priority.value)
    && (f.categoryId.None? || row.categoryId == f.categoryId)
  }

  /** `if status:` ignores an empty status or priority as it ignores a missing one, while
      `category_id is not None` filters even by 0. */
  lemma EmptyFiltersIgnored(row: TodoItem, c: Option<int>)
    ensures Matches(row, Filter(Some(""), Some(""), c)) == Matches(row, Filter(None, None, c))
    ensures Matches(row, Filter(None, None, None))
    ensures Matches(row, Filter(None, None, Some(0))) <==> row.categoryId == Some(0)
  {
  }

  /** The ids in `[0, n)` of the rows that match, largest first: the filtered
      `ORDER BY id DESC`. */
  function MatchingBelow(todos: map<int, TodoItem>, f: Filter, n: nat): (ids: seq<int>)
    ensures forall id :: id in ids <==> 0 <= id < n && id in todos && Matches(todos[id], f)
    ensures forall k :: 0 <= k < |ids| ==> 0 <= ids[k] < n
    ensures forall i, j :: 0 <= i < j < |ids| ==> ids[i] > ids[j]
    decreases n
  {
    if n == 0 then []
    else
      var rest := MatchingBelow(todos, f, n - 1);
      if n - 1 in todos && Matches(todos[n - 1], f) then [n - 1] + rest else rest
  }

  /** The set of all matching ids in `[0, n)`, whatever their order. */
  ghost function MatchingSet(todos: map<int, TodoItem>, f: Filter, n: nat): set<int> {
    set id | id in todos && 0 <= id < n && Matches(todos[id], f)
  }

  /** `OFFSET offset LIMIT limit` */
  function Page<T>(s: seq<T>, offset: nat, limit: nat): (r: seq<T>)
    ensures |r| == if offset >= |s| then 0 else if |s| - offset < limit then |s| - offset else limit
    ensures forall k :: 0 <= k < |r| ==> r[k] == s[offset + k]
  {
    if offset >= |s| then []
    else if |s| - offset < limit then s[offset..]
    else s[offset..offset + limit]
  }

  /** `r.category.name if r.category else None`: the joined category, when the key
      names one. */
  function JoinedCategoryName(categories: map<int, Category>, row: TodoItem): (r: Option<string>)
    ensures r.Some? <==> row.categoryId.Some? && row.categoryId.value in categories
    ensures r.Some? ==> r.value == categories[row.categoryId.value].name
  {
    if row.categoryId.Some? && row.categoryId.value in categories
    then Some(categories[row.categoryId.value].name) else None
  }

  /** The lookup a freshly written row gets: one query, made only when `category_id` is
      truthy, so a key of 0 gives no name. */
  function LookedUpCategoryName(categories: map<int, Category>, row: TodoItem): (r: Option<string>)
    ensures r.Some? <==> row.categoryId.Some? && row.categoryId.value != 0 && row.categoryId.value in categories
    ensures r.Some? ==> r.value == categories[row.categoryId.value].name
  {
    if row.categoryId.Some? && row.categoryId.value != 0 && row.categoryId.value in categories
    then Some(categories[row.categoryId.value].name) else None
  }

  /** No category has id 0, so both ways of naming the category agree. */
  lemma CategoryNamesAgree(categories: map<int, Category>, row: TodoItem)
    requires 0 !in categories
    ensures JoinedCategoryName(categories, row) == LookedUpCategoryName(categories, row)
  {
  }

  /** The response for row `id`: every column copied, plus the category name. */
  function ResponseOf(id: int, row: TodoItem, categoryName: Option<string>): (r: TodoResponse)
    ensures Describes(r, id, row) && r.categoryName == categoryName
  {
    TodoResponse(id, row.title, row.description, row.status, row.priority, row.dueDate,
                 row.categoryId, categoryName, Some(row.createdAt), Some(row.updatedAt))
  }

  predicate Describes(r: TodoResponse, id: int, row: TodoItem) {
    && r.id == id && r.title == row.title && r.description == row.description
    && r.status == row.status && r.priority == row.priority && r.dueDate == row.dueDate
    && r.categoryId == row.categoryId
    && r.createdAt == Some(row.createdAt) && r.updatedAt == Some(row.updatedAt)
  }

  /** The columns `update_todo_full` writes: title, status and priority are kept when the
      incoming value is falsy (`None` or ""), the other three only when it is `None`. */
  function FullUpdate(row: TodoItem, data: TodoUpdate): (r: TodoItem)
    ensures r.createdAt == row.createdAt && r.updatedAt == row.updatedAt
  {
    row.(title := if data.title.Some? && data.title.value != "" then data.title.value else row.title,
         description := if data.description.Some? then data.description else row.description,
         status := if data.status.Some? && data.status.value != "" then data.status.value else row.status,
         priority := if data.priority.Some? && data.priority.value != "" then data.priority.value else row.priority,
         dueDate := if data.dueDate.Some? then data.dueDate else row.dueDate,
         categoryId := if data.categoryId.Some? then data.categoryId else row.categoryId)
  }

  /** The columns `update_todo_partial` writes: each field that is not `None`. */
  function PartialUpdate(row: TodoItem, data: TodoUpdate): (r: TodoItem)
    ensures r.createdAt == row.createdAt && r.updatedAt == row.updatedAt
  {
    row.(title := if data.title.Some? then data.title.value else row.title,
         description := if data.description.Some? then data.description else row.description,
         status := if data.status.Some? then data.status.value else row.status,
         priority := if data.priority.Some? then data.priority.value else row.priority,
         dueDate := if data.dueDate.Some? then data.dueDate else row.dueDate,
         categoryId := if data.categoryId.Some? then data.categoryId else row.categoryId)
  }

  /** An empty string in title, status or priority reads as "not given". */
  function DropFalsy(data: TodoUpdate): TodoUpdate {
    data.(title := if data.title == Some("") then None else data.title,
          status := if data.status == Some("") then None else data.status,
          priority := if data.priority == Some("") then None else data.priority)
  }

  /** The ids of `[0, n)` that hold a category, smallest first: `ORDER BY id`. */
  function CategoryIdsBelow(categories: map<int, Category>, n: nat): (ids: seq<int>)
    ensures forall id :: id in ids <==> 0 <= id < n && id in categories
    ensures forall k :: 0 <= k < |ids| ==> 0 <= ids[k] < n
    ensures forall i, j :: 0 <= i < j < |ids| ==> ids[i] < ids[j]
    decreases n
  {
    if n == 0 then []
    else CategoryIdsBelow(categories, n - 1) + (if n - 1 in categories then [n - 1] else [])
  }

  function CategoryListing(categories: map<int, Category>, n: nat): (r: seq<CategoryResponse>)
    ensures |r| == |CategoryIdsBelow(categories, n)|
    ensures forall k :: 0 <= k < |r| ==> var id := CategoryIdsBelow(categories, n)[k];
      id in categories && r[k] == CategoryResponse(id, categories[id].name, Some(categories[id].createdAt))
  {
    var ids := CategoryIdsBelow(categories, n);
    seq(|ids|, k requires 0 <= k < |ids| =>
      CategoryResponse(ids[k], categories[ids[k]].name, Some(categories[ids[k]].createdAt)))
  }

  /** The listing holds exactly the categories below `n`, by increasing id. */
  lemma ListingFacts(categories: map<int, Category>, n: nat)
    ensures var r := CategoryListing(categories, n);
      forall id :: (exists k :: 0 <= k < |r| && r[k].id == id) <==> 0 <= id < n && id in categories
    ensures var r := CategoryListing(categories, n);
      forall i, j :: 0 <= i < j < |r| ==> r[i].id < r[j].id
    ensures var r := CategoryListing(categories, n);
      forall k :: 0 <= k < |r| ==> r[k].id in categories && r[k].name == categories[r[k].id].name
  {
    var ids := CategoryIdsBelow(categories, n);
    var r := CategoryListing(categories, n);
    forall id | 0 <= id < n && id in categories
      ensures exists k :: 0 <= k < |r| && r[k].id == id
    {
      var k :| 0 <= k < |ids| && ids[k] == id;
      assert r[k].id == id;
    }
  }

  class TodoStore {
    var todos: map<int, TodoItem>
    var categories: map<int, Category>
    /** The next value of each table's auto-increment counter. */
    var nextTodoId: int
    var nextCategoryId: int

    /** Every key was handed out by its table's counter, which starts at 1. */
    ghost predicate Valid()
      reads this
    {
      && 1 <= nextTodoId && 1 <= nextCategoryId
      && (forall id :: id in todos ==> 1 <= id < nextTodoId)
      && (forall id :: id in categories ==> 1 <= id < nextCategoryId)
    }

    /** Two empty tables. */
    constructor ()
      ensures Valid() && todos == map[] && categories == map[]
    {
      todos := map[];
      categories := map[];
      nextTodoId := 1;
      nextCategoryId := 1;
    }

    /** The ids the filtered, ordered query returns before pagination. */
    function Matching(f: Filter): (ids: seq<int>)
      reads this
      requires Valid()
      ensures forall id :: id in ids <==> id in todos && Matches(todos[id], f)
      ensures forall i, j :: 0 <= i < j < |ids| ==> ids[i] > ids[j]
    {
      MatchingBelow(todos, f, nextTodoId)
    }

    function Joined(id: int): (r: TodoResponse)
      reads this
      requires id in todos
      ensures Describes(r, id, todos[id]) && r.categoryName == JoinedCategoryName(categories, todos[id])
    {
      ResponseOf(id, todos[id], JoinedCategoryName(categories, todos[id]))
    }

    /** `list_todos`: one page of the matching rows, newest id first, and the number of
        all matching rows. */
    method ListTodos(f: Filter, limit: nat, offset: nat) returns (items: seq<TodoResponse>, total: nat)
      requires Valid()
      ensures total == |Matching(f)|
      ensures |items| == |Page(Matching(f), offset, limit)|
      ensures forall k :: 0 <= k < |items| ==> var id := Page(Matching(f), offset, limit)[k];
        id in todos && items[k] == Joined(id)
    {
      var ids := Matching(f);
      total := |ids|;
      var rows := Page(ids, offset, limit);
      items := [];
      var i := 0;
      while i < |rows|
        invariant 0 <= i <= |rows|
        invariant |items| == i
        invariant forall k :: 0 <= k < i ==> rows[k] in todos && items[k] == Joined(rows[k])
      {
        assert rows[i] in ids;
        items := items + [Joined(rows[i])];
        i := i + 1;
      }
    }

    /** `get_todo` */
    function GetTodo(id: int): (r: Option<TodoResponse>)
      reads this
      ensures r.Some? <==> id in todos
      ensures r.Some? ==> Describes(r.value, id, todos[id])
      ensures r.Some? ==> r.value.categoryName == JoinedCategoryName(categories, todos[id])
    {
      if id in todos then Some(Joined(id)) else None
    }

    /** `_row_to_response` after a write. */
    function Written(id: int): (r: TodoResponse)
      reads this
      requires id in todos
      ensures Describes(r, id, todos[id]) && r.categoryName == LookedUpCategoryName(categories, todos[id])
    {
      ResponseOf(id, todos[id], LookedUpCategoryName(categories, todos[id]))
    }

    /** `create_todo`: the six given fields stored under a fresh id, both timestamps `now`. */
    method CreateTodo(data: TodoCreate, now: Timestamp) returns (r: TodoResponse)
      requires Valid()
      modifies this
      ensures Valid()
      ensures r.id == old(nextTodoId) && r.id !in old(todos)
      ensures todos == old(todos)[r.id := NewTodoItem(data.title, data.description, Some(data.status),
                                                      Some(data.priority), data.dueDate, data.categoryId, now)]
      ensures categories == old(categories)
      ensures nextTodoId == old(nextTodoId) + 1 && nextCategoryId == old(nextCategoryId)
      ensures r == Written(r.id)
    {
      var id := nextTodoId;
      todos := todos[id := NewTodoItem(data.title, data.description, Some(data.status),
                                       Some(data.priority), data.dueDate, data.categoryId, now)];
      nextTodoId := nextTodoId + 1;
      r := Written(id);
    }

    /** `update_todo_full`: for a missing id nothing changes and the answer is `None`;
        otherwise only row `id` changes. */
    method UpdateFull(id: int, data: TodoUpdate, now: Timestamp) returns (r: Option<TodoResponse>)
      requires Valid()
      modifies this
      ensures Valid()
      ensures r.Some? <==> id in old(todos)
      ensures id !in old(todos) ==> todos == old(todos)
      ensures id in old(todos) ==> todos == old(todos)[id := Touch(old(todos)[id], FullUpdate(old(todos)[id], data), now)]
      ensures forall k :: k in old(todos) && k != id ==> k in todos && todos[k] == old(todos)[k]
      ensures categories == old(categories) && nextTodoId == old(nextTodoId) && nextCategoryId == old(nextCategoryId)
      ensures r.Some? ==> r.value == Written(id)
    {
      if id !in todos {
        return None;
      }
      var before := todos[id];
      var row := before;
      row := row.(title := if data.title.Some? && data.title.value != "" then data.title.value else row.title);
      row := row.(description := if data.description.Some? then data.description else row.description);
      row := row.(status := if data.status.Some? && data.status.value != "" then data.status.value else row.status);
      row := row.(priority := if data.priority.Some? && data.priority.value != "" then data.priority.value else row.priority);
      row := row.(dueDate := if data.dueDate.Some? then data.dueDate else row.dueDate);
      row := row.(categoryId := if data.categoryId.Some? then data.categoryId else row.categoryId);
      assert row == FullUpdate(before, data);
      todos := todos[id := Touch(before, row, now)];
      r := Some(Written(id));
    }

    /** `update_todo_partial`: like the full update, with each non-`None` field written. */
    method UpdatePartial(id: int, data: TodoUpdate, now: Timestamp) returns (r: Option<TodoResponse>)
      requires Valid()
      modifies this
      ensures Valid()
      ensures r.Some? <==> id in old(todos)
      ensures id !in old(todos) ==> todos == old(todos)
      ensures id in old(todos) ==> todos == old(todos)[id := Touch(old(todos)[id], PartialUpdate(old(todos)[id], data), now)]
      ensures forall k :: k in old(todos) && k != id ==> k in todos && todos[k] == old(todos)[k]
      ensures categories == old(categories) && nextTodoId == old(nextTodoId) && nextCategoryId == old(nextCategoryId)
      ensures r.Some? ==> r.value == Written(id)
    {
      if id !in todos {
        return None;
      }
      var before := todos[id];
      var row := before;
      if data.title.Some? {
        row := row.(title := data.title.value);
      }
      if data.description.Some? {
        row := row.(description := data.description);
      }
      if data.status.Some? {
        row := row.(status := data.status.value);
      }
      if data.priority.Some? {
        row := row.(priority := data.priority.value);
      }
      if data.dueDate.Some? {
        row := row.(dueDate := data.dueDate);
      }
      if data.categoryId.Some? {
        row := row.(categoryId := data.categoryId);
      }
      todos := todos[id := Touch(before, row, now)];
      r := Some(Written(id));
    }

    /** `delete_todo`: true iff the row existed; afterwards it is gone and nothing else
        changed. */
    method DeleteTodo(id: int) returns (ok: bool)
      requires Valid()
      modifies this
      ensures Valid()
      ensures ok <==> id in old(todos)
      ensures todos == old(todos) - {id} && GetTodo(id) == None
      ensures categories == old(categories) && nextTodoId == old(nextTodoId) && nextCategoryId == old(nextCategoryId)
    {
      ok := id in todos;
      todos := todos - {id};
    }

    /** `list_categories`: every category, in ascending id order. */
    function ListCategories(): (r: seq<CategoryResponse>)
      reads this
      requires Valid()
      ensures forall id :: (exists k :: 0 <= k < |r| && r[k].id == id) <==> id in categories
      ensures forall i, j :: 0 <= i < j < |r| ==> r[i].id < r[j].id
      ensures forall k :: 0 <= k < |r| ==> r[k].id in categories && r[k].name == categories[r[k].id].name
    {
      ListingFacts(categories, nextCategoryId);
      CategoryListing(categories, nextCategoryId)
    }

    /** `create_category`: a category with exactly the given name under an id no category
        holds; it comes last in the listing and every other category is unchanged. */
    method CreateCategory(name: string, now: Timestamp) returns (c: CategoryResponse)
      requires Valid()
      modifies this
      ensures Valid()
      ensures c.id !in old(categories) && c.name == name && c.createdAt == Some(now)
      ensures categories == old(categories)[c.id := Category(name, now)]
      ensures ListCategories() == old(ListCategories()) + [c]
      ensures todos == old(todos) && nextTodoId == old(nextTodoId)
    {
      var id := nextCategoryId;
      ghost var before := categories;
      ListingGrows(before, id, Category(name, now));
      categories := categories[id := Category(name, now)];
      nextCategoryId := nextCategoryId + 1;
      c := CategoryResponse(id, name, Some(now));
    }

    /** Removing category `id` under its ON DELETE SET NULL key: the todos that pointed to
        it are kept, with no category. */
    method DeleteCategory(id: int)
      requires Valid()
      modifies this
      ensures Valid()
      ensures categories == old(categories) - {id}
      ensures todos.Keys == old(todos).Keys
      ensures forall k :: k in todos ==> todos[k] == Unlink(old(todos)[k], id)
      ensures forall k :: k in todos ==> todos[k].categoryId != Some(id)
      ensures nextTodoId == old(nextTodoId) && nextCategoryId == old(nextCategoryId)
    {
      categories := categories - {id};
      todos := map k | k in todos :: Unlink(todos[k], id);
    }
  }

  // ---------------------------------------------------------------- lemmas

  /** `total` counts every matching row, whatever the page. */
  lemma {:induction false} TotalCountsMatches(todos: map<int, TodoItem>, f: Filter, n: nat)
    ensures |MatchingBelow(todos, f, n)| == |MatchingSet(todos, f, n)|
    decreases n
  {
    if n == 0 {
      assert MatchingSet(todos, f, n) == {} by {
        forall id ensures id !in MatchingSet(todos, f, n) { }
      }
    } else {
      TotalCountsMatches(todos, f, n - 1);
      var prev, now := MatchingSet(todos, f, n - 1), MatchingSet(todos, f, n);
      var rest := MatchingBelow(todos, f, n - 1);
      if n - 1 in todos && Matches(todos[n - 1], f) {
        assert MatchingBelow(todos, f, n) == [n - 1] + rest;
        assert now == prev + {n - 1} by {
          forall id ensures id in now <==> id in prev + {n - 1} { }
        }
        assert n - 1 !in prev;
      } else {
        assert MatchingBelow(todos, f, n) == rest;
        assert now == prev by {
          forall id ensures id in now <==> id in prev { }
        }
      }
    }
  }

  /** Every listed row matches each active filter. */
  lemma PageMatches(todos: map<int, TodoItem>, f: Filter, n: nat, offset: nat, limit: nat)
    ensures forall id :: id in Page(MatchingBelow(todos, f, n), offset, limit) ==> id in todos && Matches(todos[id], f)
  {
    var ids := MatchingBelow(todos, f, n);
    var p := Page(ids, offset, limit);
    forall id | id in p ensures id in todos && Matches(todos[id], f) {
      var k :| 0 <= k < |p| && p[k] == id;
      assert ids[offset + k] == id;
    }
  }

  /** Pages of one listing are consecutive slices: page by page, nothing is listed
      twice or skipped. */
  lemma PagesAdjacent<T>(s: seq<T>, offset: nat, limit: nat)
    requires offset + limit <= |s|
    ensures Page(s, offset, limit) + Page(s, offset + limit, |s|) == s[offset..]
  {
  }

  /** With no filter, `total` is the number of rows. */
  lemma UnfilteredTotal(todos: map<int, TodoItem>, n: nat)
    requires forall id :: id in todos ==> 0 <= id < n
    ensures |MatchingBelow(todos, NoFilter, n)| == |todos|
  {
    TotalCountsMatches(todos, NoFilter, n);
    assert MatchingSet(todos, NoFilter, n) == todos.Keys;
  }

  /** The full update is the partial update of the same data with its empty title,
      status and priority taken as missing. */
  lemma FullIsPartialOfTruthy(row: TodoItem, data: TodoUpdate)
    ensures FullUpdate(row, data) == PartialUpdate(row, DropFalsy(data))
  {
  }

  /** Where the two rules differ: an empty title, status or priority is written by the
      partial update and ignored by the full one, while an empty description is written
      by both. */
  lemma EmptyStringsDiffer(row: TodoItem)
    requires row.title != "" && row.status != "" && row.priority != ""
    ensures var d := TodoUpdate(Some(""), Some(""), Some(""), Some(""), None, None);
      && FullUpdate(row, d) == row.(description := Some(""))
      && PartialUpdate(row, d) == row.(title := "", description := Some(""), status := "", priority := "")
  {
  }

  /** Neither update can set a nullable column back to null. */
  lemma NoFieldBecomesNull(row: TodoItem, data: TodoUpdate)
    ensures row.description.Some? ==> FullUpdate(row, data).description.Some? && PartialUpdate(row, data).description.Some?
    ensures row.dueDate.Some? ==> FullUpdate(row, data).dueDate.Some? && PartialUpdate(row, data).dueDate.Some?
    ensures row.categoryId.Some? ==> FullUpdate(row, data).categoryId.Some? && PartialUpdate(row, data).categoryId.Some?
  {
  }

  /** The full update never empties a non-empty title, status or priority. */
  lemma FullKeepsNonEmpty(row: TodoItem, data: TodoUpdate)
    ensures row.title != "" ==> FullUpdate(row, data).title != ""
    ensures row.status != "" ==> FullUpdate(row, data).status != ""
    ensures row.priority != "" ==> FullUpdate(row, data).priority != ""
  {
  }

  /** Sending the same update twice changes nothing the second time, `updated_at`
      included. */
  lemma RepeatedUpdateIsNoOp(row: TodoItem, data: TodoUpdate, t1: Timestamp, t2: Timestamp)
    ensures var once := Touch(row, PartialUpdate(row, data), t1);
      Touch(once, PartialUpdate(once, data), t2) == once
    ensures var once := Touch(row, FullUpdate(row, data), t1);
      Touch(once, FullUpdate(once, data), t2) == once
  {
  }

  /** An update that writes no new value leaves the row, `updated_at` included, as it was;
      one that does write a new value stamps the row with `now`. */
  lemma TouchOnlyOnChange(row: TodoItem, data: TodoUpdate, now: Timestamp)
    ensures SameColumns(row, PartialUpdate(row, data)) ==> Touch(row, PartialUpdate(row, data), now) == row
    ensures !SameColumns(row, PartialUpdate(row, data)) ==> Touch(row, PartialUpdate(row, data), now).updatedAt == now
  {
  }

  /** A category added under the counter's value comes last in the ascending listing. */
  lemma ListingGrows(categories: map<int, Category>, n: nat, c: Category)
    requires forall id :: id in categories ==> 0 <= id < n
    ensures CategoryListing(categories[n := c], n + 1)
         == CategoryListing(categories, n) + [CategoryResponse(n, c.name, Some(c.createdAt))]
  {
    var grown := categories[n := c];
    IdsBelowUnchanged(categories, n, c, n);
    assert CategoryIdsBelow(grown, n + 1) == CategoryIdsBelow(categories, n) + [n];
  }

  /** Adding a key at or above `m` leaves the ids below `m` alone. */
  lemma {:induction false} IdsBelowUnchanged(categories: map<int, Category>, key: int, c: Category, m: nat)
    requires key >= m
    ensures CategoryIdsBelow(categories[key := c], m) == CategoryIdsBelow(categories, m)
    decreases m
  {
    if m > 0 {
      IdsBelowUnchanged(categories, key, c, m - 1);
    }
  }
}
