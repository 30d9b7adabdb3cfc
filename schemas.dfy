/** The request and response shapes of the todo API and how a JSON request body is bound
    to them: which fields are required, which are optional, and their defaults. */
module Schemas {
  import opened Wrappers
  import opened Json
  import opened Dates
  import opened Models

  /** Body of `POST /todos`. */
  datatype TodoCreate = TodoCreate(
    title: string,
    description: Option<string>,
    status: string,
    priority: string,
    dueDate: Option<Date>,
    categoryId: Option<int>)

  /** Body of `PUT` and `PATCH /todos/{id}`: every field optional. */
  datatype TodoUpdate = TodoUpdate(
    title: Option<string>,
    description: Option<string>,
    status: Option<string>,
    priority: Option<string>,
    dueDate: Option<Date>,
    categoryId: Option<int>)

  /** What the todo endpoints answer with. */
  datatype TodoResponse = TodoResponse(
    id: int,
    title: string,
    description: Option<string>,
    status: string,
    priority: string,
    dueDate: Option<Date>,
    categoryId: Option<int>,
    categoryName: Option<string>,
    createdAt: Option<Timestamp>,
    updatedAt: Option<Timestamp>)

  datatype CategoryResponse = CategoryResponse(id: int, name: string, createdAt: Option<Timestamp>)

  /** A 422 answer: which field was missing or held a value of the wrong type. */
  datatype ValidationError = NotAnObject | Missing(field: string) | WrongType(field: string)

  const TitleKey := "title"
  const DescriptionKey := "description"
  const StatusKey := "status"
  const PriorityKey := "priority"
  const DueDateKey := "due_date"
  const CategoryIdKey := "category_id"

  predicate IsFieldName(k: string) {
    k in {TitleKey, DescriptionKey, StatusKey, PriorityKey, DueDateKey, CategoryIdKey}
  }

  /** An `Optional[str] = None` field: absent and `null` both give `None`. */
  function OptionalString(body: map<string, Json>, key: string): (r: Result<Option<string>, ValidationError>)
    ensures r.Success? && r.value.None? <==> Get(body, key) == JNull
    ensures r.Success? && r.value.Some? <==> Get(body, key).JString?
    ensures r.Success? && r.value.Some? ==> r.value.value == Get(body, key).s
    ensures r.Failure? ==> r.error == WrongType(key)
  {
    match Get(body, key)
    case JNull => Success(None)
    case JString(s) => Success(Some(s))
    case _ => Failure(WrongType(key))
  }

  /** A `str` field with a default (or none, when the field is required): absence takes
      the default, while an explicit `null` is refused, since `None` is not a `str`. */
  function DefaultedString(body: map<string, Json>, key: string, default: Option<string>): (r: Result<string, ValidationError>)
    ensures key !in body ==> r == (if default.Some? then Success(default.value) else Failure(Missing(key)))
    ensures key in body ==> (r.Success? <==> body[key].JString?)
    ensures key in body && r.Success? ==> r.value == body[key].s
  {
    if key !in body then (if default.Some? then Success(default.value) else Failure(Missing(key)))
    else if body[key].JString? then Success(body[key].s)
    else Failure(WrongType(key))
  }

  /** An `Optional[int] = None` field. */
  function OptionalInt(body: map<string, Json>, key: string): (r: Result<Option<int>, ValidationError>)
    ensures r.Success? && r.value.None? <==> Get(body, key) == JNull
    ensures r.Success? && r.value.Some? <==> Get(body, key).JInt?
    ensures r.Success? && r.value.Some? ==> r.value.value == Get(body, key).i
  {
    match Get(body, key)
    case JNull => Success(None)
    case JInt(i) => Success(Some(i))
    case _ => Failure(WrongType(key))
  }

  /** An `Optional[date] = None` field. Pydantic's date coercion of a non-null value
      (an ISO date string, or a number read as a Unix timestamp) is a parameter; a value
      it refuses is a validation error. */
  function OptionalDate(body: map<string, Json>, key: string, parseDate: Json -> Option<Date>): (r: Result<Option<Date>, ValidationError>)
    ensures r.Success? && r.value.None? <==> Get(body, key) == JNull
    ensures Get(body, key) != JNull ==> (r.Success? <==> parseDate(Get(body, key)).Some?)
    ensures r.Success? && r.value.Some? ==> parseDate(Get(body, key)) == r.value
    ensures r.Failure? ==> r.error == WrongType(key)
  {
    var v := Get(body, key);
    if v == JNull then Success(None)
    else if parseDate(v).Some? then Success(parseDate(v))
    else Failure(WrongType(key))
  }

  /** Every field of a `TodoCreate` binds. */
  predicate CreateBinds(f: map<string, Json>, parseDate: Json -> Option<Date>) {
    && DefaultedString(f, TitleKey, None).Success?
    && OptionalString(f, DescriptionKey).Success?
    && DefaultedString(f, StatusKey, Some(DefaultStatus)).Success?
    && DefaultedString(f, PriorityKey, Some(DefaultPriority)).Success?
    && OptionalDate(f, DueDateKey, parseDate).Success?
    && OptionalInt(f, CategoryIdKey).Success?
  }

  /** Every field of a `TodoUpdate` binds. */
  predicate UpdateBinds(f: map<string, Json>, parseDate: Json -> Option<Date>) {
    && OptionalString(f, TitleKey).Success?
    && OptionalString(f, DescriptionKey).Success?
    && OptionalString(f, StatusKey).Success?
    && OptionalString(f, PriorityKey).Success?
    && OptionalDate(f, DueDateKey, parseDate).Success?
    && OptionalInt(f, CategoryIdKey).Success?
  }

  /** Binds a `TodoCreate`: `title` is required, `status` defaults to "pending",
      `priority` to "medium", and the other three to `None`. Keys that name no field are
      ignored. */
  function BindTodoCreate(body: Json, parseDate: Json -> Option<Date>): (r: Result<TodoCreate, ValidationError>)
    ensures !body.JObject? ==> r == Failure(NotAnObject)
    ensures body.JObject? ==> (r.Success? <==> CreateBinds(body.fields, parseDate))
    ensures body.JObject? && TitleKey !in body.fields ==> r == Failure(Missing(TitleKey))
    ensures r.Success? ==> body.JObject? && TitleKey in body.fields && body.fields[TitleKey] == JString(r.value.title)
    ensures r.Success? ==>
      && r.value.description == OptionalString(body.fields, DescriptionKey).value
      && r.value.status == DefaultedString(body.fields, StatusKey, Some(DefaultStatus)).value
      && r.value.priority == DefaultedString(body.fields, PriorityKey, Some(DefaultPriority)).value
      && r.value.dueDate == OptionalDate(body.fields, DueDateKey, parseDate).value
      && r.value.categoryId == OptionalInt(body.fields, CategoryIdKey).value
    ensures r.Success? && StatusKey !in body.fields ==> r.value.status == DefaultStatus
    ensures r.Success? && PriorityKey !in body.fields ==> r.value.priority == DefaultPriority
    ensures r.Success? && Get(body.fields, DescriptionKey) == JNull ==> r.value.description == None
    ensures r.Success? && Get(body.fields, DueDateKey) == JNull ==> r.value.dueDate == None
    ensures r.Success? && Get(body.fields, CategoryIdKey) == JNull ==> r.value.categoryId == None
  {
    if !body.JObject? then Failure(NotAnObject)
    else
      var f := body.fields;
      var title := DefaultedString(f, TitleKey, None);
      var description := OptionalString(f, DescriptionKey);
      var status := DefaultedString(f, StatusKey, Some(DefaultStatus));
      var priority := DefaultedString(f, PriorityKey, Some(DefaultPriority));
      var dueDate := OptionalDate(f, DueDateKey, parseDate);
      var categoryId := OptionalInt(f, CategoryIdKey);
      if title.Failure? then Failure(title.error)
      else if description.Failure? then Failure(description.error)
      else if status.Failure? then Failure(status.error)
      else if priority.Failure? then Failure(priority.error)
      else if dueDate.Failure? then Failure(dueDate.error)
      else if categoryId.Failure? then Failure(categoryId.error)
      else Success(TodoCreate(title.value, description.value, status.value, priority.value, dueDate.value, categoryId.value))
  }

  /** Binds a `TodoUpdate`: every field is optional with default `None`. */
  function BindTodoUpdate(body: Json, parseDate: Json -> Option<Date>): (r: Result<TodoUpdate, ValidationError>)
    ensures !body.JObject? ==> r == Failure(NotAnObject)
    ensures body.JObject? ==> (r.Success? <==> UpdateBinds(body.fields, parseDate))
    ensures body.JObject? ==> r.Success? || r.error.WrongType?
    ensures r.Success? ==> body.JObject?
    ensures r.Success? ==>
      && r.value.title == OptionalString(body.fields, TitleKey).value
      && r.value.description == OptionalString(body.fields, DescriptionKey).value
      && r.value.status == OptionalString(body.fields, StatusKey).value
      && r.value.priority == OptionalString(body.fields, PriorityKey).value
      && r.value.dueDate == OptionalDate(body.fields, DueDateKey, parseDate).value
      && r.value.categoryId == OptionalInt(body.fields, CategoryIdKey).value
    ensures r.Success? ==> (r.value.title.None? <==> Get(body.fields, TitleKey) == JNull)
    ensures r.Success? ==> (r.value.status.None? <==> Get(body.fields, StatusKey) == JNull)
    ensures r.Success? ==> (r.value.priority.None? <==> Get(body.fields, PriorityKey) == JNull)
    ensures r.Success? ==> (r.value.description.None? <==> Get(body.fields, DescriptionKey) == JNull)
    ensures r.Success? ==> (r.value.dueDate.None? <==> Get(body.fields, DueDateKey) == JNull)
    ensures r.Success? ==> (r.value.categoryId.None? <==> Get(body.fields, CategoryIdKey) == JNull)
  {
    if !body.JObject? then Failure(NotAnObject)
    else
      var f := body.fields;
      var title := OptionalString(f, TitleKey);
      var description := OptionalString(f, DescriptionKey);
      var status := OptionalString(f, StatusKey);
      var priority := OptionalString(f, PriorityKey);
      var dueDate := OptionalDate(f, DueDateKey, parseDate);
      var categoryId := OptionalInt(f, CategoryIdKey);
      if title.Failure? then Failure(title.error)
      else if description.Failure? then Failure(description.error)
      else if status.Failure? then Failure(status.error)
      else if priority.Failure? then Failure(priority.error)
      else if dueDate.Failure? then Failure(dueDate.error)
      else if categoryId.Failure? then Failure(categoryId.error)
      else Success(TodoUpdate(title.value, description.value, status.value, priority.value, dueDate.value, categoryId.value))
  }

  /** The two bodies read the same value under each field name. */
  predicate SameGets(a: map<string, Json>, b: map<string, Json>) {
    && Get(a, TitleKey) == Get(b, TitleKey)
    && Get(a, DescriptionKey) == Get(b, DescriptionKey)
    && Get(a, StatusKey) == Get(b, StatusKey)
    && Get(a, PriorityKey) == Get(b, PriorityKey)
    && Get(a, DueDateKey) == Get(b, DueDateKey)
    && Get(a, CategoryIdKey) == Get(b, CategoryIdKey)
  }

  /** ... and also hold the same `str` fields, the ones whose absence matters. */
  predicate SameFields(a: map<string, Json>, b: map<string, Json>) {
    && SameGets(a, b)
    && (TitleKey in a <==> TitleKey in b)
    && (StatusKey in a <==> StatusKey in b)
    && (PriorityKey in a <==> PriorityKey in b)
  }

  /** An update body is read only through `Get` on the field names. */
  lemma UpdateReadsGets(a: map<string, Json>, b: map<string, Json>, parseDate: Json -> Option<Date>)
    requires SameGets(a, b)
    ensures BindTodoUpdate(JObject(a), parseDate) == BindTodoUpdate(JObject(b), parseDate)
  {
    assert OptionalString(a, TitleKey) == OptionalString(b, TitleKey);
    assert OptionalString(a, DescriptionKey) == OptionalString(b, DescriptionKey);
    assert OptionalString(a, StatusKey) == OptionalString(b, StatusKey);
    assert OptionalString(a, PriorityKey) == OptionalString(b, PriorityKey);
    assert OptionalDate(a, DueDateKey, parseDate) == OptionalDate(b, DueDateKey, parseDate);
    assert OptionalInt(a, CategoryIdKey) == OptionalInt(b, CategoryIdKey);
  }

  /** A create body is read only through the field names. */
  lemma CreateReadsFields(a: map<string, Json>, b: map<string, Json>, parseDate: Json -> Option<Date>)
    requires SameFields(a, b)
    ensures BindTodoCreate(JObject(a), parseDate) == BindTodoCreate(JObject(b), parseDate)
  {
    assert DefaultedString(a, TitleKey, None) == DefaultedString(b, TitleKey, None);
    assert OptionalString(a, DescriptionKey) == OptionalString(b, DescriptionKey);
    assert DefaultedString(a, StatusKey, Some(DefaultStatus)) == DefaultedString(b, StatusKey, Some(DefaultStatus));
    assert DefaultedString(a, PriorityKey, Some(DefaultPriority)) == DefaultedString(b, PriorityKey, Some(DefaultPriority));
    assert OptionalDate(a, DueDateKey, parseDate) == OptionalDate(b, DueDateKey, parseDate);
    assert OptionalInt(a, CategoryIdKey) == OptionalInt(b, CategoryIdKey);
  }

  /** For an update, leaving a field out and sending it as `null` bind to the same value. */
  lemma UpdateAbsentIsNull(fields: map<string, Json>, key: string, parseDate: Json -> Option<Date>)
    ensures BindTodoUpdate(JObject(fields - {key}), parseDate) == BindTodoUpdate(JObject(fields[key := JNull]), parseDate)
  {
    UpdateReadsGets(fields - {key}, fields[key := JNull], parseDate);
  }

  /** Keys that name no field change nothing, in either body. */
  lemma ExtraKeysIgnored(fields: map<string, Json>, key: string, v: Json, parseDate: Json -> Option<Date>)
    requires !IsFieldName(key)
    ensures BindTodoCreate(JObject(fields[key := v]), parseDate) == BindTodoCreate(JObject(fields), parseDate)
    ensures BindTodoUpdate(JObject(fields[key := v]), parseDate) == BindTodoUpdate(JObject(fields), parseDate)
  {
    var a := fields[key := v];
    assert key != TitleKey && key != DescriptionKey && key != StatusKey;
    assert key != PriorityKey && key != DueDateKey && key != CategoryIdKey;
    CreateReadsFields(a, fields, parseDate);
    UpdateReadsGets(a, fields, parseDate);
  }

  /** A body holding only a title creates a pending, medium-priority todo with nothing
      else set. */
  lemma CreateDefaults(title: string, parseDate: Json -> Option<Date>)
    ensures BindTodoCreate(JObject(map[TitleKey := JString(title)]), parseDate)
         == Success(TodoCreate(title, None, DefaultStatus, DefaultPriority, None, None))
  {
  }

  /** `status` has a default but is not optional: an explicit `null` is refused. */
  lemma CreateNullStatusRefused(fields: map<string, Json>, parseDate: Json -> Option<Date>)
    requires Get(fields, TitleKey).JString?
    ensures BindTodoCreate(JObject(fields[StatusKey := JNull]), parseDate).Failure?
  {
  }

  /** No value constraint is placed on `status` or `priority`: any string binds. */
  lemma AnyStatusAndPriority(title: string, status: string, priority: string, parseDate: Json -> Option<Date>)
    ensures BindTodoCreate(JObject(map[TitleKey := JString(title), StatusKey := JString(status), PriorityKey := JString(priority)]), parseDate)
         == Success(TodoCreate(title, None, status, priority, None, None))
    ensures BindTodoUpdate(JObject(map[StatusKey := JString(status), PriorityKey := JString(priority)]), parseDate)
         == Success(TodoUpdate(None, None, Some(status), Some(priority), None, None))
  {
  }
}
