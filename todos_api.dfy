/** The `/todos` routes: query-parameter bounds, the 404 answers, the natural-language
    route's error mapping and its second look at the due date. */
module TodosApi {
  import opened Wrappers
  import opened Text
  import opened Json
  import opened Dates
  import opened Models
  import opened Schemas
  import opened AliClient
  import opened TodoService

  const NotFoundDetail := "待办不存在"
  const CallFailedPrefix := "调用解析服务失败: "

  const DefaultLimit := 100
  const MaxLimit := 500
  const DefaultOffset := 0
  /** How much of the trimmed due-date text is handed to `strptime`. */
  const DueDateLength := 10
  const TextKey := "text"

  /** What a route answers: a body, an empty 204, an error with its detail, or the
      framework's 422 for a request that does not bind. */
  datatype Answer<T> = Ok(body: T) | NoContent | HttpError(status: nat, detail: string) | Unprocessable

  /** `limit: int = Query(100, ge=1, le=500)` and `offset: int = Query(0, ge=0)`. */
  function BindPaging(limit: Option<int>, offset: Option<int>): (r: Option<(nat, nat)>)
    ensures r.Some? <==> (limit.None? || 1 <= limit.value <= MaxLimit) && (offset.None? || offset.value >= 0)
    ensures r.Some? ==> r.value.0 == limit.GetOr(DefaultLimit) && r.value.1 == offset.GetOr(DefaultOffset)
    ensures r.Some? ==> 1 <= r.value.0 <= MaxLimit
  {
    var l := limit.GetOr(DefaultLimit);
    var o := offset.GetOr(DefaultOffset);
    if 1 <= l <= MaxLimit && o >= 0 then Some((l, o)) else None
  }

  /** `GET /todos`: the page of matching todos; the total is dropped. */
  method ListRoute(store: TodoStore, f: Filter, limit: Option<int>, offset: Option<int>)
    returns (a: Answer<seq<TodoResponse>>)
    requires store.Valid()
    ensures BindPaging(limit, offset).None? ==> a == Unprocessable
    ensures BindPaging(limit, offset).Some? ==> a.Ok?
    ensures a.Ok? ==> var p := BindPaging(limit, offset).value;
      var ids := Page(store.Matching(f), p.1, p.0);
      && |a.body| == |ids| <= p.0
      && forall k :: 0 <= k < |ids| ==> ids[k] in store.todos && a.body[k] == store.Joined(ids[k])
  {
    var paging := BindPaging(limit, offset);
    if paging.None? {
      return Unprocessable;
    }
    var items, _ := store.ListTodos(f, paging.value.0, paging.value.1);
    a := Ok(items);
  }

  /** `GET /todos/{id}` */
  function GetRoute(store: TodoStore, id: int): (a: Answer<TodoResponse>)
    reads store
    ensures a.Ok? <==> id in store.todos
    ensures a.Ok? ==> a.body == store.Joined(id)
    ensures !a.Ok? ==> a == HttpError(404, NotFoundDetail)
  {
    var item := store.GetTodo(id);
    if item.None? then HttpError(404, NotFoundDetail) else Ok(item.value)
  }

  /** `POST /todos` */
  method CreateRoute(store: TodoStore, body: Json, parseDate: Json -> Option<Date>, now: Timestamp)
    returns (a: Answer<TodoResponse>)
    requires store.Valid()
    modifies store
    ensures store.Valid()
    ensures BindTodoCreate(body, parseDate).Failure? ==> a == Unprocessable && store.todos == old(store.todos)
    ensures BindTodoCreate(body, parseDate).Success? ==> var data := BindTodoCreate(body, parseDate).value;
      && a.Ok? && a.body.id !in old(store.todos)
      && store.todos == old(store.todos)[a.body.id := NewTodoItem(data.title, data.description, Some(data.status),
                                                                   Some(data.priority), data.dueDate, data.categoryId, now)]
    ensures store.categories == old(store.categories)
  {
    var data := BindTodoCreate(body, parseDate);
    if data.Failure? {
      return Unprocessable;
    }
    var r := store.CreateTodo(data.value, now);
    a := Ok(r);
  }

  /** `PUT /todos/{id}`: 404 and no change for a missing id. */
  method PutRoute(store: TodoStore, id: int, body: Json, parseDate: Json -> Option<Date>, now: Timestamp)
    returns (a: Answer<TodoResponse>)
    requires store.Valid()
    modifies store
    ensures store.Valid()
    ensures BindTodoUpdate(body, parseDate).Failure? ==> a == Unprocessable && store.todos == old(store.todos)
    ensures BindTodoUpdate(body, parseDate).Success? && id !in old(store.todos) ==>
      a == HttpError(404, NotFoundDetail) && store.todos == old(store.todos)
    ensures BindTodoUpdate(body, parseDate).Success? && id in old(store.todos) ==>
      var data := BindTodoUpdate(body, parseDate).value;
      && store.todos == old(store.todos)[id := Touch(old(store.todos)[id], FullUpdate(old(store.todos)[id], data), now)]
      && a == Ok(store.Written(id))
    ensures store.categories == old(store.categories)
  {
    var data := BindTodoUpdate(body, parseDate);
    if data.Failure? {
      return Unprocessable;
    }
    var item := store.UpdateFull(id, data.value, now);
    if item.None? {
      return HttpError(404, NotFoundDetail);
    }
    a := Ok(item.value);
  }

  /** `PATCH /todos/{id}`: 404 and no change for a missing id. */
  method PatchRoute(store: TodoStore, id: int, body: Json, parseDate: Json -> Option<Date>, now: Timestamp)
    returns (a: Answer<TodoResponse>)
    requires store.Valid()
    modifies store
    ensures store.Valid()
    ensures BindTodoUpdate(body, parseDate).Failure? ==> a == Unprocessable && store.todos == old(store.todos)
    ensures BindTodoUpdate(body, parseDate).Success? && id !in old(store.todos) ==>
      a == HttpError(404, NotFoundDetail) && store.todos == old(store.todos)
    ensures BindTodoUpdate(body, parseDate).Success? && id in old(store.todos) ==>
      var data := BindTodoUpdate(body, parseDate).value;
      && store.todos == old(store.todos)[id := Touch(old(store.todos)[id], PartialUpdate(old(store.todos)[id], data), now)]
      && a == Ok(store.Written(id))
    ensures store.categories == old(store.categories)
  {
    var data := BindTodoUpdate(body, parseDate);
    if data.Failure? {
      return Unprocessable;
    }
    var item := store.UpdatePartial(id, data.value, now);
    if item.None? {
      return HttpError(404, NotFoundDetail);
    }
    a := Ok(item.value);
  }

  /** `DELETE /todos/{id}`: 204 when the row existed, 404 otherwise. */
  method DeleteRoute(store: TodoStore, id: int) returns (a: Answer<TodoResponse>)
    requires store.Valid()
    modifies store
    ensures store.Valid()
    ensures a == (if id in old(store.todos) then NoContent else HttpError(404, NotFoundDetail))
    ensures store.todos == old(store.todos) - {id} && store.categories == old(store.categories)
  {
    var ok := store.DeleteTodo(id);
    if !ok {
      return HttpError(404, NotFoundDetail);
    }
    a := NoContent;
  }

  /** A `ValueError` from the parser is the client's fault (400, its message); any other
      exception is the upstream service's (502). */
  function ErrorAnswer(e: NlError): (a: Answer<TodoResponse>)
    ensures e.IsValueError() ==> a == HttpError(400, e.Message())
    ensures !e.IsValueError() ==> a == HttpError(502, CallFailedPrefix + e.Message())
  {
    if e.IsValueError() then HttpError(400, e.Message()) else HttpError(502, CallFailedPrefix + e.Message())
  }

  /** The parsed `due_date` as the route sees it in the dict. */
  function DueDateValue(d: Option<string>): Json {
    if d.Some? then JString(d.value) else JNull
  }

  /** The route's own reading of `due_date`: a falsy or non-string value gives `None`;
      a string is trimmed, cut to its first ten characters and parsed as `%Y-%m-%d`, and
      any parse failure gives `None` as well. */
  function CoerceDueDate(v: Json): (r: Option<Date>)
    ensures !Truthy(v) || !v.JString? ==> r == None
    ensures r.Some? ==> IsValidDate(r.value) && v.JString?
    ensures Truthy(v) && v.JString? ==> r == StrptimeYmd(Take(Strip(v.s), DueDateLength))
  {
    if Truthy(v) && v.JString? then StrptimeYmd(Take(Strip(v.s), DueDateLength)) else None
  }

  /** `TodoCreate(**parsed)` once `due_date` is replaced: the only field that differs
      from the parser's output. */
  function NlToCreate(p: Parsed, due: Option<Date>): (c: TodoCreate)
    ensures c.title == p.title && c.description == p.description && c.status == p.status
    ensures c.priority == p.priority && c.categoryId == p.categoryId && c.dueDate == due
  {
    TodoCreate(p.title, p.description, p.status, p.priority, due, p.categoryId)
  }

  /** `NaturalLanguageTodoBody`: an object whose `text` is a string; anything else is 422. */
  function NlText(body: Json): (r: Option<string>)
    ensures r.Some? <==> body.JObject? && Get(body.fields, TextKey).JString?
    ensures r.Some? ==> r.value == Get(body.fields, TextKey).s
  {
    if body.JObject? && Get(body.fields, TextKey).JString? then Some(Get(body.fields, TextKey).s) else None
  }

  /** `POST /todos/from-natural-language`. The model's reply (or the client's failure) is
      an input, as are the JSON decoder and `str()` of a JSON value. */
  method NaturalLanguageRoute(store: TodoStore, apiKey: string, body: Json, call: LlmOutcome,
                              decode: string -> Option<Json>, show: Json -> string, now: Timestamp)
    returns (a: Answer<TodoResponse>)
    requires store.Valid()
    modifies store
    ensures store.Valid() && store.categories == old(store.categories)
    ensures NlText(body).None? ==> a == Unprocessable && store.todos == old(store.todos)
    ensures NlText(body).Some? ==> var p := ParseNaturalLanguage(apiKey, NlText(body).value, call, decode, show);
      && (p.Failure? ==> a == ErrorAnswer(p.error) && store.todos == old(store.todos))
      && (p.Success? ==> var data := NlToCreate(p.value, CoerceDueDate(DueDateValue(p.value.dueDate)));
            && a.Ok? && a.body.id !in old(store.todos)
            && store.todos == old(store.todos)[a.body.id := NewTodoItem(data.title, data.description, Some(data.status),
                                                                         Some(data.priority), data.dueDate, data.categoryId, now)])
    ensures NlText(body).Some? && apiKey == "" ==> a == HttpError(400, MissingKeyMessage)
    ensures a.Ok? ==> var row := store.todos[a.body.id];
      && row.title != "" && row.status == "pending" && IsPriority(row.priority) && row.categoryId == None
      && (row.dueDate.Some? ==> IsValidDate(row.dueDate.value))
  {
    var text := NlText(body);
    if text.None? {
      return Unprocessable;
    }
    var parsed := ParseNaturalLanguage(apiKey, text.value, call, decode, show);
    if parsed.Failure? {
      return ErrorAnswer(parsed.error);
    }
    var due := CoerceDueDate(DueDateValue(parsed.value.dueDate));
    var data := NlToCreate(parsed.value, due);
    var r := store.CreateTodo(data, now);
    a := Ok(r);
  }

  // ---------------------------------------------------------------- due-date lemmas

  /** A valid date written `YYYY-MM-DD`, with surrounding whitespace and anything after
      it (a time of day, a zone), is read as that date. */
  lemma IsoPrefixAccepted(lead: string, d: Date, rest: string)
    requires AllSpace(lead) && IsValidDate(d)
    ensures CoerceDueDate(JString(lead + IsoText(d) + rest)) == Some(d)
  {
    var x := IsoText(d);
    var s := lead + x + rest;
    IsoTextShape(d);
    assert Truthy(JString(s)) by {
      assert |s| >= |x| == 10;
    }
    IsoPrefixKept(lead, d, rest);
    IsoParses(d);
  }

  /** Stripping and cutting to ten characters recovers the ISO text. */
  lemma IsoPrefixKept(lead: string, d: Date, rest: string)
    requires AllSpace(lead) && IsValidDate(d)
    ensures Take(Strip(lead + IsoText(d) + rest), DueDateLength) == IsoText(d)
  {
    var x := IsoText(d);
    IsoTextShape(d);
    DigitNotSpace(x[0]);
    DigitNotSpace(x[9]);
    StripLeadKeepsPrefix(lead, x, rest);
  }

  /** The ISO text of a date parses back to it exactly when the date exists. */
  lemma IsoParses(d: Date)
    requires 0 <= d.year <= 9999 && 1 <= d.month <= 12 && 1 <= d.day <= 31
    ensures StrptimeYmd(IsoText(d)) == if IsValidDate(d) then Some(d) else None
  {
    ParseSpelling(d, true, 0);
  }

  lemma DigitNotSpace(c: char)
    requires IsDigit(c)
    ensures !IsSpace(c)
  {
  }

  /** A date the calendar does not have is dropped, not refused. */
  lemma ImpossibleDateDropped(d: Date)
    requires 0 <= d.year <= 9999 && 1 <= d.month <= 12 && 1 <= d.day <= 31 && !IsValidDate(d)
    ensures CoerceDueDate(JString(IsoText(d))) == None
  {
    var x := IsoText(d);
    IsoTextShape(d);
    DigitNotSpace(x[0]);
    DigitNotSpace(x[9]);
    StripOfStripped(x);
    IsoParses(d);
  }

  /** The 30th of February, and text that is no date at all, are both dropped. */
  lemma DroppedExamples()
    ensures CoerceDueDate(JString(IsoText(Date(2025, 2, 30)))) == None
    ensures CoerceDueDate(JString("not-a-date")) == None
  {
    ImpossibleDateDropped(Date(2025, 2, 30));
    StripOfStripped("not-a-date");
  }

  /** A short stripped text with whitespace around it is parsed whole. */
  lemma {:induction false} ShortTextParsed(lead: string, x: string, trail: string)
    requires AllSpace(lead) && AllSpace(trail) && IsStripped(x) && 0 < |x| <= DueDateLength
    ensures CoerceDueDate(JString(lead + x + trail)) == StrptimeYmd(x)
  {
    var s := lead + x + trail;
    assert |s| > 0;
    StripAround(lead, x, trail);
  }

  /** An unpadded date such as `2024-1-5`, which strptime also accepts, is read as that date. */
  lemma UnpaddedDateRead()
    ensures CoerceDueDate(JString(" 2024-1-5 ")) == Some(Date(2024, 1, 5))
  {
    var x := "2024-1-5";
    assert " " + x + " " == " 2024-1-5 ";
    ShortTextParsed(" ", x, " ");
    UnpaddedParses();
  }

  lemma UnpaddedParses()
    ensures StrptimeYmd("2024-1-5") == Some(Date(2024, 1, 5))
  {
  }
}
