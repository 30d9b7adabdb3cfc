# Lumist todo backend and client, modelled in Dafny

This project models the core of a small todo application:

- a FastAPI backend that keeps todo items and categories in a relational database;
- a natural-language endpoint that asks a chat model (Alibaba's DashScope,
  through its OpenAI-compatible API) to turn a sentence into a todo, then normalises
  the reply;
- the settings read from the environment;
- the browser client's pure rules (filtering, labels, the status toggle, the form
  payload) and its OKR (objectives and key results) editor.

The modules follow the source files:

| module | models |
|---|---|
| `Text` | Python string primitives the backend uses: `isspace`, `strip`, slicing, ASCII case mapping, `split(",")` |
| `Json` | JSON values as `json.loads` and the request bodies produce them, with Python truthiness |
| `Dates` | `datetime.strptime(s, "%Y-%m-%d")`: the regular expression it compiles, backtracking, calendar validation |
| `Models` | the `categories` and `todo_items` rows, column defaults and the `updated_at` refresh rule |
| `Schemas` | binding a JSON body to `TodoCreate` / `TodoUpdate`, and the `TodoResponse` shape |
| `TodoService` | the todo and category services over a `TodoStore` class holding both tables and the id counters |
| `TodosApi` | the HTTP routes of the todo router, including the natural-language one |
| `AliClient` | the reply normalisation of `parse_natural_language_to_todo` |
| `Config` | the `Settings` object read from the environment |
| `Lists` | `Array.prototype.filter` and `find` on sequences |
| `Frontend` | JavaScript `trim`, `String(n)`, `parseInt`; `applyFilters`; the labels; the toggle; the todo form payload; the `FilterPanel` class |
| `Okr` | the OKR editor as an `OkrBoard` class whose handlers are specified by pure functions |

The database is modelled by the `TodoStore` class. Its two maps from id to row
stand for the tables, and its two counters stand for `AUTOINCREMENT`. Ids are
handed out in increasing order and never reused. Each service method states its
result and the new state of both tables. Its state is tied to the pure functions
beside it: the filter and ordering, paging, the two update rules and the
`updated_at` rule. Lemmas then prove what those functions promise.

Several inputs are parameters rather than modelled code:

- timestamps (`now`);
- the chat model's reply or failure (`LlmOutcome`);
- `json.loads` (`decode`) and Python's `str()` of a non-string JSON value (`show`);
- pydantic's date coercion of a non-null JSON value in a request body (`parseDate`), which covers ISO date strings and numbers read as Unix timestamps alike;
- the client's fresh ids and the answer to its confirmation dialog.

## Model

| member | source | states |
|---|---|---|
| Text.TrimStartSplit | backend/app/config.py:24 | `lstrip` keeps a suffix of the text and what it removes is whitespace only |
| Text.TrimEndSplit | backend/app/config.py:24 | `rstrip` keeps a prefix of the text and what it removes is whitespace only |
| Text.Strip | backend/app/config.py:24 | `str.strip()` returns a result with no whitespace at either end |
| Text.StripAround | backend/app/llm/ali_client.py:74 | stripping removes exactly the whitespace around a stripped core, so it is determined on every input |
| Text.StripIdempotent | backend/app/llm/ali_client.py:67-74 | stripping a stripped text changes nothing |
| Text.SplitJoin | backend/app/config.py:24 | splitting a comma-free list joined by commas gives the list back |
| Text.JoinSplit | backend/app/config.py:24 | joining the pieces of a split with the separator gives the text back |
| Text.Split | backend/app/config.py:24 | `split(",")` gives at least one piece and no piece holds the separator |
| Text.Lower | backend/app/config.py:14 | `lower()` keeps the length and maps each character to its ASCII lower case |
| Text.Upper | backend/app/config.py:15 | `upper()` keeps the length and maps each character to its ASCII upper case |
| Text.Take | backend/app/llm/ali_client.py:87 | `s[:n]` is the prefix of length `n`, or all of `s` when it is shorter |
| Json.Get | backend/app/llm/ali_client.py:85-101 | `dict.get` returns the value of a present key and `None` for an absent one |
| Json.FalsyValues | backend/app/llm/ali_client.py:84-101 | the values Python treats as false are exactly `None`, `False`, `0`, `0.0`, `""`, `[]` and `{}` |
| Dates.DaysInMonth | backend/app/api/todos.py:62 | month lengths are 28 to 31, and February has 29 days exactly in Gregorian leap years |
| Dates.StrptimeYmd | backend/app/api/todos.py:62 | `%Y-%m-%d` parsing succeeds only with a valid calendar date, reading four year digits, then `-`, a one- or two-digit month, `-` and a day with nothing left over |
| Dates.ParseSpelling | backend/app/api/todos.py:62 | every spelling strptime accepts (padded or unpadded month; padded, unpadded or space-padded day) parses to its date exactly when the date exists |
| Dates.ParsedIsSpelling | backend/app/api/todos.py:62 | anything the parser accepts is one of those spellings of the date it returns |
| Dates.LeapDayExamples | backend/app/api/todos.py:62 | 2024-02-29 and 2000-02-29 parse; 2023-02-29, 1900-02-29, 2025-02-30 and year 0 are refused |
| Dates.YearDigitsPad4 | backend/app/api/todos.py:62 | four digits read as a year and printed back with zero padding are the same four digits |
| Models.NewTodoItem | backend/app/models/models.py:14-25 | a new row takes the given columns, status `pending` and priority `medium` by default, and `now` for both timestamps |
| Models.Touch | backend/app/models/models.py:25 | `updated_at` becomes `now` exactly when some column changed; an unchanged row is left as it was, and `created_at` never moves |
| Models.Unlink | backend/app/models/models.py:22 | `ON DELETE SET NULL` clears `category_id` on rows pointing at the deleted category and changes nothing else |
| Schemas.OptionalString | backend/app/schemas/todo.py:8 | an absent or null key binds to `None`, a string to itself, and anything else is a type error |
| Schemas.DefaultedString | backend/app/schemas/todo.py:7-10 | an absent key takes the default or is missing; a present key must hold a string, and null is refused |
| Schemas.OptionalInt | backend/app/schemas/todo.py:12 | an absent or null key binds to `None`, an integer to itself |
| Schemas.OptionalDate | backend/app/schemas/todo.py:11 | an absent or null key binds to `None`; any other value binds exactly when the date coercion accepts it, to the coerced date, and is otherwise a validation error for that key |
| Schemas.BindTodoCreate | backend/app/schemas/todo.py:6-12 | a non-object body is refused; an object binds exactly when all six fields bind, and then each field is what its field rule made of the body; a body without `title` is refused; absent status and priority take their defaults; null optional fields bind to `None` |
| Schemas.BindTodoUpdate | backend/app/schemas/todo.py:15-21 | a non-object body is refused; an object binds exactly when all six optional fields bind, so only type errors refuse it; each field is what its field rule made of the body, and `None` exactly when its key is absent or null |
| Schemas.UpdateAbsentIsNull | backend/app/schemas/todo.py:15-21 | leaving a key out of an update body and sending it as null bind the same update |
| Schemas.ExtraKeysIgnored | backend/app/schemas/todo.py:6-21 | keys that are not field names change neither binding |
| Schemas.CreateDefaults | backend/app/schemas/todo.py:6-12 | a body with only a title binds to that title, status `pending`, priority `medium` and no other field |
| Schemas.CreateNullStatusRefused | backend/app/schemas/todo.py:9 | an explicit null status is refused where an absent one defaults |
| Schemas.AnyStatusAndPriority | backend/app/schemas/todo.py:9-10 | status and priority are free strings: any value is accepted on create and update |
| TodoService.MatchingBelow | backend/app/services/todo_service.py:11-18 | the ids below a bound whose row passes the filter, each exactly once, in descending id order |
| TodoService.EmptyFiltersIgnored | backend/app/services/todo_service.py:11-16 | an empty status or priority filters nothing, as a missing one; no filter keeps every row; a category filter of 0 still filters |
| TodoService.TotalCountsMatches | backend/app/services/todo_service.py:17 | the total is the number of matching rows |
| TodoService.Page | backend/app/services/todo_service.py:18 | `offset`/`limit` keep at most `limit` entries from position `offset`, in the same order |
| TodoService.PageMatches | backend/app/services/todo_service.py:11-18 | every listed todo passes the filter |
| TodoService.PagesAdjacent | backend/app/services/todo_service.py:18 | a page followed by the page after it is the list from the first offset on: paging loses and repeats nothing |
| TodoService.UnfilteredTotal | backend/app/services/todo_service.py:9-17 | without filters the total is the number of todos |
| TodoService.JoinedCategoryName | backend/app/services/todo_service.py:27 | the joined relationship yields the category's name when `category_id` refers to an existing category, and nothing otherwise |
| TodoService.LookedUpCategoryName | backend/app/services/todo_service.py:62 | the explicit lookup yields a name only for a truthy (non-zero) `category_id` that refers to an existing category |
| TodoService.CategoryNamesAgree | backend/app/services/todo_service.py:27-66 | the two ways of naming a category agree whenever no category has id 0 |
| TodoService.ResponseOf | backend/app/services/todo_service.py:60-68 | the response copies every column of the row and the given category name |
| TodoService.FullUpdate | backend/app/services/todo_service.py:75-80 | a full update keeps both timestamps (the key to `Touch`) |
| TodoService.PartialUpdate | backend/app/services/todo_service.py:90-101 | a partial update keeps both timestamps |
| TodoService.FullIsPartialOfTruthy | backend/app/services/todo_service.py:75-101 | a full update is a partial update in which empty title, status and priority count as absent |
| TodoService.EmptyStringsDiffer | backend/app/services/todo_service.py:75-101 | sending empty strings keeps the old title, status and priority under PUT and writes them under PATCH |
| TodoService.NoFieldBecomesNull | backend/app/services/todo_service.py:76-101 | neither update can clear description, due date or category |
| TodoService.FullKeepsNonEmpty | backend/app/services/todo_service.py:75-78 | a full update never empties a non-empty title, status or priority |
| TodoService.RepeatedUpdateIsNoOp | backend/app/services/todo_service.py:71-104 | applying the same update a second time changes nothing, not even `updated_at` |
| TodoService.TouchOnlyOnChange | backend/app/services/todo_service.py:86-104 | a partial update that changes no column leaves the row as it was; one that changes a column sets `updated_at` to now |
| TodoService.CategoryIdsBelow | backend/app/services/category_service.py:7 | the category ids below a bound, each once, in ascending order |
| TodoService.CategoryListing | backend/app/services/category_service.py:6-7 | the listing holds each category in ascending id order |
| TodoService.ListingGrows | backend/app/services/category_service.py:10-15 | adding a category under the next id appends it to the listing and keeps the earlier entries |
| TodoService.TodoStore.constructor | backend/app/models/models.py:7-25 | the store starts with both tables empty |
| TodoService.TodoStore.Matching | backend/app/services/todo_service.py:11-18 | the ids of the matching todos in descending order |
| TodoService.TodoStore.ListTodos | backend/app/services/todo_service.py:9-29 | the loop returns the requested page of matching todos, each with its columns and joined category name, and the total count |
| TodoService.TodoStore.GetTodo | backend/app/services/todo_service.py:32-41 | found exactly when the id exists, with the row's columns and the joined category name |
| TodoService.TodoStore.Written | backend/app/services/todo_service.py:60-68 | the response after a write carries the row's columns and the looked-up category name |
| TodoService.TodoStore.CreateTodo | backend/app/services/todo_service.py:44-57 | the row is stored under a fresh id with defaults and both timestamps, and nothing else changes |
| TodoService.TodoStore.UpdateFull | backend/app/services/todo_service.py:71-83 | an unknown id changes nothing; otherwise only that row changes, to the PUT rule followed by the `updated_at` rule |
| TodoService.TodoStore.UpdatePartial | backend/app/services/todo_service.py:86-104 | an unknown id changes nothing; otherwise only that row changes, to the PATCH rule followed by the `updated_at` rule |
| TodoService.TodoStore.DeleteTodo | backend/app/services/todo_service.py:107-113 | succeeds exactly when the id exists, and removes that row alone |
| TodoService.TodoStore.ListCategories | backend/app/services/category_service.py:6-7 | every category exactly once, in ascending id order, with its name |
| TodoService.TodoStore.CreateCategory | backend/app/services/category_service.py:10-15 | the new category gets a fresh id and is appended to the listing; todos are untouched |
| TodoService.TodoStore.DeleteCategory | backend/app/models/models.py:22 | deleting a category clears every reference to it and changes nothing else in the todos |
| TodosApi.BindPaging | backend/app/api/todos.py:27-28 | `limit` defaults to 100 and must lie in 1..500; `offset` defaults to 0 and must be non-negative; otherwise 422 |
| TodosApi.ListRoute | backend/app/api/todos.py:21-31 | out-of-range paging is 422; otherwise the page of the service listing |
| TodosApi.GetRoute | backend/app/api/todos.py:34-39 | a known id answers with its response; an unknown one with 404 `待办不存在` |
| TodosApi.CreateRoute | backend/app/api/todos.py:42-44 | an unbindable body is 422 and changes nothing; otherwise the created todo |
| TodosApi.PutRoute | backend/app/api/todos.py:71-76 | unbindable is 422, unknown id is 404, otherwise the full update |
| TodosApi.PatchRoute | backend/app/api/todos.py:79-84 | unbindable is 422, unknown id is 404, otherwise the partial update |
| TodosApi.DeleteRoute | backend/app/api/todos.py:87-91 | 204 exactly when the id existed, 404 otherwise, and the row is gone |
| TodosApi.ErrorAnswer | backend/app/api/todos.py:50-56 | a `ValueError` becomes 400 with its message; any other failure 502 with the `调用解析服务失败: ` prefix |
| TodosApi.CoerceDueDate | backend/app/api/todos.py:58-65 | a falsy or non-string value gives no date; a non-empty string gives exactly what strptime makes of its first ten characters after stripping, which is a valid date or nothing |
| TodosApi.ShortTextParsed | backend/app/api/todos.py:60-62 | a stripped text of at most ten characters, with whitespace around it, is handed to strptime whole |
| TodosApi.UnpaddedDateRead | backend/app/api/todos.py:60-62 | ` 2024-1-5 ` is read as 5 January 2024 |
| TodosApi.IsoPrefixAccepted | backend/app/api/todos.py:58-65 | an ISO date after leading whitespace and before any trailing text is read as that date |
| TodosApi.ImpossibleDateDropped | backend/app/api/todos.py:61-64 | a well-formed but impossible date is dropped, not an error |
| TodosApi.DroppedExamples | backend/app/api/todos.py:61-64 | `2025-02-30` and `not-a-date` both become no due date |
| TodosApi.NlToCreate | backend/app/api/todos.py:65-67 | the parsed fields and the coerced due date become the create payload unchanged |
| TodosApi.NlText | backend/app/api/todos.py:17-18 | the body binds exactly when it is an object whose `text` is a string, to that string |
| TodosApi.NaturalLanguageRoute | backend/app/api/todos.py:17-68 | a body without a string `text` is 422 and changes nothing; otherwise a parse failure maps to 400/502; a missing key is 400 with its message; a created todo is pending, has one of the three priorities, no category, and a valid or absent due date |
| AliClient.NonEmpty | backend/app/llm/ali_client.py:93 | `s or None` for a string |
| AliClient.StripOpeningFence | backend/app/llm/ali_client.py:72 | text without a leading fence is unchanged; otherwise what is left is a suffix that does not start with whitespace, and what was cut after the fence is the `json` tag, when the text has it there, followed by whitespace only |
| AliClient.StripClosingFence | backend/app/llm/ali_client.py:73 | text that does not end in a fence, ignoring trailing whitespace, is unchanged; otherwise what is left is a prefix that does not end with whitespace, and what was cut is whitespace, one fence, whitespace |
| AliClient.StripFences | backend/app/llm/ali_client.py:71-74 | the unwrapped reply is stripped |
| AliClient.NoFenceUnchanged | backend/app/llm/ali_client.py:71-74 | a stripped reply without fences passes through unchanged |
| AliClient.OpeningFenceRemoved | backend/app/llm/ali_client.py:72 | the opening fence with its tag and whitespace is removed exactly |
| AliClient.ClosingFenceRemoved | backend/app/llm/ali_client.py:73 | the closing fence with its whitespace is removed exactly |
| AliClient.UnwrapFenced | backend/app/llm/ali_client.py:71-74 | a fenced JSON body comes out as the body itself |
| AliClient.FencedReplyUnwrapped | backend/app/llm/ali_client.py:67-74 | a fenced reply is already stripped and unwraps to its body |
| AliClient.FencedReplyParsed | backend/app/llm/ali_client.py:67-83 | a fenced reply whose body decodes to an object is normalised as that object |
| AliClient.PlainReplyParsed | backend/app/llm/ali_client.py:67-83 | an unfenced object reply with whitespace around it is normalised as that object |
| AliClient.FallbackTitle | backend/app/llm/ali_client.py:87 | the first 100 characters of the text, stripped, or `未命名任务` when that is empty |
| AliClient.NormaliseTitle | backend/app/llm/ali_client.py:85-87 | a non-empty stripped string title is kept; an empty or falsy one falls back; a truthy non-string fails on `.strip` |
| AliClient.NormaliseDescription | backend/app/llm/ali_client.py:89-93 | a string is stripped and emptiness becomes `None`; a falsy non-string is `None`; a truthy one is converted with `str` first |
| AliClient.NormaliseDueDate | backend/app/llm/ali_client.py:95-99 | a non-string is dropped; a string is stripped and emptiness becomes `None` |
| AliClient.NormalisePriority | backend/app/llm/ali_client.py:101-103 | the lower-cased priority if it is low, medium or high, `medium` otherwise; a truthy non-string fails on `.lower` |
| AliClient.NormaliseObject | backend/app/llm/ali_client.py:85-112 | a failing title or priority fails with its own error, the title first; otherwise the record is the normalised title, description, due date and priority of the object's fields, with status `pending` and no category |
| AliClient.ParseReply | backend/app/llm/ali_client.py:67-112 | an empty reply, undecodable JSON and a non-object fail with their messages; a reply that decodes to an object after unwrapping is exactly the normalisation of that object |
| AliClient.ParseNaturalLanguage | backend/app/llm/ali_client.py:38-112 | no API key fails first; a failed call fails with its detail; otherwise the reply is parsed |
| AliClient.BuyMilkNormalised | backend/app/llm/ali_client.py:85-112 | an object with only a title becomes that title, pending, medium and nothing else |
| AliClient.UrgentBecomesMedium | backend/app/llm/ali_client.py:101-103 | an unknown priority becomes `medium` |
| Config.GetEnv | backend/app/config.py:14-23 | `os.getenv` with a default |
| Config.ParseDebug | backend/app/config.py:14 | DEBUG is true exactly when its lower-cased value is `1`, `true` or `yes` |
| Config.DebugIgnoresCase | backend/app/config.py:14 | upper-casing the value does not change the flag |
| Config.DebugNotTrimmed | backend/app/config.py:14 | whitespace before or after the value makes the flag false |
| Config.LogLevel | backend/app/config.py:15 | the level is the upper-cased `LOG_LEVEL`, `INFO` when unset, and holds no lower-case ASCII letter |
| Config.LogLevelIgnoresCase | backend/app/config.py:15 | lower-casing the variable's value does not change the level |
| Config.AliApiKey | backend/app/config.py:19 | the Bailian key when non-empty, else the OpenAI key; empty exactly when both are |
| Config.CorsOrigins | backend/app/config.py:23-24 | the origins are the stripped non-blank comma-separated pieces of `CORS_ORIGINS` (or its default), in order; each is non-empty, stripped and comma-free |
| Config.StripAndDrop | backend/app/config.py:24 | the comprehension keeps no more entries than it is given, each of them stripped and non-empty |
| Config.StripAndDropConcat | backend/app/config.py:24 | the comprehension works piece by piece: over a concatenation it is the concatenation of the two results |
| Config.StripAndDropOne | backend/app/config.py:24 | one piece becomes its stripped text, or nothing when that is empty |
| Config.PaddedOrigins | backend/app/config.py:24 | `" a , ,b "` gives the origins `a` and `b` |
| Config.CorsRoundTrip | backend/app/config.py:24 | joining a list of such origins with commas and reading it back gives the list |
| Config.StripAndDropKeeps | backend/app/config.py:24 | entries that are already stripped and non-empty are kept as they are |
| Config.BlankEntriesDropped | backend/app/config.py:24 | a blank entry anywhere disappears without disturbing the others |
| Config.LoadSettings | backend/app/config.py:13-24 | each setting is read from its variable as above: the database URL, the Bailian key, the endpoint and the model are the variable or its default as given |
| Config.DefaultOrigins | backend/app/config.py:23 | the default allows `http://localhost:3000` and `http://127.0.0.1:3000` |
| Config.EmptyEnvironment | backend/app/config.py:13-24 | with nothing set: debug off, `INFO`, no database, no keys, the DashScope endpoint, `qwen-turbo` and the two local origins |
| Lists.Keep | frontend/app.js:179-181 | `filter` keeps exactly the elements that pass, and no more than the input |
| Lists.KeepConcat | frontend/app.js:179-181 | filtering a concatenation filters each part in place, so the input order is kept |
| Lists.KeepKeep | frontend/app.js:179-181 | two filters in a row are one filter by the conjunction |
| Lists.KeepAll | frontend/app.js:174-183 | a filter everything passes changes nothing |
| Lists.FirstIndex | frontend/app.js:462 | `find` returns the first position holding the key, and none exactly when the key is absent |
| Lists.FirstIsOnly | frontend/app.js:462 | with distinct keys the first position is the only one |
| Frontend.JsTrimStartSplit | frontend/app.js:274-275 | the leading half of `trim` keeps a suffix and removes JavaScript whitespace only |
| Frontend.JsTrimEndSplit | frontend/app.js:274-275 | the trailing half of `trim` keeps a prefix and removes JavaScript whitespace only |
| Frontend.JsTrim | frontend/app.js:274-275 | `trim` leaves no JavaScript whitespace at either end |
| Frontend.JsTrimAround | frontend/app.js:274-275 | `trim` removes exactly the whitespace around a trimmed core, so it is determined on every input |
| Frontend.NatToString | frontend/app.js:181 | `String(n)` is a non-empty run of decimal digits |
| Frontend.JsParseInt | frontend/app.js:279 | `parseInt` is NaN exactly when no digit follows the whitespace and the sign |
| Frontend.ParseIntToString | frontend/app.js:279 | `parseInt(String(i), 10)` is `i` for every integer |
| Frontend.IntToStringInjective | frontend/app.js:181 | distinct integers print differently, and none prints as `null` |
| Frontend.IntToString | frontend/app.js:181 | `String(i)` starts with `-` exactly for a negative integer and is otherwise made of decimal digits |
| Frontend.NullableToString | frontend/app.js:181 | `String(null)` is `null`, and no integer prints as `null` |
| Frontend.ApplyFiltersIsOneFilter | frontend/app.js:174-183 | the three passes keep, in order, exactly the todos that pass every non-empty filter |
| Frontend.ApplyFiltersExact | frontend/app.js:174-183 | a todo is visible exactly when it is in the list and passes every non-empty filter, and the visible list is no longer than the list |
| Frontend.CategoryFilterExact | frontend/app.js:181 | selecting category `c` keeps exactly the todos whose `category_id` is `c`; a todo without a category never matches |
| Frontend.Label | frontend/app.js:164-172 | a known code gets its label and any other code comes back unchanged |
| Frontend.StatusLabel | frontend/app.js:164-167 | the three status codes get their Chinese labels; any other status shows as itself |
| Frontend.PriorityLabel | frontend/app.js:169-172 | the three priority codes get their Chinese labels; any other priority shows as itself |
| Frontend.LabelAsWritten | frontend/app.js:164-172 | the object-literal lookup yields an inherited prototype member exactly for the inherited names that are not codes |
| Frontend.LabelAsWrittenAgrees | frontend/app.js:164-172 | on every other code the lookup as written gives the intended label |
| Frontend.StatusLabelCounterexample | frontend/app.js:164-167 | a status `toString` shows a function where the code was intended |
| Frontend.NextStatus | frontend/app.js:300 | the toggle sends `pending` exactly for a done todo and `done` for every other status |
| Frontend.ToggleTwice | frontend/app.js:300 | toggling twice restores a pending or done todo |
| Frontend.ToggleUpdate | frontend/app.js:299-301 | the PATCH body carries only a status, the next one, which always differs from the current status |
| Frontend.ToggleChangesOnlyStatus | frontend/app.js:296-310 | on the server the toggle's PATCH changes the status alone, and always changes it, so `updated_at` moves |
| Frontend.FormPayload | frontend/app.js:273-280 | the title is trimmed; the description is trimmed with empty becoming null; an empty date is null; the category is null when empty and `parseInt` otherwise |
| Frontend.PayloadCategoryRoundTrip | frontend/app.js:279 | a category option carrying `String(id)` sends `id` back |
| Frontend.FilterPanel.Visible | frontend/app.js:174-183 | the visible todos are the one-pass filter by the panel's three values |
| Frontend.FilterPanel.OnCategoryClick | frontend/app.js:514-522 | clicking the selected category clears it; clicking another selects it; the category filter follows |
| Frontend.FilterPanel.ResetFilter | frontend/app.js:328-335 | every filter is cleared, so every todo is visible |
| Okr.FindObjective | frontend/app.js:462 | the first objective with the id, and none exactly when no objective has it |
| Okr.FindKr | frontend/app.js:495 | the first key result with the id, and none exactly when none has it |
| Okr.Renamed | frontend/app.js:462-463 | renaming keeps the length and the ids, gives the chosen objective the new title and leaves every other one as it was |
| Okr.ObjectiveSubmitted | frontend/app.js:456-469 | a blank title does nothing; with an id, ids are kept, an unknown id changes nothing, and other objectives are unchanged; with a known id and a non-blank title the board is that objective renamed to the trimmed title; without an id, one objective with no key results is appended |
| Okr.KrSubmitted | frontend/app.js:474-485 | blank content or an unknown objective does nothing; otherwise one undone key result is appended to that objective and no other changes |
| Okr.FlipKr | frontend/app.js:495-496 | the first key result with the id has `done` flipped, and the rest are unchanged |
| Okr.KrToggled | frontend/app.js:492-498 | an unknown objective or one without key results is untouched; otherwise only that objective's matching key result flips |
| Okr.KrDeleted | frontend/app.js:500-505 | only the matching objective changes, keeping its key results whose id differs, in order |
| Okr.ObjectiveDeleted | frontend/app.js:507-511 | unconfirmed does nothing; confirmed keeps exactly the objectives whose id differs |
| Okr.RenameOnlyMatching | frontend/app.js:462-464 | with distinct ids the objective carrying the id gets the trimmed title |
| Okr.SubmitKeepsIdsDistinct | frontend/app.js:456-469 | a fresh id keeps objective ids distinct |
| Okr.KrSubmitOnlyMatching | frontend/app.js:478-482 | with distinct ids the key result lands on the objective carrying the id |
| Okr.FlipTwice | frontend/app.js:495-496 | flipping the same key result twice restores the list |
| Okr.ToggleTwice | frontend/app.js:492-498 | toggling the same key result twice restores the board |
| Okr.ToggleOnlyMatching | frontend/app.js:495-496 | with distinct key-result ids only that key result's `done` flips |
| Okr.DeleteUnknownIsNoOp | frontend/app.js:507-511 | deleting an id no objective has changes nothing |
| Okr.DeleteRemovesExactlyOne | frontend/app.js:507-511 | with distinct ids the objective is removed and the others keep their order |
| Okr.DeleteKrIdempotent | frontend/app.js:500-505 | deleting a key result twice is deleting it once |
| Okr.OkrBoard.constructor | frontend/app.js:93 | the board starts with no objectives |
| Okr.OkrBoard.SubmitObjective | frontend/app.js:456-469 | the handler leaves the board as `ObjectiveSubmitted` describes |
| Okr.OkrBoard.SubmitKr | frontend/app.js:474-485 | the handler leaves the board as `KrSubmitted` describes |
| Okr.OkrBoard.ToggleKrDone | frontend/app.js:492-498 | the handler leaves the board as `KrToggled` describes |
| Okr.OkrBoard.DeleteKr | frontend/app.js:500-505 | the handler leaves the board as `KrDeleted` describes |
| Okr.OkrBoard.DeleteObjective | frontend/app.js:507-511 | the handler leaves the board as `ObjectiveDeleted` describes |

## Findings

| source | as written | input that shows it | evidently intended | confidence | as-written member | corrected member |
|---|---|---|---|---|---|---|
| frontend/app.js:164-172 | `statusLabel` and `priorityLabel` read a plain object literal, so a code that names a member inherited from `Object.prototype` finds that member | a todo whose status (a free string on the server) is `toString` or `constructor` shows a function instead of its code | codes without a label come back unchanged | not executed | Frontend.LabelAsWritten (shown by Frontend.StatusLabelCounterexample) | Frontend.StatusLabel, Frontend.PriorityLabel (Frontend.LabelAsWrittenAgrees states where the two agree) |

## Left out

- The chat-completion call, the OpenAI client and clearing the proxy environment variables are left out: they are network I/O and process-environment changes. The reply (or failure) is a parameter.
- `json.loads` and Python's `str()` of a non-string JSON value are parameters (`decode`, `show`), not modelled.
- JSON numbers are integers and reals; NaN and Infinity are not modelled.
- Case mapping (`lower`, `upper`) is modelled for ASCII letters only, and the model's strptime accepts ASCII digits only, where Python's also reads other Unicode decimal digits.
- The database engine is whatever `DATABASE_URL` names. The model assumes an engine that checks neither the `category_id` foreign key on insert and update nor the declared column lengths. There, a dangling `category_id` is kept, and both category-name lookups give no name for it.
- An engine that enforces those constraints (PostgreSQL, MySQL with InnoDB) rejects requests that the model accepts, and the route then answers 500. These are:
  - a create or update whose `category_id` names no category;
  - a title longer than 200 characters;
  - a status or priority longer than 20 characters.
- TodoService.TodoStore.DeleteCategory models `ON DELETE SET NULL` as an engine that runs it would. Such an engine also enforces the foreign key on insert, which the rest of the model does not assume.
- Status and priority filters compare by exact equality, as SQLite and PostgreSQL do by default. Under MySQL's default case- and accent-insensitive collation, `?status=Done` would also list `done` rows; that engine behaviour is not modelled.
- Ids come from a counter and are never reused. An engine that hands out the largest deleted id again is not modelled.
- Timestamps are opaque `nat` parameters. The database clock and time zones are not modelled.
- Pydantic's lax coercions to integers are left out. For `category_id`, pydantic binds a boolean, a float with a whole value or a numeric string to an integer, while the model reports a type error. A string field accepts only strings, here as in pydantic. A date is whatever the `parseDate` parameter makes of the JSON value, string or number. A 422 carries one validation error, not pydantic's list.
- Schemas.BindTodoUpdate: does not say which field's type error is reported first, only that a failure on an object is a type error.
- Loading `.env` files is left out. The environment is a map.
- The request-id middleware, logging, CORS middleware, static files and database sessions are left out. They are plumbing with no logic of the core.
- The categories router is left out. It only delegates to the category service, which is modelled.
- No endpoint deletes a category. TodoService.TodoStore.DeleteCategory models the database's `ON DELETE SET NULL` on its own.
- The client's DOM rendering, `escapeHtml`, `fetch`, `localStorage`, `formatDate`, `setTimeout` and `confirm` are not modelled. The dialog's answer is a parameter.
- `nextId` is left out because it uses `Date.now()` and `Math.random()`. Fresh ids are parameters.
- Okr.OkrBoard: the handlers mutate the objective objects in place (`o.title = title`, `push`). The model replaces the objective value at its position in the sequence instead. Aliasing of one objective object from two places is not captured.
- Frontend.FilterPanel.OnCategoryClick: does not model that a `<select>` whose value is set to an id it has no option for reads back as empty.
- Frontend.JsParseInt: models base 10 only, and only ASCII digits; numbers beyond the exact range of doubles are not rounded.
- AliClient.NormaliseTitle: a truthy non-string title (a number, a list) fails with an attribute error that the route reports as 502. It is modelled as written, without claiming what was intended.
