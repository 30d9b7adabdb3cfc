/** The browser client's pure rules: JavaScript's `trim`, `String(n)` and `parseInt`,
    the client-side todo filter, the status and priority labels, the status toggle, the
    payload of the todo form, and the filter panel's category selection. */
module Frontend {
  import opened Wrappers
  import opened Lists
  import opened Dates
  import opened Models
  import opened Schemas
  import opened TodoService

  // ---------------------------------------------------------------- JavaScript strings

  /** ECMAScript's WhiteSpace and LineTerminator characters, which `trim` removes and
      `parseInt` skips. */
  predicate IsJsSpace(c: char) {
    || c == '\t' || c == '\n' || c == '\U{B}' || c == '\U{C}' || c == '\r' || c == ' '
    || c == '\U{A0}' || c == '\U{1680}' || ('\U{2000}' <= c <= '\U{200A}')
    || c == '\U{2028}' || c == '\U{2029}' || c == '\U{202F}' || c == '\U{205F}' || c == '\U{3000}'
    || c == '\U{FEFF}'
  }

  predicate AllJsSpace(s: string) {
    forall i :: 0 <= i < |s| ==> IsJsSpace(s[i])
  }

  predicate IsJsTrimmed(s: string) {
    s == [] || (!IsJsSpace(s[0]) && !IsJsSpace(s[|s| - 1]))
  }

  /** `s.trimStart()`; what it removes is described by `JsTrimStartSplit`. */
  function JsTrimStart(s: string): (r: string)
    ensures |r| <= |s|
    ensures r == [] || !IsJsSpace(r[0])
  {
    if |s| > 0 && IsJsSpace(s[0]) then JsTrimStart(s[1..]) else s
  }

  /** `trimStart` keeps a suffix and removes whitespace only. */
  lemma {:induction false} JsTrimStartSplit(s: string)
    ensures JsTrimStart(s) == s[|s| - |JsTrimStart(s)|..]
    ensures AllJsSpace(s[..|s| - |JsTrimStart(s)|])
  {
    if |s| > 0 && IsJsSpace(s[0]) {
      var r := JsTrimStart(s[1..]);
      JsTrimStartSplit(s[1..]);
      assert s[1..][|s| - 1 - |r|..] == s[|s| - |r|..];
      assert s[..|s| - |r|] == [s[0]] + s[1..][..|s| - 1 - |r|];
    }
  }

  /** `s.trimEnd()`; what it removes is described by `JsTrimEndSplit`. */
  function JsTrimEnd(s: string): (r: string)
    ensures |r| <= |s|
    ensures r == [] || !IsJsSpace(r[|r| - 1])
  {
    if |s| > 0 && IsJsSpace(s[|s| - 1]) then JsTrimEnd(s[..|s| - 1]) else s
  }

  /** `trimEnd` keeps a prefix and removes whitespace only. */
  lemma {:induction false} JsTrimEndSplit(s: string)
    ensures JsTrimEnd(s) == s[..|JsTrimEnd(s)|]
    ensures AllJsSpace(s[|JsTrimEnd(s)|..])
  {
    if |s| > 0 && IsJsSpace(s[|s| - 1]) {
      var r := JsTrimEnd(s[..|s| - 1]);
      JsTrimEndSplit(s[..|s| - 1]);
      assert s[..|s| - 1][..|r|] == s[..|r|];
      assert s[|r|..] == s[..|s| - 1][|r|..] + [s[|s| - 1]];
    }
  }

  /** `s.trim()` */
  function JsTrim(s: string): (r: string)
    ensures IsJsTrimmed(r) && |r| <= |s|
  {
    var t := JsTrimStart(s);
    var r := JsTrimEnd(t);
    JsTrimEndSplit(t);
    assert r == [] || r[0] == t[0];
    r
  }

  lemma {:induction false} JsTrimStartAround(lead: string, body: string)
    requires AllJsSpace(lead)
    requires body == [] || !IsJsSpace(body[0])
    ensures JsTrimStart(lead + body) == body
  {
    if lead != [] {
      assert (lead + body)[1..] == lead[1..] + body;
      JsTrimStartAround(lead[1..], body);
    }
  }

  lemma {:induction false} JsTrimEndAround(body: string, trail: string)
    requires AllJsSpace(trail)
    requires body == [] || !IsJsSpace(body[|body| - 1])
    ensures JsTrimEnd(body + trail) == body
  {
    if trail != [] {
      var s := body + trail;
      assert s[..|s| - 1] == body + trail[..|trail| - 1];
      JsTrimEndAround(body, trail[..|trail| - 1]);
    }
  }

  /** `trim` removes exactly the JavaScript whitespace around a trimmed core; with
      `IsJsTrimmed(JsTrim(s))` this determines `JsTrim` on every input. */
  lemma JsTrimAround(lead: string, body: string, trail: string)
    requires AllJsSpace(lead) && AllJsSpace(trail) && IsJsTrimmed(body)
    ensures JsTrim(lead + body + trail) == body
  {
    assert lead + body + trail == lead + (body + trail);
    if body == [] {
      assert lead + (body + trail) == lead + trail;
      JsTrimStartAround(lead + trail, []);
      assert lead + trail + [] == lead + trail;
    } else {
      JsTrimStartAround(lead, body + trail);
      JsTrimEndAround(body, trail);
    }
  }

  /** `String(n)` for a non-negative integer: its decimal digits, no leading zero. */
  function NatToString(n: nat): (r: string)
    ensures |r| >= 1 && forall k :: 0 <= k < |r| ==> IsDigit(r[k])
    decreases n
  {
    if n < 10 then [DigitChar(n)] else NatToString(n / 10) + [DigitChar(n % 10)]
  }

  /** `String(i)` */
  function IntToString(i: int): (r: string)
    ensures r != [] && (r[0] == '-' || IsDigit(r[0]))
    ensures r[0] == '-' <==> i < 0
    ensures forall k :: 0 <= k < |r| && (k > 0 || i >= 0) ==> IsDigit(r[k])
  {
    if i < 0 then "-" + NatToString(-i) else NatToString(i)
  }

  /** `String(v)` for a nullable integer: `null` prints as "null". */
  function NullableToString(v: Option<int>): (r: string)
    ensures r == "null" <==> v.None?
  {
    if v.Some? then IntToString(v.value) else "null"
  }

  /** How many ASCII digits `s` starts with. */
  function DigitRun(s: string): (n: nat)
    ensures n <= |s| && forall k :: 0 <= k < n ==> IsDigit(s[k])
    ensures n < |s| ==> !IsDigit(s[n])
    decreases |s|
  {
    if s != [] && IsDigit(s[0]) then 1 + DigitRun(s[1..]) else 0
  }

  /** The number a run of decimal digits denotes. */
  function DigitsValue(ds: string): (v: nat)
    requires forall k :: 0 <= k < |ds| ==> IsDigit(ds[k])
    decreases |ds|
  {
    if ds == [] then 0 else 10 * DigitsValue(ds[..|ds| - 1]) + DigitValue(ds[|ds| - 1])
  }

  /** `parseInt(s, 10)`: leading whitespace skipped, an optional sign, then the longest
      run of digits; `None` is NaN, the result when there is no digit. */
  function JsParseInt(s: string): (r: Option<int>)
    ensures r.None? <==> DigitRun(Unsigned(JsTrimStart(s))) == 0
  {
    var t := JsTrimStart(s);
    var rest := Unsigned(t);
    var n := DigitRun(rest);
    if n == 0 then None
    else
      var v: int := DigitsValue(rest[..n]);
      Some(if t != [] && t[0] == '-' then -v else v)
  }

  /** The text after an optional leading sign. */
  function Unsigned(t: string): (r: string)
    ensures r == (if t != [] && (t[0] == '-' || t[0] == '+') then t[1..] else t)
  {
    if t != [] && (t[0] == '-' || t[0] == '+') then t[1..] else t
  }

  lemma {:induction false} NatDigitsValue(n: nat)
    ensures DigitsValue(NatToString(n)) == n
    decreases n
  {
    if n >= 10 {
      var s := NatToString(n);
      NatDigitsValue(n / 10);
      assert s[..|s| - 1] == NatToString(n / 10);
    }
  }

  lemma {:induction false} DigitRunAll(s: string)
    requires forall k :: 0 <= k < |s| ==> IsDigit(s[k])
    ensures DigitRun(s) == |s|
    decreases |s|
  {
    if s != [] {
      DigitRunAll(s[1..]);
    }
  }

  /** `parseInt(String(i), 10) == i`: printing an integer and parsing it back gives the
      same integer. */
  lemma ParseIntToString(i: int)
    ensures JsParseInt(IntToString(i)) == Some(i)
  {
    var s := IntToString(i);
    var m: nat := if i < 0 then -i else i;
    var ds := NatToString(m);
    assert !IsJsSpace(s[0]);
    assert JsTrimStart(s) == s;
    assert Unsigned(s) == ds by {
      if i < 0 {
        assert s == "-" + ds;
      }
    }
    DigitRunAll(ds);
    assert ds[..|ds|] == ds;
    NatDigitsValue(m);
  }

  /** Distinct integers print differently, and none prints as "null". */
  lemma IntToStringInjective(a: int, b: int)
    ensures IntToString(a) == IntToString(b) <==> a == b
    ensures IntToString(a) != "null"
  {
    if IntToString(a) == IntToString(b) {
      ParseIntToString(a);
      ParseIntToString(b);
    }
    assert "null"[0] == 'n';
  }

  // ---------------------------------------------------------------- client-side filter

  /** What the three filter drop-downs keep: each non-empty one must match exactly, the
      category one against `String(t.category_id)`. */
  predicate PassesFilters(t: TodoResponse, status: string, priority: string, categoryId: string) {
    && (status == "" || t.status == status)
    && (priority == "" || t.priority == priority)
    && (categoryId == "" || NullableToString(t.categoryId) == categoryId)
  }

  function StatusIs(status: string): TodoResponse -> bool {
    (t: TodoResponse) => t.status == status
  }

  function PriorityIs(priority: string): TodoResponse -> bool {
    (t: TodoResponse) => t.priority == priority
  }

  function CategoryIs(categoryId: string): TodoResponse -> bool {
    (t: TodoResponse) => NullableToString(t.categoryId) == categoryId
  }

  /** `applyFilters`: up to three successive `filter` passes. */
  function ApplyFilters(list: seq<TodoResponse>, status: string, priority: string, categoryId: string): seq<TodoResponse>
  {
    var a := if status != "" then Keep(list, StatusIs(status)) else list;
    var b := if priority != "" then Keep(a, PriorityIs(priority)) else a;
    if categoryId != "" then Keep(b, CategoryIs(categoryId)) else b
  }

  function Passes(status: string, priority: string, categoryId: string): TodoResponse -> bool {
    (t: TodoResponse) => PassesFilters(t, status, priority, categoryId)
  }

  /** The status and priority conditions alone. */
  function FirstTwoPass(status: string, priority: string): TodoResponse -> bool {
    (t: TodoResponse) => (status == "" || t.status == status) && (priority == "" || t.priority == priority)
  }

  lemma {:induction false} KeepSame<T>(s: seq<T>, p: T -> bool, q: T -> bool)
    requires forall x :: p(x) == q(x)
    ensures Keep(s, p) == Keep(s, q)
    decreases |s|
  {
    if s != [] {
      KeepSame(s[1..], p, q);
    }
  }

  /** A filter pass that may be skipped is one pass by a condition that holds everywhere
      when the pass is skipped. */
  lemma SkippedPass<T>(s: seq<T>, on: bool, p: T -> bool, q: T -> bool)
    requires forall x :: q(x) == (!on || p(x))
    ensures (if on then Keep(s, p) else s) == Keep(s, q)
  {
    if on {
      KeepSame(s, p, q);
    } else {
      KeepAll(s, q);
    }
  }

  /** A filter after a filter is one filter by a condition equal to the conjunction. */
  lemma KeepThenKeep<T>(s: seq<T>, p: T -> bool, q: T -> bool, both: T -> bool)
    requires forall x :: both(x) == (p(x) && q(x))
    ensures Keep(Keep(s, p), q) == Keep(s, both)
  {
    KeepKeep(s, p, q);
    KeepSame(s, x => p(x) && q(x), both);
  }

  /** The three passes are one filter by the conjunction of the active conditions: the
      result is the order-preserving sub-list of the todos that pass every active one. */
  lemma ApplyFiltersIsOneFilter(list: seq<TodoResponse>, status: string, priority: string, categoryId: string)
    ensures ApplyFilters(list, status, priority, categoryId) == Keep(list, Passes(status, priority, categoryId))
  {
    var p1 := FirstTwoPass(status, "");
    var p12 := FirstTwoPass(status, priority);
    var a := if status != "" then Keep(list, StatusIs(status)) else list;
    var b := if priority != "" then Keep(a, PriorityIs(priority)) else a;
    var p2 := FirstTwoPass("", priority);
    var p3 := Passes("", "", categoryId);
    SkippedPass(list, status != "", StatusIs(status), p1);
    SkippedPass(a, priority != "", PriorityIs(priority), p2);
    KeepThenKeep(list, p1, p2, p12);
    SkippedPass(b, categoryId != "", CategoryIs(categoryId), p3);
    KeepThenKeep(list, p12, p3, Passes(status, priority, categoryId));
  }

  /** A todo is visible only if it is in the list and passes every non-empty filter, and
      every todo of the list that passes them is visible. */
  lemma ApplyFiltersExact(list: seq<TodoResponse>, status: string, priority: string, categoryId: string)
    ensures |ApplyFilters(list, status, priority, categoryId)| <= |list|
    ensures forall t :: t in ApplyFilters(list, status, priority, categoryId) ==> t in list && PassesFilters(t, status, priority, categoryId)
    ensures forall t :: t in list && PassesFilters(t, status, priority, categoryId) ==> t in ApplyFilters(list, status, priority, categoryId)
  {
    ApplyFiltersIsOneFilter(list, status, priority, categoryId);
  }

  /** Selecting category `c` keeps exactly the todos whose `category_id` is `c`: a todo
      with no category never matches a category picked from the list. */
  lemma CategoryFilterExact(list: seq<TodoResponse>, c: int)
    ensures ApplyFilters(list, "", "", IntToString(c)) == Keep(list, (t: TodoResponse) => t.categoryId == Some(c))
  {
    forall t: TodoResponse ensures CategoryIs(IntToString(c))(t) == (t.categoryId == Some(c)) {
      if t.categoryId.Some? {
        IntToStringInjective(t.categoryId.value, c);
      } else {
        IntToStringInjective(c, c);
      }
    }
    assert IntToString(c) != "";
    KeepSame(list, CategoryIs(IntToString(c)), (t: TodoResponse) => t.categoryId == Some(c));
  }

  // ---------------------------------------------------------------- labels

  const StatusLabels: map<string, string> := map["pending" := "待办", "in_progress" := "进行中", "done" := "已完成"]
  const PriorityLabels: map<string, string> := map["low" := "低", "medium" := "中", "high" := "高"]

  /** The members every plain JavaScript object inherits from `Object.prototype`; each is
      a function or an object, so truthy. */
  const ObjectPrototypeNames: set<string> := {
    "constructor", "hasOwnProperty", "isPrototypeOf", "propertyIsEnumerable",
    "toLocaleString", "toString", "valueOf", "__proto__",
    "__defineGetter__", "__defineSetter__", "__lookupGetter__", "__lookupSetter__" }

  /** What `map[code] || code` yields: a string, or an inherited prototype member. */
  datatype Lookup = Text(s: string) | PrototypeMember(name: string)

  /** The label lookup as written: `map` is an object literal, so a property read finds
      its own keys first and then everything `Object.prototype` holds. */
  function LabelAsWritten(table: map<string, string>, code: string): (r: Lookup)
    ensures r.PrototypeMember? <==> (code !in table || table[code] == "") && code in ObjectPrototypeNames
  {
    if code in table && table[code] != "" then Text(table[code])
    else if code in ObjectPrototypeNames then PrototypeMember(code)
    else Text(code)
  }

  /** The intended lookup: a known code gets its label, anything else comes back as it
      was. */
  function Label(table: map<string, string>, code: string): (r: string)
    ensures code in table && table[code] != "" ==> r == table[code]
    ensures code !in table ==> r == code
  {
    if code in table && table[code] != "" then table[code] else code
  }

  function StatusLabel(code: string): (r: string)
    ensures code in StatusLabels ==> r == StatusLabels[code]
    ensures code !in StatusLabels ==> r == code
  {
    Label(StatusLabels, code)
  }

  function PriorityLabel(code: string): (r: string)
    ensures code in PriorityLabels ==> r == PriorityLabels[code]
    ensures code !in PriorityLabels ==> r == code
  {
    Label(PriorityLabels, code)
  }

  /** The lookup as written agrees with the intended one on every code except the
      inherited member names. */
  lemma LabelAsWrittenAgrees(table: map<string, string>, code: string)
    requires code !in ObjectPrototypeNames
    ensures LabelAsWritten(table, code) == Text(Label(table, code))
  {
  }

  /** A todo whose status is "toString" is shown with `Object.prototype.toString` as its
      badge text instead of "toString". */
  lemma StatusLabelCounterexample()
    ensures LabelAsWritten(StatusLabels, "toString") == PrototypeMember("toString")
    ensures StatusLabel("toString") == "toString"
  {
    assert "toString" !in StatusLabels;
  }

  // ---------------------------------------------------------------- status toggle

  /** The status the toggle button sends: "pending" for a done todo, "done" otherwise. */
  function NextStatus(current: string): (r: string)
    ensures r == "pending" || r == "done"
    ensures r == "pending" <==> current == "done"
  {
    if current == "done" then "pending" else "done"
  }

  /** The PATCH body `{ status: nextStatus }`. */
  function ToggleUpdate(current: string): (u: TodoUpdate)
    ensures u.status.Some? && u.status.value != current
    ensures u.status.value == "pending" <==> current == "done"
    ensures u.title.None? && u.description.None? && u.priority.None? && u.dueDate.None? && u.categoryId.None?
  {
    TodoUpdate(None, None, Some(NextStatus(current)), None, None, None)
  }

  /** Toggling twice returns a pending or done todo to where it was. */
  lemma ToggleTwice(s: string)
    requires s == "pending" || s == "done"
    ensures NextStatus(NextStatus(s)) == s
  {
  }

  /** On the server, a toggle changes the status alone, and always changes it, so
      `updated_at` moves. */
  lemma ToggleChangesOnlyStatus(row: TodoItem, now: Timestamp)
    ensures PartialUpdate(row, ToggleUpdate(row.status)) == row.(status := NextStatus(row.status))
    ensures Touch(row, PartialUpdate(row, ToggleUpdate(row.status)), now) == row.(status := NextStatus(row.status), updatedAt := now)
  {
    assert NextStatus(row.status) != row.status;
    assert !SameColumns(row, row.(status := NextStatus(row.status))) by {
      assert row.(createdAt := 0, updatedAt := 0).status != row.(status := NextStatus(row.status)).(createdAt := 0, updatedAt := 0).status;
    }
  }

  // ---------------------------------------------------------------- todo form

  /** The raw values of the todo form's fields. */
  datatype TodoForm = TodoForm(title: string, description: string, status: string,
                               priority: string, dueDate: string, category: string)

  /** The JSON body `submitTodo` sends; `None` is `null`. */
  datatype Payload = Payload(title: string, description: Option<string>, status: string,
                             priority: string, dueDate: Option<string>, categoryId: Option<int>)

  /** `submitTodo`'s payload: title trimmed, description trimmed with empty turned into
      `null`, an empty date into `null`, and the category `null` when empty and
      `parseInt(value, 10)` otherwise (NaN serialises as `null`). */
  function FormPayload(f: TodoForm): (p: Payload)
    ensures p.title == JsTrim(f.title) && IsJsTrimmed(p.title)
    ensures p.description.None? <==> JsTrim(f.description) == ""
    ensures p.description.Some? ==> p.description.value == JsTrim(f.description) && IsJsTrimmed(p.description.value)
    ensures p.status == f.status && p.priority == f.priority
    ensures p.dueDate == (if f.dueDate == "" then None else Some(f.dueDate))
    ensures f.category == "" ==> p.categoryId == None
    ensures f.category != "" ==> p.categoryId == JsParseInt(f.category)
  {
    var description := JsTrim(f.description);
    Payload(JsTrim(f.title),
            if description == "" then None else Some(description),
            f.status, f.priority,
            if f.dueDate == "" then None else Some(f.dueDate),
            if f.category != "" then JsParseInt(f.category) else None)
  }

  /** A category option holds `String(id)`, so the payload sends that id back. */
  lemma PayloadCategoryRoundTrip(f: TodoForm, id: int)
    requires f.category == IntToString(id)
    ensures FormPayload(f).categoryId == Some(id)
  {
    ParseIntToString(id);
  }

  // ---------------------------------------------------------------- filter panel

  /** The three filter drop-downs and the sidebar's highlighted category. */
  class FilterPanel {
    var status: string
    var priority: string
    var category: string
    var selectedCategoryId: string

    constructor ()
      ensures status == "" && priority == "" && category == "" && selectedCategoryId == ""
    {
      status, priority, category, selectedCategoryId := "", "", "", "";
    }

    /** The todos the list shows. */
    function Visible(list: seq<TodoResponse>): (r: seq<TodoResponse>)
      reads this
      ensures r == Keep(list, Passes(status, priority, category))
    {
      ApplyFiltersIsOneFilter(list, status, priority, category);
      ApplyFilters(list, status, priority, category)
    }

    /** A sidebar click on category `id`: the selected one is cleared, another one is
        selected, and the category drop-down follows. */
    method OnCategoryClick(id: string)
      modifies this
      ensures selectedCategoryId == (if old(selectedCategoryId) == id then "" else id)
      ensures category == selectedCategoryId
      ensures status == old(status) && priority == old(priority)
    {
      selectedCategoryId := if selectedCategoryId == id then "" else id;
      category := selectedCategoryId;
    }

    /** `resetFilter`: every filter cleared, so every todo shows. */
    method ResetFilter()
      modifies this
      ensures status == "" && priority == "" && category == "" && selectedCategoryId == ""
      ensures forall list :: Visible(list) == list
    {
      status, priority, category, selectedCategoryId := "", "", "", "";
      forall list: seq<TodoResponse> ensures Visible(list) == list {
        KeepAll(list, Passes(status, priority, category));
      }
    }
  }
}
