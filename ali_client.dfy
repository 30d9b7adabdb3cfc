/** The post-processing half of `parse_natural_language_to_todo`: everything that happens to
    the chat-completion reply once it has arrived. The network call is replaced by its
    outcome (`LlmOutcome`), `json.loads` by the parameter `decode` and Python's `str()` of a
    non-string value by the parameter `show`. */
module AliClient {
  import opened Wrappers
  import opened Text
  import opened Json

  const Fence := "```"
  const JsonTag := "json"
  /** The placeholder title, "untitled task". */
  const Untitled := "未命名任务"
  const MissingKeyMessage := "未配置 BAILIAN_API_KEY 或 OPENAI_API_KEY，无法使用自然语言解析"
  const EmptyReplyMessage := "模型未返回有效内容"
  const InvalidJsonMessage := "解析结果不是合法 JSON"
  const NotObjectMessage := "解析结果不是对象"
  /** How many characters of the user's sentence the fallback title keeps. */
  const FallbackTitleLength := 100

  /** What the chat-completion call gave back: the first choice's message content
      (`None` when the library reports no content), or the exception it raised. */
  datatype LlmOutcome = Replied(content: Option<string>) | CallFailed(detail: string)

  /** Everything the parser can raise. The first four are `ValueError`s raised on purpose;
      `CallError` is whatever the client library raised; `AttributeFault` is the
      `AttributeError` that `.strip()` or `.lower()` raises on a non-string JSON value. */
  datatype NlError =
    | MissingApiKey
    | EmptyReply
    | InvalidJson
    | NotAnObject
    | CallError(detail: string)
    | AttributeFault(value: Json, attribute: string)
  {
    predicate IsValueError() {
      MissingApiKey? || EmptyReply? || InvalidJson? || NotAnObject?
    }

    /** `str(e)` */
    function Message(): string {
      match this
      case MissingApiKey => MissingKeyMessage
      case EmptyReply => EmptyReplyMessage
      case InvalidJson => InvalidJsonMessage
      case NotAnObject => NotObjectMessage
      case CallError(d) => d
      case AttributeFault(v, a) => "'" + TypeName(v) + "' object has no attribute '" + a + "'"
    }
  }

  /** The dict the parser returns, ready for `TodoCreate(**parsed)`. */
  datatype Parsed = Parsed(
    title: string,
    description: Option<string>,
    status: string,
    priority: string,
    dueDate: Option<string>,
    categoryId: Option<int>)

  predicate IsPriority(p: string) {
    p == "low" || p == "medium" || p == "high"
  }

  /** `None` or a non-empty string with no surrounding whitespace. */
  predicate IsCleanOptional(o: Option<string>) {
    o.Some? ==> o.value != "" && IsStripped(o.value)
  }

  /** What every record the parser returns looks like. */
  predicate IsNormalised(p: Parsed) {
    && p.title != "" && IsStripped(p.title)
    && IsCleanOptional(p.description)
    && p.status == "pending"
    && IsPriority(p.priority)
    && IsCleanOptional(p.dueDate)
    && p.categoryId == None
  }

  /** `s.strip() or None` for a string that is already known. */
  function NonEmpty(s: string): (r: Option<string>)
    ensures r == None <==> s == ""
    ensures r.Some? ==> r.value == s
  {
    if s == "" then None else Some(s)
  }

  // ---------------------------------------------------------------- fences

  /** What the opening substitution cuts after the fence: the tag `json` when `tagged`,
      then whitespace only. */
  predicate OpeningCutShape(cut: string, tagged: bool) {
    if tagged then StartsWith(cut, JsonTag) && AllSpace(cut[|JsonTag|..]) else AllSpace(cut)
  }

  /** `r` is what is left of `s` once a leading fence, the optional tag and the whitespace
      after them are cut; nothing of `r` could have been cut as well. */
  predicate OpeningCutOf(s: string, r: string) {
    && |Fence| + |r| <= |s| && r == s[|s| - |r|..]
    && (r == [] || !IsSpace(r[0]))
    && OpeningCutShape(s[|Fence|..|s| - |r|], StartsWith(s[|Fence|..], JsonTag))
  }

  /** `re.sub(r"^```(?:json)?\s*", "", raw)`: a leading fence, the tag `json` right after it
      when present, and the whitespace after that are removed. */
  function StripOpeningFence(s: string): (r: string)
    ensures !StartsWith(s, Fence) ==> r == s
    ensures StartsWith(s, Fence) ==> OpeningCutOf(s, r)
  {
    if !StartsWith(s, Fence) then s
    else
      var rest := s[|Fence|..];
      var u := AfterTag(rest);
      var r := TrimStart(u);
      OpeningCut(s, rest, u, r);
      r
  }

  /** What follows the fence once the optional `json` tag is dropped. */
  function AfterTag(rest: string): (u: string)
    ensures StartsWith(rest, JsonTag) ==> u == rest[|JsonTag|..]
    ensures !StartsWith(rest, JsonTag) ==> u == rest
  {
    if StartsWith(rest, JsonTag) then rest[|JsonTag|..] else rest
  }

  lemma OpeningCut(s: string, rest: string, u: string, r: string)
    requires StartsWith(s, Fence) && rest == s[|Fence|..] && u == AfterTag(rest) && r == TrimStart(u)
    ensures OpeningCutOf(s, r)
  {
    var n := |s| - |r|;
    if StartsWith(rest, JsonTag) {
      TrimmedSuffix(s, |Fence| + |JsonTag|, u, r);
      var cut := s[|Fence|..n];
      assert cut[..|JsonTag|] == rest[..|JsonTag|];
      assert cut[|JsonTag|..] == s[|Fence| + |JsonTag|..n];
    } else {
      TrimmedSuffix(s, |Fence|, u, r);
    }
  }

  /** Left-trimming a suffix of `s` leaves a suffix of `s`, past whitespace only. */
  lemma TrimmedSuffix(s: string, k: nat, u: string, r: string)
    requires k <= |s| && u == s[k..] && r == TrimStart(u)
    ensures |r| <= |s| - k && r == s[|s| - |r|..] && AllSpace(s[k..|s| - |r|])
  {
    TrimStartSplit(u);
    assert s[k..|s| - |r|] == u[..|u| - |r|];
  }

  /** Right-trimming a prefix of `s` leaves a prefix of `s`, before whitespace only. */
  lemma TrimmedPrefix(s: string, k: nat, v: string, r: string)
    requires k <= |s| && v == s[..k] && r == TrimEnd(v)
    ensures |r| <= k && r == s[..|r|] && AllSpace(s[|r|..k])
  {
    TrimEndSplit(v);
    assert s[|r|..k] == v[|r|..];
  }

  /** What the closing substitution cuts: whitespace, a fence, whitespace. */
  predicate ClosingCutShape(cut: string) {
    exists k :: 0 <= k <= |cut| - |Fence| && AllSpace(cut[..k]) && cut[k..k + |Fence|] == Fence
                && AllSpace(cut[k + |Fence|..])
  }

  /** `r` is what is left of `s` once the last fence and the whitespace around it are cut;
      `r` does not end in whitespace. */
  predicate ClosingCutOf(s: string, r: string) {
    && |r| + |Fence| <= |s| && r == s[..|r|]
    && (r == [] || !IsSpace(r[|r| - 1]))
    && ClosingCutShape(s[|r|..])
  }

  /** `re.sub(r"\s*```\s*$", "", raw)`. Because `$` can only be reached across trailing
      whitespace, the leftmost match starts at the whitespace run before the last fence of
      the text, so the effect is: when the text, ignoring trailing whitespace, ends in a
      fence, cut that fence and all the whitespace around it. */
  function StripClosingFence(s: string): (r: string)
    ensures !EndsWith(TrimEnd(s), Fence) ==> r == s
    ensures EndsWith(TrimEnd(s), Fence) ==> ClosingCutOf(s, r)
  {
    var t := TrimEnd(s);
    if !EndsWith(t, Fence) then s
    else
      var r := TrimEnd(t[..|t| - |Fence|]);
      ClosingCut(s, t, r);
      r
  }

  lemma ClosingCut(s: string, t: string, r: string)
    requires t == TrimEnd(s) && EndsWith(t, Fence) && r == TrimEnd(t[..|t| - |Fence|])
    ensures ClosingCutOf(s, r)
  {
    var e := |t| - |Fence|;
    assert |t| <= |s| && t == s[..|t|] && AllSpace(s[|t|..]) by {
      TrimEndSplit(s);
    }
    assert |r| <= e && r == s[..|r|] && AllSpace(s[|r|..e]) by {
      TrimmedPrefix(s, e, t[..e], r);
    }
    assert s[e..|t|] == Fence by {
      assert s[e..|t|] == t[e..];
    }
    ClosingCutParts(s, r, e, |t|);
  }

  lemma ClosingCutParts(s: string, r: string, e: nat, f: nat)
    requires |r| <= e && f == e + |Fence| && f <= |s| && r == s[..|r|]
    requires r == [] || !IsSpace(r[|r| - 1])
    requires AllSpace(s[|r|..e]) && s[e..f] == Fence && AllSpace(s[f..])
    ensures ClosingCutOf(s, r)
  {
    var cut := s[|r|..];
    var k := e - |r|;
    assert cut[..k] == s[|r|..e];
    assert cut[k..k + |Fence|] == s[e..f];
    assert cut[k + |Fence|..] == s[f..];
    assert ClosingCutShape(cut);
  }

  /** Unwrapping a reply: both fence substitutions, then `strip()`. */
  function StripFences(raw: string): (r: string)
    ensures IsStripped(r)
  {
    Strip(StripClosingFence(StripOpeningFence(raw)))
  }

  /** Text that carries neither fence comes back unchanged (the reply has already been
      stripped at line 67). */
  lemma NoFenceUnchanged(s: string)
    requires IsStripped(s) && !StartsWith(s, Fence) && !EndsWith(s, Fence)
    ensures StripFences(s) == s
  {
    StripAround([], s, []);
    assert [] + s + [] == s;
    if s != [] {
      assert TrimEnd(s) == s;
    }
  }

  /** The opening substitution removes the fence, its tag and the whitespace after it. */
  lemma OpeningFenceRemoved(tag: string, ws1: string, tail: string)
    requires tag == JsonTag || tag == ""
    requires AllSpace(ws1)
    requires tail != [] && !IsSpace(tail[0])
    requires tag == "" && ws1 == [] ==> tail[0] != JsonTag[0]
    ensures StripOpeningFence(Fence + tag + ws1 + tail) == tail
  {
    var s := Fence + tag + ws1 + tail;
    assert s == Fence + (tag + ws1 + tail);
    assert StartsWith(s, Fence);
    var rest := s[|Fence|..];
    assert rest == tag + ws1 + tail;
    if tag == JsonTag {
      assert StartsWith(rest, JsonTag);
      assert rest[|JsonTag|..] == ws1 + tail;
    } else {
      assert rest == ws1 + tail;
      assert rest[0] != JsonTag[0] by {
        if ws1 != [] { assert rest[0] == ws1[0]; } else { assert rest[0] == tail[0]; }
      }
      assert !StartsWith(rest, JsonTag);
    }
    TrimStartAround(ws1, tail);
  }

  /** The closing substitution removes the last fence and the whitespace around it. */
  lemma ClosingFenceRemoved(body: string, ws2: string, ws3: string)
    requires AllSpace(ws2) && AllSpace(ws3)
    requires body == [] || !IsSpace(body[|body| - 1])
    ensures StripClosingFence(body + ws2 + Fence + ws3) == body
  {
    var front := body + ws2 + Fence;
    TrimEndAround(front, ws3);
    assert TrimEnd(front + ws3) == front;
    assert EndsWith(front, Fence);
    assert front[..|front| - |Fence|] == body + ws2;
    TrimEndAround(body, ws2);
  }

  /** Unwrapping inverts wrapping: a stripped body inside a fence (tagged `json` or not),
      with any whitespace around, comes back as it was. A body glued to an untagged fence
      must not begin with the letter `j`, so that the regex cannot take it for the tag. */
  lemma UnwrapFenced(tag: string, ws1: string, body: string, ws2: string, ws3: string)
    requires tag == JsonTag || tag == ""
    requires AllSpace(ws1) && AllSpace(ws2) && AllSpace(ws3)
    requires body != [] && IsStripped(body)
    requires tag == "" && ws1 == [] ==> body[0] != JsonTag[0]
    ensures StripFences(Fence + tag + ws1 + body + ws2 + Fence + ws3) == body
  {
    var tail := body + ws2 + Fence + ws3;
    assert Fence + tag + ws1 + body + ws2 + Fence + ws3 == Fence + tag + ws1 + tail;
    assert tail[0] == body[0];
    OpeningFenceRemoved(tag, ws1, tail);
    ClosingFenceRemoved(body, ws2, ws3);
    StripOfStripped(body);
  }

  // ---------------------------------------------------------------- fields

  /** The fallback title: the first 100 characters of the user's sentence, stripped, or the placeholder. */
  function FallbackTitle(text: string): (r: string)
    ensures r != "" && IsStripped(r)
    ensures Strip(Take(text, FallbackTitleLength)) != "" ==> r == Strip(Take(text, FallbackTitleLength))
    ensures Strip(Take(text, FallbackTitleLength)) == "" ==> r == Untitled
  {
    var t := Strip(Take(text, FallbackTitleLength));
    if t != "" then t else Untitled
  }

  /** The title: `(data.get("title") or "").strip()`, falling back when empty. A truthy
      value that is not a string has no `strip` method. */
  function NormaliseTitle(v: Json, text: string): (r: Result<string, NlError>)
    ensures r.Failure? <==> Truthy(v) && !v.JString?
    ensures r.Failure? ==> r.error == AttributeFault(v, "strip")
    ensures r.Success? ==> r.value != "" && IsStripped(r.value)
    ensures v.JString? && Strip(v.s) != "" ==> r == Success(Strip(v.s))
    ensures (v.JString? && Strip(v.s) == "") || !Truthy(v) ==> r == Success(FallbackTitle(text))
  {
    if Truthy(v) && !v.JString? then Failure(AttributeFault(v, "strip"))
    else if v.JString? then Success(TitleOrFallback(Strip(v.s), text))
    else Success(FallbackTitle(text))
  }

  /** A stripped title, or the fallback when it is empty. */
  function TitleOrFallback(t: string, text: string): (r: string)
    requires IsStripped(t)
    ensures r != "" && IsStripped(r)
    ensures t != "" ==> r == t
    ensures t == "" ==> r == FallbackTitle(text)
  {
    if t != "" then t else FallbackTitle(text)
  }

  /** The description: a non-string is replaced by `str(v)` when truthy and by `None` when
      falsy; a string is stripped, and an empty result becomes `None`. */
  function NormaliseDescription(v: Json, show: Json -> string): (r: Option<string>)
    ensures IsCleanOptional(r)
    ensures v.JString? ==> r == NonEmpty(Strip(v.s))
    ensures !v.JString? && !Truthy(v) ==> r == None
    ensures !v.JString? && Truthy(v) ==> r == NonEmpty(Strip(show(v)))
  {
    match v
    case JNull => None
    case JString(s) => NonEmpty(Strip(s))
    case _ => if Truthy(v) then NonEmpty(Strip(show(v))) else None
  }

  /** The due date: anything but a string is dropped; a string is stripped, and an empty
      result becomes `None`. The date format is not checked here. */
  function NormaliseDueDate(v: Json): (r: Option<string>)
    ensures IsCleanOptional(r)
    ensures !v.JString? ==> r == None
    ensures v.JString? ==> r == NonEmpty(Strip(v.s))
  {
    if v.JString? then NonEmpty(Strip(v.s)) else None
  }

  /** The priority: `(data.get("priority") or "medium").lower()`, replaced by `"medium"`
      unless it is one of the three levels. */
  function NormalisePriority(v: Json): (r: Result<string, NlError>)
    ensures r.Failure? <==> Truthy(v) && !v.JString?
    ensures r.Failure? ==> r.error == AttributeFault(v, "lower")
    ensures r.Success? ==> IsPriority(r.value)
    ensures !Truthy(v) ==> r == Success("medium")
    ensures v.JString? && IsPriority(Lower(v.s)) ==> r == Success(Lower(v.s))
    ensures v.JString? && Truthy(v) && !IsPriority(Lower(v.s)) ==> r == Success("medium")
  {
    if !Truthy(v) then Success("medium")
    else if !v.JString? then Failure(AttributeFault(v, "lower"))
    else
      var p := Lower(v.s);
      Success(if IsPriority(p) then p else "medium")
  }

  /** The whole normalisation of a decoded object, field by field in order: a bad title is reported
      before a bad priority, and the other fields cannot fail. */
  function NormaliseObject(data: map<string, Json>, text: string, show: Json -> string): (r: Result<Parsed, NlError>)
    ensures r.Success? ==> IsNormalised(r.value)
    ensures r.Failure? <==> (NormaliseTitle(Get(data, "title"), text).Failure?
                             || NormalisePriority(Get(data, "priority")).Failure?)
    ensures NormaliseTitle(Get(data, "title"), text).Failure? ==>
              r == Failure(NormaliseTitle(Get(data, "title"), text).error)
    ensures NormaliseTitle(Get(data, "title"), text).Success? && NormalisePriority(Get(data, "priority")).Failure? ==>
              r == Failure(NormalisePriority(Get(data, "priority")).error)
    ensures r.Success? ==>
      && r.value.title == NormaliseTitle(Get(data, "title"), text).value
      && r.value.description == NormaliseDescription(Get(data, "description"), show)
      && r.value.status == "pending"
      && r.value.priority == NormalisePriority(Get(data, "priority")).value
      && r.value.dueDate == NormaliseDueDate(Get(data, "due_date"))
      && r.value.categoryId == None
  {
    match NormaliseTitle(Get(data, "title"), text)
    case Failure(e) => Failure(e)
    case Success(title) =>
      match NormalisePriority(Get(data, "priority"))
      case Failure(e) => Failure(e)
      case Success(priority) =>
        Success(Parsed(
          title,
          NormaliseDescription(Get(data, "description"), show),
          "pending",
          priority,
          NormaliseDueDate(Get(data, "due_date")),
          None))
  }

  // ---------------------------------------------------------------- pipeline

  /** Parsing the model's reply content: empty, undecodable and non-object replies fail,
      and an object is normalised. */
  function ParseReply(content: Option<string>, text: string, decode: string -> Option<Json>, show: Json -> string)
    : (r: Result<Parsed, NlError>)
    ensures Strip(content.GetOr("")) == "" ==> r == Failure(EmptyReply)
    ensures Strip(content.GetOr("")) != "" && decode(StripFences(Strip(content.GetOr("")))) == None
            ==> r == Failure(InvalidJson)
    ensures Strip(content.GetOr("")) != "" && decode(StripFences(Strip(content.GetOr("")))).Some?
            && !decode(StripFences(Strip(content.GetOr("")))).value.JObject?
            ==> r == Failure(NotAnObject)
    ensures Strip(content.GetOr("")) != "" && decode(StripFences(Strip(content.GetOr("")))).Some?
            && decode(StripFences(Strip(content.GetOr("")))).value.JObject?
            ==> r == NormaliseObject(decode(StripFences(Strip(content.GetOr("")))).value.fields, text, show)
    ensures r.Success? ==> IsNormalised(r.value)
    ensures r.Failure? ==> r.error.IsValueError() || r.error.AttributeFault?
  {
    var raw := Strip(content.GetOr(""));
    if raw == "" then Failure(EmptyReply)
    else
      var decoded := decode(StripFences(raw));
      if decoded.None? then Failure(InvalidJson)
      else if decoded.value.JObject? then NormaliseObject(decoded.value.fields, text, show)
      else Failure(NotAnObject)
  }

  /** `parse_natural_language_to_todo(text)` with the configured key `apiKey`. Without a
      key it fails before the call, so the call's outcome cannot matter. */
  function ParseNaturalLanguage(apiKey: string, text: string, call: LlmOutcome,
                                decode: string -> Option<Json>, show: Json -> string)
    : (r: Result<Parsed, NlError>)
    ensures apiKey == "" ==> r == Failure(MissingApiKey)
    ensures apiKey != "" && call.CallFailed? ==> r == Failure(CallError(call.detail))
    ensures apiKey != "" && call.Replied? ==> r == ParseReply(call.content, text, decode, show)
    ensures r.Success? ==> IsNormalised(r.value)
  {
    if apiKey == "" then Failure(MissingApiKey)
    else
      match call
      case CallFailed(d) => Failure(CallError(d))
      case Replied(content) => ParseReply(content, text, decode, show)
  }

  /** A reply that wraps a JSON object in a fence is parsed as if the fence were absent:
      the object inside is what gets normalised. */
  lemma FencedReplyParsed(tag: string, ws1: string, body: string, ws2: string, reply: string,
                          fields: map<string, Json>, text: string, decode: string -> Option<Json>, show: Json -> string)
    requires tag == JsonTag || tag == ""
    requires AllSpace(ws1) && AllSpace(ws2)
    requires body != [] && IsStripped(body)
    requires tag == "" && ws1 == [] ==> body[0] != JsonTag[0]
    requires reply == Fence + tag + ws1 + body + ws2 + Fence
    requires decode(body) == Some(JObject(fields))
    ensures ParseReply(Some(reply), text, decode, show) == NormaliseObject(fields, text, show)
  {
    FencedReplyUnwrapped(tag, ws1, body, ws2, reply);
  }

  /** A reply that is a bare JSON object, as the system prompt asks for, with any
      whitespace around it, is normalised as that object. */
  lemma PlainReplyParsed(lead: string, body: string, trail: string,
                         fields: map<string, Json>, text: string, decode: string -> Option<Json>, show: Json -> string)
    requires AllSpace(lead) && AllSpace(trail)
    requires body != [] && IsStripped(body) && !StartsWith(body, Fence) && !EndsWith(body, Fence)
    requires decode(body) == Some(JObject(fields))
    ensures ParseReply(Some(lead + body + trail), text, decode, show) == NormaliseObject(fields, text, show)
  {
    StripAround(lead, body, trail);
    NoFenceUnchanged(body);
  }

  lemma FencedReplyUnwrapped(tag: string, ws1: string, body: string, ws2: string, reply: string)
    requires tag == JsonTag || tag == ""
    requires AllSpace(ws1) && AllSpace(ws2)
    requires body != [] && IsStripped(body)
    requires tag == "" && ws1 == [] ==> body[0] != JsonTag[0]
    requires reply == Fence + tag + ws1 + body + ws2 + Fence
    ensures reply != "" && Strip(reply) == reply && StripFences(reply) == body
  {
    assert reply == Fence + tag + ws1 + body + ws2 + Fence + "";
    assert reply[0] == '`' && reply[|reply| - 1] == '`';
    StripOfStripped(reply);
    UnwrapFenced(tag, ws1, body, ws2, "");
  }

  /** The reply `{"title":"Buy milk"}` normalises to that title and the defaults. */
  lemma BuyMilkNormalised(show: Json -> string)
    ensures NormaliseObject(map["title" := JString("Buy milk")], "buy milk", show)
            == Success(Parsed("Buy milk", None, "pending", "medium", None, None))
  {
    var fields := map["title" := JString("Buy milk")];
    assert "priority" !in fields && "description" !in fields && "due_date" !in fields;
    StripOfStripped("Buy milk");
  }

  /** An unknown priority such as "urgent" becomes "medium". */
  lemma UrgentBecomesMedium()
    ensures NormalisePriority(JString("urgent")) == Success("medium")
  {
    assert Lower("urgent") == "urgent";
  }
}
