/** The backend's settings, each read once from the process environment. The
    environment is a map; `.env` loading is not modelled. */
module Config {
  import opened Wrappers
  import opened Text

  type Env = map<string, string>

  const DefaultBaseUrl := "https://dashscope.aliyuncs.com/compatible-mode/v1"
  const DefaultModel := "qwen-turbo"
  const DefaultCorsOrigins := "http://localhost:3000,http://127.0.0.1:3000"
  const DefaultLogLevel := "INFO"
  const DefaultDebug := "false"

  /** `os.getenv(key, default)` */
  function GetEnv(env: Env, key: string, default: string): (r: string)
    ensures key in env ==> r == env[key]
    ensures key !in env ==> r == default
  {
    if key in env then env[key] else default
  }

  /** The spellings of a true DEBUG flag, after lower-casing. */
  predicate IsTrueSpelling(s: string) {
    s == "1" || s == "true" || s == "yes"
  }

  /** `value.lower() in ("1", "true", "yes")`: case-insensitive, with no trimming. */
  function ParseDebug(value: string): (b: bool)
    ensures b <==> IsTrueSpelling(Lower(value))
    ensures b ==> |value| <= 4 && value != ""
  {
    IsTrueSpelling(Lower(value))
  }

  /** The flag ignores letter case. */
  lemma DebugIgnoresCase(value: string)
    ensures ParseDebug(Upper(value)) == ParseDebug(value)
  {
    LowerUpper(value);
  }

  lemma LowerUpper(s: string)
    ensures Lower(Upper(s)) == Lower(s)
  {
    assert forall i :: 0 <= i < |s| ==> LowerChar(UpperChar(s[i])) == LowerChar(s[i]);
  }

  /** Whitespace around the value makes it false: " true" and "yes\n" are not true. */
  lemma DebugNotTrimmed(value: string, c: char)
    requires IsSpace(c)
    ensures !ParseDebug([c] + value) && !ParseDebug(value + [c])
  {
    var a, b := Lower([c] + value), Lower(value + [c]);
    assert a[0] == LowerChar(c) == c;
    assert b[|b| - 1] == LowerChar(c) == c;
  }

  /** `os.getenv("LOG_LEVEL", "INFO").upper()` */
  function LogLevel(env: Env): (r: string)
    ensures r == Upper(GetEnv(env, "LOG_LEVEL", DefaultLogLevel))
    ensures |r| == |GetEnv(env, "LOG_LEVEL", DefaultLogLevel)|
    ensures forall i :: 0 <= i < |r| ==> r[i] == UpperChar(GetEnv(env, "LOG_LEVEL", DefaultLogLevel)[i])
    ensures forall i :: 0 <= i < |r| ==> !('a' <= r[i] <= 'z')
  {
    Upper(GetEnv(env, "LOG_LEVEL", DefaultLogLevel))
  }

  /** The level ignores how the variable is cased: `debug`, `Debug` and `DEBUG` agree. */
  lemma LogLevelIgnoresCase(env: Env, value: string)
    ensures LogLevel(env["LOG_LEVEL" := Lower(value)]) == LogLevel(env["LOG_LEVEL" := value])
  {
    UpperLower(value);
  }

  lemma UpperLower(s: string)
    ensures Upper(Lower(s)) == Upper(s)
  {
    assert forall i :: 0 <= i < |s| ==> UpperChar(LowerChar(s[i])) == UpperChar(s[i]);
  }

  /** `os.getenv("BAILIAN_API_KEY") or os.getenv("OPENAI_API_KEY") or ""`: the first of
      the two that is set and non-empty. */
  function AliApiKey(env: Env): (r: string)
    ensures GetEnv(env, "BAILIAN_API_KEY", "") != "" ==> r == env["BAILIAN_API_KEY"]
    ensures GetEnv(env, "BAILIAN_API_KEY", "") == "" ==> r == GetEnv(env, "OPENAI_API_KEY", "")
    ensures r == "" <==> GetEnv(env, "BAILIAN_API_KEY", "") == "" && GetEnv(env, "OPENAI_API_KEY", "") == ""
  {
    var bailian := GetEnv(env, "BAILIAN_API_KEY", "");
    if bailian != "" then bailian else GetEnv(env, "OPENAI_API_KEY", "")
  }

  /** A kept entry: non-empty and trimmed. */
  predicate IsKept(s: string) {
    s != "" && IsStripped(s)
  }

  /** A CORS origin as the list holds it. */
  predicate IsOrigin(s: string) {
    IsKept(s) && ',' !in s
  }

  /** `[x.strip() for x in pieces if x.strip()]` */
  function StripAndDrop(pieces: seq<string>): (r: seq<string>)
    ensures |r| <= |pieces|
    ensures forall k :: 0 <= k < |r| ==> IsKept(r[k])
  {
    if pieces == [] then []
    else
      var x := Strip(pieces[0]);
      (if x != "" then [x] else []) + StripAndDrop(pieces[1..])
  }

  /** The CORS origin list: comma-separated entries, each trimmed, empty ones dropped,
      order kept. */
  function CorsOrigins(value: string): (r: seq<string>)
    ensures r == StripAndDrop(Split(value, ','))
    ensures forall k :: 0 <= k < |r| ==> IsOrigin(r[k])
  {
    var pieces := Split(value, ',');
    var r := StripAndDrop(pieces);
    StripAndDropNoComma(pieces);
    r
  }

  /** The comprehension works entry by entry: each piece contributes its stripped self,
      or nothing when that is empty, in place. */
  lemma {:induction false} StripAndDropConcat(xs: seq<string>, ys: seq<string>)
    ensures StripAndDrop(xs + ys) == StripAndDrop(xs) + StripAndDrop(ys)
    decreases |xs|
  {
    if xs == [] {
      assert xs + ys == ys;
    } else {
      assert (xs + ys)[0] == xs[0];
      assert (xs + ys)[1..] == xs[1..] + ys;
      StripAndDropConcat(xs[1..], ys);
    }
  }

  lemma StripAndDropOne(x: string)
    ensures StripAndDrop([x]) == if Strip(x) != "" then [Strip(x)] else []
  {
    assert [x][1..] == [];
  }

  /** Padded entries are trimmed and an empty one is dropped: `" a , ,b "` allows `a`
      and `b`, in that order. */
  lemma PaddedOrigins()
    ensures CorsOrigins(" a , ,b ") == ["a", "b"]
  {
    PaddedPieces();
    PaddedEntriesStripped();
    StripAndDropThree(" a ", " ", "b ");
  }

  lemma StripAndDropThree(x: string, y: string, z: string)
    ensures StripAndDrop([x, y, z]) == StripAndDrop([x]) + StripAndDrop([y]) + StripAndDrop([z])
  {
    assert [x, y, z] == [x] + [y] + [z];
    StripAndDropConcat([x] + [y], [z]);
    StripAndDropConcat([x], [y]);
  }

  lemma PaddedPieces()
    ensures Split(" a , ,b ", ',') == [" a ", " ", "b "]
  {
    var pieces := [" a ", " ", "b "];
    assert Join(pieces[2..], ',') == "b ";
    assert Join(pieces[1..], ',') == " " + [','] + "b ";
    assert Join(pieces, ',') == " a , ,b ";
    SplitJoin(pieces, ',');
  }

  lemma PaddedEntriesStripped()
    ensures Strip(" a ") == "a" && Strip(" ") == "" && Strip("b ") == "b"
  {
    StripAround(" ", "a", " ");
    assert " " + "a" + " " == " a ";
    AllSpaceTrimStart(" ");
    StripAround("", "b", " ");
    assert "" + "b" + " " == "b ";
  }

  lemma {:induction false} StripAndDropNoComma(pieces: seq<string>)
    requires forall k :: 0 <= k < |pieces| ==> ',' !in pieces[k]
    ensures forall k :: 0 <= k < |StripAndDrop(pieces)| ==> ',' !in StripAndDrop(pieces)[k]
  {
    if pieces != [] {
      StripAndDropNoComma(pieces[1..]);
      StripSubsequence(pieces[0]);
    }
  }

  /** Stripping keeps a character out if it was out. */
  lemma StripSubsequence(s: string)
    ensures forall c :: c in Strip(s) ==> c in s
  {
    var t := TrimStart(s);
    var r := TrimEnd(t);
    TrimStartSplit(s);
    TrimEndSplit(t);
    assert forall c :: c in r ==> c in t;
    assert forall c :: c in t ==> c in s;
  }

  /** Joining non-empty, trimmed, comma-free origins and reading them back gives the
      same list. */
  lemma {:induction false} CorsRoundTrip(origins: seq<string>)
    requires |origins| >= 1
    requires forall k :: 0 <= k < |origins| ==> IsOrigin(origins[k])
    ensures CorsOrigins(Join(origins, ',')) == origins
  {
    SplitJoin(origins, ',');
    StripAndDropKeeps(origins);
  }

  lemma {:induction false} StripAndDropKeeps(xs: seq<string>)
    requires forall k :: 0 <= k < |xs| ==> IsKept(xs[k])
    ensures StripAndDrop(xs) == xs
  {
    if xs != [] {
      var x, rest := xs[0], xs[1..];
      assert xs == [x] + rest;
      assert IsKept(x);
      StripOfStripped(x);
      assert forall k :: 0 <= k < |rest| ==> IsKept(rest[k]) by {
        forall k | 0 <= k < |rest| ensures IsKept(rest[k]) {
          assert rest[k] == xs[k + 1];
        }
      }
      StripAndDropKeeps(rest);
    }
  }

  /** Empty and blank entries vanish without disturbing the others. */
  lemma {:induction false} BlankEntriesDropped(xs: seq<string>, blank: string, ys: seq<string>)
    requires AllSpace(blank)
    ensures StripAndDrop(xs + [blank] + ys) == StripAndDrop(xs + ys)
    decreases |xs|
  {
    if xs == [] {
      assert ([] + [blank] + ys)[1..] == ys;
      AllSpaceTrimStart(blank);
      assert [] + ys == ys;
    } else {
      assert (xs + [blank] + ys)[1..] == xs[1..] + [blank] + ys;
      assert (xs + ys)[1..] == xs[1..] + ys;
      BlankEntriesDropped(xs[1..], blank, ys);
    }
  }

  /** The settings object. */
  datatype Settings = Settings(
    debug: bool,
    logLevel: string,
    databaseUrl: string,
    bailianApiKey: string,
    aliApiKey: string,
    aliBaseUrl: string,
    aliModel: string,
    corsOrigins: seq<string>)

  function LoadSettings(env: Env): (s: Settings)
    ensures s.aliApiKey == AliApiKey(env) && s.corsOrigins == CorsOrigins(GetEnv(env, "CORS_ORIGINS", DefaultCorsOrigins))
    ensures s.debug == ParseDebug(GetEnv(env, "DEBUG", DefaultDebug)) && s.logLevel == LogLevel(env)
    ensures s.databaseUrl == GetEnv(env, "DATABASE_URL", "")
    ensures s.bailianApiKey == GetEnv(env, "BAILIAN_API_KEY", "")
    ensures s.aliBaseUrl == GetEnv(env, "ALI_BASE_URL", DefaultBaseUrl)
    ensures s.aliModel == GetEnv(env, "ALI_MODEL", DefaultModel)
  {
    Settings(
      ParseDebug(GetEnv(env, "DEBUG", DefaultDebug)),
      LogLevel(env),
      GetEnv(env, "DATABASE_URL", ""),
      GetEnv(env, "BAILIAN_API_KEY", ""),
      AliApiKey(env),
      GetEnv(env, "ALI_BASE_URL", DefaultBaseUrl),
      GetEnv(env, "ALI_MODEL", DefaultModel),
      CorsOrigins(GetEnv(env, "CORS_ORIGINS", DefaultCorsOrigins)))
  }

  const LocalOrigins := ["http://localhost:3000", "http://127.0.0.1:3000"]

  /** Unset, CORS_ORIGINS allows the two local front-end origins. */
  lemma DefaultOrigins()
    ensures CorsOrigins(DefaultCorsOrigins) == LocalOrigins
  {
    LocalOriginsJoined();
    LocalOriginsValid();
    CorsRoundTrip(LocalOrigins);
  }

  lemma LocalOriginsJoined()
    ensures Join(LocalOrigins, ',') == DefaultCorsOrigins
  {
    var a, b := LocalOrigins[0], LocalOrigins[1];
    assert Join(LocalOrigins, ',') == a + [','] + b;
  }

  lemma LocalOriginsValid()
    ensures forall k :: 0 <= k < |LocalOrigins| ==> IsOrigin(LocalOrigins[k])
  {
    var a, b := LocalOrigins[0], LocalOrigins[1];
    assert IsOrigin(a);
    assert IsOrigin(b);
  }

  lemma DefaultFlags()
    ensures !ParseDebug(DefaultDebug) && Upper(DefaultLogLevel) == DefaultLogLevel
  {
    assert Lower(DefaultDebug) == DefaultDebug;
  }

  /** With nothing set: debug off, level INFO, no database, no key, the DashScope
      compatible-mode endpoint, `qwen-turbo`, and the two local front-end origins. */
  lemma EmptyEnvironment()
    ensures LoadSettings(map[]) == Settings(false, "INFO", "", "", "", DefaultBaseUrl, DefaultModel, LocalOrigins)
  {
    DefaultFlags();
    DefaultOrigins();
  }
}
