/** Python's string primitives that the backend relies on: `str.isspace` / regex `\s`,
    `strip`, slicing with a bound, ASCII case mapping, `split(",")` and its inverse `join`. */
module Text {

  /** Python's whitespace class: the characters `str.isspace()` accepts, which are also
      the characters the `re` module's `\s` matches in a `str` pattern. */
  predicate IsSpace(c: char) {
    || ('\t' <= c <= '\r')
    || ('\U{1C}' <= c <= ' ')
    || c == '\U{85}' || c == '\U{A0}' || c == '\U{1680}'
    || ('\U{2000}' <= c <= '\U{200A}')
    || c == '\U{2028}' || c == '\U{2029}' || c == '\U{202F}' || c == '\U{205F}' || c == '\U{3000}'
  }

  predicate AllSpace(s: string) {
    forall i :: 0 <= i < |s| ==> IsSpace(s[i])
  }

  /** No whitespace at either end: what `str.strip()` returns. */
  predicate IsStripped(s: string) {
    s == [] || (!IsSpace(s[0]) && !IsSpace(s[|s| - 1]))
  }

  /** `s.lstrip()`; what it removes is described by `TrimStartSplit`. */
  function TrimStart(s: string): (r: string)
    ensures |r| <= |s|
    ensures r == [] || !IsSpace(r[0])
  {
    if |s| > 0 && IsSpace(s[0]) then TrimStart(s[1..]) else s
  }

  /** `lstrip` keeps a suffix and removes whitespace only. */
  lemma {:induction false} TrimStartSplit(s: string)
    ensures TrimStart(s) == s[|s| - |TrimStart(s)|..]
    ensures AllSpace(s[..|s| - |TrimStart(s)|])
  {
    if |s| > 0 && IsSpace(s[0]) {
      var r := TrimStart(s[1..]);
      TrimStartSplit(s[1..]);
      assert s[1..][|s| - 1 - |r|..] == s[|s| - |r|..];
      assert s[..|s| - |r|] == [s[0]] + s[1..][..|s| - 1 - |r|];
    }
  }

  /** `s.rstrip()`; what it removes is described by `TrimEndSplit`. */
  function TrimEnd(s: string): (r: string)
    ensures |r| <= |s|
    ensures r == [] || !IsSpace(r[|r| - 1])
  {
    if |s| > 0 && IsSpace(s[|s| - 1]) then TrimEnd(s[..|s| - 1]) else s
  }

  /** `rstrip` keeps a prefix and removes whitespace only. */
  lemma {:induction false} TrimEndSplit(s: string)
    ensures TrimEnd(s) == s[..|TrimEnd(s)|]
    ensures AllSpace(s[|TrimEnd(s)|..])
  {
    if |s| > 0 && IsSpace(s[|s| - 1]) {
      var r := TrimEnd(s[..|s| - 1]);
      TrimEndSplit(s[..|s| - 1]);
      assert s[..|s| - 1][..|r|] == s[..|r|];
      assert s[|r|..] == s[..|s| - 1][|r|..] + [s[|s| - 1]];
    }
  }

  /** `s.strip()` */
  function Strip(s: string): (r: string)
    ensures IsStripped(r) && |r| <= |s|
  {
    var t := TrimStart(s);
    TrimEndKeepsStart(t);
    TrimEnd(t)
  }

  lemma TrimEndKeepsStart(t: string)
    requires t == [] || !IsSpace(t[0])
    ensures IsStripped(TrimEnd(t))
  {
    var r := TrimEnd(t);
    if r != [] {
      TrimEndSplit(t);
      assert r[0] == t[0];
    }
  }

  lemma {:induction false} TrimStartAround(lead: string, body: string)
    requires AllSpace(lead)
    requires body == [] || !IsSpace(body[0])
    ensures TrimStart(lead + body) == body
  {
    if lead != [] {
      assert (lead + body)[1..] == lead[1..] + body;
      TrimStartAround(lead[1..], body);
    }
  }

  lemma {:induction false} TrimEndAround(body: string, trail: string)
    requires AllSpace(trail)
    requires body == [] || !IsSpace(body[|body| - 1])
    ensures TrimEnd(body + trail) == body
  {
    if trail != [] {
      var s := body + trail;
      assert s[..|s| - 1] == body + trail[..|trail| - 1];
      TrimEndAround(body, trail[..|trail| - 1]);
    }
  }

  /** Stripping removes exactly the whitespace around a stripped core: together with
      `IsStripped(Strip(s))` this pins `Strip` down completely. */
  lemma StripAround(lead: string, body: string, trail: string)
    requires AllSpace(lead) && AllSpace(trail) && IsStripped(body)
    ensures Strip(lead + body + trail) == body
  {
    assert lead + body + trail == lead + (body + trail);
    if body == [] {
      assert AllSpace(body + trail) by { assert body + trail == trail; }
      assert TrimStart(lead + (body + trail)) == [] by {
        AllSpaceTrimStart(lead + trail);
        assert lead + (body + trail) == lead + trail;
      }
    } else {
      TrimStartAround(lead, body + trail);
      TrimEndAround(body, trail);
    }
  }

  lemma {:induction false} AllSpaceTrimStart(s: string)
    requires AllSpace(s)
    ensures TrimStart(s) == []
  {
    if s != [] {
      AllSpaceTrimStart(s[1..]);
    }
  }

  lemma StripIdempotent(s: string)
    ensures Strip(Strip(s)) == Strip(s)
  {
    var r := Strip(s);
    StripAround([], r, []);
    assert [] + r + [] == r;
  }

  lemma StripOfStripped(s: string)
    requires IsStripped(s)
    ensures Strip(s) == s
  {
    StripAround([], s, []);
    assert [] + s + [] == s;
  }

  /** A text that begins and ends with a non-space keeps itself as a prefix of any
      longer text it starts, once stripped. */
  lemma StripKeepsPrefix(x: string, y: string)
    requires x != [] && !IsSpace(x[0]) && !IsSpace(x[|x| - 1])
    ensures StartsWith(Strip(x + y), x)
  {
    var s := x + y;
    assert TrimStart(s) == s;
    var r := TrimEnd(s);
    TrimEndPast(s, |x| - 1);
    TrimEndSplit(s);
    assert r[..|x|] == s[..|x|] == x;
  }

  /** The same, with whitespace in front. */
  lemma StripLeadKeepsPrefix(lead: string, x: string, y: string)
    requires AllSpace(lead) && x != [] && !IsSpace(x[0]) && !IsSpace(x[|x| - 1])
    ensures StartsWith(Strip(lead + x + y), x)
  {
    assert lead + x + y == lead + (x + y);
    TrimStartAround(lead, x + y);
    StripKeepsPrefix(x, y);
    assert TrimStart(x + y) == x + y;
  }

  /** `rstrip` never removes a non-space character. */
  lemma {:induction false} TrimEndPast(s: string, k: nat)
    requires k < |s| && !IsSpace(s[k])
    ensures |TrimEnd(s)| > k
  {
    if IsSpace(s[|s| - 1]) {
      TrimEndPast(s[..|s| - 1], k);
    }
  }

  /** Python's `s[:n]`. */
  function Take(s: string, n: nat): (r: string)
    ensures |r| == if |s| < n then |s| else n
    ensures r == s[..|r|]
  {
    if |s| <= n then s else s[..n]
  }

  predicate StartsWith(s: string, p: string) {
    |p| <= |s| && s[..|p|] == p
  }

  predicate EndsWith(s: string, p: string) {
    |p| <= |s| && s[|s| - |p|..] == p
  }

  function LowerChar(c: char): char {
    if 'A' <= c <= 'Z' then (c as int + 32) as char else c
  }

  function UpperChar(c: char): char {
    if 'a' <= c <= 'z' then (c as int - 32) as char else c
  }

  /** `s.lower()` on the ASCII letters. */
  function Lower(s: string): (r: string)
    ensures |r| == |s| && forall i :: 0 <= i < |s| ==> r[i] == LowerChar(s[i])
  {
    if s == [] then [] else [LowerChar(s[0])] + Lower(s[1..])
  }

  /** `s.upper()` on the ASCII letters. */
  function Upper(s: string): (r: string)
    ensures |r| == |s| && forall i :: 0 <= i < |s| ==> r[i] == UpperChar(s[i])
  {
    if s == [] then [] else [UpperChar(s[0])] + Upper(s[1..])
  }

  /** `s.split(sep)` for a one-character separator: never empty, pieces hold no separator. */
  function Split(s: string, sep: char): (r: seq<string>)
    ensures |r| >= 1
    ensures forall i :: 0 <= i < |r| ==> sep !in r[i]
    decreases |s|
  {
    if s == [] then [""]
    else
      var rest := Split(s[1..], sep);
      if s[0] == sep then [""] + rest
      else [[s[0]] + rest[0]] + rest[1..]
  }

  /** `sep.join(parts)` */
  function Join(parts: seq<string>, sep: char): string
  {
    if parts == [] then ""
    else if |parts| == 1 then parts[0]
    else parts[0] + [sep] + Join(parts[1..], sep)
  }

  lemma {:induction false} JoinSplit(s: string, sep: char)
    ensures Join(Split(s, sep), sep) == s
    decreases |s|
  {
    if s != [] {
      var rest := Split(s[1..], sep);
      JoinSplit(s[1..], sep);
      if s[0] == sep {
        assert Split(s, sep) == [""] + rest;
        assert ([""] + rest)[1..] == rest;
      } else {
        var r := Split(s, sep);
        assert r == [[s[0]] + rest[0]] + rest[1..];
        if |rest| == 1 {
          assert s == [s[0]] + s[1..];
        } else {
          assert r[1..] == rest[1..];
          assert Join(rest, sep) == rest[0] + [sep] + Join(rest[1..], sep);
          assert s == [s[0]] + s[1..];
        }
      }
    }
  }

  lemma {:induction false} SplitJoin(parts: seq<string>, sep: char)
    requires |parts| >= 1
    requires forall i :: 0 <= i < |parts| ==> sep !in parts[i]
    ensures Split(Join(parts, sep), sep) == parts
    decreases |parts|, |parts[0]|
  {
    var p := parts[0];
    if |parts| == 1 {
      SplitNoSep(p, sep);
    } else {
      var tail := Join(parts[1..], sep);
      var s := Join(parts, sep);
      assert s == p + [sep] + tail;
      if p == [] {
        assert s == [sep] + tail;
        assert s[1..] == tail;
        SplitJoin(parts[1..], sep);
        assert Split(s, sep) == [""] + parts[1..];
        assert [""] + parts[1..] == parts;
      } else {
        var parts' := [p[1..]] + parts[1..];
        assert parts'[1..] == parts[1..];
        assert forall i :: 0 <= i < |parts'| ==> sep !in parts'[i] by {
          forall i | 0 <= i < |parts'| ensures sep !in parts'[i] {
            if i == 0 {
              assert sep !in p;
              assert forall c :: c in p[1..] ==> c in p;
            } else {
              assert parts'[i] == parts[i];
            }
          }
        }
        SplitJoin(parts', sep);
        assert Join(parts', sep) == p[1..] + [sep] + tail;
        assert s[1..] == p[1..] + [sep] + tail;
        assert s[0] == p[0] && p[0] != sep;
        var rest := Split(s[1..], sep);
        assert rest == parts';
        assert Split(s, sep) == [[p[0]] + p[1..]] + parts[1..];
        assert [p[0]] + p[1..] == p;
        assert [p] + parts[1..] == parts;
      }
    }
  }

  lemma {:induction false} SplitNoSep(s: string, sep: char)
    requires sep !in s
    ensures Split(s, sep) == [s]
    decreases |s|
  {
    if s != [] {
      assert forall c :: c in s[1..] ==> c in s;
      SplitNoSep(s[1..], sep);
      assert [s[0]] + s[1..] == s;
    }
  }
}
