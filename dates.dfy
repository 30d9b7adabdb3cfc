/** Calendar dates and Python's `datetime.strptime(s, "%Y-%m-%d")`.

    `strptime` turns the format into the regular expression
    `(?P<Y>\d\d\d\d)-(?P<m>1[0-2]|0[1-9]|[1-9])-(?P<d>3[0-1]|[1-2]\d|0[1-9]|[1-9]| [1-9])`,
    matches it at the start of the text (alternatives tried left to right, backtracking
    only when what follows fails), refuses the text when the match leaves characters over,
    and finally builds a `date`, which refuses a year below 1 or a day past the end of the
    month. `StrptimeYmd` follows those steps; `Spells` is the independent description of
    the texts it accepts. */
module Dates {
  import opened Wrappers

  datatype Date = Date(year: int, month: int, day: int)

  const MinYear := 1
  const MaxYear := 9999

  /** Gregorian leap years. */
  predicate IsLeapYear(y: int) {
    y % 4 == 0 && (y % 100 != 0 || y % 400 == 0)
  }

  function DaysInMonth(y: int, m: int): (n: int)
    requires 1 <= m <= 12
    ensures 28 <= n <= 31
    ensures m == 2 ==> (n == 29 <==> IsLeapYear(y))
  {
    if m == 2 then (if IsLeapYear(y) then 29 else 28)
    else if m == 4 || m == 6 || m == 9 || m == 11 then 30
    else 31
  }

  /** What `datetime.date(year, month, day)` accepts. */
  predicate IsValidDate(d: Date) {
    MinYear <= d.year <= MaxYear && 1 <= d.month <= 12 && 1 <= d.day <= DaysInMonth(d.year, d.month)
  }

  predicate IsDigit(c: char) {
    '0' <= c <= '9'
  }

  function DigitValue(c: char): (n: int)
    requires IsDigit(c)
    ensures 0 <= n <= 9
  {
    c as int - '0' as int
  }

  function DigitChar(n: int): (c: char)
    requires 0 <= n <= 9
    ensures IsDigit(c) && DigitValue(c) == n
  {
    (n + '0' as int) as char
  }

  /** A value read by one group of the pattern, and where the group ended. */
  datatype Piece = Piece(value: int, end: nat)

  /** The alternatives of the month group `1[0-2]|0[1-9]|[1-9]` that match at `i`, in the
      order the regex tries them. */
  function MonthMatches(s: string, i: nat): seq<Piece>
  {
    (if i + 1 < |s| && s[i] == '1' && '0' <= s[i + 1] <= '2' then [Piece(10 + DigitValue(s[i + 1]), i + 2)] else [])
    + (if i + 1 < |s| && s[i] == '0' && '1' <= s[i + 1] <= '9' then [Piece(DigitValue(s[i + 1]), i + 2)] else [])
    + (if i < |s| && '1' <= s[i] <= '9' then [Piece(DigitValue(s[i]), i + 1)] else [])
  }

  /** The first alternative of the day group `3[0-1]|[1-2]\d|0[1-9]|[1-9]| [1-9]` that
      matches at `i`; nothing follows the group, so the first one that matches is kept. */
  function DayMatch(s: string, i: nat): Option<Piece>
  {
    if i + 1 < |s| && s[i] == '3' && '0' <= s[i + 1] <= '1' then Some(Piece(30 + DigitValue(s[i + 1]), i + 2))
    else if i + 1 < |s| && '1' <= s[i] <= '2' && IsDigit(s[i + 1]) then Some(Piece(10 * DigitValue(s[i]) + DigitValue(s[i + 1]), i + 2))
    else if i + 1 < |s| && s[i] == '0' && '1' <= s[i + 1] <= '9' then Some(Piece(DigitValue(s[i + 1]), i + 2))
    else if i < |s| && '1' <= s[i] <= '9' then Some(Piece(DigitValue(s[i]), i + 1))
    else if i + 1 < |s| && s[i] == ' ' && '1' <= s[i + 1] <= '9' then Some(Piece(DigitValue(s[i + 1]), i + 2))
    else None
  }

  /** Backtracking over the month alternatives: the first one followed by `-` and a day. */
  function MatchMonthDay(s: string, months: seq<Piece>): Option<(Piece, Piece)>
  {
    if months == [] then None
    else
      var m := months[0];
      if m.end < |s| && s[m.end] == '-' && DayMatch(s, m.end + 1).Some?
      then Some((m, DayMatch(s, m.end + 1).value))
      else MatchMonthDay(s, months[1..])
  }

  function YearValue(s: string): int
    requires |s| >= 4 && IsDigit(s[0]) && IsDigit(s[1]) && IsDigit(s[2]) && IsDigit(s[3])
  {
    1000 * DigitValue(s[0]) + 100 * DigitValue(s[1]) + 10 * DigitValue(s[2]) + DigitValue(s[3])
  }

  /** `datetime.strptime(s, "%Y-%m-%d").date()`, with `None` for every `ValueError`. */
  function StrptimeYmd(s: string): (r: Option<Date>)
    ensures r.Some? ==> IsValidDate(r.value)
  {
    if |s| < 5 || !(IsDigit(s[0]) && IsDigit(s[1]) && IsDigit(s[2]) && IsDigit(s[3])) || s[4] != '-' then None
    else
      var found := MatchMonthDay(s, MonthMatches(s, 5));
      if found.None? || found.value.1.end != |s| then None
      else
        var date := Date(YearValue(s), found.value.0.value, found.value.1.value);
        if IsValidDate(date) then Some(date) else None
  }

  // ---------------------------------------------------------------- spellings

  /** The year written with four digits. */
  function Pad4(y: int): (r: string)
    requires 0 <= y <= 9999
    ensures |r| == 4
  {
    [DigitChar(y / 1000), DigitChar(y / 100 % 10), DigitChar(y / 10 % 10), DigitChar(y % 10)]
  }

  /** A month or day written with two digits. */
  function Pad2(n: int): (r: string)
    requires 0 <= n <= 99
    ensures |r| == 2
  {
    [DigitChar(n / 10), DigitChar(n % 10)]
  }

  /** The ways the pattern lets a month be written: two digits, or one below 10. */
  function MonthText(m: int, padded: bool): string
    requires 1 <= m <= 12
  {
    if padded || m >= 10 then Pad2(m) else [DigitChar(m)]
  }

  /** The ways the pattern lets a day be written: two digits, or below 10 one digit
      alone (style 1) or after a space (style 2). */
  function DayText(d: int, style: nat): string
    requires 1 <= d <= 31
  {
    if style == 0 || d >= 10 then Pad2(d)
    else if style == 1 then [DigitChar(d)]
    else [' ', DigitChar(d)]
  }

  function Spelling(d: Date, padded: bool, style: nat): string
    requires 0 <= d.year <= 9999 && 1 <= d.month <= 12 && 1 <= d.day <= 31
  {
    Pad4(d.year) + "-" + MonthText(d.month, padded) + "-" + DayText(d.day, style)
  }

  /** `s` is one of the spellings of the valid date `d`. */
  ghost predicate Spells(s: string, d: Date) {
    && IsValidDate(d)
    && exists padded: bool, style: nat {:trigger Spelling(d, padded, style)} ::
         style <= 2 && s == Spelling(d, padded, style)
  }

  /** `YYYY-MM-DD`, the format the model is asked for. */
  function IsoText(d: Date): string
    requires 0 <= d.year <= 9999 && 1 <= d.month <= 12 && 1 <= d.day <= 31
  {
    Spelling(d, true, 0)
  }

  /** `YYYY-MM-DD` is ten characters that begin and end with a digit. */
  lemma IsoTextShape(d: Date)
    requires 0 <= d.year <= 9999 && 1 <= d.month <= 12 && 1 <= d.day <= 31
    ensures var x := IsoText(d); |x| == 10 && IsDigit(x[0]) && IsDigit(x[9])
  {
    var x := IsoText(d);
    assert x == Pad4(d.year) + "-" + Pad2(d.month) + "-" + Pad2(d.day);
    assert x[0] == Pad4(d.year)[0] && x[9] == Pad2(d.day)[1];
  }

  lemma Pad4Digits(y: int)
    requires 0 <= y <= 9999
    ensures var p := Pad4(y); IsDigit(p[0]) && IsDigit(p[1]) && IsDigit(p[2]) && IsDigit(p[3]) && YearValue(p) == y
  {
    var t, e := y / 10, y % 10;
    var h, c := t / 10, t % 10;
    var a, b := h / 10, h % 10;
    DivMod(y, 100, h, 10 * c + e);
    DivMod(y, 1000, a, 100 * b + 10 * c + e);
    assert Pad4(y) == [DigitChar(a), DigitChar(b), DigitChar(c), DigitChar(e)];
  }

  lemma YearDigitsPad4(s: string)
    requires |s| >= 4 && IsDigit(s[0]) && IsDigit(s[1]) && IsDigit(s[2]) && IsDigit(s[3])
    ensures 0 <= YearValue(s) <= 9999 && Pad4(YearValue(s)) == s[..4]
  {
    var a, b, c, e := DigitValue(s[0]), DigitValue(s[1]), DigitValue(s[2]), DigitValue(s[3]);
    var y := YearValue(s);
    DivMod(y, 1000, a, 100 * b + 10 * c + e);
    DivMod(y, 100, 10 * a + b, 10 * c + e);
    DivMod(10 * a + b, 10, a, b);
    DivMod(y, 10, 100 * a + 10 * b + c, e);
    DivMod(100 * a + 10 * b + c, 10, 10 * a + b, c);
    assert DigitChar(a) == s[0] && DigitChar(b) == s[1] && DigitChar(c) == s[2] && DigitChar(e) == s[3];
  }

  lemma DivMod(x: int, k: int, q: int, r: int)
    requires k == 10 || k == 100 || k == 1000
    requires x == k * q + r && 0 <= r < k
    ensures x / k == q && x % k == r
  {
    if k == 10 {
      assert x == 10 * q + r;
    } else if k == 100 {
      assert x == 100 * q + r;
    } else {
      assert x == 1000 * q + r;
    }
  }

  /** Every spelling of a date in range is parsed back to that date when the date exists,
      and refused when it does not (a year 0, the 30th of February, the 29th of February
      outside a leap year). */
  lemma {:induction false} ParseSpelling(d: Date, padded: bool, style: nat)
    requires 0 <= d.year <= 9999 && 1 <= d.month <= 12 && 1 <= d.day <= 31 && style <= 2
    ensures StrptimeYmd(Spelling(d, padded, style)) == if IsValidDate(d) then Some(d) else None
  {
    var s := Spelling(d, padded, style);
    var mt := MonthText(d.month, padded);
    var dt := DayText(d.day, style);
    var mEnd := 5 + |mt|;
    assert s == Pad4(d.year) + ("-" + mt + "-" + dt);
    assert s[..4] == Pad4(d.year) && s[4] == '-';
    Pad4Digits(d.year);
    assert YearValue(s) == d.year;
    assert s[5..mEnd] == mt && s[mEnd] == '-' && s[mEnd + 1..] == dt;
    MonthSpellingMatched(s, d.month, padded);
    DaySpellingMatched(s, mEnd + 1, d.day, style);
    var months := MonthMatches(s, 5);
    assert MatchMonthDay(s, months) == Some((months[0], Piece(d.day, |s|)));
  }

  /** A written month followed by `-` is the first alternative the month group takes. */
  lemma MonthSpellingMatched(s: string, m: int, padded: bool)
    requires 1 <= m <= 12
    requires var e := 5 + |MonthText(m, padded)|; e < |s| && s[5..e] == MonthText(m, padded) && s[e] == '-'
    ensures var months := MonthMatches(s, 5); months != [] && months[0] == Piece(m, 5 + |MonthText(m, padded)|)
  {
    var mt := MonthText(m, padded);
    assert s[5] == mt[0];
    if |mt| == 2 {
      assert mt == Pad2(m) && s[6] == mt[1];
    } else {
      assert s[6] == '-';
    }
  }

  /** A written day that ends the text is what the day group reads. */
  lemma DaySpellingMatched(s: string, i: nat, day: int, style: nat)
    requires 1 <= day <= 31 && style <= 2 && i <= |s| && s[i..] == DayText(day, style)
    ensures DayMatch(s, i) == Some(Piece(day, |s|))
  {
    var dt := DayText(day, style);
    assert s[i] == dt[0];
    if |dt| == 2 {
      assert s[i + 1] == dt[1];
      if dt[0] != ' ' {
        assert dt == Pad2(day);
      }
    }
  }

  /** The converse: whatever `StrptimeYmd` accepts is a spelling of the date it returns. */
  lemma ParsedIsSpelling(s: string)
    requires StrptimeYmd(s).Some?
    ensures Spells(s, StrptimeYmd(s).value)
  {
    var d := StrptimeYmd(s).value;
    var months := MonthMatches(s, 5);
    var found := MatchMonthDay(s, months);
    YearDigitsPad4(s);
    var m, dy := found.value.0, found.value.1;
    MatchMonthDayFirst(s, months);
    MonthPieceSpelled(s, m);
    var padded := m.end == 7;
    var style: nat := if dy.end == m.end + 3 && s[m.end + 1] == ' ' then 2 else if dy.end == m.end + 2 then 1 else 0;
    DayPieceSpelled(s, m.end + 1, dy);
    assert s == s[..4] + "-" + s[5..m.end] + "-" + s[m.end + 1..];
    assert s == Spelling(d, padded, style);
  }

  /** Each month alternative reads one of the month's spellings. */
  lemma MonthPieceSpelled(s: string, p: Piece)
    requires p in MonthMatches(s, 5)
    ensures 1 <= p.value <= 12 && (p.end == 6 || p.end == 7) && p.end <= |s|
    ensures s[5..p.end] == MonthText(p.value, p.end == 7)
  {
    if p.end == 7 {
      assert s[5..7] == [s[5], s[6]];
    } else {
      assert s[5..6] == [s[5]];
    }
  }

  /** The day alternative that ends the text reads one of the day's spellings. */
  lemma DayPieceSpelled(s: string, i: nat, p: Piece)
    requires DayMatch(s, i) == Some(p) && p.end == |s|
    ensures 1 <= p.value <= 31 && i <= |s|
    ensures var style: nat := if p.end == i + 2 && s[i] == ' ' then 2 else if p.end == i + 1 then 1 else 0;
            s[i..] == DayText(p.value, style)
  {
    if p.end == i + 2 {
      assert s[i..] == [s[i], s[i + 1]];
    } else {
      assert s[i..] == [s[i]];
    }
  }

  lemma {:induction false} MatchMonthDayFirst(s: string, months: seq<Piece>)
    requires MatchMonthDay(s, months).Some?
    ensures var f := MatchMonthDay(s, months).value;
      && f.0 in months && f.0.end < |s| && s[f.0.end] == '-'
      && DayMatch(s, f.0.end + 1) == Some(f.1)
  {
    if !(months[0].end < |s| && s[months[0].end] == '-' && DayMatch(s, months[0].end + 1).Some?) {
      MatchMonthDayFirst(s, months[1..]);
    }
  }

  lemma LeapDayExamples()
    ensures StrptimeYmd(IsoText(Date(2024, 2, 29))) == Some(Date(2024, 2, 29))
    ensures StrptimeYmd(IsoText(Date(2023, 2, 29))) == None
    ensures StrptimeYmd(IsoText(Date(2025, 2, 30))) == None
    ensures StrptimeYmd(IsoText(Date(1900, 2, 29))) == None
    ensures StrptimeYmd(IsoText(Date(2000, 2, 29))) == Some(Date(2000, 2, 29))
    ensures StrptimeYmd(IsoText(Date(0, 1, 1))) == None
  {
    ParseSpelling(Date(2024, 2, 29), true, 0);
    ParseSpelling(Date(2023, 2, 29), true, 0);
    ParseSpelling(Date(2025, 2, 30), true, 0);
    ParseSpelling(Date(1900, 2, 29), true, 0);
    ParseSpelling(Date(2000, 2, 29), true, 0);
    ParseSpelling(Date(0, 1, 1), true, 0);
  }
}
