/**
 * Calendar dates as Python's `datetime.date` sees them, with the parsing and
 * formatting the ledger uses: `date.isoformat()` / `date.fromisoformat()`,
 * `datetime.strptime` with "%B %d, %Y" and "%d %B, %Y", and `strftime` with
 * "%Y-%m-%d", "%Y-%m" and "%y-%m" (as glibc renders "%Y": without zero padding).
 */
module Dates {
  import opened Wrappers
  import opened Text

  datatype Date = Date(year: int, month: int, day: int)

  predicate IsLeapYear(y: int) {
    y % 4 == 0 && (y % 100 != 0 || y % 400 == 0)
  }

  function DaysInMonth(y: int, m: int): int
    requires 1 <= m <= 12
  {
    if m == 2 then (if IsLeapYear(y) then 29 else 28)
    else if m == 4 || m == 6 || m == 9 || m == 11 then 30
    else 31
  }

  /** The dates `datetime.date` accepts: years 1 to 9999 and a day that exists in its month. */
  predicate ValidDate(d: Date) {
    1 <= d.year <= 9999 && 1 <= d.month <= 12 && 1 <= d.day <= DaysInMonth(d.year, d.month)
  }

  /** A `datetime.date` value. */
  type CalendarDate = d: Date | ValidDate(d) witness Date(1970, 1, 1)

  // ---------------------------------------------------------------------
  // Digit-string facts used by the round trips
  // ---------------------------------------------------------------------

  lemma {:induction false} DigitsValueBound(s: string)
    requires AllDigits(s)
    ensures DigitsValue(s) < Pow10(|s|)
  {
    if s != [] {
      DigitsValueBound(s[..|s| - 1]);
    }
  }

  lemma {:induction false} NatToStringLength(n: nat, w: nat)
    requires w >= 1 && n < Pow10(w)
    ensures |NatToString(n)| <= w
  {
    if n >= 10 {
      assert Pow10(w) == 10 * Pow10(w - 1);
      assert Pow10(0) == 1;
      NatToStringLength(n / 10, w - 1);
    }
  }

  lemma {:induction false} NatToStringLengthAtLeast(n: nat, w: nat)
    requires Pow10(w) <= n
    ensures |NatToString(n)| > w
  {
    if w > 0 {
      assert Pow10(w) == 10 * Pow10(w - 1);
      NatToStringLengthAtLeast(n / 10, w - 1);
    }
  }

  /** Two digit strings of the same length with the same value are equal. */
  lemma {:induction false} DigitsValueInjective(a: string, b: string)
    requires AllDigits(a) && AllDigits(b) && |a| == |b|
    requires DigitsValue(a) == DigitsValue(b)
    ensures a == b
  {
    if a != [] {
      var n := |a|;
      var a', b' := a[..n - 1], b[..n - 1];
      assert DigitsValue(a) == DigitsValue(a') * 10 + DigitValue(a[n - 1]);
      assert DigitsValue(b) == DigitsValue(b') * 10 + DigitValue(b[n - 1]);
      assert DigitsValue(a') == DigitsValue(b') && DigitValue(a[n - 1]) == DigitValue(b[n - 1]);
      DigitsValueInjective(a', b');
      LastDigitEqual(a, b);
    }
  }

  lemma {:induction false} LastDigitEqual(a: string, b: string)
    requires |a| == |b| > 0 && AllDigits(a) && AllDigits(b)
    requires a[..|a| - 1] == b[..|b| - 1] && DigitValue(a[|a| - 1]) == DigitValue(b[|b| - 1])
    ensures a == b
  {
    assert a == a[..|a| - 1] + [a[|a| - 1]];
    assert b == b[..|b| - 1] + [b[|b| - 1]];
  }

  /**
   * A number below 10^w written with exactly `w` digits, zero-padded on the left:
   * what "%m", "%d" and "%y" write, and `str(n).zfill(w)`.
   */
  function Padded(n: nat, w: nat): (s: string)
    requires n < Pow10(w)
    ensures |s| == w && AllDigits(s) && DigitsValue(s) == n
  {
    if w == 0 then ""
    else
      var s := Padded(n / 10, w - 1) + [DigitChar(n % 10)];
      assert s[..w - 1] == Padded(n / 10, w - 1);
      s
  }

  /** A digit string is the zero-padded rendering of its own value. */
  lemma {:induction false} PaddedOfDigits(s: string)
    requires AllDigits(s)
    ensures DigitsValue(s) < Pow10(|s|) && Padded(DigitsValue(s), |s|) == s
  {
    DigitsValueBound(s);
    DigitsValueInjective(Padded(DigitsValue(s), |s|), s);
  }

  // ---------------------------------------------------------------------
  // ISO format
  // ---------------------------------------------------------------------

  /** `date.isoformat()`: "YYYY-MM-DD", every part zero-padded. */
  function IsoFormat(d: Date): (s: string)
    requires ValidDate(d)
    ensures |s| == 10
  {
    Padded(d.year, 4) + "-" + Padded(d.month, 2) + "-" + Padded(d.day, 2)
  }

  /** Four digits, '-', two digits, '-', two digits. */
  predicate IsIsoShape(s: string) {
    && |s| == 10 && s[4] == '-' && s[7] == '-'
    && AllDigits(s[..4]) && AllDigits(s[5..7]) && AllDigits(s[8..])
  }

  /**
   * `date.fromisoformat(s)` on the "YYYY-MM-DD" form; `None` where Python raises
   * `ValueError` (wrong shape, or a day that does not exist such as "2026-02-31").
   */
  function FromIsoFormat(s: string): (r: Option<Date>)
    ensures r.Some? ==> ValidDate(r.value)
  {
    if IsIsoShape(s) then
      var d := Date(DigitsValue(s[..4]), DigitsValue(s[5..7]), DigitsValue(s[8..]));
      if ValidDate(d) then Some(d) else None
    else
      None
  }

  lemma {:induction false} IsoPartsOfJoin(y: string, m: string, d: string)
    requires |y| == 4 && |m| == 2 && |d| == 2
    ensures var s := y + "-" + m + "-" + d;
      |s| == 10 && s[..4] == y && s[4] == '-' && s[5..7] == m && s[7] == '-' && s[8..] == d
  {
  }

  lemma {:induction false} JoinOfIsoParts(s: string)
    requires |s| == 10 && s[4] == '-' && s[7] == '-'
    ensures s == s[..4] + "-" + s[5..7] + "-" + s[8..]
  {
  }

  /** Reading back an ISO-formatted date gives the date. */
  lemma {:induction false} IsoFormatRoundTrip(d: Date)
    requires ValidDate(d)
    ensures FromIsoFormat(IsoFormat(d)) == Some(d)
  {
    var y, m, dd := Padded(d.year, 4), Padded(d.month, 2), Padded(d.day, 2);
    IsoPartsOfJoin(y, m, dd);
    assert IsoFormat(d) == y + "-" + m + "-" + dd;
  }

  /** A string `fromisoformat` accepts is the ISO format of the date it yields. */
  lemma {:induction false} FromIsoFormatRoundTrip(s: string)
    requires FromIsoFormat(s).Some?
    ensures IsoFormat(FromIsoFormat(s).value) == s
  {
    var y, m, dd := s[..4], s[5..7], s[8..];
    PaddedOfDigits(y);
    PaddedOfDigits(m);
    PaddedOfDigits(dd);
    JoinOfIsoParts(s);
  }

  // ---------------------------------------------------------------------
  // strftime
  // ---------------------------------------------------------------------

  /** `strftime("%Y-%m-%d")`; glibc writes "%Y" without zero padding. */
  function StrftimeYmd(d: Date): string
    requires ValidDate(d)
  {
    NatToString(d.year) + "-" + Padded(d.month, 2) + "-" + Padded(d.day, 2)
  }

  /** From year 1000 on, "%Y-%m-%d" and `isoformat()` agree. */
  lemma {:induction false} StrftimeYmdIsIso(d: Date)
    requires ValidDate(d) && d.year >= 1000
    ensures StrftimeYmd(d) == IsoFormat(d)
  {
    var t := NatToString(d.year);
    assert Pow10(3) == 1000 && Pow10(4) == 10000;
    NatToStringLength(d.year, 4);
    NatToStringLengthAtLeast(d.year, 3);
    NatToStringRoundTrip(d.year);
    DigitsValueInjective(t, Padded(d.year, 4));
  }

  /** `strftime("%Y-%m")`, the month label the filters compare against. */
  function StrftimeYm(d: Date): string
    requires ValidDate(d)
  {
    NatToString(d.year) + "-" + Padded(d.month, 2)
  }

  /** `strftime("%y-%m")`: two-digit year and month, the name of a filing folder such as "26-01". */
  function StrftimeShortYm(d: Date): (s: string)
    requires ValidDate(d)
    ensures |s| == 5 && s[2] == '-'
  {
    Padded(d.year % 100, 2) + "-" + Padded(d.month, 2)
  }

  // ---------------------------------------------------------------------
  // strptime
  // ---------------------------------------------------------------------

  /** The English full month names, in lower case. */
  const MonthNames: seq<string> := [
    "january", "february", "march", "april", "may", "june",
    "july", "august", "september", "october", "november", "december"]

  lemma MonthNamesDistinct()
    ensures forall i, j :: 0 <= i < j < 12 ==> MonthNames[i] != MonthNames[j]
  {
  }

  lemma MonthNamesLetters(k: int)
    requires 0 <= k < 12
    ensures MonthNames[k] != []
    ensures forall i :: 0 <= i < |MonthNames[k]| ==> 'a' <= MonthNames[k][i] <= 'z'
  {
  }

  function FindMonth(name: string, k: nat): (m: Option<int>)
    requires k <= 12
    ensures m.Some? ==> k < m.value <= 12 && MonthNames[m.value - 1] == name
    ensures m.None? ==> forall j :: k <= j < 12 ==> MonthNames[j] != name
    decreases 12 - k
  {
    if k == 12 then None
    else if MonthNames[k] == name then Some(k + 1)
    else FindMonth(name, k + 1)
  }

  /** "%B": a full English month name, in any letter case; its number 1-12. */
  function MonthFromName(name: string): (m: Option<int>)
    ensures m.Some? <==> Lower(name) in MonthNames
    ensures m.Some? ==> 1 <= m.value <= 12 && MonthNames[m.value - 1] == Lower(name)
  {
    FindMonth(Lower(name), 0)
  }

  /** "%d": one or two digits with a value from 1 to 31. */
  function DayFromText(t: string): (r: Option<int>)
    ensures r.Some? ==> 1 <= r.value <= 31
  {
    if 1 <= |t| <= 2 && AllDigits(t) && 1 <= DigitsValue(t) <= 31 then Some(DigitsValue(t)) else None
  }

  /** "%Y": exactly four digits. */
  function YearFromText(t: string): Option<int>
  {
    if |t| == 4 && AllDigits(t) then Some(DigitsValue(t)) else None
  }

  /** Assemble the parsed fields; `None` where `datetime` raises (year 0, a day past the month's end). */
  function MakeDate(year: Option<int>, month: Option<int>, day: Option<int>): (r: Option<Date>)
    ensures r.Some? ==> ValidDate(r.value)
  {
    if year.Some? && month.Some? && day.Some? && ValidDate(Date(year.value, month.value, day.value)) then
      Some(Date(year.value, month.value, day.value))
    else
      None
  }

  /** The last character of a word is ',' and something precedes it. */
  predicate EndsWithComma(w: string) {
    |w| >= 2 && w[|w| - 1] == ','
  }

  /**
   * `datetime.strptime(s, "%B %d, %Y")`: each space of the format matches a run of
   * whitespace, and the whole string must be consumed; `None` where Python raises.
   */
  function StrptimeMonthDayYear(s: string): (r: Option<Date>)
    ensures r.Some? ==> ValidDate(r.value)
  {
    if Strip(s) == s then MonthDayYearOfWords(Words(s)) else None
  }

  /** "%B %d, %Y" on the whitespace-separated fields: month, day with its comma, year. */
  function MonthDayYearOfWords(ws: seq<string>): (r: Option<Date>)
    ensures r.Some? ==> ValidDate(r.value)
  {
    if |ws| == 3 && EndsWithComma(ws[1]) then
      MakeDate(YearFromText(ws[2]), MonthFromName(ws[0]), DayFromText(ws[1][..|ws[1]| - 1]))
    else
      None
  }

  /** `datetime.strptime(s, "%d %B, %Y")`, as above. */
  function StrptimeDayMonthYear(s: string): (r: Option<Date>)
    ensures r.Some? ==> ValidDate(r.value)
  {
    if Strip(s) == s then DayMonthYearOfWords(Words(s)) else None
  }

  /** "%d %B, %Y" on the whitespace-separated fields: day, month with its comma, year. */
  function DayMonthYearOfWords(ws: seq<string>): (r: Option<Date>)
    ensures r.Some? ==> ValidDate(r.value)
  {
    if |ws| == 3 && EndsWithComma(ws[1]) then
      MakeDate(YearFromText(ws[2]), MonthFromName(ws[1][..|ws[1]| - 1]), DayFromText(ws[0]))
    else
      None
  }

  // ---------------------------------------------------------------------
  // Round trips of the month-name formats
  // ---------------------------------------------------------------------

  /** `name` is the full name of month `m` in some letter case ("January", "JANUARY", ...). */
  predicate IsMonthSpelling(name: string, m: int) {
    1 <= m <= 12 && Lower(name) == MonthNames[m - 1]
  }

  lemma {:induction false} MonthSpellingParses(name: string, m: int)
    requires IsMonthSpelling(name, m)
    ensures MonthFromName(name) == Some(m)
    ensures name != [] && NoSpace(name)
  {
    MonthNamesDistinct();
    MonthNamesLetters(m - 1);
    forall i | 0 <= i < |name|
      ensures !IsSpace(name[i])
    {
      assert LowerChar(name[i]) == MonthNames[m - 1][i];
      PrintableNotSpace(name[i]);
    }
  }

  /** A field followed by the ',' of the format. */
  lemma {:induction false} CommaField(t: string)
    requires t != [] && NoSpace(t)
    ensures NoSpace(t + ",") && EndsWithComma(t + ",") && (t + ",")[..|t + ","| - 1] == t
  {
    PrintableNotSpace(',');
  }

  lemma {:induction false} CommaAssoc(a: string, b: string, c: string)
    ensures a + " " + b + ", " + c == a + " " + (b + ",") + " " + c
  {
  }

  lemma {:induction false} ThreeWordsStrip(a: string, b: string, c: string)
    requires a != [] && NoSpace(a) && b != [] && NoSpace(b) && c != [] && NoSpace(c)
    ensures Strip(a + " " + b + " " + c) == a + " " + b + " " + c
  {
    var s := a + " " + b + " " + c;
    assert s[0] == a[0] && s[|s| - 1] == c[|c| - 1];
    StripOfUnspaced(s);
  }

  /**
   * Day `day` as a receipt prints it and "%d" reads it: zero-padded to two
   * digits ("08") or plain ("8").
   */
  function DayText(day: int, padded: bool): (t: string)
    requires 1 <= day <= 31
    ensures AllDigits(t) && 1 <= |t| <= 2 && DigitsValue(t) == day
  {
    if padded then Padded(day, 2)
    else
      NatToStringRoundTrip(day);
      NatToStringLength(day, 2);
      NatToString(day)
  }

  /** The day field, padded or not, is read back by "%d". */
  lemma {:induction false} DayField(day: int, padded: bool)
    requires 1 <= day <= 31
    ensures DayFromText(DayText(day, padded)) == Some(day)
  {
  }

  /** The year field that "%Y" writes is read back (years 1000 on). */
  lemma {:induction false} YearField(year: int)
    requires 1000 <= year <= 9999
    ensures YearFromText(Padded(year, 4)) == Some(year)
  {
  }

  /**
   * Parsing "%B %d, %Y" text written from a date (any letter case of the
   * month, the day padded or not, years 1000 on) gives the date back.
   */
  lemma {:induction false} MonthDayYearRoundTrip(d: Date, name: string, padded: bool)
    requires ValidDate(d) && d.year >= 1000 && IsMonthSpelling(name, d.month)
    ensures StrptimeMonthDayYear(name + " " + DayText(d.day, padded) + ", " + Padded(d.year, 4)) == Some(d)
  {
    var day, year := DayText(d.day, padded), Padded(d.year, 4);
    var field := day + ",";
    MonthSpellingParses(name, d.month);
    DigitsNoSpace(day);
    DigitsNoSpace(year);
    CommaField(day);
    assert MonthDayYearOfWords([name, field, year]) == Some(d) by {
      DayField(d.day, padded);
      YearField(d.year);
    }
    assert StrptimeMonthDayYear(name + " " + field + " " + year) == Some(d) by {
      WordsOfThree(name, field, year);
      ThreeWordsStrip(name, field, year);
    }
    CommaAssoc(name, day, year);
  }

  /** Parsing "%d %B, %Y" text written from a date (as above) gives the date back. */
  lemma {:induction false} DayMonthYearRoundTrip(d: Date, name: string, padded: bool)
    requires ValidDate(d) && d.year >= 1000 && IsMonthSpelling(name, d.month)
    ensures StrptimeDayMonthYear(DayText(d.day, padded) + " " + name + ", " + Padded(d.year, 4)) == Some(d)
  {
    var day, year := DayText(d.day, padded), Padded(d.year, 4);
    var field := name + ",";
    MonthSpellingParses(name, d.month);
    DigitsNoSpace(day);
    DigitsNoSpace(year);
    CommaField(name);
    assert DayMonthYearOfWords([day, field, year]) == Some(d) by {
      DayField(d.day, padded);
      YearField(d.year);
    }
    assert StrptimeDayMonthYear(day + " " + field + " " + year) == Some(d) by {
      WordsOfThree(day, field, year);
      ThreeWordsStrip(day, field, year);
    }
    CommaAssoc(day, name, year);
  }
}
