// The intermediate parse result shared by the vendor parsers
// (`extraction/parsers/base.py`), and the capture-group shapes and
// conversions the parsers apply to regular-expression matches.
//
// A regular-expression search is not modelled: every parser receives, for
// each of its patterns, a function from the document text to the optional
// capture groups of the first match. The shape a group is guaranteed to have
// by its pattern (for example `[0-9,]+\.\d{2}` for an amount) is a subset
// type, so the conversions below need no precondition of their own.
module ParserBase {
  import opened Wrappers
  import opened Text
  import Dates
  import Vat

  /**
   * `ParseResult`: the fields a parser fills in one at a time. The object a
   * parser fills is fresh and nothing else refers to it until it is
   * returned, so it is a value here: a parser holds the fields it assigns
   * in local variables, starting from the defaults below, and builds the
   * result from them when it returns.
   */
  datatype Draft = Draft(
    vendor: string,
    vendorCountry: string,
    invoiceNumber: string,
    receiptNumber: string,
    date: string,
    period: string,
    description: string,
    amountGross: real,
    amountNet: real,
    currency: string,
    vatRate: real,
    vatAmount: real,
    vatNumber: string,
    categoryAccount: Option<int>,
    categoryName: string,
    confidence: real)

  /**
   * `ParseResult()`: every text field and the date empty, every amount and
   * rate zero, the currency USD, no category and full confidence.
   */
  function NewParseResult(): (d: Draft)
    ensures d.vendor == "" && d.vendorCountry == "" && d.invoiceNumber == "" && d.receiptNumber == ""
    ensures d.date == "" && d.period == "" && d.description == "" && d.vatNumber == "" && d.categoryName == ""
    ensures d.amountGross == 0.0 && d.amountNet == 0.0 && d.vatRate == 0.0 && d.vatAmount == 0.0
    ensures d.currency == "USD" && d.categoryAccount == None && d.confidence == 1.0
  {
    Draft("", "", "", "", "", "", "", 0.0, 0.0, "USD", 0.0, 0.0, "", None, "", 1.0)
  }

  /**
   * `text.replace("\x00", " ")`: the text some parsers search for their tax
   * line, since PDF extraction can leave NUL characters in it.
   */
  function NulsToSpaces(text: string): (c: string)
    ensures |c| == |text| && '\0' !in c
    ensures forall i :: 0 <= i < |text| && text[i] != '\0' ==> c[i] == text[i]
  {
    ReplaceChar(text, '\0', ' ')
  }

  // ---------------------------------------------------------------------
  // Amounts: `Decimal(group.replace(",", ""))` on `[0-9,]+\.\d{2}`
  // ---------------------------------------------------------------------

  /** Digits and thousands commas, a point, then exactly two digits. */
  predicate IsAmountText(s: string)
  {
    && |s| >= 4
    && s[|s| - 3] == '.'
    && IsDigit(s[|s| - 2]) && IsDigit(s[|s| - 1])
    && forall i :: 0 <= i < |s| - 3 ==> IsDigit(s[i]) || s[i] == ','
  }

  type AmountText = s: string | IsAmountText(s) witness "0.00"

  /** The digits before the decimal point, thousands commas dropped. */
  function WholeDigits(s: AmountText): (d: string)
    ensures AllDigits(d)
  {
    var d := RemoveChar(s[..|s| - 3], ',');
    forall i | 0 <= i < |d|
      ensures IsDigit(d[i])
    {
      assert d[i] in multiset(d);
      assert d[i] in multiset(s[..|s| - 3]);
    }
    d
  }

  /** The two digits after the decimal point, as a number of cents. */
  function CentDigits(s: AmountText): (c: nat)
    ensures c < 100
  {
    var t := s[|s| - 2..];
    assert AllDigits(t);
    DigitValue(t[0]) * 10 + DigitValue(t[1])
  }

  lemma DotIndexAfterDigits(d: string, c: string)
    requires AllDigits(d) && AllDigits(c)
    ensures DotIndex(d + "." + c) == |d|
  {
    var s := d + "." + c;
    assert s[|d|] == '.';
    assert forall i :: 0 <= i < |d| ==> s[i] == d[i];
  }

  lemma TwoDigitsValue(t: string)
    requires |t| == 2 && AllDigits(t)
    ensures DigitsValue(t) == DigitValue(t[0]) * 10 + DigitValue(t[1])
  {
    assert t[..1][..0] == [];
    assert DigitsValue(t[..1]) == DigitValue(t[0]);
  }

  /** Dropping the thousands commas leaves the whole digits, the point and the cents. */
  lemma AmountWithoutCommas(s: AmountText)
    ensures RemoveChar(s, ',') == WholeDigits(s) + "." + s[|s| - 2..]
  {
    var whole, cents := s[..|s| - 3], s[|s| - 2..];
    assert s == whole + ("." + cents);
    assert IsDigit(cents[0]) && IsDigit(cents[1]);
    CommasBeforePoint(whole, cents);
  }

  lemma CommasBeforePoint(whole: string, cents: string)
    requires |cents| == 2 && IsDigit(cents[0]) && IsDigit(cents[1])
    ensures RemoveChar(whole + ("." + cents), ',') == RemoveChar(whole, ',') + "." + cents
  {
    var tail := "." + cents;
    assert ',' !in tail;
    RemoveCharAppend(whole, tail, ',');
    RemoveCharAbsent(tail, ',');
  }

  /** The text "w.cc" splits at its point into the whole digits and the cents. */
  lemma CentsTextShape(w: string, cents: string)
    requires AllDigits(w) && |cents| == 2 && AllDigits(cents)
    ensures IsDecimalText(w + "." + cents)
    ensures DotIndex(w + "." + cents) == |w|
    ensures (w + "." + cents)[..|w|] == w && (w + "." + cents)[|w| + 1..] == cents
  {
    DotIndexAfterDigits(w, cents);
    var t := w + "." + cents;
    assert t[..|w|] == w;
    assert t[|w| + 1..] == cents;
  }

  /** `Decimal("w.cc")` is the whole digits plus the two-digit cents over 100. */
  lemma DecimalOfCents(w: string, cents: string)
    requires AllDigits(w) && |cents| == 2 && AllDigits(cents)
    ensures IsDecimalText(w + "." + cents)
    ensures DecimalValue(w + "." + cents)
         == DigitsValue(w) as real + (DigitValue(cents[0]) * 10 + DigitValue(cents[1])) as real / 100.0
  {
    CentsTextShape(w, cents);
    var t := w + "." + cents;
    assert |t| - |w| - 1 == 2;
    assert Pow10(2) == 100 by {
      assert Pow10(1) == 10;
    }
    var W, C := DigitsValue(w) as real, DigitsValue(cents) as real;
    assert DecimalValue(t) == W + C / 100.0;
    TwoDigitsValue(cents);
  }

  /** A whole number plus a number of cents below 100, over 100, is whole cents. */
  lemma CentsSumIsCents(w: nat, c: nat)
    ensures Vat.IsCents(w as real + c as real / 100.0)
  {
    var v := w as real + c as real / 100.0;
    var n := w * 100 + c;
    assert (c as real / 100.0) * 100.0 == c as real;
    assert v * 100.0 == w as real * 100.0 + (c as real / 100.0) * 100.0;
    assert w as real * 100.0 == (w * 100) as real;
    assert v * 100.0 == n as real;
    assert (n as real).Floor == n;
  }

  /**
   * `Decimal(s.replace(",", ""))`: the whole part is the digits with the
   * thousands commas dropped, plus the two digits of cents; never negative,
   * always a whole number of cents.
   */
  function AmountValue(s: AmountText): (v: real)
    ensures v == DigitsValue(WholeDigits(s)) as real + CentDigits(s) as real / 100.0
    ensures v >= 0.0 && Vat.IsCents(v)
  {
    AmountWithoutCommas(s);
    DecimalOfCents(WholeDigits(s), s[|s| - 2..]);
    CentsSumIsCents(DigitsValue(WholeDigits(s)), CentDigits(s));
    DecimalValue(RemoveChar(s, ','))
  }

  /** An amount with thousands separators reads as the number without them. */
  lemma AmountValueExample()
    ensures IsAmountText("1,234.56") && AmountValue("1,234.56") == 1234.56
  {
    var s: AmountText := "1,234.56";
    assert WholeDigits(s) == "1234" by {
      assert s[..|s| - 3] == "1,234";
      assert RemoveChar("1,234", ',') == "1234";
    }
    assert DigitsValue("1234") == 1234 by {
      assert "1234"[..3] == "123" && "123"[..2] == "12" && "12"[..1] == "1" && "1"[..0] == "";
    }
  }

  // ---------------------------------------------------------------------
  // Rates: `Decimal(group)` on `\d+\.?\d*`
  // ---------------------------------------------------------------------

  /** At least one digit, then an optional point and more digits. */
  predicate IsRateText(s: string)
  {
    s != [] && IsDigit(s[0]) && IsDecimalText(s)
  }

  type RateText = s: string | IsRateText(s) witness "0"

  /** `Decimal(s)` on a rate: never negative. */
  function RateValue(s: RateText): (v: real)
    ensures v >= 0.0
    ensures DotIndex(s) == |s| ==> v == DigitsValue(s) as real
  {
    var k := DotIndex(s);
    assert s[..k] == s ==> k == |s|;
    DecimalValue(s)
  }

  // ---------------------------------------------------------------------
  // Dates given as digits and slashes
  // ---------------------------------------------------------------------

  /** `\d{2}/\d{2}/\d{4}`. */
  predicate IsDmyText(s: string)
  {
    && |s| == 10 && s[2] == '/' && s[5] == '/'
    && AllDigits(s[..2]) && AllDigits(s[3..5]) && AllDigits(s[6..])
  }

  type DmyText = s: string | IsDmyText(s) witness "01/01/2000"

  lemma SplitDmy(s: DmyText)
    ensures SplitOn(s, '/') == [s[..2], s[3..5], s[6..]]
  {
    assert s == s[..2] + ['/'] + (s[3..5] + ['/'] + s[6..]);
    assert '/' !in s[..2] && '/' !in s[3..5] && '/' !in s[6..] by {
      DigitsNoSlash(s[..2]);
      DigitsNoSlash(s[3..5]);
      DigitsNoSlash(s[6..]);
    }
    SplitOnPiece(s[..2], '/', s[3..5] + ['/'] + s[6..]);
    SplitOnPiece(s[3..5], '/', s[6..]);
    SplitOnNoSep(s[6..], '/');
  }

  lemma DigitsNoSlash(s: string)
    requires AllDigits(s)
    ensures '/' !in s
  {
  }

  /**
   * `parts = s.split("/")` then `f"{parts[2]}-{parts[1]}-{parts[0]}"`:
   * day/month/year becomes year-month-day, the digits kept as they are.
   */
  function ReorderDmy(s: DmyText): (r: string)
    ensures r == s[6..] + "-" + s[3..5] + "-" + s[..2]
  {
    var parts := SplitOn(s, '/');
    SplitDmy(s);
    parts[2] + "-" + parts[1] + "-" + parts[0]
  }

  /**
   * The reordered text is accepted by `fromisoformat` exactly when the day,
   * month and year read from it form a calendar date; no check is made
   * before that.
   */
  lemma ReorderDmyIso(s: DmyText)
    ensures Dates.IsIsoShape(ReorderDmy(s))
    ensures Dates.FromIsoFormat(ReorderDmy(s))
         == (var d := Dates.Date(DigitsValue(s[6..]), DigitsValue(s[3..5]), DigitsValue(s[..2]));
             if Dates.ValidDate(d) then Some(d) else None)
  {
    var r := ReorderDmy(s);
    Dates.IsoPartsOfJoin(s[6..], s[3..5], s[..2]);
  }

  lemma DmyPartsOfJoin(d: string, m: string, y: string)
    requires |d| == 2 && |m| == 2 && |y| == 4
    ensures var s := d + "/" + m + "/" + y;
      |s| == 10 && s[..2] == d && s[2] == '/' && s[3..5] == m && s[5] == '/' && s[6..] == y
  {
  }

  /** How an invoice prints date `d` as "DD/MM/YYYY". */
  function DmyTextOf(d: Dates.Date): (s: DmyText)
    requires Dates.ValidDate(d)
  {
    var dd, mm, yyyy := Dates.Padded(d.day, 2), Dates.Padded(d.month, 2), Dates.Padded(d.year, 4);
    DmyPartsOfJoin(dd, mm, yyyy);
    dd + "/" + mm + "/" + yyyy
  }

  /** A date printed "DD/MM/YYYY" and reordered reads back as that date. */
  lemma ReorderDmyRoundTrip(d: Dates.Date)
    requires Dates.ValidDate(d)
    ensures ReorderDmy(DmyTextOf(d)) == Dates.IsoFormat(d)
    ensures Dates.FromIsoFormat(ReorderDmy(DmyTextOf(d))) == Some(d)
  {
    var dd, mm, yyyy := Dates.Padded(d.day, 2), Dates.Padded(d.month, 2), Dates.Padded(d.year, 4);
    DmyPartsOfJoin(dd, mm, yyyy);
    Dates.IsoFormatRoundTrip(d);
  }

  /** A 31st of February is reordered but then rejected by `fromisoformat`. */
  lemma ReorderDmyNonCalendarDate(s: DmyText)
    requires s[..2] == "31" && s[3..5] == "02"
    ensures ReorderDmy(s) == s[6..] + "-02-31"
    ensures Dates.FromIsoFormat(ReorderDmy(s)) == None
  {
    ReorderDmyIso(s);
    TwoDigitsValue(s[3..5]);
    TwoDigitsValue(s[..2]);
  }

  /** `\d{1,2}/\d{1,2}/\d{4}`, as month/day/year: its three pieces between slashes. */
  predicate IsMdyText(s: string)
  {
    var p := SplitOn(s, '/');
    && |p| == 3
    && 1 <= |p[0]| <= 2 && 1 <= |p[1]| <= 2 && |p[2]| == 4
    && AllDigits(p[0]) && AllDigits(p[1]) && AllDigits(p[2])
  }

  type MdyText = s: string | IsMdyText(s) witness SampleMdy()

  /** "1/1/2000", a date in the month/day/year form. */
  function SampleMdy(): (s: string)
    ensures IsMdyText(s)
  {
    MdyOfParts("1", "1", "2000");
    "1" + "/" + "1" + "/" + "2000"
  }

  /**
   * `parts = s.split("/")` then
   * `f"{parts[2]}-{parts[0].zfill(2)}-{parts[1].zfill(2)}"`.
   */
  function ReorderMdy(s: MdyText): string
  {
    var parts := SplitOn(s, '/');
    parts[2] + "-" + ZFill(parts[0], 2) + "-" + ZFill(parts[1], 2)
  }

  /**
   * "M/D/YYYY" becomes "YYYY-MM-DD": the year first, then month and day
   * zero-padded to two digits.
   */
  lemma ReorderMdyOfParts(m: string, d: string, y: string)
    requires 1 <= |m| <= 2 && 1 <= |d| <= 2 && |y| == 4
    requires AllDigits(m) && AllDigits(d) && AllDigits(y)
    ensures IsMdyText(m + "/" + d + "/" + y)
    ensures ReorderMdy(m + "/" + d + "/" + y) == y + "-" + ZFill(m, 2) + "-" + ZFill(d, 2)
  {
    MdyOfParts(m, d, y);
  }

  /** "M/D/YYYY" splits at its slashes into the month, the day and the year. */
  lemma MdyOfParts(m: string, d: string, y: string)
    requires 1 <= |m| <= 2 && 1 <= |d| <= 2 && |y| == 4
    requires AllDigits(m) && AllDigits(d) && AllDigits(y)
    ensures SplitOn(m + "/" + d + "/" + y, '/') == [m, d, y]
    ensures IsMdyText(m + "/" + d + "/" + y)
  {
    var s := m + "/" + d + "/" + y;
    DigitsNoSlash(m);
    DigitsNoSlash(d);
    DigitsNoSlash(y);
    assert s == m + ['/'] + (d + ['/'] + y);
    SplitOnPiece(m, '/', d + ['/'] + y);
    SplitOnPiece(d, '/', y);
    SplitOnNoSep(y, '/');
  }

  /**
   * The reordered text always has the ISO shape, and `fromisoformat` accepts
   * it exactly when the month, day and year it was written from form a
   * calendar date.
   */
  lemma ReorderMdyIso(s: MdyText)
    ensures Dates.IsIsoShape(ReorderMdy(s))
    ensures var p := SplitOn(s, '/');
      Dates.FromIsoFormat(ReorderMdy(s))
         == (var d := Dates.Date(DigitsValue(p[2]), DigitsValue(p[0]), DigitsValue(p[1]));
             if Dates.ValidDate(d) then Some(d) else None)
  {
    var p := SplitOn(s, '/');
    var m, d := ZFill(p[0], 2), ZFill(p[1], 2);
    ZFillKeepsValue(p[0], 2);
    ZFillKeepsValue(p[1], 2);
    Dates.IsoPartsOfJoin(p[2], m, d);
  }

  // ---------------------------------------------------------------------
  // Dates written "Month D, YYYY"
  // ---------------------------------------------------------------------

  /**
   * `datetime.strptime(g, "%B %d, %Y").strftime("%Y-%m-%d")` on a match
   * group: "" when nothing matched or `strptime` raised `ValueError`, which
   * the parsers swallow.
   */
  function LongDate(g: Option<string>): (iso: string)
    ensures iso == "" <==> g.None? || Dates.StrptimeMonthDayYear(g.value).None?
  {
    if g.None? then ""
    else match Dates.StrptimeMonthDayYear(g.value)
      case Some(d) => Dates.StrftimeYmd(d)
      case None => ""
  }

  /**
   * How a receipt prints date `d` with the month spelt `name` and the day
   * plain or zero-padded: "February 8, 2026" or "February 08, 2026".
   */
  function LongDateText(d: Dates.Date, name: string, padded: bool): string
    requires Dates.ValidDate(d)
  {
    name + " " + Dates.DayText(d.day, padded) + ", " + Dates.Padded(d.year, 4)
  }

  /** A date printed "Month D, YYYY" or "Month DD, YYYY" is read back as that date in ISO form. */
  lemma LongDateRoundTrip(d: Dates.Date, name: string, padded: bool)
    requires Dates.ValidDate(d) && d.year >= 1000 && Dates.IsMonthSpelling(name, d.month)
    ensures LongDate(Some(LongDateText(d, name, padded))) == Dates.IsoFormat(d)
  {
    Dates.MonthDayYearRoundTrip(d, name, padded);
    Dates.StrftimeYmdIsIso(d);
  }
}
