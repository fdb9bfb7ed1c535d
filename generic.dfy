// The last-resort parser for documents no vendor parser recognises
// (`extraction/parsers/generic.py`): it looks for any amount and date and
// marks the result as needing review.
module Generic {
  import opened Wrappers
  import opened Text
  import Dates
  import Vat
  import opened ParserBase

  /** `vendor_name`. */
  const VendorName: string := "Unknown"

  const Description: string := "Unknown document — needs manual review"

  /** The confidence of a generic parse, far below that of a vendor parser. */
  const Confidence: real := 0.3

  /**
   * The first-match capture groups of the searches `parse` makes: seven
   * amount patterns (a "Total"/"Amount"/"TOTAL" label followed by CHF or
   * Fr., by €, or by $; "$X paid"; and a bare €, CHF or $ amount), a
   * "DD/MM/YYYY" date, a "Month D, YYYY" date, and the number after an
   * "Invoice" or "Receipt" label, matched ignoring case.
   */
  datatype Regexes = Regexes(
    totalChf: string -> Option<AmountText>,
    totalEur: string -> Option<AmountText>,
    totalUsd: string -> Option<AmountText>,
    paidUsd: string -> Option<AmountText>,
    anyEur: string -> Option<AmountText>,
    anyChf: string -> Option<AmountText>,
    anyUsd: string -> Option<AmountText>,
    dmyDate: string -> Option<DmyText>,
    longDate: string -> Option<string>,
    invoiceNumber: string -> Option<string>)

  /** A search for an amount, and the currency an amount it finds is in. */
  type AmountPattern = (string -> Option<AmountText>, string)

  /** The amount patterns in the order they are tried, each with its currency. */
  function AmountPatterns(rx: Regexes): (ps: seq<AmountPattern>)
    ensures |ps| == 7
  {
    [(rx.totalChf, "CHF"), (rx.totalEur, "EUR"), (rx.totalUsd, "USD"), (rx.paidUsd, "USD"),
     (rx.anyEur, "EUR"), (rx.anyChf, "CHF"), (rx.anyUsd, "USD")]
  }

  /** `can_parse`: the last resort accepts every text. */
  function CanParse(text: string): (b: bool)
    ensures b
  {
    true
  }

  /**
   * The amount of the first pattern that matches, with that pattern's
   * currency; None when none does.
   */
  function FirstAmount(ps: seq<AmountPattern>, text: string): (r: Option<(AmountText, string)>)
    ensures r.None? <==> forall k :: 0 <= k < |ps| ==> ps[k].0(text).None?
    ensures r.Some? ==> exists k :: 0 <= k < |ps| && ps[k].0(text) == Some(r.value.0) && ps[k].1 == r.value.1
                                    && forall j :: 0 <= j < k ==> ps[j].0(text).None?
    decreases |ps|
  {
    if ps == [] then None
    else
      var m := ps[0].0(text);
      if m.Some? then
        Some((m.value, ps[0].1))
      else
        var rest := FirstAmount(ps[1..], text);
        assert forall k :: 1 <= k < |ps| ==> ps[k] == ps[1..][k - 1];
        if rest.Some? then
          var k :| 0 <= k < |ps[1..]| && ps[1..][k].0(text) == Some(rest.value.0) && ps[1..][k].1 == rest.value.1
                  && forall j :: 0 <= j < k ==> ps[1..][j].0(text).None?;
          assert ps[k + 1].0(text) == Some(rest.value.0);
          rest
        else
          rest
  }

  /** The date: a "DD/MM/YYYY" date reordered, else a "Month D, YYYY" date, else "". */
  function DateOf(text: string, rx: Regexes): string
  {
    if rx.dmyDate(text).Some? then ReorderDmy(rx.dmyDate(text).value)
    else LongDate(rx.longDate(text))
  }

  /** The result `parse` returns: None when no amount, or only a zero amount, is found. */
  function Spec(text: string, rx: Regexes): Option<Draft>
  {
    var found := FirstAmount(AmountPatterns(rx), text);
    var gross := if found.Some? then AmountValue(found.value.0) else 0.0;
    if gross == 0.0 then None
    else
      var invoice := rx.invoiceNumber(text);
      Some(NewParseResult().(
        vendor := VendorName,
        invoiceNumber := if invoice.Some? then invoice.value else "",
        date := DateOf(text, rx),
        description := Description,
        amountGross := gross,
        amountNet := gross,
        currency := found.value.1,
        confidence := Confidence))
  }

  /**
   * `parse`: tries the amount patterns in order and stops at the first
   * that matches; gives up when no amount other than zero was found, and
   * otherwise looks for a date and an invoice number.
   */
  method Parse(text: string, rx: Regexes) returns (r: Option<Draft>)
    ensures r == Spec(text, rx)
  {
    var amountGross, amountNet, currency := 0.0, 0.0, "USD";
    var patterns := AmountPatterns(rx);
    ghost var found := FirstAmount(patterns, text);
    var i := 0;
    while i < |patterns|
      invariant 0 <= i <= |patterns|
      invariant FirstAmount(patterns[i..], text) == found
      invariant amountGross == 0.0 && amountNet == 0.0 && currency == "USD"
      decreases |patterns| - i
    {
      var m := patterns[i].0(text);
      if m.Some? {
        amountGross := AmountValue(m.value);
        amountNet := amountGross;
        currency := patterns[i].1;
        assert found == Some((m.value, currency));
        break;
      }
      assert patterns[i..][1..] == patterns[i + 1..];
      i := i + 1;
    }
    assert i == |patterns| ==> found.None?;
    assert found.Some? ==> amountGross == AmountValue(found.value.0) && currency == found.value.1;
    assert found.None? ==> amountGross == 0.0;
    if amountGross == 0.0 {
      return None;
    }
    var date := "";
    var d := rx.dmyDate(text);
    if d.Some? {
      date := ReorderDmy(d.value);
    } else {
      date := LongDate(rx.longDate(text));
    }
    var invoiceNumber := "";
    var inv := rx.invoiceNumber(text);
    if inv.Some? {
      invoiceNumber := inv.value;
    }
    r := Some(NewParseResult().(
      vendor := VendorName, invoiceNumber := invoiceNumber, date := date,
      description := Description, amountGross := amountGross, amountNet := amountNet,
      currency := currency, confidence := Confidence));
  }

  /**
   * The parser gives up exactly when no amount pattern matches or the first
   * amount found is zero.
   */
  lemma GivesUp(text: string, rx: Regexes)
    ensures var found := FirstAmount(AmountPatterns(rx), text);
      Spec(text, rx).None? <==> found.None? || AmountValue(found.value.0) == 0.0
  {
  }

  /**
   * A result names the unknown vendor with confidence 0.3 and the review
   * description, carries no VAT and no account, and has net equal to a
   * positive gross in whole cents, in CHF, EUR or USD.
   */
  lemma Accepted(text: string, rx: Regexes)
    requires Spec(text, rx).Some?
    ensures var d := Spec(text, rx).value;
      && d.vendor == "Unknown" && d.confidence == 0.3 && d.description == Description
      && d.vatRate == 0.0 && d.vatAmount == 0.0 && d.categoryAccount == None && d.vatNumber == ""
      && d.amountNet == d.amountGross && d.amountGross > 0.0 && Vat.IsCents(d.amountGross)
      && d.currency in {"CHF", "EUR", "USD"}
  {
    FoundCurrency(text, rx);
  }

  lemma FoundCurrency(text: string, rx: Regexes)
    requires FirstAmount(AmountPatterns(rx), text).Some?
    ensures FirstAmount(AmountPatterns(rx), text).value.1 in {"CHF", "EUR", "USD"}
  {
    var ps := AmountPatterns(rx);
    var found := FirstAmount(ps, text);
    var k :| 0 <= k < |ps| && ps[k].0(text) == Some(found.value.0) && ps[k].1 == found.value.1;
  }

  /**
   * The patterns are tried in order: an amount labelled "Total ... CHF" wins
   * over every other amount in the text, and a bare dollar amount is used
   * only when no other pattern matches.
   */
  lemma LabelledChfFirst(text: string, rx: Regexes)
    requires rx.totalChf(text).Some? && AmountValue(rx.totalChf(text).value) != 0.0
    ensures Spec(text, rx).Some?
    ensures Spec(text, rx).value.currency == "CHF"
    ensures Spec(text, rx).value.amountGross == AmountValue(rx.totalChf(text).value)
  {
  }

  lemma BareDollarLast(text: string, rx: Regexes)
    requires forall k :: 0 <= k < 6 ==> AmountPatterns(rx)[k].0(text).None?
    requires rx.anyUsd(text).Some? && AmountValue(rx.anyUsd(text).value) != 0.0
    ensures Spec(text, rx).Some?
    ensures Spec(text, rx).value.currency == "USD"
    ensures Spec(text, rx).value.amountGross == AmountValue(rx.anyUsd(text).value)
  {
    var ps := AmountPatterns(rx);
    var found := FirstAmount(ps, text);
    var k :| 0 <= k < |ps| && ps[k].0(text) == Some(found.value.0) && ps[k].1 == found.value.1
             && forall j :: 0 <= j < k ==> ps[j].0(text).None?;
    assert k == 6;
  }

  /**
   * A "DD/MM/YYYY" date is preferred to a "Month D, YYYY" one; a printed
   * calendar date reads back as that date.
   */
  lemma DatePreference(text: string, rx: Regexes, d: Dates.Date)
    requires Spec(text, rx).Some? && Dates.ValidDate(d)
    requires rx.dmyDate(text) == Some(DmyTextOf(d))
    ensures Spec(text, rx).value.date == Dates.IsoFormat(d)
  {
    ReorderDmyRoundTrip(d);
  }

  lemma LongDateFallback(text: string, rx: Regexes, d: Dates.Date, name: string, padded: bool)
    requires Spec(text, rx).Some? && rx.dmyDate(text).None?
    requires Dates.ValidDate(d) && d.year >= 1000 && Dates.IsMonthSpelling(name, d.month)
    requires rx.longDate(text) == Some(LongDateText(d, name, padded))
    ensures Spec(text, rx).value.date == Dates.IsoFormat(d)
  {
    LongDateRoundTrip(d, name, padded);
  }
}
