// The receipt parser for ElevenLabs subscriptions, billed through Stripe
// (`extraction/parsers/elevenlabs.py`).
module ElevenLabs {
  import opened Wrappers
  import opened Text
  import Dates
  import Vat
  import Categories
  import opened ParserBase

  /** `vendor_name`. */
  const VendorName: string := "ElevenLabs"

  const Account: int := 6820
  const AccountName: string := "Informatik-Dienstleistungen"

  /** The description written when no plan line is found. */
  const DefaultDescription: string := "ElevenLabs subscription"

  /** The plan names the description pattern accepts: `Creator|Starter|Scale|Enterprise`. */
  type PlanName = s: string | s in {"Creator", "Starter", "Scale", "Enterprise"} witness "Creator"

  /**
   * The first-match capture groups of the searches `parse` makes: invoice
   * and receipt numbers and the paid date as for the other Stripe receipts,
   * `CH VAT\s+(CHE[\s\d.]+\w+)`, the plan name of a line ending
   * "(per subscription)", the two period groups, the
   * "VAT - Switzerland" line (rate, taxed base, tax), the paid total and the
   * "Total excluding tax" amount.
   */
  datatype Regexes = Regexes(
    invoiceNumber: string -> Option<string>,
    receiptNumber: string -> Option<string>,
    datePaid: string -> Option<string>,
    vatNumber: string -> Option<string>,
    plan: string -> Option<PlanName>,
    period: string -> Option<(string, string)>,
    tax: string -> Option<(RateText, AmountText, AmountText)>,
    paidTotal: string -> Option<AmountText>,
    totalExcludingTax: string -> Option<AmountText>)

  /** `can_parse`: the text names the company or its domain. */
  function CanParse(text: string): (b: bool)
    ensures b <==> (exists i :: OccursAt(text, "Eleven Labs", i)) || (exists i :: OccursAt(text, "elevenlabs.io", i))
  {
    Contains(text, "Eleven Labs") || Contains(text, "elevenlabs.io")
  }

  /** The result `parse` returns. */
  function Spec(text: string, rx: Regexes): Draft
  {
    var invoice := rx.invoiceNumber(text);
    var receipt := rx.receiptNumber(text);
    var vatNumber := rx.vatNumber(text);
    var plan := rx.plan(text);
    var period := rx.period(text);
    var tax := rx.tax(NulsToSpaces(text));
    var total := rx.paidTotal(text);
    var excl := rx.totalExcludingTax(text);
    var vat := if tax.Some? then AmountValue(tax.value.2) else 0.0;
    var gross := if total.Some? then AmountValue(total.value) else 0.0;
    Draft(
      vendor := VendorName,
      vendorCountry := "US",
      invoiceNumber := if invoice.Some? then Strip(invoice.value) else "",
      receiptNumber := if receipt.Some? then CollapseWhitespace(receipt.value) else "",
      date := LongDate(rx.datePaid(text)),
      period := if period.Some? then period.value.0 + " - " + period.value.1 else "",
      description := if plan.Some? then "ElevenLabs " + plan.value + " plan" else DefaultDescription,
      amountGross := gross,
      amountNet := if excl.Some? then AmountValue(excl.value) else gross - vat,
      currency := "USD",
      vatRate := if tax.Some? then RateValue(tax.value.0) else 0.0,
      vatAmount := vat,
      vatNumber := if vatNumber.Some? then Strip(vatNumber.value) else "",
      categoryAccount := Some(Account),
      categoryName := AccountName,
      confidence := 1.0)
  }

  /** `parse`: assigns the fields one search at a time; it always returns a result. */
  method Parse(text: string, rx: Regexes) returns (r: Draft)
    ensures r == Spec(text, rx)
  {
    ghost var s := Spec(text, rx);
    var invoiceNumber, receiptNumber, date, vatNumber, period := "", "", "", "", "";
    var description, vatRate, vatAmount := "", 0.0, 0.0;
    var amountGross, amountNet := 0.0, 0.0;
    var m := rx.invoiceNumber(text);
    if m.Some? {
      invoiceNumber := Strip(m.value);
    }
    assert invoiceNumber == s.invoiceNumber;
    m := rx.receiptNumber(text);
    if m.Some? {
      receiptNumber := CollapseWhitespace(m.value);
    }
    assert receiptNumber == s.receiptNumber;
    date := LongDate(rx.datePaid(text));
    m := rx.vatNumber(text);
    if m.Some? {
      vatNumber := Strip(m.value);
    }
    assert vatNumber == s.vatNumber;
    var plan := rx.plan(text);
    if plan.Some? {
      description := "ElevenLabs " + plan.value + " plan";
    } else {
      description := DefaultDescription;
    }
    assert description == s.description;
    var p := rx.period(text);
    if p.Some? {
      period := p.value.0 + " - " + p.value.1;
    }
    assert period == s.period;
    var clean := NulsToSpaces(text);
    var t := rx.tax(clean);
    if t.Some? {
      vatRate := RateValue(t.value.0);
      vatAmount := AmountValue(t.value.2);
    }
    assert vatRate == s.vatRate && vatAmount == s.vatAmount;
    var total := rx.paidTotal(text);
    if total.Some? {
      amountGross := AmountValue(total.value);
    }
    assert amountGross == s.amountGross;
    var excl := rx.totalExcludingTax(text);
    if excl.Some? {
      amountNet := AmountValue(excl.value);
    } else {
      amountNet := amountGross - vatAmount;
    }
    assert amountNet == s.amountNet;
    r := NewParseResult().(
      vendor := VendorName, vendorCountry := "US", currency := "USD",
      categoryAccount := Some(Account), categoryName := AccountName,
      invoiceNumber := invoiceNumber, receiptNumber := receiptNumber, date := date,
      vatNumber := vatNumber, description := description, period := period,
      vatRate := vatRate, vatAmount := vatAmount,
      amountGross := amountGross, amountNet := amountNet);
  }

  /** The account the parser books to is in the catalogue under the name the parser writes. */
  lemma CatalogueAgrees()
    ensures Categories.InCatalogue(Account, AccountName)
  {
    Categories.ServicesAccount(Account, AccountName);
  }

  /**
   * Whatever the text, the result names ElevenLabs, a US vendor billing in
   * USD, booked to account 6820; a search that finds nothing leaves its
   * field empty.
   */
  lemma FixedFields(text: string, rx: Regexes)
    ensures var d := Spec(text, rx);
      && d.vendor == "ElevenLabs" && d.vendorCountry == "US" && d.currency == "USD"
      && d.categoryAccount == Some(6820) && d.categoryName == AccountName && d.confidence == 1.0
      && (rx.invoiceNumber(text).None? ==> d.invoiceNumber == "")
      && (rx.receiptNumber(text).None? ==> d.receiptNumber == "")
      && (rx.datePaid(text).None? ==> d.date == "")
      && (rx.vatNumber(text).None? ==> d.vatNumber == "")
      && (rx.period(text).None? ==> d.period == "")
  {
  }

  /**
   * VAT is left at its defaults, 0% and 0, unless the text with its NULs
   * turned into spaces has a "VAT - Switzerland" line; then it carries that
   * line's rate and tax amount. Net is the total excluding tax when there is
   * one, otherwise gross less VAT. All amounts are whole cents.
   */
  lemma Amounts(text: string, rx: Regexes)
    ensures var d, tax := Spec(text, rx), rx.tax(NulsToSpaces(text));
      && (tax.None? ==> d.vatRate == 0.0 && d.vatAmount == 0.0)
      && (tax.Some? ==> d.vatRate == RateValue(tax.value.0) && d.vatAmount == AmountValue(tax.value.2))
      && (rx.paidTotal(text).None? ==> d.amountGross == 0.0)
      && (rx.totalExcludingTax(text).Some? ==> d.amountNet == AmountValue(rx.totalExcludingTax(text).value))
      && (rx.totalExcludingTax(text).None? ==> d.amountNet + d.vatAmount == d.amountGross)
      && Vat.IsCents(d.amountGross) && Vat.IsCents(d.vatAmount) && Vat.IsCents(d.amountNet)
  {
    var d := Spec(text, rx);
    Vat.CentsDifference(d.amountGross, d.vatAmount);
  }

  /**
   * The description is the default exactly when no plan line is found, and
   * otherwise names the plan, as "Creator" gives "ElevenLabs Creator plan".
   */
  lemma Description(text: string, rx: Regexes)
    ensures Spec(text, rx).description == DefaultDescription <==> rx.plan(text).None?
    ensures rx.plan(text).Some? ==>
      var r, p := Spec(text, rx).description, rx.plan(text).value;
      |r| == |p| + 16 && r[..11] == "ElevenLabs " && r[11..11 + |p|] == p && r[11 + |p|..] == " plan"
  {
    if rx.plan(text).Some? {
      var r, p := Spec(text, rx).description, rx.plan(text).value;
      assert r == "ElevenLabs " + p + " plan";
      assert r[11] == p[0] != DefaultDescription[11];
    }
  }

  /** The receipt number is single-spaced and keeps the matched digits in order. */
  lemma ReceiptCollapsed(text: string, rx: Regexes)
    requires rx.receiptNumber(text).Some?
    ensures SingleSpaced(Spec(text, rx).receiptNumber)
    ensures NonSpace(Spec(text, rx).receiptNumber) == NonSpace(rx.receiptNumber(text).value)
  {
    CollapseWhitespaceSpec(rx.receiptNumber(text).value);
  }

  /** The Swiss VAT number is the match with only its surrounding whitespace cut off. */
  lemma VatNumberTrimmed(text: string, rx: Regexes)
    requires rx.vatNumber(text).Some?
    ensures TrimmedOf(Spec(text, rx).vatNumber, rx.vatNumber(text).value)
  {
    StripTrimmedOf(rx.vatNumber(text).value);
  }

  /** "Date paid March 3, 2026" gives the date "2026-03-03". */
  lemma DatePaid(text: string, rx: Regexes, d: Dates.Date, name: string, padded: bool)
    requires Dates.ValidDate(d) && d.year >= 1000 && Dates.IsMonthSpelling(name, d.month)
    requires rx.datePaid(text) == Some(LongDateText(d, name, padded))
    ensures Spec(text, rx).date == Dates.IsoFormat(d)
  {
    LongDateRoundTrip(d, name, padded);
  }
}
