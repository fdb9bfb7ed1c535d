// The receipt parser for Anthropic's Claude plans, billed through Stripe
// (`extraction/parsers/anthropic.py`).
module Anthropic {
  import opened Wrappers
  import opened Text
  import Dates
  import Vat
  import Categories
  import opened ParserBase

  /** `vendor_name`. */
  const VendorName: string := "Anthropic"

  const Account: int := 6820
  const AccountName: string := "Informatik-Dienstleistungen"

  /** The description written when no plan line is found. */
  const DefaultDescription: string := "Anthropic API / Claude"

  /**
   * The first-match capture groups of the searches `parse` makes:
   * `Invoice number\s+(\S+\s+\d+)`, `Receipt number\s+([\d\s]+)`,
   * `Date paid\s+(\w+ \d{1,2}, \d{4})`, `(Max plan\s*-\s*\w+)`, the two
   * period groups, the tax line (rate, taxed base, tax), the paid total and
   * the subtotal.
   */
  datatype Regexes = Regexes(
    invoiceNumber: string -> Option<string>,
    receiptNumber: string -> Option<string>,
    datePaid: string -> Option<string>,
    plan: string -> Option<string>,
    period: string -> Option<(string, string)>,
    tax: string -> Option<(RateText, AmountText, AmountText)>,
    paidTotal: string -> Option<AmountText>,
    subtotal: string -> Option<AmountText>)

  /** `can_parse`: the text names the company and its domain. */
  function CanParse(text: string): (b: bool)
    ensures b <==> (exists i :: OccursAt(text, "Anthropic", i)) && (exists i :: OccursAt(text, "anthropic.com", i))
  {
    Contains(text, "Anthropic") && Contains(text, "anthropic.com")
  }

  /** The result `parse` returns. */
  function Spec(text: string, rx: Regexes): Draft
  {
    var invoice := rx.invoiceNumber(text);
    var receipt := rx.receiptNumber(text);
    var plan := rx.plan(text);
    var period := rx.period(text);
    var tax := rx.tax(NulsToSpaces(text));
    var total := rx.paidTotal(text);
    var subtotal := rx.subtotal(text);
    var vat := if tax.Some? then AmountValue(tax.value.2) else 0.0;
    var gross := if total.Some? then AmountValue(total.value) else 0.0;
    Draft(
      vendor := VendorName,
      vendorCountry := "US",
      invoiceNumber := if invoice.Some? then Strip(invoice.value) else "",
      receiptNumber := if receipt.Some? then CollapseWhitespace(receipt.value) else "",
      date := LongDate(rx.datePaid(text)),
      period := if period.Some? then period.value.0 + " - " + period.value.1 else "",
      description := if plan.Some? then "Claude " + Strip(plan.value) else DefaultDescription,
      amountGross := gross,
      amountNet := if subtotal.Some? then AmountValue(subtotal.value) else gross - vat,
      currency := "USD",
      vatRate := if tax.Some? then RateValue(tax.value.0) else 0.0,
      vatAmount := vat,
      vatNumber := "",
      categoryAccount := Some(Account),
      categoryName := AccountName,
      confidence := 1.0)
  }

  /** `parse`: assigns the fields one search at a time; it always returns a result. */
  method Parse(text: string, rx: Regexes) returns (r: Draft)
    ensures r == Spec(text, rx)
  {
    ghost var s := Spec(text, rx);
    var invoiceNumber, receiptNumber, date, period := "", "", "", "";
    var description, vatRate, vatAmount := "", 0.0, 0.0;
    var amountGross, amountNet := 0.0, 0.0;
    var m := rx.invoiceNumber(text);
    if m.Some? {
      invoiceNumber := Strip(m.value);
    }
    assert invoiceNumber == s.invoiceNumber;
    m := rx.receiptNumber(text);
    if m.Some? {
      receiptNumber := CollapseWhitespace(m.value);
    }
    assert receiptNumber == s.receiptNumber;
    date := LongDate(rx.datePaid(text));
    m := rx.plan(text);
    if m.Some? {
      description := "Claude " + Strip(m.value);
    } else {
      description := DefaultDescription;
    }
    assert description == s.description;
    var p := rx.period(text);
    if p.Some? {
      period := p.value.0 + " - " + p.value.1;
    }
    assert period == s.period;
    var clean := NulsToSpaces(text);
    var t := rx.tax(clean);
    if t.Some? {
      vatRate := RateValue(t.value.0);
      vatAmount := AmountValue(t.value.2);
    }
    assert vatRate == s.vatRate && vatAmount == s.vatAmount;
    var total := rx.paidTotal(text);
    if total.Some? {
      amountGross := AmountValue(total.value);
    }
    assert amountGross == s.amountGross;
    var sub := rx.subtotal(text);
    if sub.Some? {
      amountNet := AmountValue(sub.value);
    } else {
      amountNet := amountGross - vatAmount;
    }
    assert amountNet == s.amountNet;
    r := NewParseResult().(
      vendor := VendorName, vendorCountry := "US", currency := "USD",
      categoryAccount := Some(Account), categoryName := AccountName,
      invoiceNumber := invoiceNumber, receiptNumber := receiptNumber, date := date,
      description := description, period := period, vatRate := vatRate,
      vatAmount := vatAmount, amountGross := amountGross, amountNet := amountNet);
  }

  /** The account the parser books to is in the catalogue under the name the parser writes. */
  lemma CatalogueAgrees()
    ensures Categories.InCatalogue(Account, AccountName)
  {
    Categories.ServicesAccount(Account, AccountName);
  }

  /**
   * Whatever the text, the result names Anthropic, a US vendor billing in
   * USD, booked to account 6820, with no VAT number; a search that finds
   * nothing leaves its field empty.
   */
  lemma FixedFields(text: string, rx: Regexes)
    ensures var d := Spec(text, rx);
      && d.vendor == "Anthropic" && d.vendorCountry == "US" && d.currency == "USD"
      && d.categoryAccount == Some(6820) && d.categoryName == AccountName
      && d.vatNumber == "" && d.confidence == 1.0
      && (rx.invoiceNumber(text).None? ==> d.invoiceNumber == "")
      && (rx.receiptNumber(text).None? ==> d.receiptNumber == "")
      && (rx.datePaid(text).None? ==> d.date == "")
      && (rx.period(text).None? ==> d.period == "")
  {
  }

  /**
   * VAT is 0% and 0 unless the text, with its NULs turned into spaces, has a
   * tax line; then it carries that line's rate and tax amount. Net is the
   * subtotal when there is one, otherwise gross less VAT, so that net and
   * VAT add up to gross. All amounts are whole cents.
   */
  lemma Amounts(text: string, rx: Regexes)
    ensures var d, tax := Spec(text, rx), rx.tax(NulsToSpaces(text));
      && (tax.None? ==> d.vatRate == 0.0 && d.vatAmount == 0.0)
      && (tax.Some? ==> d.vatRate == RateValue(tax.value.0) && d.vatAmount == AmountValue(tax.value.2))
      && (rx.paidTotal(text).None? ==> d.amountGross == 0.0)
      && (rx.subtotal(text).Some? ==> d.amountNet == AmountValue(rx.subtotal(text).value))
      && (rx.subtotal(text).None? ==> d.amountNet + d.vatAmount == d.amountGross)
      && Vat.IsCents(d.amountGross) && Vat.IsCents(d.vatAmount) && Vat.IsCents(d.amountNet)
  {
    var d := Spec(text, rx);
    Vat.CentsDifference(d.amountGross, d.vatAmount);
  }

  /**
   * The description is the default exactly when no plan line is found;
   * otherwise it is "Claude " before the plan line with its surrounding
   * whitespace cut off, as "Max plan - 20x" gives "Claude Max plan - 20x".
   */
  lemma Description(text: string, rx: Regexes)
    ensures Spec(text, rx).description == DefaultDescription <==> rx.plan(text).None?
    ensures rx.plan(text).Some? ==>
      var r := Spec(text, rx).description;
      |r| >= 7 && r[..7] == "Claude " && TrimmedOf(r[7..], rx.plan(text).value)
  {
    if rx.plan(text).Some? {
      var g := rx.plan(text).value;
      StripTrimmedOf(g);
      var r := Spec(text, rx).description;
      assert r == "Claude " + Strip(g);
      assert r[7..] == Strip(g);
      assert r[0] == 'C' != DefaultDescription[0];
    }
  }

  /**
   * The receipt number is the matched digits with each run of whitespace,
   * line breaks included, turned into one space: single-spaced, and with
   * the same non-space characters in the same order.
   */
  lemma ReceiptCollapsed(text: string, rx: Regexes)
    requires rx.receiptNumber(text).Some?
    ensures SingleSpaced(Spec(text, rx).receiptNumber)
    ensures NonSpace(Spec(text, rx).receiptNumber) == NonSpace(rx.receiptNumber(text).value)
  {
    CollapseWhitespaceSpec(rx.receiptNumber(text).value);
  }

  /** "Date paid February 8, 2026" gives the date "2026-02-08". */
  lemma DatePaid(text: string, rx: Regexes, d: Dates.Date, name: string, padded: bool)
    requires Dates.ValidDate(d) && d.year >= 1000 && Dates.IsMonthSpelling(name, d.month)
    requires rx.datePaid(text) == Some(LongDateText(d, name, padded))
    ensures Spec(text, rx).date == Dates.IsoFormat(d)
  {
    LongDateRoundTrip(d, name, padded);
  }

  /**
   * NUL characters the PDF extractor leaves in the text never change the
   * VAT read: two texts that differ only where one has a NUL and the other
   * a space carry the same VAT rate and amount.
   */
  lemma TaxIgnoresNul(a: string, b: string, rx: Regexes)
    requires |a| == |b|
    requires forall i :: 0 <= i < |a| && a[i] != b[i] ==> a[i] in {'\0', ' '} && b[i] in {'\0', ' '}
    ensures Spec(a, rx).vatRate == Spec(b, rx).vatRate
    ensures Spec(a, rx).vatAmount == Spec(b, rx).vatAmount
  {
    assert NulsToSpaces(a) == NulsToSpaces(b);
  }
}
