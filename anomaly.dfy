// The receipt parser for Anomaly, the vendor of opencode credits
// (`extraction/parsers/anomaly.py`).
module Anomaly {
  import opened Wrappers
  import opened Text
  import Dates
  import Vat
  import Categories
  import opened ParserBase

  /** `vendor_name`. */
  const VendorName: string := "Anomaly"

  /** The catalogue account every Anomaly receipt is booked to, and the name written beside it. */
  const Account: int := 6820
  const AccountName: string := "Informatik-Dienstleistungen"

  /**
   * The first-match capture groups of the searches `parse` makes:
   * `Invoice number\s+(\S+\s+\d+)`, `Receipt number\s+([\d\s]+)`,
   * `Date paid\s+(\w+ \d{1,2}, \d{4})` and `\$([0-9,]+\.\d{2})\s+paid on`.
   */
  datatype Regexes = Regexes(
    invoiceNumber: string -> Option<string>,
    receiptNumber: string -> Option<string>,
    datePaid: string -> Option<string>,
    paidTotal: string -> Option<AmountText>)

  /** `can_parse`: the text names the company and its domain. */
  function CanParse(text: string): (b: bool)
    ensures b <==> (exists i :: OccursAt(text, "Anomaly", i)) && (exists i :: OccursAt(text, "anoma.ly", i))
  {
    Contains(text, "Anomaly") && Contains(text, "anoma.ly")
  }

  /** The result `parse` returns. */
  function Spec(text: string, rx: Regexes): Draft
  {
    var invoice := rx.invoiceNumber(text);
    var receipt := rx.receiptNumber(text);
    var total := rx.paidTotal(text);
    var gross := if total.Some? then AmountValue(total.value) else 0.0;
    Draft(
      vendor := VendorName,
      vendorCountry := "US",
      invoiceNumber := if invoice.Some? then Strip(invoice.value) else "",
      receiptNumber := if receipt.Some? then Strip(receipt.value) else "",
      date := LongDate(rx.datePaid(text)),
      period := "",
      description := "opencode credits",
      amountGross := gross,
      amountNet := gross,
      currency := "USD",
      vatRate := 0.0,
      vatAmount := 0.0,
      vatNumber := "",
      categoryAccount := Some(Account),
      categoryName := AccountName,
      confidence := 1.0)
  }

  /** `parse`: assigns the fields one search at a time; it always returns a result. */
  method Parse(text: string, rx: Regexes) returns (r: Draft)
    ensures r == Spec(text, rx)
  {
    var invoiceNumber, receiptNumber, date := "", "", "";
    var amountGross, amountNet := 0.0, 0.0;
    var m := rx.invoiceNumber(text);
    if m.Some? {
      invoiceNumber := Strip(m.value);
    }
    m := rx.receiptNumber(text);
    if m.Some? {
      receiptNumber := Strip(m.value);
    }
    date := LongDate(rx.datePaid(text));
    var total := rx.paidTotal(text);
    if total.Some? {
      amountGross := AmountValue(total.value);
      amountNet := amountGross;
    }
    r := NewParseResult().(
      vendor := VendorName, vendorCountry := "US", currency := "USD",
      categoryAccount := Some(Account), categoryName := AccountName,
      description := "opencode credits", vatRate := 0.0, vatAmount := 0.0,
      invoiceNumber := invoiceNumber, receiptNumber := receiptNumber, date := date,
      amountGross := amountGross, amountNet := amountNet);
  }

  /** The account the parser books to is in the catalogue under the name the parser writes. */
  lemma CatalogueAgrees()
    ensures Categories.InCatalogue(Account, AccountName)
  {
    Categories.ServicesAccount(Account, AccountName);
  }

  /**
   * Whatever the text, the result names Anomaly, a US vendor billing in USD
   * without VAT, booked to account 6820; a search that finds nothing leaves
   * its field empty.
   */
  lemma FixedFields(text: string, rx: Regexes)
    ensures var d := Spec(text, rx);
      && d.vendor == "Anomaly" && d.vendorCountry == "US" && d.currency == "USD"
      && d.description == "opencode credits" && d.period == "" && d.vatNumber == ""
      && d.vatRate == 0.0 && d.vatAmount == 0.0 && d.confidence == 1.0
      && d.categoryAccount == Some(6820) && d.categoryName == AccountName
      && (rx.invoiceNumber(text).None? ==> d.invoiceNumber == "")
      && (rx.receiptNumber(text).None? ==> d.receiptNumber == "")
      && (rx.datePaid(text).None? ==> d.date == "")
  {
  }

  /**
   * Gross is the "$X paid on" amount read without its thousands commas, a
   * whole number of cents, and 0 when there is none; net always equals gross.
   */
  lemma Amounts(text: string, rx: Regexes)
    ensures var d := Spec(text, rx);
      && d.amountNet == d.amountGross
      && d.amountGross >= 0.0 && Vat.IsCents(d.amountGross)
      && (rx.paidTotal(text).None? ==> d.amountGross == 0.0)
      && (rx.paidTotal(text).Some? ==>
            d.amountGross == DigitsValue(WholeDigits(rx.paidTotal(text).value)) as real
                             + CentDigits(rx.paidTotal(text).value) as real / 100.0)
  {
  }

  /**
   * The receipt number is the matched text with only its leading and
   * trailing whitespace cut off; whitespace inside it is kept.
   */
  lemma ReceiptTrimmed(text: string, rx: Regexes)
    requires rx.receiptNumber(text).Some?
    ensures TrimmedOf(Spec(text, rx).receiptNumber, rx.receiptNumber(text).value)
  {
    StripTrimmedOf(rx.receiptNumber(text).value);
  }

  /**
   * "Date paid January 22, 2026" gives the date "2026-01-22"; no date, or
   * one `strptime` rejects, leaves the date empty.
   */
  lemma DatePaid(text: string, rx: Regexes, d: Dates.Date, name: string, padded: bool)
    requires Dates.ValidDate(d) && d.year >= 1000 && Dates.IsMonthSpelling(name, d.month)
    requires rx.datePaid(text) == Some(LongDateText(d, name, padded))
    ensures Spec(text, rx).date == Dates.IsoFormat(d)
  {
    LongDateRoundTrip(d, name, padded);
  }
}
