// The receipt parser for Twilio, billed by Twilio Ireland Limited
// (`extraction/parsers/twilio.py`).
module Twilio {
  import opened Wrappers
  import opened Text
  import Dates
  import Vat
  import Categories
  import opened ParserBase

  /** `vendor_name`. */
  const VendorName: string := "Twilio"

  const Account: int := 6830
  const AccountName: string := "Telekommunikation"

  /**
   * The first-match capture groups of the searches `parse` makes:
   * `VAT Registration Number:\s*(\S+)`, the start and end of the billing
   * period line "Date 01 January - 31 January, 2026", the "Total Paid"
   * amount and `Account SID\s+(\S+)`.
   */
  datatype Regexes = Regexes(
    vatNumber: string -> Option<string>,
    period: string -> Option<(string, string)>,
    totalPaid: string -> Option<AmountText>,
    accountSid: string -> Option<string>)

  /** `can_parse`: the text names the company and is a receipt. */
  function CanParse(text: string): (b: bool)
    ensures b <==> (exists i :: OccursAt(text, "Twilio", i)) && (exists i :: OccursAt(text, "RECEIPT", i))
  {
    Contains(text, "Twilio") && Contains(text, "RECEIPT")
  }

  /**
   * `datetime.strptime(end.strip(), "%d %B, %Y").strftime("%Y-%m-%d")`, or
   * "" when `strptime` raises `ValueError`, which the parser swallows.
   */
  function EndDate(end: string): string
  {
    match Dates.StrptimeDayMonthYear(Strip(end))
    case Some(d) => Dates.StrftimeYmd(d)
    case None => ""
  }

  /** The result `parse` returns. */
  function Spec(text: string, rx: Regexes): Draft
  {
    var vatNumber := rx.vatNumber(text);
    var period := rx.period(text);
    var total := rx.totalPaid(text);
    var sid := rx.accountSid(text);
    var gross := if total.Some? then AmountValue(total.value) else 0.0;
    Draft(
      vendor := VendorName,
      vendorCountry := "IE",
      invoiceNumber := "",
      receiptNumber := if sid.Some? then sid.value else "",
      date := if period.Some? then EndDate(period.value.1) else "",
      period := if period.Some? then period.value.0 + " - " + period.value.1 else "",
      description := "Twilio API Services",
      amountGross := gross,
      amountNet := gross,
      currency := "USD",
      vatRate := 0.0,
      vatAmount := 0.0,
      vatNumber := if vatNumber.Some? then vatNumber.value else "",
      categoryAccount := Some(Account),
      categoryName := AccountName,
      confidence := 1.0)
  }

  /** `parse`: assigns the fields one search at a time; it always returns a result. */
  method Parse(text: string, rx: Regexes) returns (r: Draft)
    ensures r == Spec(text, rx)
  {
    ghost var s := Spec(text, rx);
    var vatNumber, period, date, receiptNumber := "", "", "", "";
    var amountGross, amountNet := 0.0, 0.0;
    var m := rx.vatNumber(text);
    if m.Some? {
      vatNumber := m.value;
    }
    assert vatNumber == s.vatNumber;
    var p := rx.period(text);
    if p.Some? {
      period := p.value.0 + " - " + p.value.1;
      date := EndDate(p.value.1);
    }
    assert period == s.period && date == s.date;
    var total := rx.totalPaid(text);
    if total.Some? {
      amountGross := AmountValue(total.value);
      amountNet := amountGross;
    }
    assert amountGross == s.amountGross && amountNet == s.amountNet;
    m := rx.accountSid(text);
    if m.Some? {
      receiptNumber := m.value;
    }
    assert receiptNumber == s.receiptNumber;
    r := NewParseResult().(
      vendor := VendorName, vendorCountry := "IE", currency := "USD",
      categoryAccount := Some(Account), categoryName := AccountName,
      description := "Twilio API Services", vatRate := 0.0, vatAmount := 0.0,
      vatNumber := vatNumber, period := period, date := date,
      amountGross := amountGross, amountNet := amountNet, receiptNumber := receiptNumber);
  }

  /** The account the parser books to is in the catalogue under the name the parser writes. */
  lemma CatalogueAgrees()
    ensures Categories.InCatalogue(Account, AccountName)
  {
    Categories.TelecomAccount(Account, AccountName);
  }

  /**
   * Whatever the text, the result names Twilio, an Irish vendor billing in
   * USD without Swiss VAT, booked to account 6830, with no invoice number;
   * the receipt number is the account SID. A search that finds nothing
   * leaves its field empty.
   */
  lemma FixedFields(text: string, rx: Regexes)
    ensures var d := Spec(text, rx);
      && d.vendor == "Twilio" && d.vendorCountry == "IE" && d.currency == "USD"
      && d.description == "Twilio API Services" && d.invoiceNumber == ""
      && d.vatRate == 0.0 && d.vatAmount == 0.0 && d.confidence == 1.0
      && d.categoryAccount == Some(6830) && d.categoryName == AccountName
      && (rx.vatNumber(text).None? ==> d.vatNumber == "")
      && (rx.accountSid(text).Some? ==> d.receiptNumber == rx.accountSid(text).value)
      && (rx.accountSid(text).None? ==> d.receiptNumber == "")
      && (rx.period(text).None? ==> d.date == "" && d.period == "")
  {
  }

  /**
   * Net always equals gross, the "Total Paid" amount in whole cents, or 0
   * when there is none.
   */
  lemma Amounts(text: string, rx: Regexes)
    ensures var d := Spec(text, rx);
      && d.amountNet == d.amountGross
      && d.amountGross >= 0.0 && Vat.IsCents(d.amountGross)
      && (rx.totalPaid(text).None? ==> d.amountGross == 0.0)
  {
  }

  /**
   * Without a period line there is neither period nor date. With one, the
   * period joins its two ends with " - ", and the date is the end of the
   * period: "Date 01 January - 31 January, 2026" gives "2026-01-31", and an
   * end day written "1 February, 2026" is read as well.
   */
  lemma PeriodAndDate(text: string, rx: Regexes, d: Dates.Date, name: string, padded: bool)
    requires Dates.ValidDate(d) && d.year >= 1000 && Dates.IsMonthSpelling(name, d.month)
    requires rx.period(text).Some?
    requires rx.period(text).value.1 == Dates.DayText(d.day, padded) + " " + name + ", " + Dates.Padded(d.year, 4)
    ensures Spec(text, rx).date == Dates.IsoFormat(d)
    ensures Spec(text, rx).period == rx.period(text).value.0 + " - " + rx.period(text).value.1
  {
    var end := rx.period(text).value.1;
    Dates.DayMonthYearRoundTrip(d, name, padded);
    assert Strip(end) == end;
    Dates.StrftimeYmdIsIso(d);
  }
}
