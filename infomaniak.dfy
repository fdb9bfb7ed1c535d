// The invoice parser for Infomaniak, a Swiss hosting and kSuite provider
// (`extraction/parsers/infomaniak.py`).
module Infomaniak {
  import opened Wrappers
  import opened Text
  import Dates
  import Vat
  import Categories
  import opened ParserBase

  /** `vendor_name`. */
  const VendorName: string := "Infomaniak"

  const Account: int := 6850
  const AccountName: string := "Software-Abonnemente"

  /** The description written when no kSuite line is found. */
  const DefaultDescription: string := "Infomaniak services"

  /**
   * The first-match capture groups of the searches `parse` makes:
   * `VAT number:\s*(CHE[\s\-\d.]+)`, `Invoice\s+(\d+)`,
   * `Date\s+(\d{2}/\d{2}/\d{4})`, the two dates of the "from ... to ..."
   * order line, `kSuite\s*:\s*(\S+)`, the rate of `VAT\s+(\d+\.?\d*)%`, the
   * "Total CHF incl. VAT" and "Price CHF ex. VAT" amounts, and the amount
   * after a "VAT n%" label. The rate and the VAT amount are two separate
   * searches.
   */
  datatype Regexes = Regexes(
    vatNumber: string -> Option<string>,
    invoiceNumber: string -> Option<string>,
    date: string -> Option<DmyText>,
    period: string -> Option<(DmyText, DmyText)>,
    kSuite: string -> Option<string>,
    vatRate: string -> Option<RateText>,
    totalInclVat: string -> Option<AmountText>,
    priceExVat: string -> Option<AmountText>,
    vatAmount: string -> Option<AmountText>)

  /** `can_parse`: the text names the company. */
  function CanParse(text: string): (b: bool)
    ensures b <==> exists i :: OccursAt(text, "Infomaniak", i)
  {
    Contains(text, "Infomaniak")
  }

  /** The result `parse` returns. */
  function Spec(text: string, rx: Regexes): Draft
  {
    var vatNumber := rx.vatNumber(text);
    var invoice := rx.invoiceNumber(text);
    var date := rx.date(text);
    var period := rx.period(text);
    var kSuite := rx.kSuite(text);
    var rate := rx.vatRate(text);
    var gross := rx.totalInclVat(text);
    var net := rx.priceExVat(text);
    var vat := rx.vatAmount(text);
    Draft(
      vendor := VendorName,
      vendorCountry := "CH",
      invoiceNumber := if invoice.Some? then invoice.value else "",
      receiptNumber := "",
      date := if date.Some? then ReorderDmy(date.value) else "",
      period := if period.Some? then period.value.0 + " - " + period.value.1 else "",
      description := if kSuite.Some? then "kSuite (" + kSuite.value + ")" else DefaultDescription,
      amountGross := if gross.Some? then AmountValue(gross.value) else 0.0,
      amountNet := if net.Some? then AmountValue(net.value) else 0.0,
      currency := "CHF",
      vatRate := if rate.Some? then RateValue(rate.value) else 0.0,
      vatAmount := if vat.Some? then AmountValue(vat.value) else 0.0,
      vatNumber := if vatNumber.Some? then Strip(vatNumber.value) else "",
      categoryAccount := Some(Account),
      categoryName := AccountName,
      confidence := 1.0)
  }

  /** `parse`: assigns the fields one search at a time; it always returns a result. */
  method Parse(text: string, rx: Regexes) returns (r: Draft)
    ensures r == Spec(text, rx)
  {
    ghost var s := Spec(text, rx);
    var vatNumber, invoiceNumber, date, period, description := "", "", "", "", "";
    var vatRate, amountGross, amountNet, vatAmount := 0.0, 0.0, 0.0, 0.0;
    var m := rx.vatNumber(text);
    if m.Some? {
      vatNumber := Strip(m.value);
    }
    m := rx.invoiceNumber(text);
    if m.Some? {
      invoiceNumber := m.value;
    }
    assert vatNumber == s.vatNumber && invoiceNumber == s.invoiceNumber;
    var d := rx.date(text);
    if d.Some? {
      date := ReorderDmy(d.value);
    }
    assert date == s.date;
    var p := rx.period(text);
    if p.Some? {
      period := p.value.0 + " - " + p.value.1;
    }
    m := rx.kSuite(text);
    if m.Some? {
      description := "kSuite (" + m.value + ")";
    } else {
      description := DefaultDescription;
    }
    assert period == s.period && description == s.description;
    var rate := rx.vatRate(text);
    if rate.Some? {
      vatRate := RateValue(rate.value);
    }
    assert vatRate == s.vatRate;
    var a := rx.totalInclVat(text);
    if a.Some? {
      amountGross := AmountValue(a.value);
    }
    assert amountGross == s.amountGross;
    a := rx.priceExVat(text);
    if a.Some? {
      amountNet := AmountValue(a.value);
    }
    assert amountNet == s.amountNet;
    a := rx.vatAmount(text);
    if a.Some? {
      vatAmount := AmountValue(a.value);
    }
    assert vatAmount == s.vatAmount;
    r := NewParseResult().(
      vendor := VendorName, vendorCountry := "CH", currency := "CHF",
      categoryAccount := Some(Account), categoryName := AccountName,
      vatNumber := vatNumber, invoiceNumber := invoiceNumber, date := date,
      period := period, description := description, vatRate := vatRate,
      amountGross := amountGross, amountNet := amountNet, vatAmount := vatAmount);
  }

  /** The account the parser books to is in the catalogue under the name the parser writes. */
  lemma CatalogueAgrees()
    ensures Categories.InCatalogue(Account, AccountName)
  {
    Categories.SubscriptionsAccount(Account, AccountName);
  }

  /**
   * Whatever the text, the result names Infomaniak, a Swiss vendor billing
   * in CHF, booked to account 6850, with no receipt number; a search that
   * finds nothing leaves its field empty or zero. In particular a missing
   * net amount is not derived from gross and VAT, unlike the Stripe
   * receipts.
   */
  lemma FixedFields(text: string, rx: Regexes)
    ensures var d := Spec(text, rx);
      && d.vendor == "Infomaniak" && d.vendorCountry == "CH" && d.currency == "CHF"
      && d.categoryAccount == Some(6850) && d.categoryName == AccountName
      && d.receiptNumber == "" && d.confidence == 1.0
      && (rx.vatNumber(text).None? ==> d.vatNumber == "")
      && (rx.invoiceNumber(text).None? ==> d.invoiceNumber == "")
      && (rx.date(text).None? ==> d.date == "")
      && (rx.period(text).None? ==> d.period == "")
      && (rx.vatRate(text).None? ==> d.vatRate == 0.0)
      && (rx.totalInclVat(text).None? ==> d.amountGross == 0.0)
      && (rx.priceExVat(text).None? ==> d.amountNet == 0.0)
      && (rx.vatAmount(text).None? ==> d.vatAmount == 0.0)
  {
  }

  /** Every amount read is a non-negative whole number of cents. */
  lemma AmountsInCents(text: string, rx: Regexes)
    ensures var d := Spec(text, rx);
      && d.amountGross >= 0.0 && Vat.IsCents(d.amountGross)
      && d.amountNet >= 0.0 && Vat.IsCents(d.amountNet)
      && d.vatAmount >= 0.0 && Vat.IsCents(d.vatAmount)
  {
  }

  /**
   * An invoice dated "DD/MM/YYYY" gets that date in ISO form; when the
   * printed date is no calendar date, such as "31/02/2026", the digits are
   * reordered all the same, into a text `date.fromisoformat` rejects.
   */
  lemma InvoiceDate(text: string, rx: Regexes, d: Dates.Date)
    requires Dates.ValidDate(d)
    requires rx.date(text) == Some(DmyTextOf(d))
    ensures Spec(text, rx).date == Dates.IsoFormat(d)
    ensures Dates.FromIsoFormat(Spec(text, rx).date) == Some(d)
  {
    ReorderDmyRoundTrip(d);
  }

  lemma InvoiceDateUnchecked(text: string, rx: Regexes)
    requires rx.date(text).Some?
    requires rx.date(text).value[..2] == "31" && rx.date(text).value[3..5] == "02"
    ensures Spec(text, rx).date != "" && Dates.FromIsoFormat(Spec(text, rx).date) == None
  {
    ReorderDmyNonCalendarDate(rx.date(text).value);
  }

  /**
   * The description is the default exactly when no kSuite line is found, and
   * otherwise names the kSuite plan in parentheses.
   */
  lemma Description(text: string, rx: Regexes)
    ensures Spec(text, rx).description == DefaultDescription <==> rx.kSuite(text).None?
    ensures rx.kSuite(text).Some? ==>
      var r, k := Spec(text, rx).description, rx.kSuite(text).value;
      |r| == |k| + 9 && r[..8] == "kSuite (" && r[8..8 + |k|] == k && r[|r| - 1] == ')'
  {
    if rx.kSuite(text).Some? {
      var r, k := Spec(text, rx).description, rx.kSuite(text).value;
      assert r == "kSuite (" + k + ")";
      assert r[0] == 'k' != DefaultDescription[0];
    }
  }

  /** The VAT number is the match with only its surrounding whitespace cut off. */
  lemma VatNumberTrimmed(text: string, rx: Regexes)
    requires rx.vatNumber(text).Some?
    ensures TrimmedOf(Spec(text, rx).vatNumber, rx.vatNumber(text).value)
  {
    StripTrimmedOf(rx.vatNumber(text).value);
  }
}
