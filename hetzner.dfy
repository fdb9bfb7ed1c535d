// The invoice parser for Hetzner Online, a German cloud hosting provider
// (`extraction/parsers/hetzner.py`).
module Hetzner {
  import opened Wrappers
  import opened Text
  import Dates
  import Vat
  import Categories
  import opened ParserBase

  /** `vendor_name`. */
  const VendorName: string := "Hetzner"

  const Account: int := 6810
  const AccountName: string := "Informatik-Infrastruktur"

  /** The description written when no project line is found. */
  const DefaultDescription: string := "Hetzner Cloud services"

  /**
   * The first-match capture groups of the searches `parse` makes:
   * `(CHE[\-\d.]+\s*MWST)`, `Invoice no\.:\s*(\S+)`,
   * `Invoice date:\s*(\d{2}/\d{2}/\d{4})`, the "MM/YYYY" after the
   * "Period Total" heading, the quoted project name, the "Amount due: €"
   * amount, and the four groups of a tax table row
   * "8.1 % € 7.50 € 0.61 € 8.11" (rate, net, VAT, gross).
   */
  datatype Regexes = Regexes(
    vatNumber: string -> Option<string>,
    invoiceNumber: string -> Option<string>,
    invoiceDate: string -> Option<DmyText>,
    period: string -> Option<string>,
    project: string -> Option<string>,
    amountDue: string -> Option<AmountText>,
    taxRow: string -> Option<(RateText, AmountText, AmountText, AmountText)>)

  /** `can_parse`: the text names the company. */
  function CanParse(text: string): (b: bool)
    ensures b <==> exists i :: OccursAt(text, "Hetzner", i)
  {
    Contains(text, "Hetzner")
  }

  /** How the description names a project. */
  function ProjectDescription(name: string): string
  {
    "Hetzner Cloud - Project \"" + name + "\""
  }

  /** The result `parse` returns. */
  function Spec(text: string, rx: Regexes): Draft
  {
    var vatNumber := rx.vatNumber(text);
    var invoice := rx.invoiceNumber(text);
    var date := rx.invoiceDate(text);
    var period := rx.period(text);
    var project := rx.project(text);
    var due := rx.amountDue(text);
    var row := rx.taxRow(text);
    Draft(
      vendor := VendorName,
      vendorCountry := "DE",
      invoiceNumber := if invoice.Some? then invoice.value else "",
      receiptNumber := "",
      date := if date.Some? then ReorderDmy(date.value) else "",
      period := if period.Some? then period.value else "",
      description := if project.Some? then ProjectDescription(project.value) else DefaultDescription,
      amountGross := if due.Some? then AmountValue(due.value) else 0.0,
      amountNet := if row.Some? then AmountValue(row.value.1) else 0.0,
      currency := "EUR",
      vatRate := if row.Some? then RateValue(row.value.0) else 0.0,
      vatAmount := if row.Some? then AmountValue(row.value.2) else 0.0,
      vatNumber := if vatNumber.Some? then Strip(vatNumber.value) else "",
      categoryAccount := Some(Account),
      categoryName := AccountName,
      confidence := 1.0)
  }

  /** `parse`: assigns the fields one search at a time; it always returns a result. */
  method Parse(text: string, rx: Regexes) returns (r: Draft)
    ensures r == Spec(text, rx)
  {
    ghost var s := Spec(text, rx);
    var vatNumber, invoiceNumber, date, period, description := "", "", "", "", "";
    var amountGross, vatRate, amountNet, vatAmount := 0.0, 0.0, 0.0, 0.0;
    var m := rx.vatNumber(text);
    if m.Some? {
      vatNumber := Strip(m.value);
    }
    assert vatNumber == s.vatNumber;
    m := rx.invoiceNumber(text);
    if m.Some? {
      invoiceNumber := m.value;
    }
    assert invoiceNumber == s.invoiceNumber;
    var d := rx.invoiceDate(text);
    if d.Some? {
      date := ReorderDmy(d.value);
    }
    assert date == s.date;
    m := rx.period(text);
    if m.Some? {
      period := m.value;
    }
    assert period == s.period;
    m := rx.project(text);
    if m.Some? {
      description := ProjectDescription(m.value);
    } else {
      description := DefaultDescription;
    }
    assert description == s.description;
    var due := rx.amountDue(text);
    if due.Some? {
      amountGross := AmountValue(due.value);
    }
    assert amountGross == s.amountGross;
    var row := rx.taxRow(text);
    if row.Some? {
      vatRate := RateValue(row.value.0);
      amountNet := AmountValue(row.value.1);
      vatAmount := AmountValue(row.value.2);
    }
    assert vatRate == s.vatRate && amountNet == s.amountNet && vatAmount == s.vatAmount;
    r := NewParseResult().(
      vendor := VendorName, vendorCountry := "DE", currency := "EUR",
      categoryAccount := Some(Account), categoryName := AccountName,
      vatNumber := vatNumber, invoiceNumber := invoiceNumber, date := date,
      period := period, description := description, amountGross := amountGross,
      vatRate := vatRate, amountNet := amountNet, vatAmount := vatAmount);
  }

  /** The account the parser books to is in the catalogue under the name the parser writes. */
  lemma CatalogueAgrees()
    ensures Categories.InCatalogue(Account, AccountName)
  {
    Categories.InfrastructureAccount(Account, AccountName);
  }

  /**
   * Whatever the text, the result names Hetzner, a German vendor billing in
   * EUR, booked to account 6810, with no receipt number; a search that finds
   * nothing leaves its field empty.
   */
  lemma FixedFields(text: string, rx: Regexes)
    ensures var d := Spec(text, rx);
      && d.vendor == "Hetzner" && d.vendorCountry == "DE" && d.currency == "EUR"
      && d.categoryAccount == Some(6810) && d.categoryName == AccountName
      && d.receiptNumber == "" && d.confidence == 1.0
      && (rx.vatNumber(text).None? ==> d.vatNumber == "")
      && (rx.invoiceNumber(text).None? ==> d.invoiceNumber == "")
      && (rx.invoiceDate(text).None? ==> d.date == "")
      && (rx.period(text).None? ==> d.period == "")
  {
  }

  /**
   * Gross is the amount due, 0 when there is none. Rate, net and VAT all
   * come from the first tax table row and are all 0 without one; the row's
   * own gross column is not read. Every amount is whole cents.
   */
  lemma Amounts(text: string, rx: Regexes)
    ensures var d, row := Spec(text, rx), rx.taxRow(text);
      && (rx.amountDue(text).None? ==> d.amountGross == 0.0)
      && (row.None? ==> d.vatRate == 0.0 && d.amountNet == 0.0 && d.vatAmount == 0.0)
      && (row.Some? ==> d.vatRate == RateValue(row.value.0)
                        && d.amountNet == AmountValue(row.value.1)
                        && d.vatAmount == AmountValue(row.value.2))
      && d.amountGross >= 0.0 && Vat.IsCents(d.amountGross)
      && d.amountNet >= 0.0 && Vat.IsCents(d.amountNet)
      && d.vatAmount >= 0.0 && Vat.IsCents(d.vatAmount)
  {
  }

  /**
   * The invoice of the worked example, "8.1 % € 7.50 € 0.61 € 8.11" with
   * "Amount due: € 8.11", is read as rate 8.1, net 7.50 and VAT 0.61 on a
   * gross of 8.11, and these agree with `compute_vat` and `compute_net`.
   */
  lemma ExampleAgreesWithVat(text: string, rx: Regexes)
    requires rx.amountDue(text) == Some("8.11")
    requires rx.taxRow(text) == Some(("8.1", "7.50", "0.61", "8.11"))
    ensures var d := Spec(text, rx);
      && d.vatRate == 8.1 && d.amountNet == 7.50 && d.vatAmount == 0.61 && d.amountGross == 8.11
      && d.vatAmount == Vat.ComputeVat(d.amountGross, d.vatRate)
      && d.amountNet == Vat.ComputeNet(d.amountGross, d.vatRate)
  {
    var d := Spec(text, rx);
    AmountOfTwoDigits("7.50", 7, 50);
    AmountOfTwoDigits("0.61", 0, 61);
    AmountOfTwoDigits("8.11", 8, 11);
    RateOfOneDecimal("8.1", 8, 1);
    Vat.NormalRateExample();
  }

  /** An amount "W.CC" with a one-digit whole part. */
  lemma AmountOfTwoDigits(s: AmountText, w: nat, c: nat)
    requires |s| == 4 && s[1] == '.' && IsDigit(s[0]) && IsDigit(s[2]) && IsDigit(s[3])
    requires w == DigitValue(s[0]) && c == DigitValue(s[2]) * 10 + DigitValue(s[3])
    ensures AmountValue(s) == w as real + c as real / 100.0
  {
    assert WholeDigits(s) == [s[0]] by {
      assert s[..|s| - 3] == [s[0]];
    }
    assert DigitsValue([s[0]]) == DigitValue(s[0]) by {
      assert [s[0]][..0] == [];
    }
    TwoDigitsValue(s[2..]);
  }

  /** A rate "W.D" with one digit on each side of the point. */
  lemma RateOfOneDecimal(s: RateText, w: nat, f: nat)
    requires |s| == 3 && s[1] == '.' && IsDigit(s[0]) && IsDigit(s[2])
    requires w == DigitValue(s[0]) && f == DigitValue(s[2])
    ensures RateValue(s) == w as real + f as real / 10.0
  {
    assert DotIndex(s) == 1 by {
      assert s[0] != '.';
      assert DotIndex(s[1..]) == 0;
    }
    assert DigitsValue(s[..1]) == w by {
      assert s[..1][..0] == [];
    }
    assert DigitsValue(s[2..]) == f by {
      assert s[2..][..0] == [];
    }
    assert Pow10(1) == 10;
  }

  /**
   * An invoice dated "DD/MM/YYYY" gets that date in ISO form (and a printed
   * non-date is reordered unchecked, as for Infomaniak).
   */
  lemma InvoiceDate(text: string, rx: Regexes, d: Dates.Date)
    requires Dates.ValidDate(d)
    requires rx.invoiceDate(text) == Some(DmyTextOf(d))
    ensures Spec(text, rx).date == Dates.IsoFormat(d)
    ensures Dates.FromIsoFormat(Spec(text, rx).date) == Some(d)
  {
    ReorderDmyRoundTrip(d);
  }

  /** The description is the default exactly when no project line is found. */
  lemma Description(text: string, rx: Regexes)
    ensures Spec(text, rx).description == DefaultDescription <==> rx.project(text).None?
    ensures rx.project(text).Some? ==>
      var r, p := Spec(text, rx).description, rx.project(text).value;
      |r| == |p| + 26 && r[25..25 + |p|] == p
  {
    if rx.project(text).Some? {
      var r, p := Spec(text, rx).description, rx.project(text).value;
      assert r == "Hetzner Cloud - Project \"" + p + "\"";
      assert r[14] == '-' != DefaultDescription[14];
    }
  }
}
