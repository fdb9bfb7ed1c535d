// The order-receipt parser for Namecheap, a US domain registrar
// (`extraction/parsers/namecheap.py`).
module Namecheap {
  import opened Wrappers
  import opened Text
  import Dates
  import Vat
  import Categories
  import opened ParserBase

  /** `vendor_name`. */
  const VendorName: string := "Namecheap"

  const Account: int := 6840
  const AccountName: string := "Domänen und Hosting"

  /** The description written when no domain name is found. */
  const DefaultDescription: string := "Namecheap domain services"

  /** What the description puts before the list of domain names. */
  const DomainsPrefix: string := "Domain registration: "

  /**
   * The capture groups of the searches `parse` makes: `Order\s*#\s*(\d+)`,
   * the "M/D/YYYY" order date, every (price, domain) pair of a
   * "Domain Registration ... year $p $q" line followed by the domain on the
   * next line, the same pairs for lines that start "REGISTER", every bare
   * domain name ending .com, .pro, .net, .org, .io, .ch or .dev, and the
   * "TOTAL" and "Final Cost" amounts. The three lists are `re.findall`
   * results, in text order.
   */
  datatype Regexes = Regexes(
    orderNumber: string -> Option<string>,
    orderDate: string -> Option<MdyText>,
    registrations: string -> seq<(string, string)>,
    registerLines: string -> seq<(string, string)>,
    domainNames: string -> seq<string>,
    total: string -> Option<AmountText>,
    finalCost: string -> Option<AmountText>)

  /** `can_parse`: the text names the company. */
  function CanParse(text: string): (b: bool)
    ensures b <==> exists i :: OccursAt(text, "Namecheap", i)
  {
    Contains(text, "Namecheap")
  }

  /** `[d[1] for d in domains]`: the domain of each (price, domain) pair. */
  function DomainsOf(pairs: seq<(string, string)>): (names: seq<string>)
    ensures |names| == |pairs|
    ensures forall i :: 0 <= i < |pairs| ==> names[i] == pairs[i].1
  {
    seq(|pairs|, i requires 0 <= i < |pairs| => pairs[i].1)
  }

  /**
   * The domain names the description lists: those of the registration
   * lines, else those of the "REGISTER" lines, else the bare domain names.
   */
  function ListedDomains(text: string, rx: Regexes): seq<string>
  {
    if rx.registrations(text) != [] then DomainsOf(rx.registrations(text))
    else if rx.registerLines(text) != [] then DomainsOf(rx.registerLines(text))
    else rx.domainNames(text)
  }

  /** The result `parse` returns. */
  function Spec(text: string, rx: Regexes): Draft
  {
    var order := rx.orderNumber(text);
    var date := rx.orderDate(text);
    var names := ListedDomains(text, rx);
    var total := rx.total(text);
    var finalCost := rx.finalCost(text);
    var gross :=
      if total.Some? then AmountValue(total.value)
      else if finalCost.Some? then AmountValue(finalCost.value)
      else 0.0;
    Draft(
      vendor := VendorName,
      vendorCountry := "US",
      invoiceNumber := if order.Some? then order.value else "",
      receiptNumber := "",
      date := if date.Some? then ReorderMdy(date.value) else "",
      period := "",
      description := if names != [] then DomainsPrefix + Join(", ", names) else DefaultDescription,
      amountGross := gross,
      amountNet := gross,
      currency := "USD",
      vatRate := 0.0,
      vatAmount := 0.0,
      vatNumber := "",
      categoryAccount := Some(Account),
      categoryName := AccountName,
      confidence := 1.0)
  }

  /** `parse`: assigns the fields one search at a time; it always returns a result. */
  method Parse(text: string, rx: Regexes) returns (r: Draft)
    ensures r == Spec(text, rx)
  {
    ghost var s := Spec(text, rx);
    var invoiceNumber, date, description := "", "", "";
    var amountGross := 0.0;
    var m := rx.orderNumber(text);
    if m.Some? {
      invoiceNumber := m.value;
    }
    assert invoiceNumber == s.invoiceNumber;
    var d := rx.orderDate(text);
    if d.Some? {
      date := ReorderMdy(d.value);
    }
    assert date == s.date;
    var domains := rx.registrations(text);
    if domains == [] {
      domains := rx.registerLines(text);
    }
    if domains == [] {
      var domainNames := rx.domainNames(text);
      if domainNames != [] {
        description := DomainsPrefix + Join(", ", domainNames);
      } else {
        description := DefaultDescription;
      }
    } else {
      var names := DomainsOf(domains);
      description := DomainsPrefix + Join(", ", names);
    }
    assert description == s.description;
    var t := rx.total(text);
    if t.Some? {
      amountGross := AmountValue(t.value);
    } else {
      t := rx.finalCost(text);
      if t.Some? {
        amountGross := AmountValue(t.value);
      }
    }
    assert amountGross == s.amountGross;
    var amountNet := amountGross;
    r := NewParseResult().(
      vendor := VendorName, vendorCountry := "US", currency := "USD",
      categoryAccount := Some(Account), categoryName := AccountName,
      vatRate := 0.0, vatAmount := 0.0,
      invoiceNumber := invoiceNumber, date := date, description := description,
      amountGross := amountGross, amountNet := amountNet);
  }

  /** The account the parser books to is in the catalogue under the name the parser writes. */
  lemma CatalogueAgrees()
    ensures Categories.InCatalogue(Account, AccountName)
  {
    Categories.DomainsAccount(Account, AccountName);
  }

  /**
   * Whatever the text, the result names Namecheap, a US vendor billing in
   * USD without VAT, booked to account 6840, with neither receipt number
   * nor period; a search that finds nothing leaves its field empty.
   */
  lemma FixedFields(text: string, rx: Regexes)
    ensures var d := Spec(text, rx);
      && d.vendor == "Namecheap" && d.vendorCountry == "US" && d.currency == "USD"
      && d.vatRate == 0.0 && d.vatAmount == 0.0 && d.vatNumber == "" && d.confidence == 1.0
      && d.receiptNumber == "" && d.period == ""
      && d.categoryAccount == Some(6840) && d.categoryName == AccountName
      && (rx.orderNumber(text).None? ==> d.invoiceNumber == "")
      && (rx.orderDate(text).None? ==> d.date == "")
  {
  }

  /**
   * Gross is the "TOTAL" amount, else the "Final Cost" amount, else 0, in
   * whole cents; net always equals gross.
   */
  lemma Amounts(text: string, rx: Regexes)
    ensures var d := Spec(text, rx);
      && d.amountNet == d.amountGross
      && d.amountGross >= 0.0 && Vat.IsCents(d.amountGross)
      && (rx.total(text).Some? ==> d.amountGross == AmountValue(rx.total(text).value))
      && (rx.total(text).None? && rx.finalCost(text).Some? ==>
            d.amountGross == AmountValue(rx.finalCost(text).value))
      && (rx.total(text).None? && rx.finalCost(text).None? ==> d.amountGross == 0.0)
  {
  }

  /**
   * The description is the default exactly when all three searches for
   * domains come back empty. Otherwise it starts "Domain registration: " and
   * every domain listed occurs in it; those domains are the registration
   * lines' when there are any, else the "REGISTER" lines', else the bare
   * names.
   */
  lemma Description(text: string, rx: Regexes)
    ensures Spec(text, rx).description == DefaultDescription <==>
      (rx.registrations(text) == [] && rx.registerLines(text) == [] && rx.domainNames(text) == [])
    ensures var r, names := Spec(text, rx).description, ListedDomains(text, rx);
      names != [] ==>
        && |r| >= |DomainsPrefix| && r[..|DomainsPrefix|] == DomainsPrefix
        && forall i :: 0 <= i < |names| ==> Contains(r, names[i])
    ensures rx.registrations(text) != [] ==>
      ListedDomains(text, rx) == DomainsOf(rx.registrations(text))
    ensures rx.registrations(text) == [] && rx.registerLines(text) != [] ==>
      ListedDomains(text, rx) == DomainsOf(rx.registerLines(text))
  {
    var r, names := Spec(text, rx).description, ListedDomains(text, rx);
    if names != [] {
      var joined := Join(", ", names);
      assert r == DomainsPrefix + joined;
      assert r[0] == 'D' != DefaultDescription[0];
      forall i | 0 <= i < |names|
        ensures Contains(r, names[i])
      {
        JoinContainsPart(", ", names, i);
        var k :| OccursAt(joined, names[i], k);
        assert r[|DomainsPrefix| + k..|DomainsPrefix| + k + |names[i]|] == joined[k..k + |names[i]|];
        assert OccursAt(r, names[i], |DomainsPrefix| + k);
      }
    }
  }

  /**
   * An order dated "M/D/YYYY", month and day printed without leading
   * zeros, gets that date in ISO form.
   */
  lemma OrderDate(text: string, rx: Regexes, d: Dates.Date)
    requires Dates.ValidDate(d) && d.year >= 1000
    requires rx.orderDate(text) == Some(NatToString(d.month) + "/" + NatToString(d.day) + "/" + Dates.Padded(d.year, 4))
    ensures Spec(text, rx).date == Dates.IsoFormat(d)
  {
    var m, dd, y := NatToString(d.month), NatToString(d.day), Dates.Padded(d.year, 4);
    Dates.NatToStringLength(d.month, 2);
    Dates.NatToStringLength(d.day, 2);
    ReorderMdyOfParts(m, dd, y);
    NatToStringRoundTrip(d.month);
    NatToStringRoundTrip(d.day);
    ZFillKeepsValue(m, 2);
    ZFillKeepsValue(dd, 2);
    Dates.PaddedOfDigits(ZFill(m, 2));
    Dates.PaddedOfDigits(ZFill(dd, 2));
  }
}
