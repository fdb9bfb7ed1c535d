// The summary and VAT reports (`reporting/reports.py`). A report is the
// list of tables it would print, one per currency; the Rich rendering and
// the console are not modelled, and amounts stay exact decimals (reals)
// instead of their `str` forms. The filtered records are a parameter, as
// `load_all()` of the ledger would return them.
module Reports {
  import opened Wrappers
  import opened Text
  import Dates
  import opened ExpenseModel
  import Vat
  import Categories
  import Sorting
  import opened Grouping

  // ---------------------------------------------------------------------
  // Filtering
  // ---------------------------------------------------------------------

  /** Python truthiness of an optional string filter: given and not empty. */
  predicate Given(filter: Option<string>)
  {
    filter.Some? && filter.value != ""
  }

  /** Dated, and its `strftime("%Y-%m")` is `month`. */
  predicate InMonth(e: Expense, month: string)
  {
    e.date.Some? && Dates.StrftimeYm(e.date.value) == month
  }

  /** The currencies agree after `upper()`. */
  predicate SameCurrency(e: Expense, currency: string)
  {
    Upper(e.currency) == Upper(currency)
  }

  /** `[e for e in es if e.date and e.date.strftime("%Y-%m") == month]`. */
  function KeepMonth(es: seq<Expense>, month: string): seq<Expense>
  {
    if es == [] then []
    else KeepMonth(es[..|es| - 1], month) + (if InMonth(es[|es| - 1], month) then [es[|es| - 1]] else [])
  }

  /** `[e for e in es if e.currency.upper() == currency.upper()]`. */
  function KeepCurrency(es: seq<Expense>, currency: string): seq<Expense>
  {
    if es == [] then []
    else KeepCurrency(es[..|es| - 1], currency) + (if SameCurrency(es[|es| - 1], currency) then [es[|es| - 1]] else [])
  }

  /** `_filter(expenses, month, currency)`: the month filter, then the currency filter. */
  function Filter(es: seq<Expense>, month: Option<string>, currency: Option<string>): seq<Expense>
  {
    var byMonth := if Given(month) then KeepMonth(es, month.value) else es;
    if Given(currency) then KeepCurrency(byMonth, currency.value) else byMonth
  }

  /** An expense passes every filter that is given. */
  predicate Wanted(e: Expense, month: Option<string>, currency: Option<string>)
  {
    (Given(month) ==> InMonth(e, month.value)) && (Given(currency) ==> SameCurrency(e, currency.value))
  }

  /** The reference filter: one pass keeping the wanted expenses in order. */
  function KeepWanted(es: seq<Expense>, month: Option<string>, currency: Option<string>): seq<Expense>
  {
    if es == [] then []
    else KeepWanted(es[..|es| - 1], month, currency) + (if Wanted(es[|es| - 1], month, currency) then [es[|es| - 1]] else [])
  }

  /**
   * The two filters in a row keep exactly the expenses that pass both, in
   * their input order.
   */
  lemma {:induction false} FilterIsOnePass(es: seq<Expense>, month: Option<string>, currency: Option<string>)
    ensures Filter(es, month, currency) == KeepWanted(es, month, currency)
    decreases |es|
  {
    if es != [] {
      var front, x := es[..|es| - 1], es[|es| - 1];
      FilterIsOnePass(front, month, currency);
      if Given(month) && Given(currency) {
        var a := KeepMonth(front, month.value);
        if InMonth(x, month.value) {
          assert KeepMonth(es, month.value) == a + [x];
          KeepCurrencySnoc(a, x, currency.value);
          assert KeepCurrency(a, currency.value) == KeepWanted(front, month, currency);
        } else {
          assert KeepMonth(es, month.value) == a + [];
          assert a + [] == a;
        }
      }
    }
  }

  lemma KeepCurrencySnoc(es: seq<Expense>, x: Expense, currency: string)
    ensures KeepCurrency(es + [x], currency)
         == KeepCurrency(es, currency) + (if SameCurrency(x, currency) then [x] else [])
  {
    assert (es + [x])[..|es|] == es;
  }

  /** An expense is kept exactly when it was given and passes every given filter. */
  lemma {:induction false} KeepWantedMembers(es: seq<Expense>, month: Option<string>, currency: Option<string>, e: Expense)
    ensures e in KeepWanted(es, month, currency) <==> e in es && Wanted(e, month, currency)
    decreases |es|
  {
    if es != [] {
      KeepWantedMembers(es[..|es| - 1], month, currency, e);
      assert es == es[..|es| - 1] + [es[|es| - 1]];
    }
  }

  /** `_filter` keeps exactly the expenses that pass the given filters. */
  lemma FilterMembers(es: seq<Expense>, month: Option<string>, currency: Option<string>, e: Expense)
    ensures e in Filter(es, month, currency) <==> e in es && Wanted(e, month, currency)
  {
    FilterIsOnePass(es, month, currency);
    KeepWantedMembers(es, month, currency, e);
  }

  /** With no filter, or empty ones, every expense is kept, in order. */
  lemma NoFilter(es: seq<Expense>)
    ensures Filter(es, None, None) == es
    ensures Filter(es, Some(""), Some("")) == es
  {
  }

  /** The currency filter ignores case; an undated expense never passes a month filter. */
  lemma FilterExamples(e: Expense, month: string)
    ensures e.currency == "chf" ==> SameCurrency(e, "CHF")
    ensures e.date.None? ==> !InMonth(e, month)
    ensures e.date == Some(Dates.Date(2026, 1, 15)) ==> InMonth(e, "2026-01")
  {
    assert Upper("chf") == "CHF";
    assert Dates.Padded(1, 2) == "01";
    assert NatToString(2026) == "2026" by {
      assert NatToString(2) == "2";
      assert NatToString(20) == "20";
      assert NatToString(202) == "202";
    }
  }

  // ---------------------------------------------------------------------
  // Grouping by currency, then by a second key
  // ---------------------------------------------------------------------

  function CurrencyOf(e: Expense): string { e.currency }
  function AccountOf(e: Expense): Option<int> { e.categoryAccount }
  function RateOf(e: Expense): real { e.vatRate }
  function GrossOf(e: Expense): real { e.amountGross }
  function NetOf(e: Expense): real { e.amountNet }
  function VatOf(e: Expense): real { e.vatAmount }

  /** `defaultdict(lambda: defaultdict(list))`: currency, then the second key, then the expenses. */
  type Buckets<K> = seq<(string, seq<(K, seq<Expense>)>)>

  /** `by[cur][k].append(e)`. */
  function AppendNested<K(==)>(t: Buckets<K>, cur: string, k: K, e: Expense): Buckets<K>
  {
    Put(t, cur, Append(Get(t, cur, []), k, e))
  }

  /** The nested dictionary after the loop over `es`. */
  function Nested<K(==)>(es: seq<Expense>, key: Expense -> K): Buckets<K>
  {
    if es == [] then []
    else
      var e := es[|es| - 1];
      AppendNested(Nested(es[..|es| - 1], key), e.currency, key(e), e)
  }

  /** Each currency's group, grouped again by `key`. */
  function MapInner<K(==)>(t: seq<(string, seq<Expense>)>, key: Expense -> K): (r: Buckets<K>)
    ensures |r| == |t|
    ensures forall i :: 0 <= i < |t| ==> r[i] == (t[i].0, GroupBy(t[i].1, key))
  {
    seq(|t|, i requires 0 <= i < |t| => (t[i].0, GroupBy(t[i].1, key)))
  }

  /**
   * `for e in expenses: by[e.currency][key(e)].append(e)`.
   */
  method GroupNested<K(==)>(es: seq<Expense>, key: Expense -> K) returns (t: Buckets<K>)
    ensures t == Nested(es, key)
  {
    t := [];
    var i := 0;
    while i < |es|
      invariant 0 <= i <= |es|
      invariant t == Nested(es[..i], key)
    {
      var e := es[i];
      var inner := Get(t, e.currency, []);
      t := Put(t, e.currency, Append(inner, key(e), e));
      i := i + 1;
      assert es[..i][..i - 1] == es[..i - 1];
    }
    assert es[..|es|] == es;
  }

  lemma GroupBySnoc<T, K>(xs: seq<T>, x: T, key: T -> K)
    ensures GroupBy(xs + [x], key) == Append(GroupBy(xs, key), key(x), x)
  {
    assert (xs + [x])[..|xs|] == xs;
  }

  /** One step of the nested loop is one step of the outer grouping, regrouped. */
  lemma AppendNestedStep<K>(g: seq<(string, seq<Expense>)>, key: Expense -> K, x: Expense)
    ensures AppendNested(MapInner(g, key), x.currency, key(x), x)
         == MapInner(Append(g, x.currency, x), key)
  {
    var m := MapInner(g, key);
    var c := x.currency;
    FindSameKeys(g, m, c);
    var i := Find(g, c);
    if i < |g| {
      GroupBySnoc(g[i].1, x, key);
      assert Append(g, c, x) == g[i := (c, g[i].1 + [x])];
    } else {
      GroupBySnoc([], x, key);
      assert [] + [x] == [x];
      assert Append(g, c, x) == g + [(c, [x])];
    }
  }

  /**
   * The nested dictionary is the grouping by currency with each group
   * grouped again by the second key.
   */
  lemma {:induction false} NestedIsGroupBy<K>(es: seq<Expense>, key: Expense -> K)
    ensures Nested(es, key) == MapInner(GroupBy(es, CurrencyOf), key)
    decreases |es|
  {
    if es != [] {
      var front, x := es[..|es| - 1], es[|es| - 1];
      NestedIsGroupBy(front, key);
      AppendNestedStep(GroupBy(front, CurrencyOf), key, x);
    }
  }

  /**
   * Every expense lands in exactly one bucket: the currencies are distinct,
   * and within a currency the bucket of key `k` holds exactly the
   * expenses of that currency and that key, in input order.
   */
  lemma NestedBuckets<K>(es: seq<Expense>, key: Expense -> K)
    ensures var t := Nested(es, key);
      && DistinctKeys(t)
      && (forall i :: 0 <= i < |t| ==> GroupsOf(t[i].1, Select(es, CurrencyOf, t[i].0), key) && t[i].1 != [])
      && (forall j :: 0 <= j < |es| ==> Find(t, es[j].currency) < |t|)
  {
    var g := GroupBy(es, CurrencyOf);
    var t := Nested(es, key);
    NestedIsGroupBy(es, key);
    GroupBySpec(es, CurrencyOf);
    forall i | 0 <= i < |t|
      ensures GroupsOf(t[i].1, Select(es, CurrencyOf, t[i].0), key) && t[i].1 != []
    {
      InnerGroups(g[i].1, key);
    }
    forall j | 0 <= j < |es|
      ensures Find(t, es[j].currency) < |t|
    {
      assert CurrencyOf(es[j]) == es[j].currency;
      FindSameKeys(g, t, es[j].currency);
    }
  }

  /** Regrouping a non-empty currency group gives at least one bucket. */
  lemma InnerGroups<K>(xs: seq<Expense>, key: Expense -> K)
    requires xs != []
    ensures GroupsOf(GroupBy(xs, key), xs, key) && GroupBy(xs, key) != []
  {
    GroupBySpec(xs, key);
    assert Find(GroupBy(xs, key), key(xs[0])) < |GroupBy(xs, key)|;
  }

  /** An entry of the sorted currency list is one currency's group, regrouped by `key`. */
  lemma SortedCurrencyEntry<K>(es: seq<Expense>, key: Expense -> K, c: (string, seq<(K, seq<Expense>)>))
    requires c in Sorting.SortBy(Nested(es, key), CurrencyLe)
    ensures c.1 == GroupBy(Select(es, CurrencyOf, c.0), key)
    ensures Select(es, CurrencyOf, c.0) != []
  {
    var g := GroupBy(es, CurrencyOf);
    NestedIsGroupBy(es, key);
    GroupBySpec(es, CurrencyOf);
    assert c in multiset(Nested(es, key));
    var p :| 0 <= p < |g| && MapInner(g, key)[p] == c;
  }

  /**
   * The currencies of the sorted list are exactly those of the expenses,
   * each once, in ascending order.
   */
  lemma SortedCurrencies<K(!new)>(es: seq<Expense>, key: Expense -> K)
    ensures var curs := Sorting.SortBy(Nested(es, key), CurrencyLe);
      && Sorting.SortedBy(curs, CurrencyLe)
      && DistinctKeys(curs)
      && (forall j :: 0 <= j < |es| ==> es[j].currency in KeySet(curs))
  {
    var t := Nested(es, key);
    NestedBuckets(es, key);
    CurrencyOrder<seq<(K, seq<Expense>)>>();
    Sorting.SortBySorted(t, CurrencyLe);
    SortByKeys(t, CurrencyLe);
    forall j | 0 <= j < |es| ensures es[j].currency in KeySet(t) {
      var f := Find(t, es[j].currency);
      assert t[f].0 == es[j].currency;
    }
  }

  // ---------------------------------------------------------------------
  // Sort keys
  // ---------------------------------------------------------------------

  /** `sorted(by_cat)`: the currencies as strings. */
  function CurrencyLe<V>(p: (string, V), q: (string, V)): bool
  {
    Sorting.LexLe(p.0, q.0)
  }

  /** `x or 0`: an account bucket's sort key; no account and account 0 both sort as 0. */
  function AccountKey(account: Option<int>): int
  {
    if account.Some? then account.value else 0
  }

  function AccountLe<V>(p: (Option<int>, V), q: (Option<int>, V)): bool
  {
    AccountKey(p.0) <= AccountKey(q.0)
  }

  /** `sorted(by_rate[cur])`: the rates by value. */
  function RateLe<V>(p: (real, V), q: (real, V)): bool
  {
    p.0 <= q.0
  }

  lemma CurrencyOrder<V(!new)>()
    ensures Sorting.TotalPreorder(CurrencyLe<V>)
  {
    forall p: (string, V), q: (string, V) {
      Sorting.LexLeTotal(p.0, q.0);
    }
    forall p: (string, V), q: (string, V), o: (string, V) | CurrencyLe(p, q) && CurrencyLe(q, o) {
      Sorting.LexLeTrans(p.0, q.0, o.0);
    }
  }

  lemma AccountOrder<V(!new)>()
    ensures Sorting.TotalPreorder(AccountLe<V>)
  {
  }

  lemma RateOrder<V(!new)>()
    ensures Sorting.TotalPreorder(RateLe<V>)
  {
  }

  // ---------------------------------------------------------------------
  // The summary report
  // ---------------------------------------------------------------------

  /** The truthiness of `acct_num`: an account other than 0. */
  predicate AccountGiven(account: Option<int>)
  {
    account.Some? && account.value != 0
  }

  /** The "Account" cell: the number, or a dash. */
  function AccountCell(account: Option<int>): string
  {
    if AccountGiven(account) then IntToString(account.value) else "—"
  }

  /** The "Category" cell: the catalogue name, or "Uncategorized". */
  function CategoryName(account: Option<int>): string
  {
    if AccountGiven(account) && Categories.GetAccount(account.value).Some? then
      Categories.GetAccount(account.value).value.name
    else
      "Uncategorized"
  }

  /** A table title: the heading and the currency, and the month when one is given. */
  function Title(heading: string, currency: string, month: Option<string>): string
  {
    heading + " — " + currency + (if Given(month) then " (" + month.value + ")" else "")
  }

  datatype SummaryRow = SummaryRow(account: string, category: string, count: nat,
                                   gross: real, net: real, vat: real)

  /** One currency's table: its rows and the "Total" row's count and sums. */
  datatype SummaryTable = SummaryTable(currency: string, title: string, rows: seq<SummaryRow>,
                                       count: nat, gross: real, net: real, vat: real)

  /** A bucket's row: its size and the sums of its amounts. */
  function SummaryRowOf(bucket: (Option<int>, seq<Expense>)): SummaryRow
  {
    SummaryRow(AccountCell(bucket.0), CategoryName(bucket.0), |bucket.1|,
               Sum(bucket.1, GrossOf), Sum(bucket.1, NetOf), Sum(bucket.1, VatOf))
  }

  function SummaryRows(buckets: seq<(Option<int>, seq<Expense>)>): (rows: seq<SummaryRow>)
  {
    seq(|buckets|, i requires 0 <= i < |buckets| => SummaryRowOf(buckets[i]))
  }

  /**
   * The table of one currency: a row per account bucket in account order,
   * and a total row whose count is the number of buckets and whose sums
   * are those of the rows.
   */
  function SummaryTableOf(currency: string, buckets: seq<(Option<int>, seq<Expense>)>,
                          month: Option<string>): SummaryTable
  {
    var accounts := Sorting.SortBy(buckets, AccountLe);
    SummaryTable(currency, Title("Expense Summary", currency, month), SummaryRows(accounts),
                 |buckets|, Total(accounts, GrossOf), Total(accounts, NetOf), Total(accounts, VatOf))
  }

  /** `summary_report(month, currency)`: nothing for an empty selection, else a table per currency. */
  function SummaryReportSpec(records: seq<Expense>, month: Option<string>,
                             currency: Option<string>): Option<seq<SummaryTable>>
  {
    var es := Filter(records, month, currency);
    if es == [] then None
    else
      Some(SummaryTables(Sorting.SortBy(Nested(es, AccountOf), CurrencyLe), month))
  }

  /** A table per entry of the sorted currency list. */
  function SummaryTables(currencies: Buckets<Option<int>>, month: Option<string>): (tables: seq<SummaryTable>)
    ensures |tables| == |currencies|
  {
    seq(|currencies|, i requires 0 <= i < |currencies| => SummaryTableOf(currencies[i].0, currencies[i].1, month))
  }

  /** The body of `for cur in sorted(by_cat)`: rows and running totals. */
  method SummaryTableFor(currency: string, buckets: seq<(Option<int>, seq<Expense>)>,
                         month: Option<string>) returns (table: SummaryTable)
    ensures table == SummaryTableOf(currency, buckets, month)
  {
    var accounts := Sorting.SortBy(buckets, AccountLe);
    var rows: seq<SummaryRow> := [];
    var totalGross, totalNet, totalVat := 0.0, 0.0, 0.0;
    for j := 0 to |accounts|
      invariant rows == SummaryRows(accounts[..j])
      invariant totalGross == Total(accounts[..j], GrossOf)
      invariant totalNet == Total(accounts[..j], NetOf)
      invariant totalVat == Total(accounts[..j], VatOf)
    {
      var items := accounts[j].1;
      var gross, net, vat := Sum(items, GrossOf), Sum(items, NetOf), Sum(items, VatOf);
      rows := rows + [SummaryRowOf(accounts[j])];
      totalGross := totalGross + gross;
      totalNet := totalNet + net;
      totalVat := totalVat + vat;
      assert accounts[..j + 1][..j] == accounts[..j];
    }
    assert accounts[..|accounts|] == accounts;
    table := SummaryTable(currency, Title("Expense Summary", currency, month), rows,
                          |buckets|, totalGross, totalNet, totalVat);
  }

  /** `summary_report`: filter, group by currency and account, one table per currency. */
  method SummaryReport(records: seq<Expense>, month: Option<string>, currency: Option<string>)
    returns (r: Option<seq<SummaryTable>>)
    ensures r == SummaryReportSpec(records, month, currency)
  {
    var es := Filter(records, month, currency);
    if es == [] {
      return None;
    }
    var byCat := GroupNested(es, AccountOf);
    var currencies := Sorting.SortBy(byCat, CurrencyLe);
    var tables := SummaryTablesFor(currencies, month);
    return Some(tables);
  }

  /** `for cur in sorted(by_cat)`: a table per currency, in the sorted order. */
  method SummaryTablesFor(currencies: Buckets<Option<int>>, month: Option<string>)
    returns (tables: seq<SummaryTable>)
    ensures tables == SummaryTables(currencies, month)
  {
    tables := [];
    for i := 0 to |currencies|
      invariant |tables| == i
      invariant forall k :: 0 <= k < i ==> tables[k] == SummaryTableOf(currencies[k].0, currencies[k].1, month)
    {
      var table := SummaryTableFor(currencies[i].0, currencies[i].1, month);
      tables := tables + [table];
    }
  }

  /** No account of the catalogue is called "Uncategorized". */
  lemma CatalogueNamesNotUncategorized(n: int)
    requires Categories.GetAccount(n).Some?
    ensures Categories.GetAccount(n).value.name != "Uncategorized"
  {
    var accounts := Categories.KmuAccounts;
    var i := Categories.FindKey(accounts, n);
    assert Categories.GetAccount(n).value == accounts[i].1;
    Categories.CatalogueNameInitials();
  }

  /**
   * The category name is the catalogue's name of a given account the
   * catalogue has, and "Uncategorized" exactly when the account is
   * missing, 0 or not in the catalogue.
   */
  lemma CategoryNameSpec(account: Option<int>)
    ensures CategoryName(account) == "Uncategorized"
        <==> !(AccountGiven(account) && Categories.GetAccount(account.value).Some?)
    ensures AccountGiven(account) && Categories.GetAccount(account.value).Some? ==>
              Categories.InCatalogue(account.value, CategoryName(account))
  {
    if AccountGiven(account) && Categories.GetAccount(account.value).Some? {
      CatalogueNamesNotUncategorized(account.value);
    }
  }

  /** The account cell is a dash exactly when the account is missing or 0. */
  lemma AccountCellSpec(account: Option<int>)
    ensures AccountCell(account) == "—" <==> !AccountGiven(account)
    ensures AccountGiven(account) && account.value > 0 ==> DigitsValue(AccountCell(account)) == account.value
  {
    if AccountGiven(account) {
      var n := account.value;
      if n < 0 {
        assert IntToString(n)[0] == '-';
      } else {
        assert IsDigit(IntToString(n)[0]);
        NatToStringRoundTrip(n);
      }
    }
  }

  /**
   * The table of a currency's expenses: every total is the sum over all of
   * them, the rows' counts add up to their number, and the total row's
   * count is the number of account buckets, one per row.
   */
  lemma SummaryTableTotals(currency: string, items: seq<Expense>, month: Option<string>)
    ensures var t := SummaryTableOf(currency, GroupBy(items, AccountOf), month);
      && t.gross == Sum(items, GrossOf) && t.net == Sum(items, NetOf) && t.vat == Sum(items, VatOf)
      && t.count == |t.rows|
      && RowCounts(t.rows) == |items|
  {
    var g := GroupBy(items, AccountOf);
    var accounts := Sorting.SortBy(g, AccountLe);
    GroupByTotal(items, AccountOf, GrossOf);
    GroupByTotal(items, AccountOf, NetOf);
    GroupByTotal(items, AccountOf, VatOf);
    SortedTotal(g, AccountLe, GrossOf);
    SortedTotal(g, AccountLe, NetOf);
    SortedTotal(g, AccountLe, VatOf);
    assert |accounts| == |g| by {
      assert |multiset(accounts)| == |multiset(g)|;
    }
    RowCountsSize(accounts);
  }

  /**
   * Each row of a currency's table is one account bucket: the expenses of
   * that currency with that account, at least one, their count and sums.
   */
  lemma SummaryRowsAreBuckets(currency: string, items: seq<Expense>, month: Option<string>)
    ensures var t := SummaryTableOf(currency, GroupBy(items, AccountOf), month);
      var accounts := Sorting.SortBy(GroupBy(items, AccountOf), AccountLe);
      forall k :: 0 <= k < |t.rows| ==>
        var mine := Select(items, AccountOf, accounts[k].0);
        mine != [] && t.rows[k] == SummaryRowOf((accounts[k].0, mine))
  {
    var g := GroupBy(items, AccountOf);
    var accounts := Sorting.SortBy(g, AccountLe);
    GroupBySpec(items, AccountOf);
    forall k | 0 <= k < |accounts|
      ensures accounts[k].1 == Select(items, AccountOf, accounts[k].0) && accounts[k].1 != []
    {
      assert accounts[k] in multiset(g);
      var p :| 0 <= p < |g| && g[p] == accounts[k];
    }
  }

  /** The sum of the rows' counts. */
  function RowCounts(rows: seq<SummaryRow>): nat
  {
    if rows == [] then 0 else RowCounts(rows[..|rows| - 1]) + rows[|rows| - 1].count
  }

  lemma {:induction false} RowCountsSize(buckets: seq<(Option<int>, seq<Expense>)>)
    ensures RowCounts(SummaryRows(buckets)) == Size(buckets)
    decreases |buckets|
  {
    if buckets != [] {
      var front := buckets[..|buckets| - 1];
      RowCountsSize(front);
      assert SummaryRows(buckets)[..|buckets| - 1] == SummaryRows(front);
    }
  }

  /**
   * Within a table the rows follow the account order, `None` and 0 first
   * as 0, and buckets with equal keys keep the order they were first seen in.
   */
  lemma SummaryRowOrder(buckets: seq<(Option<int>, seq<Expense>)>, b: (Option<int>, seq<Expense>))
    ensures Sorting.SortedBy(Sorting.SortBy(buckets, AccountLe), AccountLe)
    ensures Sorting.Ties(Sorting.SortBy(buckets, AccountLe), AccountLe, b) == Sorting.Ties(buckets, AccountLe, b)
  {
    AccountOrder<seq<Expense>>();
    Sorting.SortBySorted(buckets, AccountLe);
    Sorting.SortByStable(buckets, AccountLe, b);
  }

  /** The summary report is empty exactly when no expense passes the filters. */
  lemma SummaryReportEmpty(records: seq<Expense>, month: Option<string>, currency: Option<string>)
    ensures SummaryReportSpec(records, month, currency).None? <==> Filter(records, month, currency) == []
  {
  }

  /** The summary tables come one per currency, in ascending order of currency. */
  lemma SummaryReportOrder(records: seq<Expense>, month: Option<string>, currency: Option<string>)
    requires SummaryReportSpec(records, month, currency).Some?
    ensures var tables := SummaryReportSpec(records, month, currency).value;
      forall i, j :: 0 <= i < j < |tables| ==>
        Sorting.LexLe(tables[i].currency, tables[j].currency) && tables[i].currency != tables[j].currency
  {
    var es := Filter(records, month, currency);
    SortedCurrencies(es, AccountOf);
  }

  /** Every currency of a selected expense has its table. */
  lemma SummaryReportCovers(records: seq<Expense>, month: Option<string>, currency: Option<string>)
    requires SummaryReportSpec(records, month, currency).Some?
    ensures var es := Filter(records, month, currency);
      var tables := SummaryReportSpec(records, month, currency).value;
      forall k :: 0 <= k < |es| ==> exists i :: 0 <= i < |tables| && tables[i].currency == es[k].currency
  {
    var es := Filter(records, month, currency);
    var curs := Sorting.SortBy(Nested(es, AccountOf), CurrencyLe);
    var tables := SummaryReportSpec(records, month, currency).value;
    SortedCurrencies(es, AccountOf);
    forall k | 0 <= k < |es|
      ensures exists i :: 0 <= i < |tables| && tables[i].currency == es[k].currency
    {
      var i :| 0 <= i < |curs| && curs[i].0 == es[k].currency;
      assert tables[i].currency == curs[i].0;
    }
  }

  /**
   * A currency's table totals are the sums over that currency's selected
   * expenses, of which there is at least one.
   */
  lemma SummaryReportTotals(records: seq<Expense>, month: Option<string>, currency: Option<string>, i: nat)
    requires SummaryReportSpec(records, month, currency).Some?
    requires i < |SummaryReportSpec(records, month, currency).value|
    ensures var t := SummaryReportSpec(records, month, currency).value[i];
      var mine := Select(Filter(records, month, currency), CurrencyOf, t.currency);
      && mine != []
      && t.gross == Sum(mine, GrossOf) && t.net == Sum(mine, NetOf) && t.vat == Sum(mine, VatOf)
  {
    var es := Filter(records, month, currency);
    var curs := Sorting.SortBy(Nested(es, AccountOf), CurrencyLe);
    assert curs[i] in curs;
    SortedCurrencyEntry(es, AccountOf, curs[i]);
    SummaryTableTotals(curs[i].0, Select(es, CurrencyOf, curs[i].0), month);
  }

  // ---------------------------------------------------------------------
  // The VAT report
  // ---------------------------------------------------------------------

  /** The "VAT Rate" cell: the rate's label, or the rate itself followed by "%". */
  datatype RateCell = Named(text: string) | Percent(rate: real)

  /** `RATE_LABELS.get(rate, f"{rate}%")`. */
  function RateCellOf(rate: real): RateCell
  {
    var known := Vat.RateLabel(rate);
    if known.Some? then Named(known.value) else Percent(rate)
  }

  datatype VatRow = VatRow(rate: RateCell, count: nat, gross: real, net: real, vat: real)

  /** One currency's table; its "Total" row leaves the net cell blank. */
  datatype VatTable = VatTable(currency: string, title: string, rows: seq<VatRow>,
                               count: nat, gross: real, vat: real)

  function VatRowOf(bucket: (real, seq<Expense>)): VatRow
  {
    VatRow(RateCellOf(bucket.0), |bucket.1|,
           Sum(bucket.1, GrossOf), Sum(bucket.1, NetOf), Sum(bucket.1, VatOf))
  }

  function VatRows(buckets: seq<(real, seq<Expense>)>): (rows: seq<VatRow>)
  {
    seq(|buckets|, i requires 0 <= i < |buckets| => VatRowOf(buckets[i]))
  }

  /**
   * The table of one currency: a row per rate in ascending order, and a
   * total row whose count is the number of expenses over all buckets.
   */
  function VatTableOf(currency: string, buckets: seq<(real, seq<Expense>)>,
                      month: Option<string>): VatTable
  {
    var rates := Sorting.SortBy(buckets, RateLe);
    VatTable(currency, Title("MWST/VAT Report", currency, month), VatRows(rates),
             Size(buckets), Total(rates, GrossOf), Total(rates, VatOf))
  }

  function VatTables(currencies: Buckets<real>, month: Option<string>): (tables: seq<VatTable>)
    ensures |tables| == |currencies|
  {
    seq(|currencies|, i requires 0 <= i < |currencies| => VatTableOf(currencies[i].0, currencies[i].1, month))
  }

  /** `vat_report(month)`: the month filter only; nothing for an empty selection. */
  function VatReportSpec(records: seq<Expense>, month: Option<string>): Option<seq<VatTable>>
  {
    var es := Filter(records, month, None);
    if es == [] then None
    else Some(VatTables(Sorting.SortBy(Nested(es, RateOf), CurrencyLe), month))
  }

  /** The body of `for cur in sorted(by_rate)`: rows and the gross and VAT running totals. */
  method VatTableFor(currency: string, buckets: seq<(real, seq<Expense>)>,
                     month: Option<string>) returns (table: VatTable)
    ensures table == VatTableOf(currency, buckets, month)
  {
    var rates := Sorting.SortBy(buckets, RateLe);
    var rows: seq<VatRow> := [];
    var totalGross, totalVat := 0.0, 0.0;
    for j := 0 to |rates|
      invariant rows == VatRows(rates[..j])
      invariant totalGross == Total(rates[..j], GrossOf)
      invariant totalVat == Total(rates[..j], VatOf)
    {
      var items := rates[j].1;
      var gross, vat := Sum(items, GrossOf), Sum(items, VatOf);
      rows := rows + [VatRowOf(rates[j])];
      totalGross := totalGross + gross;
      totalVat := totalVat + vat;
      assert rates[..j + 1][..j] == rates[..j];
    }
    assert rates[..|rates|] == rates;
    table := VatTable(currency, Title("MWST/VAT Report", currency, month), rows,
                      Size(buckets), totalGross, totalVat);
  }

  method VatTablesFor(currencies: Buckets<real>, month: Option<string>) returns (tables: seq<VatTable>)
    ensures tables == VatTables(currencies, month)
  {
    tables := [];
    for i := 0 to |currencies|
      invariant |tables| == i
      invariant forall k :: 0 <= k < i ==> tables[k] == VatTableOf(currencies[k].0, currencies[k].1, month)
    {
      var table := VatTableFor(currencies[i].0, currencies[i].1, month);
      tables := tables + [table];
    }
  }

  /** `vat_report`: filter by month, group by currency and rate, one table per currency. */
  method VatReport(records: seq<Expense>, month: Option<string>) returns (r: Option<seq<VatTable>>)
    ensures r == VatReportSpec(records, month)
  {
    var es := Filter(records, month, None);
    if es == [] {
      return None;
    }
    var byRate := GroupNested(es, RateOf);
    var currencies := Sorting.SortBy(byRate, CurrencyLe);
    var tables := VatTablesFor(currencies, month);
    return Some(tables);
  }

  /** A labelled rate shows its label, and any other rate shows itself. */
  lemma RateCellSpec(rate: real, name: string)
    ensures RateCellOf(rate) == Named(name) <==> (rate, name) in Vat.RateLabels
    ensures RateCellOf(rate) == Percent(rate) <==> rate !in {8.1, 2.6, 3.8, 0.0}
  {
    Vat.RateLabelKeys();
    if (rate, name) in Vat.RateLabels {
      var i :| 0 <= i < |Vat.RateLabels| && Vat.RateLabels[i] == (rate, name);
      assert Vat.RateLabels[i].0 in (set j | 0 <= j < |Vat.RateLabels| :: Vat.RateLabels[j].0);
    }
  }

  /**
   * The table of a currency's expenses: the total count is the number of
   * expenses, the gross and VAT totals their sums, and the rows are one
   * per distinct rate, in strictly ascending order of rate.
   */
  lemma VatTableTotals(currency: string, items: seq<Expense>, month: Option<string>)
    ensures var t := VatTableOf(currency, GroupBy(items, RateOf), month);
      && t.count == |items|
      && t.gross == Sum(items, GrossOf) && t.vat == Sum(items, VatOf)
  {
    var g := GroupBy(items, RateOf);
    GroupByTotal(items, RateOf, GrossOf);
    GroupByTotal(items, RateOf, VatOf);
    SortedTotal(g, RateLe, GrossOf);
    SortedTotal(g, RateLe, VatOf);
  }

  /** The rate buckets of a table are in strictly ascending order of rate. */
  lemma VatRateOrder(items: seq<Expense>)
    ensures var rates := Sorting.SortBy(GroupBy(items, RateOf), RateLe);
      forall i, j :: 0 <= i < j < |rates| ==> rates[i].0 < rates[j].0
  {
    var g := GroupBy(items, RateOf);
    GroupBySpec(items, RateOf);
    RateOrder<seq<Expense>>();
    Sorting.SortBySorted(g, RateLe);
    SortByKeys(g, RateLe);
  }

  /**
   * The two reports count differently: the summary's total row counts
   * account buckets, the VAT report's counts expenses. Two expenses of one
   * currency, account and rate give 1 in the one and 2 in the other.
   */
  lemma TotalCountsDiffer(e: Expense, month: Option<string>)
    ensures SummaryTableOf(e.currency, GroupBy([e, e], AccountOf), month).count == 1
    ensures VatTableOf(e.currency, GroupBy([e, e], RateOf), month).count == 2
  {
    SameKeyOneGroup(e, AccountOf);
    VatTableTotals(e.currency, [e, e], month);
  }

  lemma SameKeyOneGroup<K>(e: Expense, key: Expense -> K)
    ensures |GroupBy([e, e], key)| == 1
  {
    GroupBySnoc([], e, key);
    assert [] + [e] == [e];
    var g1 := GroupBy([e], key);
    assert g1 == [(key(e), [e])];
    GroupBySnoc([e], e, key);
    assert [e] + [e] == [e, e];
    assert Find(g1, key(e)) == 0;
  }

  lemma VatReportEmpty(records: seq<Expense>, month: Option<string>)
    ensures VatReportSpec(records, month).None? <==> Filter(records, month, None) == []
  {
  }

  /** The VAT tables come one per currency, in ascending order of currency. */
  lemma VatReportOrder(records: seq<Expense>, month: Option<string>)
    requires VatReportSpec(records, month).Some?
    ensures var tables := VatReportSpec(records, month).value;
      forall i, j :: 0 <= i < j < |tables| ==>
        Sorting.LexLe(tables[i].currency, tables[j].currency) && tables[i].currency != tables[j].currency
  {
    SortedCurrencies(Filter(records, month, None), RateOf);
  }

  /** Every currency of a selected expense has its VAT table. */
  lemma VatReportCovers(records: seq<Expense>, month: Option<string>)
    requires VatReportSpec(records, month).Some?
    ensures var es := Filter(records, month, None);
      var tables := VatReportSpec(records, month).value;
      forall k :: 0 <= k < |es| ==> exists i :: 0 <= i < |tables| && tables[i].currency == es[k].currency
  {
    var es := Filter(records, month, None);
    var curs := Sorting.SortBy(Nested(es, RateOf), CurrencyLe);
    var tables := VatReportSpec(records, month).value;
    SortedCurrencies(es, RateOf);
    forall k | 0 <= k < |es|
      ensures exists i :: 0 <= i < |tables| && tables[i].currency == es[k].currency
    {
      var i :| 0 <= i < |curs| && curs[i].0 == es[k].currency;
      assert tables[i].currency == curs[i].0;
    }
  }

  /** A currency's VAT table counts that currency's selected expenses and sums their gross and VAT. */
  lemma VatReportTotals(records: seq<Expense>, month: Option<string>, i: nat)
    requires VatReportSpec(records, month).Some?
    requires i < |VatReportSpec(records, month).value|
    ensures var t := VatReportSpec(records, month).value[i];
      var mine := Select(Filter(records, month, None), CurrencyOf, t.currency);
      && mine != []
      && t.count == |mine|
      && t.gross == Sum(mine, GrossOf) && t.vat == Sum(mine, VatOf)
  {
    var es := Filter(records, month, None);
    var curs := Sorting.SortBy(Nested(es, RateOf), CurrencyLe);
    assert curs[i] in curs;
    SortedCurrencyEntry(es, RateOf, curs[i]);
    VatTableTotals(curs[i].0, Select(es, CurrencyOf, curs[i].0), month);
  }
}
