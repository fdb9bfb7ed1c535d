// The JSON ledger (`storage/local_json.py`). The files it keeps are the
// fields of one object: the global ledger, the per-month ledgers keyed by
// "YYYY-MM", the global CSV and the per-month CSVs. A record and its JSON
// dump are the same value here; locking and the byte formats of JSON and
// CSV are not modelled.
module LocalJson {
  import opened Wrappers
  import opened Text
  import Dates
  import opened ExpenseModel
  import Sorting

  // ---------------------------------------------------------------------
  // Month keys
  // ---------------------------------------------------------------------

  /** The "date" entry of a record's dump: the ISO text, or null. */
  function StoredDate(e: Expense): Option<string>
  {
    if e.date.Some? then Some(Dates.IsoFormat(e.date.value)) else None
  }

  /** `_month_key`: the first seven characters of a date text of at least seven. */
  function MonthKeyOf(date: Option<string>): (k: Option<string>)
    ensures k.Some? ==> |k.value| == 7
  {
    if date.Some? && |date.value| >= 7 then Some(date.value[..7]) else None
  }

  function MonthKey(e: Expense): Option<string>
  {
    MonthKeyOf(StoredDate(e))
  }

  /**
   * A dated record's month key is its zero-padded year and month, "YYYY-MM";
   * an undated record has none.
   */
  lemma MonthKeyOfDate(e: Expense)
    ensures e.date.None? ==> MonthKey(e) == None
    ensures e.date.Some? ==> MonthKey(e) == Some(Dates.Padded(e.date.value.year, 4) + "-" + Dates.Padded(e.date.value.month, 2))
    ensures e.date.Some? ==> var k := MonthKey(e).value;
      DigitsValue(k[..4]) == e.date.value.year && k[4] == '-' && DigitsValue(k[5..]) == e.date.value.month
  {
    if e.date.Some? {
      var d := e.date.value;
      var y, m, dd := Dates.Padded(d.year, 4), Dates.Padded(d.month, 2), Dates.Padded(d.day, 2);
      Dates.IsoPartsOfJoin(y, m, dd);
      var s := Dates.IsoFormat(d);
      assert s == y + "-" + m + "-" + dd;
      assert s[..7] == y + "-" + m;
      assert s[..7][..4] == y && s[..7][5..] == m;
    }
  }

  // ---------------------------------------------------------------------
  // Upsert by id
  // ---------------------------------------------------------------------

  /** The position of the first record with id `id`, or `|rs|` if none. */
  function IdIndex(rs: seq<Expense>, id: string): (i: nat)
    ensures i <= |rs|
    ensures i < |rs| ==> rs[i].id == id
    ensures forall j :: 0 <= j < i ==> rs[j].id != id
  {
    if rs == [] then 0
    else if rs[0].id == id then 0
    else 1 + IdIndex(rs[1..], id)
  }

  /** Replace the first record with `e`'s id by `e`, or append `e`. */
  function Upsert(rs: seq<Expense>, e: Expense): seq<Expense>
  {
    var i := IdIndex(rs, e.id);
    if i < |rs| then rs[i := e] else rs + [e]
  }

  /**
   * Upserting keeps the count when a record has the id and adds one
   * otherwise; the first record with the id becomes `e` (or `e` comes last)
   * and every other record stays where it was.
   */
  lemma UpsertSpec(rs: seq<Expense>, e: Expense)
    ensures var r := Upsert(rs, e);
      && ((exists j :: 0 <= j < |rs| && rs[j].id == e.id) ==> |r| == |rs|)
      && ((forall j :: 0 <= j < |rs| ==> rs[j].id != e.id) ==> r == rs + [e])
      && (forall j :: 0 <= j < |rs| && j != IdIndex(rs, e.id) ==> r[j] == rs[j])
      && IdIndex(rs, e.id) < |r| && r[IdIndex(rs, e.id)] == e
  {
  }

  /** The ids of the records are pairwise distinct. */
  predicate UniqueIds(rs: seq<Expense>)
  {
    forall i, j :: 0 <= i < j < |rs| ==> rs[i].id != rs[j].id
  }

  /**
   * On a ledger with distinct ids, upserting keeps them distinct, and the
   * record with `e`'s id afterwards is `e` itself, exactly once.
   */
  lemma UpsertKeepsIdsUnique(rs: seq<Expense>, e: Expense)
    requires UniqueIds(rs)
    ensures UniqueIds(Upsert(rs, e))
    ensures var r := Upsert(rs, e);
      forall j :: 0 <= j < |r| && r[j].id == e.id ==> j == IdIndex(rs, e.id) && r[j] == e
  {
  }

  /** Saving two copies with one id leaves only the second copy's fields. */
  lemma UpsertTwice(rs: seq<Expense>, e1: Expense, e2: Expense)
    requires e1.id == e2.id
    ensures Upsert(Upsert(rs, e1), e2) == Upsert(rs, e2)
  {
    var i := IdIndex(rs, e1.id);
    var r1 := Upsert(rs, e1);
    assert IdIndex(r1, e2.id) == i by {
      var k := IdIndex(r1, e2.id);
      assert r1[i] == e1;
      assert k <= i;
      assert k >= i;
    }
  }

  /** The records without a stored copy of the file: `dict.get(month, [])`. */
  function Get(m: map<string, seq<Expense>>, k: string): seq<Expense>
  {
    if k in m then m[k] else []
  }

  /**
   * `_update_monthly_single`: upserts `e` into the ledger of its month;
   * nothing for an undated record.
   */
  function UpdateMonthlySingle(monthly: map<string, seq<Expense>>, e: Expense): map<string, seq<Expense>>
  {
    var mk := MonthKey(e);
    if mk.None? then monthly else monthly[mk.value := Upsert(Get(monthly, mk.value), e)]
  }

  /**
   * A record that moved to another month leaves its old copy behind: only
   * the month of the new date is touched, every other month ledger is kept
   * as it was, and an undated record touches none.
   */
  lemma StaleCopyKeptOnSave(monthly: map<string, seq<Expense>>, e: Expense, k: string)
    requires k in monthly && MonthKey(e) != Some(k)
    ensures k in UpdateMonthlySingle(monthly, e) && UpdateMonthlySingle(monthly, e)[k] == monthly[k]
    ensures MonthKey(e).None? ==> UpdateMonthlySingle(monthly, e) == monthly
  {
  }

  // ---------------------------------------------------------------------
  // Grouping by month
  // ---------------------------------------------------------------------

  /** The records of month `k`, in ledger order. */
  function MonthRecords(rs: seq<Expense>, k: string): seq<Expense>
  {
    if rs == [] then []
    else MonthRecords(rs[..|rs| - 1], k) + (if MonthKey(rs[|rs| - 1]) == Some(k) then [rs[|rs| - 1]] else [])
  }

  /** `by_month`, filled by appending each dated record to its month's list. */
  function ByMonth(rs: seq<Expense>): map<string, seq<Expense>>
  {
    if rs == [] then map[]
    else
      var m := ByMonth(rs[..|rs| - 1]);
      var r := rs[|rs| - 1];
      var mk := MonthKey(r);
      if mk.None? then m else m[mk.value := Get(m, mk.value) + [r]]
  }

  /** Some record of the ledger is dated in month `k`. */
  predicate HasMonth(rs: seq<Expense>, k: string)
  {
    exists i :: 0 <= i < |rs| && MonthKey(rs[i]) == Some(k)
  }

  lemma {:induction false} HasMonthOfFront(rs: seq<Expense>, k: string)
    requires rs != []
    ensures HasMonth(rs, k) <==> HasMonth(rs[..|rs| - 1], k) || MonthKey(rs[|rs| - 1]) == Some(k)
  {
    if HasMonth(rs, k) {
      MonthInFrontOrLast(rs, k);
    }
    if HasMonth(rs[..|rs| - 1], k) {
      MonthOfFront(rs, k);
    }
    if MonthKey(rs[|rs| - 1]) == Some(k) {
      assert HasMonth(rs, k);
    }
  }

  lemma {:induction false} MonthInFrontOrLast(rs: seq<Expense>, k: string)
    requires rs != [] && HasMonth(rs, k)
    ensures HasMonth(rs[..|rs| - 1], k) || MonthKey(rs[|rs| - 1]) == Some(k)
  {
    var i :| 0 <= i < |rs| && MonthKey(rs[i]) == Some(k);
    if i < |rs| - 1 {
      assert rs[..|rs| - 1][i] == rs[i];
    }
  }

  lemma {:induction false} MonthOfFront(rs: seq<Expense>, k: string)
    requires rs != [] && HasMonth(rs[..|rs| - 1], k)
    ensures HasMonth(rs, k)
  {
    var i :| 0 <= i < |rs| - 1 && MonthKey(rs[..|rs| - 1][i]) == Some(k);
    assert rs[i] == rs[..|rs| - 1][i];
  }

  /** The months grouped are exactly the months of dated records. */
  lemma {:induction false} ByMonthKeys(rs: seq<Expense>)
    ensures forall k :: k in ByMonth(rs) <==> HasMonth(rs, k)
    decreases |rs|
  {
    if rs != [] {
      ByMonthKeys(rs[..|rs| - 1]);
      forall k
        ensures k in ByMonth(rs) <==> HasMonth(rs, k)
      {
        HasMonthOfFront(rs, k);
      }
    }
  }

  /** Each month grouped holds the records of that month, in ledger order. */
  lemma {:induction false} ByMonthContents(rs: seq<Expense>)
    ensures forall k :: k in ByMonth(rs) ==> ByMonth(rs)[k] == MonthRecords(rs, k)
    decreases |rs|
  {
    if rs != [] {
      var front := rs[..|rs| - 1];
      ByMonthContents(front);
      ByMonthKeys(front);
      forall k | k in ByMonth(rs)
        ensures ByMonth(rs)[k] == MonthRecords(rs, k)
      {
        if k !in ByMonth(front) {
          MonthRecordsEmpty(front, k);
        }
      }
    }
  }

  /**
   * The months grouped are exactly the months of dated records, and each
   * holds the records of that month in their ledger order.
   */
  lemma ByMonthSpec(rs: seq<Expense>)
    ensures forall k :: k in ByMonth(rs) <==> HasMonth(rs, k)
    ensures forall k :: k in ByMonth(rs) ==> ByMonth(rs)[k] == MonthRecords(rs, k)
  {
    ByMonthKeys(rs);
    ByMonthContents(rs);
  }

  /** A month with no dated record in the ledger groups nothing. */
  lemma {:induction false} MonthRecordsEmpty(rs: seq<Expense>, k: string)
    requires !HasMonth(rs, k)
    ensures MonthRecords(rs, k) == []
    decreases |rs|
  {
    if rs != [] {
      HasMonthOfFront(rs, k);
      MonthRecordsEmpty(rs[..|rs| - 1], k);
    }
  }

  /**
   * `_rebuild_monthly`: writes the ledger of every month that has a record.
   * A month left without records keeps its old file.
   */
  function Rebuilt(monthly: map<string, seq<Expense>>, rs: seq<Expense>): map<string, seq<Expense>>
  {
    monthly + ByMonth(rs)
  }

  /**
   * After a rebuild every month with a record holds exactly its records,
   * and a month without records still holds what it held before.
   */
  lemma RebuiltSpec(monthly: map<string, seq<Expense>>, rs: seq<Expense>, k: string)
    ensures HasMonth(rs, k) ==>
      k in Rebuilt(monthly, rs) && Rebuilt(monthly, rs)[k] == MonthRecords(rs, k)
    ensures !HasMonth(rs, k) ==>
      (k in Rebuilt(monthly, rs) <==> k in monthly) &&
      (k in monthly ==> Rebuilt(monthly, rs)[k] == monthly[k])
  {
    ByMonthSpec(rs);
  }

  // ---------------------------------------------------------------------
  // CSV views
  // ---------------------------------------------------------------------

  /** One row of a ledger CSV, in the column order of `CSV_FIELDS`. */
  datatype CsvRow = CsvRow(
    id: string, date: string, vendor: string, vendorCountry: string, description: string,
    invoiceNumber: string, receiptNumber: string, period: string,
    amountGross: real, amountNet: real, currency: string,
    vatRate: real, vatAmount: real, vatNumber: string,
    categoryAccount: string, categoryName: string,
    labels: string, notes: string, filePath: string, status: string)

  /** The sort key of `_write_csv`: the date text, "" for an undated record. */
  function DateKey(e: Expense): string
  {
    if e.date.Some? then Dates.IsoFormat(e.date.value) else ""
  }

  /** A record's row: labels joined by "; ", and no account for None or 0. */
  function Row(e: Expense): CsvRow
  {
    CsvRow(e.id, DateKey(e), e.vendor, e.vendorCountry, e.description,
           e.invoiceNumber, e.receiptNumber, e.period,
           e.amountGross, e.amountNet, e.currency,
           e.vatRate, e.vatAmount, e.vatNumber,
           if e.categoryAccount.None? || e.categoryAccount.value == 0 then ""
           else IntToString(e.categoryAccount.value),
           e.categoryName, Join("; ", e.labels), e.notes, e.filePath, StatusValue(e.status))
  }

  predicate DateLe(a: Expense, b: Expense)
  {
    Sorting.LexLe(DateKey(a), DateKey(b))
  }

  /** The records in CSV order: stably sorted by date text. */
  function SortedByDate(rs: seq<Expense>): seq<Expense>
  {
    Sorting.SortBy(rs, DateLe)
  }

  /** `_write_csv(records)`: the rows of the records sorted by date. */
  function CsvRows(rs: seq<Expense>): (rows: seq<CsvRow>)
    ensures |rows| == |rs|
  {
    var s := SortedByDate(rs);
    assert |s| == |multiset(s)| == |multiset(rs)| == |rs|;
    seq(|s|, i requires 0 <= i < |s| => Row(s[i]))
  }

  /** Comparing records by date text is a total preorder. */
  lemma DateLePreorder()
    ensures Sorting.TotalPreorder(DateLe)
  {
    forall a: Expense, b: Expense
      ensures DateLe(a, b) || DateLe(b, a)
    {
      Sorting.LexLeTotal(DateKey(a), DateKey(b));
    }
    forall a: Expense, b: Expense, c: Expense | DateLe(a, b) && DateLe(b, c)
      ensures DateLe(a, c)
    {
      Sorting.LexLeTrans(DateKey(a), DateKey(b), DateKey(c));
    }
  }

  /**
   * The CSV order holds every record once, in ascending order of date text,
   * so undated records come first.
   */
  lemma SortedByDateOrdered(rs: seq<Expense>)
    ensures multiset(SortedByDate(rs)) == multiset(rs)
    ensures forall i, j :: 0 <= i < j < |SortedByDate(rs)| ==>
      Sorting.LexLe(DateKey(SortedByDate(rs)[i]), DateKey(SortedByDate(rs)[j]))
  {
    DateLePreorder();
    Sorting.SortBySorted(rs, DateLe);
  }

  /** Records with the same date text keep their ledger order in the CSV. */
  lemma SortedByDateStable(rs: seq<Expense>, x: Expense)
    ensures Sorting.Ties(SortedByDate(rs), DateLe, x) == Sorting.Ties(rs, DateLe, x)
  {
    DateLePreorder();
    Sorting.SortByStable(rs, DateLe, x);
  }

  /** The CSV rows' date column ascends, and undated rows come first. */
  lemma CsvRowsByDate(rs: seq<Expense>)
    ensures forall i, j :: 0 <= i < j < |CsvRows(rs)| ==> Sorting.LexLe(CsvRows(rs)[i].date, CsvRows(rs)[j].date)
    ensures forall i, j :: 0 <= i < j < |CsvRows(rs)| && CsvRows(rs)[j].date == "" ==> CsvRows(rs)[i].date == ""
  {
    SortedByDateOrdered(rs);
    forall i, j | 0 <= i < j < |CsvRows(rs)| && CsvRows(rs)[j].date == ""
      ensures CsvRows(rs)[i].date == ""
    {
      assert Sorting.LexLe(CsvRows(rs)[i].date, "");
    }
  }

  /** `_sync_csv`: the global CSV, and the CSV of every month that has a record. */
  function SyncedMonthlyCsv(monthlyCsv: map<string, seq<CsvRow>>, rs: seq<Expense>): map<string, seq<CsvRow>>
  {
    var byMonth := ByMonth(rs);
    monthlyCsv + map k | k in byMonth :: CsvRows(byMonth[k])
  }

  /** Each month's CSV holds the rows of that month's records; emptied months keep their old CSV. */
  lemma SyncedMonthlyCsvSpec(monthlyCsv: map<string, seq<CsvRow>>, rs: seq<Expense>, k: string)
    ensures HasMonth(rs, k) ==>
      k in SyncedMonthlyCsv(monthlyCsv, rs) && SyncedMonthlyCsv(monthlyCsv, rs)[k] == CsvRows(MonthRecords(rs, k))
    ensures !HasMonth(rs, k) ==>
      (k in SyncedMonthlyCsv(monthlyCsv, rs) <==> k in monthlyCsv) &&
      (k in monthlyCsv ==> SyncedMonthlyCsv(monthlyCsv, rs)[k] == monthlyCsv[k])
  {
    var byMonth := ByMonth(rs);
    var rows := map k | k in byMonth :: CsvRows(byMonth[k]);
    assert SyncedMonthlyCsv(monthlyCsv, rs) == monthlyCsv + rows;
    ByMonthSpec(rs);
    if HasMonth(rs, k) {
      assert k in rows && rows[k] == CsvRows(MonthRecords(rs, k));
    } else {
      assert k !in rows;
    }
  }

  // ---------------------------------------------------------------------
  // Lookups and deletion
  // ---------------------------------------------------------------------

  /** The records whose id does not start with `prefix`, in order. */
  function WithoutPrefix(rs: seq<Expense>, prefix: string): seq<Expense>
  {
    if rs == [] then []
    else (if StartsWith(rs[0].id, prefix) then [] else [rs[0]]) + WithoutPrefix(rs[1..], prefix)
  }

  /**
   * Deleting by prefix keeps exactly the records whose id does not start
   * with it, and the count drops exactly when some id does.
   */
  lemma {:induction false} WithoutPrefixSpec(rs: seq<Expense>, prefix: string)
    ensures forall e :: e in WithoutPrefix(rs, prefix) <==> e in rs && !StartsWith(e.id, prefix)
    ensures |WithoutPrefix(rs, prefix)| <= |rs|
    ensures |WithoutPrefix(rs, prefix)| < |rs| <==> exists i :: 0 <= i < |rs| && StartsWith(rs[i].id, prefix)
    decreases |rs|
  {
    if rs != [] {
      WithoutPrefixSpec(rs[1..], prefix);
      if exists i :: 0 <= i < |rs| && StartsWith(rs[i].id, prefix) {
        var i :| 0 <= i < |rs| && StartsWith(rs[i].id, prefix);
        if i > 0 {
          assert rs[1..][i - 1] == rs[i];
        }
      }
      forall e | e in rs
        ensures e == rs[0] || e in rs[1..]
      {
        var i :| 0 <= i < |rs| && rs[i] == e;
        if i > 0 {
          assert rs[1..][i - 1] == e;
        }
      }
    }
  }

  /** The empty prefix matches every id, so deleting by it empties the ledger. */
  lemma {:induction false} EmptyPrefixDeletesAll(rs: seq<Expense>)
    ensures WithoutPrefix(rs, "") == []
    decreases |rs|
  {
    if rs != [] {
      EmptyPrefixDeletesAll(rs[1..]);
    }
  }

  /** `rs[i]` is the first record whose id starts with `prefix`. */
  predicate FirstWithIdPrefix(rs: seq<Expense>, i: int, prefix: string)
  {
    0 <= i < |rs| && StartsWith(rs[i].id, prefix) && forall j :: 0 <= j < i ==> !StartsWith(rs[j].id, prefix)
  }

  /** `rs[i]` is the first record whose file hash is `h`. */
  predicate FirstWithHash(rs: seq<Expense>, i: int, h: string)
  {
    0 <= i < |rs| && rs[i].fileHash == h && forall j :: 0 <= j < i ==> rs[j].fileHash != h
  }

  /** `find_by_hash(h)`: the first record with file hash `h`. */
  function KnownHash(rs: seq<Expense>, h: string): Option<Expense>
  {
    if rs == [] then None
    else if rs[0].fileHash == h then Some(rs[0])
    else KnownHash(rs[1..], h)
  }

  /** A record is known by hash exactly when one has the hash, and then it is the first such. */
  lemma {:induction false} KnownHashSpec(rs: seq<Expense>, h: string)
    ensures KnownHash(rs, h).None? <==> forall i :: 0 <= i < |rs| ==> rs[i].fileHash != h
    ensures KnownHash(rs, h).Some? ==> exists i :: FirstWithHash(rs, i, h) && rs[i] == KnownHash(rs, h).value
  {
    if rs != [] && rs[0].fileHash != h {
      KnownHashSpec(rs[1..], h);
      if KnownHash(rs, h).Some? {
        var i :| FirstWithHash(rs[1..], i, h) && rs[1..][i] == KnownHash(rs, h).value;
        assert FirstWithHash(rs, i + 1, h);
      }
    } else if rs != [] {
      assert FirstWithHash(rs, 0, h);
    }
  }

  /** What `find_by_hash` returns is `KnownHash`. */
  lemma FoundByHash(rs: seq<Expense>, h: string, r: Option<Expense>)
    requires r.None? <==> forall i :: 0 <= i < |rs| ==> rs[i].fileHash != h
    requires r.Some? ==> exists i :: FirstWithHash(rs, i, h) && rs[i] == r.value
    ensures r == KnownHash(rs, h)
  {
    KnownHashSpec(rs, h);
    if r.Some? {
      var i :| FirstWithHash(rs, i, h) && rs[i] == r.value;
      var j :| FirstWithHash(rs, j, h) && rs[j] == KnownHash(rs, h).value;
      assert !(i < j) && !(j < i);
    }
  }

  /** `find_by_id(prefix)`: the first record whose id starts with `prefix`. */
  function KnownId(rs: seq<Expense>, prefix: string): Option<Expense>
  {
    if rs == [] then None
    else if StartsWith(rs[0].id, prefix) then Some(rs[0])
    else KnownId(rs[1..], prefix)
  }

  /** A record is found by id prefix exactly when one id has the prefix, and then it is the first such. */
  lemma {:induction false} KnownIdSpec(rs: seq<Expense>, prefix: string)
    ensures KnownId(rs, prefix).None? <==> forall i :: 0 <= i < |rs| ==> !StartsWith(rs[i].id, prefix)
    ensures KnownId(rs, prefix).Some? ==> exists i :: FirstWithIdPrefix(rs, i, prefix) && rs[i] == KnownId(rs, prefix).value
  {
    if rs != [] && !StartsWith(rs[0].id, prefix) {
      KnownIdSpec(rs[1..], prefix);
      if KnownId(rs, prefix).Some? {
        var i :| FirstWithIdPrefix(rs[1..], i, prefix) && rs[1..][i] == KnownId(rs, prefix).value;
        assert FirstWithIdPrefix(rs, i + 1, prefix);
      }
    } else if rs != [] {
      assert FirstWithIdPrefix(rs, 0, prefix);
    }
  }

  /** What `find_by_id` returns is `KnownId`. */
  lemma FoundById(rs: seq<Expense>, prefix: string, r: Option<Expense>)
    requires r.None? <==> forall i :: 0 <= i < |rs| ==> !StartsWith(rs[i].id, prefix)
    requires r.Some? ==> exists i :: FirstWithIdPrefix(rs, i, prefix) && rs[i] == r.value
    ensures r == KnownId(rs, prefix)
  {
    KnownIdSpec(rs, prefix);
    if r.Some? {
      var i :| FirstWithIdPrefix(rs, i, prefix) && rs[i] == r.value;
      var j :| FirstWithIdPrefix(rs, j, prefix) && rs[j] == KnownId(rs, prefix).value;
      assert !(i < j) && !(j < i);
    }
  }

  // ---------------------------------------------------------------------
  // The store
  // ---------------------------------------------------------------------

  /** `LocalJsonStorage`, with the files it reads and writes. */
  class LocalJsonStorage {
    /** The global ledger, `ledger.json`. */
    var records: seq<Expense>
    /** The month ledgers, "YYYY-MM.json". */
    var monthly: map<string, seq<Expense>>
    /** `ledger.csv`. */
    var ledgerCsv: seq<CsvRow>
    /** The month CSVs, "YYYY-MM.csv". */
    var monthlyCsv: map<string, seq<CsvRow>>

    /** A store over files that already hold these contents. */
    constructor (records: seq<Expense>, monthly: map<string, seq<Expense>>,
                 ledgerCsv: seq<CsvRow>, monthlyCsv: map<string, seq<CsvRow>>)
      ensures this.records == records && this.monthly == monthly
      ensures this.ledgerCsv == ledgerCsv && this.monthlyCsv == monthlyCsv
    {
      this.records := records;
      this.monthly := monthly;
      this.ledgerCsv := ledgerCsv;
      this.monthlyCsv := monthlyCsv;
    }

    /** The records in ledger order (`load_all`). */
    method LoadAll() returns (rs: seq<Expense>)
      ensures rs == records
    {
      rs := records;
    }

    /**
     * `save(expense)`: upserts into the global ledger and into the ledger
     * of the record's month, then rewrites the CSVs.
     */
    method Save(e: Expense)
      modifies this
      ensures records == Upsert(old(records), e)
      ensures monthly == UpdateMonthlySingle(old(monthly), e)
      ensures ledgerCsv == CsvRows(records)
      ensures monthlyCsv == SyncedMonthlyCsv(old(monthlyCsv), records)
    {
      var rs := UpsertById(records, e);
      records := rs;
      UpdateMonthly(e);
      SyncCsv(rs);
    }

    /** `save_all(expenses)`: replaces the ledger and rebuilds the month ledgers and the CSVs. */
    method SaveAll(expenses: seq<Expense>)
      modifies this
      ensures records == expenses
      ensures monthly == Rebuilt(old(monthly), expenses)
      ensures ledgerCsv == CsvRows(expenses)
      ensures monthlyCsv == SyncedMonthlyCsv(old(monthlyCsv), expenses)
    {
      records := expenses;
      RebuildMonthly(expenses);
      SyncCsv(expenses);
    }

    /**
     * `find_by_id(prefix)`: the first record, in ledger order, whose id
     * starts with `prefix`.
     */
    method FindById(prefix: string) returns (r: Option<Expense>)
      ensures r.None? <==> forall i :: 0 <= i < |records| ==> !StartsWith(records[i].id, prefix)
      ensures r.Some? ==> StartsWith(r.value.id, prefix)
      ensures r.Some? ==> exists i :: FirstWithIdPrefix(records, i, prefix) && records[i] == r.value
      ensures r == KnownId(records, prefix)
    {
      var rs := records;
      var i := 0;
      while i < |rs|
        invariant 0 <= i <= |rs|
        invariant forall j :: 0 <= j < i ==> !StartsWith(rs[j].id, prefix)
      {
        if StartsWith(rs[i].id, prefix) {
          FoundById(rs, prefix, Some(rs[i]));
          return Some(rs[i]);
        }
        i := i + 1;
      }
      FoundById(rs, prefix, None);
      return None;
    }

    /** `find_by_hash(h)`: the first record whose file hash is exactly `h`. */
    method FindByHash(h: string) returns (r: Option<Expense>)
      ensures r.None? <==> forall i :: 0 <= i < |records| ==> records[i].fileHash != h
      ensures r.Some? ==> r.value.fileHash == h
      ensures r.Some? ==> exists i :: FirstWithHash(records, i, h) && records[i] == r.value
      ensures r == KnownHash(records, h)
    {
      var rs := records;
      var i := 0;
      while i < |rs|
        invariant 0 <= i <= |rs|
        invariant forall j :: 0 <= j < i ==> rs[j].fileHash != h
      {
        if rs[i].fileHash == h {
          FoundByHash(rs, h, Some(rs[i]));
          return Some(rs[i]);
        }
        i := i + 1;
      }
      FoundByHash(rs, h, None);
      return None;
    }

    /**
     * `delete(prefix)`: drops every record whose id starts with `prefix`;
     * when one did, rewrites the ledger, the month ledgers and the CSVs and
     * answers true; otherwise writes nothing.
     */
    method Delete(prefix: string) returns (deleted: bool)
      modifies this
      ensures deleted <==> exists i :: 0 <= i < |old(records)| && StartsWith(old(records)[i].id, prefix)
      ensures !deleted ==> unchanged(this)
      ensures deleted ==> records == WithoutPrefix(old(records), prefix)
      ensures deleted ==> monthly == Rebuilt(old(monthly), records)
      ensures deleted ==> ledgerCsv == CsvRows(records)
      ensures deleted ==> monthlyCsv == SyncedMonthlyCsv(old(monthlyCsv), records)
    {
      WithoutPrefixSpec(records, prefix);
      var kept := WithoutPrefix(records, prefix);
      if |kept| < |records| {
        records := kept;
        RebuildMonthly(kept);
        SyncCsv(kept);
        return true;
      }
      return false;
    }

    /** `_update_monthly_single(dump)`. */
    method UpdateMonthly(e: Expense)
      modifies this
      ensures monthly == UpdateMonthlySingle(old(monthly), e)
      ensures records == old(records) && ledgerCsv == old(ledgerCsv) && monthlyCsv == old(monthlyCsv)
    {
      var mk := MonthKey(e);
      if mk.None? {
        return;
      }
      var month := Get(monthly, mk.value);
      month := UpsertById(month, e);
      monthly := monthly[mk.value := month];
    }

    /** `_rebuild_monthly(records)`. */
    method RebuildMonthly(rs: seq<Expense>)
      modifies this
      ensures monthly == Rebuilt(old(monthly), rs)
      ensures records == old(records) && ledgerCsv == old(ledgerCsv) && monthlyCsv == old(monthlyCsv)
    {
      var byMonth := GroupByMonth(rs);
      monthly := monthly + byMonth;
    }

    /** `_sync_csv(records)`. */
    method SyncCsv(rs: seq<Expense>)
      modifies this
      ensures ledgerCsv == CsvRows(rs)
      ensures monthlyCsv == SyncedMonthlyCsv(old(monthlyCsv), rs)
      ensures records == old(records) && monthly == old(monthly)
    {
      ledgerCsv := CsvRows(rs);
      var byMonth := GroupByMonth(rs);
      monthlyCsv := monthlyCsv + map k | k in byMonth :: CsvRows(byMonth[k]);
    }
  }

  /**
   * The upsert loop of `save` and `_update_monthly_single`: the first record
   * with `e`'s id is replaced, or `e` is appended.
   */
  method UpsertById(rs: seq<Expense>, e: Expense) returns (r: seq<Expense>)
    ensures r == Upsert(rs, e)
  {
    var i := 0;
    while i < |rs|
      invariant 0 <= i <= |rs|
      invariant forall j :: 0 <= j < i ==> rs[j].id != e.id
    {
      if rs[i].id == e.id {
        return rs[i := e];
      }
      i := i + 1;
    }
    return rs + [e];
  }

  /** The grouping loop of `_rebuild_monthly` and `_sync_csv`. */
  method GroupByMonth(rs: seq<Expense>) returns (byMonth: map<string, seq<Expense>>)
    ensures byMonth == ByMonth(rs)
  {
    byMonth := map[];
    var i := 0;
    while i < |rs|
      invariant 0 <= i <= |rs|
      invariant byMonth == ByMonth(rs[..i])
    {
      var mk := MonthKey(rs[i]);
      if mk.Some? {
        byMonth := byMonth[mk.value := Get(byMonth, mk.value) + [rs[i]]];
      }
      assert rs[..i + 1][..i] == rs[..i];
      i := i + 1;
    }
    assert rs[..i] == rs;
  }
}
