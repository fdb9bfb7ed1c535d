// The command-line commands (`cli.py`) that change the ledger or the
// files: filing a PDF into its "YY-MM" folder, the `process` loop, the
// annotation commands and the `list-expenses` filters. The disk is a value:
// the set of files that exist and the set of folders, threaded through the
// commands; paths are taken as already resolved. Click, Rich and the
// console are not modelled; an error exit is a result value.
module Cli {
  import opened Wrappers
  import opened Text
  import Dates
  import opened ExpenseModel
  import opened LocalJson
  import Categories
  import Reports

  // ---------------------------------------------------------------------
  // Paths and the disk
  // ---------------------------------------------------------------------

  /** A resolved path: its folder and its last component. */
  datatype FilePath = FilePath(dir: string, name: string)

  /** `str(path)`. */
  function PathText(p: FilePath): string
  {
    p.dir + "/" + p.name
  }

  /** `name.rfind('.')`: the position of the last dot, or -1. */
  function LastDot(name: string): (i: int)
    ensures -1 <= i < |name|
    ensures i >= 0 ==> name[i] == '.'
    ensures forall j :: i < j < |name| ==> name[j] != '.'
  {
    if name == [] then -1
    else if name[|name| - 1] == '.' then |name| - 1
    else LastDot(name[..|name| - 1])
  }

  /** A dot that is neither the first nor the last character starts a suffix. */
  predicate HasSuffix(name: string)
  {
    0 < LastDot(name) < |name| - 1
  }

  /** `Path.suffix`. */
  function Suffix(name: string): string
  {
    if HasSuffix(name) then name[LastDot(name)..] else ""
  }

  /** `Path.stem`. */
  function Stem(name: string): string
  {
    if HasSuffix(name) then name[..LastDot(name)] else name
  }

  /**
   * The stem and the suffix make up the name; a suffix is a dot followed
   * by at least one character and no other dot, and a stem is never empty
   * when the name is not.
   */
  lemma StemSuffix(name: string)
    ensures Stem(name) + Suffix(name) == name
    ensures Suffix(name) != "" ==> |Suffix(name)| >= 2 && Suffix(name)[0] == '.' && '.' !in Suffix(name)[1..]
    ensures name != "" ==> Stem(name) != ""
  {
    if HasSuffix(name) {
      var i := LastDot(name);
      assert name[..i] + name[i..] == name;
      forall j | 0 <= j < |name[i..][1..]| ensures name[i..][1..][j] != '.' {
        assert name[i..][1..][j] == name[i + 1 + j];
      }
    }
  }

  /** The files and the folders that exist. */
  datatype FileSystem = FileSystem(files: set<FilePath>, dirs: set<string>)

  /** The "YY-MM" folder of a date under `base`. */
  function MonthDir(base: string, d: Dates.CalendarDate): string
  {
    base + "/" + Dates.StrftimeShortYm(d)
  }

  // ---------------------------------------------------------------------
  // Filing into the month folder
  // ---------------------------------------------------------------------

  /** `month_dir / f"{stem}_{i}{suffix}"`. */
  function Candidate(pdf: FilePath, dir: string, i: nat): FilePath
  {
    FilePath(dir, Stem(pdf.name) + "_" + NatToString(i) + Suffix(pdf.name))
  }

  /** Different counters give different names. */
  lemma CandidateInjective(pdf: FilePath, dir: string, i: nat, j: nat)
    requires Candidate(pdf, dir, i) == Candidate(pdf, dir, j)
    ensures i == j
  {
    var s, x := Stem(pdf.name) + "_", Suffix(pdf.name);
    var a, b := NatToString(i), NatToString(j);
    assert s + a + x == s + b + x;
    assert |a| == |b|;
    assert (s + a + x)[|s|..|s| + |a|] == a;
    assert (s + b + x)[|s|..|s| + |b|] == b;
    NatToStringInjective(i, j);
  }

  /** The first `n` candidates. */
  ghost function Candidates(pdf: FilePath, dir: string, n: nat): set<FilePath>
  {
    set k | 1 <= k <= n :: Candidate(pdf, dir, k)
  }

  lemma {:induction false} CandidatesSize(pdf: FilePath, dir: string, n: nat)
    ensures |Candidates(pdf, dir, n)| == n
    decreases n
  {
    if n > 0 {
      CandidatesSize(pdf, dir, n - 1);
      assert Candidates(pdf, dir, n) == Candidates(pdf, dir, n - 1) + {Candidate(pdf, dir, n)};
      if Candidate(pdf, dir, n) in Candidates(pdf, dir, n - 1) {
        var k :| 1 <= k <= n - 1 && Candidate(pdf, dir, k) == Candidate(pdf, dir, n);
        CandidateInjective(pdf, dir, k, n);
        assert false;
      }
    }
  }

  lemma {:induction false} SubsetSize(a: set<FilePath>, b: set<FilePath>)
    requires a <= b
    ensures |a| <= |b|
    decreases a
  {
    if a != {} {
      var x :| x in a;
      SubsetSize(a - {x}, b - {x});
    }
  }

  /** A disk with `n` candidates taken has at least `n` files. */
  lemma TakenBound(files: set<FilePath>, pdf: FilePath, dir: string, n: nat)
    requires forall k :: 1 <= k <= n ==> Candidate(pdf, dir, k) in files
    ensures n <= |files|
  {
    CandidatesSize(pdf, dir, n);
    SubsetSize(Candidates(pdf, dir, n), files);
  }

  /**
   * The smallest counter from `i` on whose name is free, when every
   * counter below `i` is taken: it is free and every counter from 1 below
   * it is taken.
   */
  function FirstFree(files: set<FilePath>, pdf: FilePath, dir: string, i: nat): (k: nat)
    requires i >= 1
    requires forall j :: 1 <= j < i ==> Candidate(pdf, dir, j) in files
    ensures k >= i && Candidate(pdf, dir, k) !in files
    ensures forall j :: 1 <= j < k ==> Candidate(pdf, dir, j) in files
    decreases |files| + 1 - i
  {
    TakenBound(files, pdf, dir, i - 1);
    if Candidate(pdf, dir, i) !in files then i
    else
      TakenBound(files, pdf, dir, i);
      FirstFree(files, pdf, dir, i + 1)
  }

  /** Only the smallest free counter is free with every counter below it taken. */
  lemma FirstFreeUnique(files: set<FilePath>, pdf: FilePath, dir: string, k: nat)
    requires k >= 1 && Candidate(pdf, dir, k) !in files
    requires forall j :: 1 <= j < k ==> Candidate(pdf, dir, j) in files
    ensures FirstFree(files, pdf, dir, 1) == k
  {
    var f := FirstFree(files, pdf, dir, 1);
    assert f <= k;
    assert f >= k;
  }

  /** Where the PDF goes in `dir`: its own name if free, else the first free `stem_i.suffix`. */
  function Destination(files: set<FilePath>, pdf: FilePath, dir: string): FilePath
  {
    var plain := FilePath(dir, pdf.name);
    if plain !in files then plain else Candidate(pdf, dir, FirstFree(files, pdf, dir, 1))
  }

  /** `_file_into_month_folder(pdf, expense, base_dir)`: the new path and the disk afterwards. */
  function Filed(fs: FileSystem, pdf: FilePath, date: Option<Dates.CalendarDate>, base: string): (FilePath, FileSystem)
  {
    if date.None? then (pdf, fs)
    else
      var dir := MonthDir(base, date.value);
      var withDir := fs.(dirs := fs.dirs + {dir});
      if pdf.dir == dir then (pdf, withDir)
      else
        var dest := Destination(fs.files, pdf, dir);
        (dest, withDir.(files := fs.files - {pdf} + {dest}))
  }

  /** `_file_into_month_folder`, with its `while dest.exists()` loop. */
  method FileIntoMonthFolder(fs: FileSystem, pdf: FilePath, date: Option<Dates.CalendarDate>, base: string)
    returns (dest: FilePath, after: FileSystem)
    ensures (dest, after) == Filed(fs, pdf, date, base)
  {
    if date.None? {
      return pdf, fs;
    }
    var folderName := Dates.StrftimeShortYm(date.value);
    var monthDir := base + "/" + folderName;
    var disk := fs.(dirs := fs.dirs + {monthDir});
    if pdf.dir == monthDir {
      return pdf, disk;
    }
    dest := FilePath(monthDir, pdf.name);
    if dest in disk.files {
      var stem, suffix := Stem(pdf.name), Suffix(pdf.name);
      var i := 1;
      while dest in disk.files
        invariant i >= 1
        invariant i == 1 ==> dest == FilePath(monthDir, pdf.name)
        invariant i > 1 ==> dest == Candidate(pdf, monthDir, i - 1)
        invariant forall j :: 1 <= j < i - 1 ==> Candidate(pdf, monthDir, j) in fs.files
        decreases |fs.files| + 2 - i
      {
        if i > 1 {
          TakenBound(fs.files, pdf, monthDir, i - 1);
        }
        dest := FilePath(monthDir, stem + "_" + NatToString(i) + suffix);
        i := i + 1;
      }
      FirstFreeUnique(fs.files, pdf, monthDir, i - 1);
    }
    after := disk.(files := fs.files - {pdf} + {dest});
  }

  /** An undated record's PDF stays where it is, and the disk is untouched. */
  lemma FiledUndated(fs: FileSystem, pdf: FilePath, base: string)
    ensures Filed(fs, pdf, None, base) == (pdf, fs)
  {
  }

  /** A PDF already in its month folder stays, and no file moves. */
  lemma FiledInPlace(fs: FileSystem, pdf: FilePath, d: Dates.CalendarDate, base: string)
    requires pdf.dir == MonthDir(base, d)
    ensures Filed(fs, pdf, Some(d), base).0 == pdf
    ensures Filed(fs, pdf, Some(d), base).1.files == fs.files
    ensures MonthDir(base, d) in Filed(fs, pdf, Some(d), base).1.dirs
  {
  }

  /**
   * A PDF elsewhere moves into its month folder under a name no file has:
   * its own name when free, else `stem_k.suffix` for the smallest `k >= 1`
   * that is free. No other file is touched, so none is overwritten.
   */
  lemma FiledMoved(fs: FileSystem, pdf: FilePath, d: Dates.CalendarDate, base: string)
    requires pdf.dir != MonthDir(base, d)
    ensures var (dest, after) := Filed(fs, pdf, Some(d), base);
      && dest.dir == MonthDir(base, d)
      && dest !in fs.files
      && after.files == fs.files - {pdf} + {dest}
      && (FilePath(dest.dir, pdf.name) !in fs.files ==> dest.name == pdf.name)
      && (FilePath(dest.dir, pdf.name) in fs.files ==>
            exists k :: k >= 1 && dest == Candidate(pdf, dest.dir, k)
              && forall j :: 1 <= j < k ==> Candidate(pdf, dest.dir, j) in fs.files)
  {
    var dir := MonthDir(base, d);
    if FilePath(dir, pdf.name) in fs.files {
      var k := FirstFree(fs.files, pdf, dir, 1);
      assert Filed(fs, pdf, Some(d), base).0 == Candidate(pdf, dir, k);
    }
  }

  /**
   * "inv.pdf" filed where "inv.pdf" and "inv_1.pdf" already exist becomes
   * "inv_2.pdf".
   */
  lemma FiledCollisionExample(base: string, d: Dates.CalendarDate)
    ensures var dir := MonthDir(base, d);
      var fs := FileSystem({FilePath(dir, "inv.pdf"), FilePath(dir, "inv_1.pdf")}, {});
      Filed(fs, FilePath(base, "inv.pdf"), Some(d), base).0 == FilePath(dir, "inv_2.pdf")
  {
    var dir := MonthDir(base, d);
    var files := {FilePath(dir, "inv.pdf"), FilePath(dir, "inv_1.pdf")};
    var pdf := FilePath(base, "inv.pdf");
    InvPdfCandidates(pdf, dir);
    FirstFreeUnique(files, pdf, dir, 2);
  }

  /** The numbered names tried for "inv.pdf". */
  lemma InvPdfCandidates(pdf: FilePath, dir: string)
    requires pdf.name == "inv.pdf"
    ensures Candidate(pdf, dir, 1) == FilePath(dir, "inv_1.pdf")
    ensures Candidate(pdf, dir, 2) == FilePath(dir, "inv_2.pdf")
  {
    assert "inv.pdf"[3] == '.' && LastDot("inv.pdf") == 3;
    assert Stem(pdf.name) == "inv" && Suffix(pdf.name) == ".pdf";
    assert NatToString(1) == "1" && NatToString(2) == "2";
  }

  /** The path a PDF on the disk is filed under is a file on the disk afterwards. */
  lemma FiledHasDest(fs: FileSystem, pdf: FilePath, date: Option<Dates.CalendarDate>, base: string)
    requires pdf in fs.files
    ensures Filed(fs, pdf, date, base).0 in Filed(fs, pdf, date, base).1.files
  {
  }

  /** Moving a PDF that exists keeps the number of files: nothing is lost or overwritten. */
  lemma FiledKeepsFileCount(fs: FileSystem, pdf: FilePath, date: Option<Dates.CalendarDate>, base: string)
    requires pdf in fs.files
    ensures |Filed(fs, pdf, date, base).1.files| == |fs.files|
  {
    if date.Some? && pdf.dir != MonthDir(base, date.value) {
      var dest := Destination(fs.files, pdf, MonthDir(base, date.value));
      FiledMoved(fs, pdf, date.value, base);
      assert dest !in fs.files - {pdf};
    }
  }

  // ---------------------------------------------------------------------
  // The store, seen as one value
  // ---------------------------------------------------------------------

  /** What `LocalJsonStorage` holds: the ledger, the month ledgers and the two CSV views. */
  datatype Ledger = Ledger(records: seq<Expense>, monthly: map<string, seq<Expense>>,
                           ledgerCsv: seq<CsvRow>, monthlyCsv: map<string, seq<CsvRow>>)

  function LedgerOf(s: LocalJsonStorage): Ledger
    reads s
  {
    Ledger(s.records, s.monthly, s.ledgerCsv, s.monthlyCsv)
  }

  /** The store after `save(e)`, as `LocalJsonStorage.Save` promises it. */
  function Saved(l: Ledger, e: Expense): Ledger
  {
    var rs := Upsert(l.records, e);
    Ledger(rs, UpdateMonthlySingle(l.monthly, e), CsvRows(rs), SyncedMonthlyCsv(l.monthlyCsv, rs))
  }

  // ---------------------------------------------------------------------
  // process
  // ---------------------------------------------------------------------

  /** The three counters `process` reports. */
  datatype Counts = Counts(processed: nat, skipped: nat, failed: nat)

  /** The store, the disk and the counters part-way through `process`. */
  datatype Run = Run(ledger: Ledger, disk: FileSystem, counts: Counts)

  /** The options of `process`: `--force`, `--no-file` and the resolved directory. */
  datatype ProcessOptions = ProcessOptions(force: bool, noFile: bool, base: string)

  /**
   * One turn of the `for pdf in pdfs` loop. `hashOf` is `file_hash` and
   * `extract` is `process_pdf` (None when nothing could be extracted).
   */
  function Step(st: Run, pdf: FilePath, opts: ProcessOptions,
                hashOf: FilePath -> string, extract: FilePath -> Option<Expense>): Run
  {
    Handle(st, pdf, opts, KnownHash(st.ledger.records, hashOf(pdf)), extract)
  }

  /** The turn once `find_by_hash` has answered `existing`. */
  function Handle(st: Run, pdf: FilePath, opts: ProcessOptions, existing: Option<Expense>,
                  extract: FilePath -> Option<Expense>): Run
  {
    if existing.Some? && !opts.force then
      st.(counts := st.counts.(skipped := st.counts.skipped + 1))
    else match extract(pdf)
      case None => st.(counts := st.counts.(failed := st.counts.failed + 1))
      case Some(x) =>
        var (e, disk) := Prepared(st.disk, pdf, opts, existing, x);
        Run(Saved(st.ledger, e), disk, st.counts.(processed := st.counts.processed + 1))
  }

  /**
   * The record saved for a PDF `x` was extracted from, and the disk after
   * filing: with `--force` it takes the id of the record it replaces, and
   * unless `--no-file` it is moved and its `file_path` is the new path.
   */
  function Prepared(disk: FileSystem, pdf: FilePath, opts: ProcessOptions, existing: Option<Expense>, x: Expense)
    : (Expense, FileSystem)
  {
    var e := if existing.Some? && opts.force then x.(id := existing.value.id) else x;
    if opts.noFile then (e, disk)
    else
      var (path, after) := Filed(disk, pdf, e.date, opts.base);
      (e.(filePath := PathText(path)), after)
  }

  /** The loop over the PDFs in order. */
  function ProcessAll(st: Run, pdfs: seq<FilePath>, opts: ProcessOptions,
                      hashOf: FilePath -> string, extract: FilePath -> Option<Expense>): Run
  {
    if pdfs == [] then st
    else Step(ProcessAll(st, pdfs[..|pdfs| - 1], opts, hashOf, extract), pdfs[|pdfs| - 1], opts, hashOf, extract)
  }

  /** `process(directory, recursive, force, no_file)` over the PDFs `_find_pdfs` found. */
  method Process(storage: LocalJsonStorage, disk: FileSystem, pdfs: seq<FilePath>, opts: ProcessOptions,
                 hashOf: FilePath -> string, extract: FilePath -> Option<Expense>)
    returns (counts: Counts, after: FileSystem)
    modifies storage
    ensures Run(LedgerOf(storage), after, counts)
         == ProcessAll(Run(old(LedgerOf(storage)), disk, Counts(0, 0, 0)), pdfs, opts, hashOf, extract)
  {
    counts, after := Counts(0, 0, 0), disk;
    if pdfs == [] {
      return;
    }
    ghost var start := Run(LedgerOf(storage), disk, counts);
    for i := 0 to |pdfs|
      invariant Run(LedgerOf(storage), after, counts) == ProcessAll(start, pdfs[..i], opts, hashOf, extract)
    {
      counts, after := ProcessOne(storage, after, counts, pdfs[i], opts, hashOf, extract);
      assert pdfs[..i + 1][..i] == pdfs[..i];
    }
    assert pdfs[..|pdfs|] == pdfs;
  }

  /** The part of a turn between extraction and `storage.save`. */
  method Prepare(disk: FileSystem, pdf: FilePath, opts: ProcessOptions, existing: Option<Expense>, x: Expense)
    returns (e: Expense, after: FileSystem)
    ensures (e, after) == Prepared(disk, pdf, opts, existing, x)
  {
    e, after := x, disk;
    if existing.Some? && opts.force {
      e := e.(id := existing.value.id);
    }
    if !opts.noFile {
      var newPath;
      newPath, after := FileIntoMonthFolder(disk, pdf, e.date, opts.base);
      e := e.(filePath := PathText(newPath));
    }
  }

  /** One turn of the loop in `process`. */
  method ProcessOne(storage: LocalJsonStorage, disk: FileSystem, counts: Counts, pdf: FilePath, opts: ProcessOptions,
                    hashOf: FilePath -> string, extract: FilePath -> Option<Expense>)
    returns (counts': Counts, after: FileSystem)
    modifies storage
    ensures Run(LedgerOf(storage), after, counts')
         == Step(Run(old(LedgerOf(storage)), disk, counts), pdf, opts, hashOf, extract)
  {
    var fhash := hashOf(pdf);
    var existing := storage.FindByHash(fhash);
    FoundByHash(storage.records, fhash, existing);
    counts', after := HandleOne(storage, disk, counts, pdf, opts, existing, extract);
  }

  /** The turn after the hash lookup: skip, fail, or extract, file and save. */
  method HandleOne(storage: LocalJsonStorage, disk: FileSystem, counts: Counts, pdf: FilePath, opts: ProcessOptions,
                   existing: Option<Expense>, extract: FilePath -> Option<Expense>)
    returns (counts': Counts, after: FileSystem)
    modifies storage
    ensures Run(LedgerOf(storage), after, counts')
         == Handle(Run(old(LedgerOf(storage)), disk, counts), pdf, opts, existing, extract)
  {
    counts', after := counts, disk;
    if existing.Some? && !opts.force {
      counts' := counts.(skipped := counts.skipped + 1);
      return;
    }
    var expense := extract(pdf);
    if expense.None? {
      counts' := counts.(failed := counts.failed + 1);
      return;
    }
    var e;
    e, after := Prepare(disk, pdf, opts, existing, expense.value);
    storage.Save(e);
    counts' := counts.(processed := counts.processed + 1);
  }

  function Counted(c: Counts): nat
  {
    c.processed + c.skipped + c.failed
  }

  /** Every PDF is counted once: processed, skipped or failed. */
  lemma {:induction false} ProcessCountsAll(st: Run, pdfs: seq<FilePath>, opts: ProcessOptions,
                                            hashOf: FilePath -> string, extract: FilePath -> Option<Expense>)
    ensures Counted(ProcessAll(st, pdfs, opts, hashOf, extract).counts) == Counted(st.counts) + |pdfs|
    ensures ProcessAll(st, pdfs, opts, hashOf, extract).counts.skipped >= st.counts.skipped
  {
    if pdfs != [] {
      ProcessCountsAll(st, pdfs[..|pdfs| - 1], opts, hashOf, extract);
    }
  }

  /**
   * A PDF whose hash is already in the ledger is skipped without
   * `process_pdf`, unless `--force`: the store and the disk stay as they were.
   */
  lemma SkipKnown(st: Run, pdf: FilePath, opts: ProcessOptions,
                  hashOf: FilePath -> string, extract: FilePath -> Option<Expense>, other: FilePath -> Option<Expense>)
    requires !opts.force
    requires exists i :: 0 <= i < |st.ledger.records| && st.ledger.records[i].fileHash == hashOf(pdf)
    ensures Step(st, pdf, opts, hashOf, extract) == Step(st, pdf, opts, hashOf, other)
    ensures Step(st, pdf, opts, hashOf, extract).ledger == st.ledger
    ensures Step(st, pdf, opts, hashOf, extract).disk == st.disk
    ensures Step(st, pdf, opts, hashOf, extract).counts.skipped == st.counts.skipped + 1
  {
    KnownHashSpec(st.ledger.records, hashOf(pdf));
  }

  /** A PDF nothing can be extracted from leaves the store and the disk as they were. */
  lemma FailureLeavesNoTrace(st: Run, pdf: FilePath, opts: ProcessOptions,
                             hashOf: FilePath -> string, extract: FilePath -> Option<Expense>)
    requires extract(pdf).None?
    ensures Step(st, pdf, opts, hashOf, extract).ledger == st.ledger
    ensures Step(st, pdf, opts, hashOf, extract).disk == st.disk
    ensures Counted(Step(st, pdf, opts, hashOf, extract).counts) == Counted(st.counts) + 1
    ensures Step(st, pdf, opts, hashOf, extract).counts.processed == st.counts.processed
  {
  }

  /**
   * With `--force`, a PDF already in the ledger is extracted again and
   * saved under the old record's id, so it replaces that record in place:
   * the ledger does not grow.
   */
  lemma ForceReplaces(st: Run, pdf: FilePath, opts: ProcessOptions,
                      hashOf: FilePath -> string, extract: FilePath -> Option<Expense>, i: nat)
    requires opts.force && extract(pdf).Some?
    requires FirstWithHash(st.ledger.records, i, hashOf(pdf))
    ensures var rs := Step(st, pdf, opts, hashOf, extract).ledger.records;
      && |rs| == |st.ledger.records|
      && exists j :: 0 <= j < |rs| && rs[j].id == st.ledger.records[i].id
           && rs[j].fileHash == extract(pdf).value.fileHash
  {
    var rs := st.ledger.records;
    FoundByHash(rs, hashOf(pdf), Some(rs[i]));
    var e := Prepared(st.disk, pdf, opts, Some(rs[i]), extract(pdf).value).0;
    UpsertSpec(rs, e);
  }

  /**
   * A PDF whose hash is new is extracted and appended as a new record,
   * given that its fresh id is not in the ledger.
   */
  lemma NewPdfAppended(st: Run, pdf: FilePath, opts: ProcessOptions,
                       hashOf: FilePath -> string, extract: FilePath -> Option<Expense>)
    requires extract(pdf).Some?
    requires forall i :: 0 <= i < |st.ledger.records| ==> st.ledger.records[i].fileHash != hashOf(pdf)
    requires forall i :: 0 <= i < |st.ledger.records| ==> st.ledger.records[i].id != extract(pdf).value.id
    ensures var rs := Step(st, pdf, opts, hashOf, extract).ledger.records;
      && |rs| == |st.ledger.records| + 1
      && rs[..|st.ledger.records|] == st.ledger.records
      && rs[|st.ledger.records|].id == extract(pdf).value.id
      && Step(st, pdf, opts, hashOf, extract).counts.processed == st.counts.processed + 1
  {
    var rs := st.ledger.records;
    KnownHashSpec(rs, hashOf(pdf));
    UpsertSpec(rs, Prepared(st.disk, pdf, opts, None, extract(pdf).value).0);
  }

  /**
   * Processing a PDF twice without `--force` skips it the second time,
   * provided `process_pdf` records the PDF's own hash: the second turn
   * changes neither the store nor the disk.
   */
  lemma ProcessedThenSkipped(st: Run, pdf: FilePath, opts: ProcessOptions,
                             hashOf: FilePath -> string, extract: FilePath -> Option<Expense>)
    requires !opts.force && extract(pdf).Some? && extract(pdf).value.fileHash == hashOf(pdf)
    ensures var once := Step(st, pdf, opts, hashOf, extract);
      var twice := Step(once, pdf, opts, hashOf, extract);
      twice.ledger == once.ledger && twice.disk == once.disk && twice.counts.skipped == once.counts.skipped + 1
  {
    var once := Step(st, pdf, opts, hashOf, extract);
    var rs := st.ledger.records;
    KnownHashSpec(rs, hashOf(pdf));
    if KnownHash(rs, hashOf(pdf)).None? {
      var e := Prepared(st.disk, pdf, opts, None, extract(pdf).value).0;
      UpsertSpec(rs, e);
      var r := once.ledger.records;
      assert r[IdIndex(rs, e.id)].fileHash == hashOf(pdf);
    }
    SkipKnownHelper(once, pdf, opts, hashOf, extract);
  }

  lemma SkipKnownHelper(st: Run, pdf: FilePath, opts: ProcessOptions,
                        hashOf: FilePath -> string, extract: FilePath -> Option<Expense>)
    requires !opts.force
    requires exists i :: 0 <= i < |st.ledger.records| && st.ledger.records[i].fileHash == hashOf(pdf)
    ensures Step(st, pdf, opts, hashOf, extract) == st.(counts := st.counts.(skipped := st.counts.skipped + 1))
  {
    KnownHashSpec(st.ledger.records, hashOf(pdf));
  }

  /** With `--no-file` no PDF is moved and no folder is made. */
  lemma {:induction false} NoFileKeepsDisk(st: Run, pdfs: seq<FilePath>, opts: ProcessOptions,
                                           hashOf: FilePath -> string, extract: FilePath -> Option<Expense>)
    requires opts.noFile
    ensures ProcessAll(st, pdfs, opts, hashOf, extract).disk == st.disk
  {
    if pdfs != [] {
      NoFileKeepsDisk(st, pdfs[..|pdfs| - 1], opts, hashOf, extract);
    }
  }

  /** A ledger whose ids are distinct keeps them distinct through `process`. */
  lemma {:induction false} ProcessKeepsIdsUnique(st: Run, pdfs: seq<FilePath>, opts: ProcessOptions,
                                                 hashOf: FilePath -> string, extract: FilePath -> Option<Expense>)
    requires UniqueIds(st.ledger.records)
    ensures UniqueIds(ProcessAll(st, pdfs, opts, hashOf, extract).ledger.records)
  {
    if pdfs != [] {
      var mid := ProcessAll(st, pdfs[..|pdfs| - 1], opts, hashOf, extract);
      ProcessKeepsIdsUnique(st, pdfs[..|pdfs| - 1], opts, hashOf, extract);
      StepKeepsIdsUnique(mid, pdfs[|pdfs| - 1], opts, hashOf, extract);
    }
  }

  lemma StepKeepsIdsUnique(st: Run, pdf: FilePath, opts: ProcessOptions,
                           hashOf: FilePath -> string, extract: FilePath -> Option<Expense>)
    requires UniqueIds(st.ledger.records)
    ensures UniqueIds(Step(st, pdf, opts, hashOf, extract).ledger.records)
  {
    var after := Step(st, pdf, opts, hashOf, extract);
    if after.ledger != st.ledger {
      var existing := KnownHash(st.ledger.records, hashOf(pdf));
      UpsertKeepsIdsUnique(st.ledger.records, Prepared(st.disk, pdf, opts, existing, extract(pdf).value).0);
    }
  }

  /**
   * When the PDF is filed, the record just saved for it sits at its id's
   * place in the ledger, and its `file_path` names a file on the disk
   * afterwards.
   */
  lemma FiledRecordPointsAtFile(st: Run, pdf: FilePath, opts: ProcessOptions,
                                hashOf: FilePath -> string, extract: FilePath -> Option<Expense>)
    requires !opts.noFile && pdf in st.disk.files
    requires Step(st, pdf, opts, hashOf, extract).counts.processed == st.counts.processed + 1
    ensures var after := Step(st, pdf, opts, hashOf, extract);
      && extract(pdf).Some?
      && var e := Prepared(st.disk, pdf, opts, KnownHash(st.ledger.records, hashOf(pdf)), extract(pdf).value).0;
      && IdIndex(st.ledger.records, e.id) < |after.ledger.records|
      && after.ledger.records[IdIndex(st.ledger.records, e.id)] == e
      && exists p :: p in after.disk.files && e.filePath == PathText(p)
  {
    var after := Step(st, pdf, opts, hashOf, extract);
    var rs := st.ledger.records;
    var existing := KnownHash(rs, hashOf(pdf));
    var x := extract(pdf).value;
    var e0 := if existing.Some? && opts.force then x.(id := existing.value.id) else x;
    var p := Filed(st.disk, pdf, e0.date, opts.base).0;
    var e := Prepared(st.disk, pdf, opts, existing, x).0;
    assert e == e0.(filePath := PathText(p));
    UpsertSpec(rs, e);
    assert after.ledger.records[IdIndex(rs, e.id)] == e;
    FiledHasDest(st.disk, pdf, e0.date, opts.base);
  }

  // ---------------------------------------------------------------------
  // label, note, attach-context, categorize
  // ---------------------------------------------------------------------

  /** `if x not in xs: xs.append(x)`. */
  function AddIfAbsent(xs: seq<string>, x: string): seq<string>
  {
    if x in xs then xs else xs + [x]
  }

  /** The labels after `for lbl in labels: if lbl not in expense.labels: ...append(lbl)`. */
  function WithLabels(labels: seq<string>, given: seq<string>): seq<string>
  {
    if given == [] then labels
    else AddIfAbsent(WithLabels(labels, given[..|given| - 1]), given[|given| - 1])
  }

  predicate NoDuplicates(xs: seq<string>)
  {
    forall i, j :: 0 <= i < j < |xs| ==> xs[i] != xs[j]
  }

  /**
   * Adding labels keeps the old ones, in order, at the front; every given
   * label is present afterwards; nothing else is added; and a label list
   * without duplicates stays without duplicates.
   */
  lemma {:induction false} WithLabelsSpec(labels: seq<string>, given: seq<string>)
    ensures var r := WithLabels(labels, given);
      && |r| >= |labels| && r[..|labels|] == labels
      && (forall g :: g in given ==> g in r)
      && (forall x :: x in r ==> x in labels || x in given)
      && (NoDuplicates(labels) ==> NoDuplicates(r))
  {
    if given != [] {
      var init := given[..|given| - 1];
      WithLabelsSpec(labels, init);
      var r0 := WithLabels(labels, init);
      assert forall g :: g in given ==> g in init || g == given[|given| - 1];
      if given[|given| - 1] !in r0 {
        assert (r0 + [given[|given| - 1]])[..|labels|] == r0[..|labels|];
      }
    }
  }

  /** Labels that are all present already change nothing. */
  lemma {:induction false} WithPresentLabels(labels: seq<string>, given: seq<string>)
    requires forall g :: g in given ==> g in labels
    ensures WithLabels(labels, given) == labels
  {
    if given != [] {
      WithPresentLabels(labels, given[..|given| - 1]);
    }
  }

  /** Labelling twice with the same labels is labelling once. */
  lemma WithLabelsIdempotent(labels: seq<string>, given: seq<string>)
    ensures WithLabels(WithLabels(labels, given), given) == WithLabels(labels, given)
  {
    WithLabelsSpec(labels, given);
    WithPresentLabels(WithLabels(labels, given), given);
  }

  /** The notes after `note`: a blank field takes the text, else it goes on a new line. */
  function WithNote(notes: string, text: string): string
  {
    if notes != "" then notes + "\n" + text else text
  }

  /**
   * A note keeps the old notes in front and ends with the text; a note
   * without a line break adds exactly one line to the lines already there.
   */
  lemma NoteAppendsLine(notes: string, text: string)
    ensures var r := WithNote(notes, text);
      && |r| >= |notes| + |text| && r[..|notes|] == notes && r[|r| - |text|..] == text
      && ('\n' !in text ==> SplitOn(r, '\n') == (if notes == "" then [text] else SplitOn(notes, '\n') + [text]))
  {
    if '\n' !in text {
      SplitOnNoSep(text, '\n');
      if notes != "" {
        assert notes + "\n" + text == notes + ['\n'] + text;
        SplitOnJoined(notes, '\n', text);
      }
    }
  }

  /** A command that finds no record, or names an unknown account, fails. */
  datatype Outcome = Done(record: Expense) | NotFound | UnknownAccount

  /** `label`: the labelled record, or NotFound. */
  function Labelled(rs: seq<Expense>, id: string, given: seq<string>): Outcome
  {
    match KnownId(rs, id)
    case None => NotFound
    case Some(e) => Done(e.(labels := WithLabels(e.labels, given)))
  }

  /** `note`: the annotated record, or NotFound. */
  function Noted(rs: seq<Expense>, id: string, text: string): Outcome
  {
    match KnownId(rs, id)
    case None => NotFound
    case Some(e) => Done(e.(notes := WithNote(e.notes, text)))
  }

  /** `attach-context`: the record with the resolved path among its context files, or NotFound. */
  function Attached(rs: seq<Expense>, id: string, path: string): Outcome
  {
    match KnownId(rs, id)
    case None => NotFound
    case Some(e) => Done(e.(contextFiles := AddIfAbsent(e.contextFiles, path)))
  }

  /** `categorize`: the account is checked first, then the record. */
  function Categorized(rs: seq<Expense>, id: string, account: int): Outcome
  {
    match Categories.GetAccount(account)
    case None => UnknownAccount
    case Some(acct) =>
      match KnownId(rs, id)
      case None => NotFound
      case Some(e) => Done(e.(categoryAccount := Some(account), categoryName := acct.name))
  }

  /** The store after a command: saved when it succeeded, untouched otherwise. */
  function AfterCommand(l: Ledger, o: Outcome): Ledger
  {
    if o.Done? then Saved(l, o.record) else l
  }

  /** `label EXPENSE_ID LABELS...`, with its loop over the labels. */
  method Label(storage: LocalJsonStorage, id: string, given: seq<string>) returns (o: Outcome)
    requires given != []
    modifies storage
    ensures o == Labelled(old(storage.records), id, given)
    ensures LedgerOf(storage) == AfterCommand(old(LedgerOf(storage)), o)
  {
    var found := storage.FindById(id);
    FoundById(storage.records, id, found);
    if found.None? {
      return NotFound;
    }
    var e := found.value;
    for k := 0 to |given|
      invariant e == found.value.(labels := WithLabels(found.value.labels, given[..k]))
    {
      var lbl := given[k];
      if lbl !in e.labels {
        e := e.(labels := e.labels + [lbl]);
      }
      assert given[..k + 1][..k] == given[..k];
    }
    assert given[..|given|] == given;
    storage.Save(e);
    o := Done(e);
  }

  /** `note EXPENSE_ID TEXT`. */
  method Note(storage: LocalJsonStorage, id: string, text: string) returns (o: Outcome)
    modifies storage
    ensures o == Noted(old(storage.records), id, text)
    ensures LedgerOf(storage) == AfterCommand(old(LedgerOf(storage)), o)
  {
    var found := storage.FindById(id);
    FoundById(storage.records, id, found);
    if found.None? {
      return NotFound;
    }
    var e := found.value;
    if e.notes != "" {
      e := e.(notes := e.notes + "\n" + text);
    } else {
      e := e.(notes := text);
    }
    storage.Save(e);
    o := Done(e);
  }

  /** `attach-context EXPENSE_ID FILE_PATH`, with the path already resolved. */
  method AttachContext(storage: LocalJsonStorage, id: string, path: string) returns (o: Outcome)
    modifies storage
    ensures o == Attached(old(storage.records), id, path)
    ensures LedgerOf(storage) == AfterCommand(old(LedgerOf(storage)), o)
  {
    var found := storage.FindById(id);
    FoundById(storage.records, id, found);
    if found.None? {
      return NotFound;
    }
    var e := found.value;
    if path !in e.contextFiles {
      e := e.(contextFiles := e.contextFiles + [path]);
    }
    storage.Save(e);
    o := Done(e);
  }

  /** `categorize EXPENSE_ID ACCOUNT`. */
  method Categorize(storage: LocalJsonStorage, id: string, account: int) returns (o: Outcome)
    modifies storage
    ensures o == Categorized(old(storage.records), id, account)
    ensures LedgerOf(storage) == AfterCommand(old(LedgerOf(storage)), o)
  {
    var acct := Categories.GetAccount(account);
    if acct.None? {
      return UnknownAccount;
    }
    var found := storage.FindById(id);
    FoundById(storage.records, id, found);
    if found.None? {
      return NotFound;
    }
    var e := found.value.(categoryAccount := Some(account), categoryName := acct.value.name);
    storage.Save(e);
    o := Done(e);
  }

  /**
   * A command on a record fails with NotFound exactly when no id starts
   * with the given prefix; otherwise it acts on the first such record and
   * changes only the field it is about.
   */
  lemma CommandsSpec(rs: seq<Expense>, id: string, given: seq<string>, text: string, path: string)
    ensures Labelled(rs, id, given).NotFound? <==> forall i :: 0 <= i < |rs| ==> !StartsWith(rs[i].id, id)
    ensures Labelled(rs, id, given).Done? ==>
      exists i :: FirstWithIdPrefix(rs, i, id)
        && Labelled(rs, id, given).record == rs[i].(labels := WithLabels(rs[i].labels, given))
        && Noted(rs, id, text).record == rs[i].(notes := WithNote(rs[i].notes, text))
        && Attached(rs, id, path).record == rs[i].(contextFiles := AddIfAbsent(rs[i].contextFiles, path))
    ensures Noted(rs, id, text).NotFound? <==> Labelled(rs, id, given).NotFound?
    ensures Attached(rs, id, path).NotFound? <==> Labelled(rs, id, given).NotFound?
  {
    KnownIdSpec(rs, id);
  }

  /** An attached path is among the context files, exactly once if they had no duplicates. */
  lemma AttachedPathPresent(files: seq<string>, path: string)
    ensures path in AddIfAbsent(files, path)
    ensures AddIfAbsent(AddIfAbsent(files, path), path) == AddIfAbsent(files, path)
    ensures NoDuplicates(files) ==> NoDuplicates(AddIfAbsent(files, path))
    ensures forall x :: x in AddIfAbsent(files, path) <==> x in files || x == path
  {
    WithLabelsSpec(files, [path]);
    assert WithLabels(files, [path]) == AddIfAbsent(files, path);
  }

  /**
   * `categorize` rejects an account outside the chart before looking up
   * the record; when it succeeds the record carries the account and that
   * account's catalogue name, and nothing else changes.
   */
  lemma CategorizedSpec(rs: seq<Expense>, id: string, account: int)
    ensures account !in Categories.Keys(Categories.KmuAccounts) ==> Categorized(rs, id, account) == UnknownAccount
    ensures Categorized(rs, id, account).NotFound? <==>
      account in Categories.Keys(Categories.KmuAccounts) && forall i :: 0 <= i < |rs| ==> !StartsWith(rs[i].id, id)
    ensures Categorized(rs, id, account).Done? ==>
      var r := Categorized(rs, id, account).record;
      && r.categoryAccount == Some(account)
      && Categories.InCatalogue(account, r.categoryName)
      && exists i :: FirstWithIdPrefix(rs, i, id)
           && r.(categoryAccount := rs[i].categoryAccount, categoryName := rs[i].categoryName) == rs[i]
  {
    Categories.GetAccountSpec(account);
    KnownIdSpec(rs, id);
  }

  // ---------------------------------------------------------------------
  // list-expenses
  // ---------------------------------------------------------------------

  /** One filter of `list-expenses`. */
  datatype Criterion = Month(month: string) | Vendor(vendor: string) | HasLabel(name: string)
                     | Currency(currency: string) | Status(status: string)

  predicate Meets(e: Expense, c: Criterion)
  {
    match c
    case Month(m) => Reports.InMonth(e, m)
    case Vendor(v) => Contains(Lower(e.vendor), Lower(v))
    case HasLabel(l) => l in e.labels
    case Currency(cur) => Reports.SameCurrency(e, cur)
    case Status(s) => StatusValue(e.status) == s
  }

  /** One list comprehension `[e for e in expenses if ...]`. */
  function KeepMeeting(es: seq<Expense>, c: Criterion): seq<Expense>
  {
    if es == [] then []
    else KeepMeeting(es[..|es| - 1], c) + (if Meets(es[|es| - 1], c) then [es[|es| - 1]] else [])
  }

  /** The options `--month`, `--vendor`, `--label`, `--currency` and `--status`. */
  datatype ListOptions = ListOptions(month: Option<string>, vendor: Option<string>, byLabel: Option<string>,
                                     currency: Option<string>, status: Option<string>)

  /** The filters that are given (non-empty), in the order they are applied. */
  function Criteria(o: ListOptions): seq<Criterion>
  {
    (if Reports.Given(o.month) then [Month(o.month.value)] else [])
    + (if Reports.Given(o.vendor) then [Vendor(o.vendor.value)] else [])
    + (if Reports.Given(o.byLabel) then [HasLabel(o.byLabel.value)] else [])
    + (if Reports.Given(o.currency) then [Currency(o.currency.value)] else [])
    + (if Reports.Given(o.status) then [Status(o.status.value)] else [])
  }

  function ApplyAll(es: seq<Expense>, cs: seq<Criterion>): seq<Expense>
    decreases |cs|
  {
    if cs == [] then es else ApplyAll(KeepMeeting(es, cs[0]), cs[1..])
  }

  /** The expenses `list-expenses` shows, before sorting by date. */
  function Listed(es: seq<Expense>, o: ListOptions): seq<Expense>
  {
    ApplyAll(es, Criteria(o))
  }

  lemma {:induction false} KeepMeetingMembers(es: seq<Expense>, c: Criterion, e: Expense)
    ensures e in KeepMeeting(es, c) <==> e in es && Meets(e, c)
    ensures |KeepMeeting(es, c)| <= |es|
  {
    if es != [] {
      KeepMeetingMembers(es[..|es| - 1], c, e);
      assert es == es[..|es| - 1] + [es[|es| - 1]];
    }
  }

  lemma {:induction false} ApplyAllMembers(es: seq<Expense>, cs: seq<Criterion>, e: Expense)
    ensures e in ApplyAll(es, cs) <==> e in es && AllMet(e, cs)
    ensures |ApplyAll(es, cs)| <= |es|
    decreases |cs|
  {
    if cs != [] {
      KeepMeetingMembers(es, cs[0], e);
      ApplyAllMembers(KeepMeeting(es, cs[0]), cs[1..], e);
      assert cs == [cs[0]] + cs[1..];
      AllMetAppend(e, [cs[0]], cs[1..]);
      assert AllMet(e, [cs[0]]) <==> Meets(e, cs[0]) by {
        assert [cs[0]][0] == cs[0];
      }
    }
  }

  /** An expense passes every filter that is given. */
  predicate ListWanted(e: Expense, o: ListOptions)
  {
    && (Reports.Given(o.month) ==> Reports.InMonth(e, o.month.value))
    && (Reports.Given(o.vendor) ==> Contains(Lower(e.vendor), Lower(o.vendor.value)))
    && (Reports.Given(o.byLabel) ==> o.byLabel.value in e.labels)
    && (Reports.Given(o.currency) ==> Reports.SameCurrency(e, o.currency.value))
    && (Reports.Given(o.status) ==> StatusValue(e.status) == o.status.value)
  }

  /** `list-expenses` shows exactly the stored expenses that pass every given filter. */
  lemma ListedMembers(es: seq<Expense>, o: ListOptions, e: Expense)
    ensures e in Listed(es, o) <==> e in es && ListWanted(e, o)
    ensures |Listed(es, o)| <= |es|
  {
    ApplyAllMembers(es, Criteria(o), e);
    var cs := Criteria(o);
    CriteriaMet(e, o);
  }

  predicate AllMet(e: Expense, cs: seq<Criterion>)
  {
    forall i :: 0 <= i < |cs| ==> Meets(e, cs[i])
  }

  lemma AllMetAppend(e: Expense, a: seq<Criterion>, b: seq<Criterion>)
    ensures AllMet(e, a + b) <==> AllMet(e, a) && AllMet(e, b)
  {
    if AllMet(e, a) && AllMet(e, b) {
      forall i | 0 <= i < |a + b| ensures Meets(e, (a + b)[i]) {
        if i >= |a| {
          assert (a + b)[i] == b[i - |a|];
        }
      }
    }
    if AllMet(e, a + b) {
      forall i | 0 <= i < |a| ensures Meets(e, a[i]) {
        assert (a + b)[i] == a[i];
      }
      forall i | 0 <= i < |b| ensures Meets(e, b[i]) {
        assert (a + b)[|a| + i] == b[i];
      }
    }
  }

  /** A filter that is not given is no filter; a given one must be met. */
  function Optional(given: bool, c: Criterion): seq<Criterion>
  {
    if given then [c] else []
  }

  lemma AllMetOptional(e: Expense, given: bool, c: Criterion)
    ensures AllMet(e, Optional(given, c)) <==> (given ==> Meets(e, c))
  {
    if given {
      assert Optional(given, c)[0] == c;
    }
  }

  lemma CriteriaMet(e: Expense, o: ListOptions)
    ensures AllMet(e, Criteria(o)) <==> ListWanted(e, o)
  {
    var p1 := Optional(Reports.Given(o.month), if Reports.Given(o.month) then Month(o.month.value) else Month(""));
    var p2 := Optional(Reports.Given(o.vendor), if Reports.Given(o.vendor) then Vendor(o.vendor.value) else Vendor(""));
    var p3 := Optional(Reports.Given(o.byLabel), if Reports.Given(o.byLabel) then HasLabel(o.byLabel.value) else HasLabel(""));
    var p4 := Optional(Reports.Given(o.currency), if Reports.Given(o.currency) then Currency(o.currency.value) else Currency(""));
    var p5 := Optional(Reports.Given(o.status), if Reports.Given(o.status) then Status(o.status.value) else Status(""));
    assert Criteria(o) == p1 + p2 + p3 + p4 + p5;
    AllMetAppend(e, p1 + p2 + p3 + p4, p5);
    AllMetAppend(e, p1 + p2 + p3, p4);
    AllMetAppend(e, p1 + p2, p3);
    AllMetAppend(e, p1, p2);
    AllMetOptional(e, Reports.Given(o.month), if Reports.Given(o.month) then Month(o.month.value) else Month(""));
    AllMetOptional(e, Reports.Given(o.vendor), if Reports.Given(o.vendor) then Vendor(o.vendor.value) else Vendor(""));
    AllMetOptional(e, Reports.Given(o.byLabel), if Reports.Given(o.byLabel) then HasLabel(o.byLabel.value) else HasLabel(""));
    AllMetOptional(e, Reports.Given(o.currency), if Reports.Given(o.currency) then Currency(o.currency.value) else Currency(""));
    AllMetOptional(e, Reports.Given(o.status), if Reports.Given(o.status) then Status(o.status.value) else Status(""));
  }

  lemma {:induction false} KeepMonthIsKeepMeeting(es: seq<Expense>, m: string)
    ensures KeepMeeting(es, Month(m)) == Reports.KeepMonth(es, m)
  {
    if es != [] {
      KeepMonthIsKeepMeeting(es[..|es| - 1], m);
    }
  }

  lemma {:induction false} KeepCurrencyIsKeepMeeting(es: seq<Expense>, c: string)
    ensures KeepMeeting(es, Currency(c)) == Reports.KeepCurrency(es, c)
  {
    if es != [] {
      KeepCurrencyIsKeepMeeting(es[..|es| - 1], c);
    }
  }

  /** With only a month and a currency, `list-expenses` shows what the reports total. */
  lemma ListedAsReports(es: seq<Expense>, month: Option<string>, currency: Option<string>)
    ensures Listed(es, ListOptions(month, None, None, currency, None)) == Reports.Filter(es, month, currency)
  {
    var o := ListOptions(month, None, None, currency, None);
    if Reports.Given(month) {
      KeepMonthIsKeepMeeting(es, month.value);
      if Reports.Given(currency) {
        KeepCurrencyIsKeepMeeting(Reports.KeepMonth(es, month.value), currency.value);
        var cs := Criteria(o);
        assert cs == [Month(month.value), Currency(currency.value)];
        var byMonth := KeepMeeting(es, Month(month.value));
        assert Listed(es, o) == ApplyAll(byMonth, cs[1..]);
        assert cs[1..] == [Currency(currency.value)];
        assert ApplyAll(byMonth, cs[1..]) == ApplyAll(KeepMeeting(byMonth, Currency(currency.value)), []);
      } else {
        assert Criteria(o) == [Month(month.value)];
        assert Listed(es, o) == ApplyAll(KeepMeeting(es, Month(month.value)), []);
      }
    } else if Reports.Given(currency) {
      KeepCurrencyIsKeepMeeting(es, currency.value);
      assert Criteria(o) == [Currency(currency.value)];
      assert Listed(es, o) == ApplyAll(KeepMeeting(es, Currency(currency.value)), []);
    } else {
      assert Criteria(o) == [];
    }
  }
}
