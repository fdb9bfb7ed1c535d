// The expense record (`models/expense.py`): the two enumerations, the record
// with its field defaults, the default id and the file digest.
module ExpenseModel {
  import opened Wrappers
  import Dates

  /** How the text of a document was obtained. */
  datatype ExtractionMethod = PdfText | Ocr | Ai | Manual

  /** Review state of a record. */
  datatype ExpenseStatus = Processed | NeedsReview | Verified

  /** The string value each method is stored under. */
  function MethodValue(m: ExtractionMethod): string
  {
    match m
    case PdfText => "pdf_text"
    case Ocr => "ocr"
    case Ai => "ai"
    case Manual => "manual"
  }

  /** `ExtractionMethod(s)`: the member whose value is `s`, if any. */
  function MethodFromValue(s: string): (r: Option<ExtractionMethod>)
    ensures r.Some? <==> s in {"pdf_text", "ocr", "ai", "manual"}
    ensures r.Some? ==> MethodValue(r.value) == s
  {
    if s == "pdf_text" then Some(PdfText)
    else if s == "ocr" then Some(Ocr)
    else if s == "ai" then Some(Ai)
    else if s == "manual" then Some(Manual)
    else None
  }

  lemma MethodValueRoundTrip(m: ExtractionMethod)
    ensures MethodFromValue(MethodValue(m)) == Some(m)
  {
  }

  /** The string value each status is stored under. */
  function StatusValue(s: ExpenseStatus): string
  {
    match s
    case Processed => "processed"
    case NeedsReview => "needs_review"
    case Verified => "verified"
  }

  /** `ExpenseStatus(s)`: the member whose value is `s`, if any. */
  function StatusFromValue(s: string): (r: Option<ExpenseStatus>)
    ensures r.Some? <==> s in {"processed", "needs_review", "verified"}
    ensures r.Some? ==> StatusValue(r.value) == s
  {
    if s == "processed" then Some(Processed)
    else if s == "needs_review" then Some(NeedsReview)
    else if s == "verified" then Some(Verified)
    else None
  }

  lemma StatusValueRoundTrip(s: ExpenseStatus)
    ensures StatusFromValue(StatusValue(s)) == Some(s)
  {
  }

  predicate IsLowerHexChar(c: char)
  {
    '0' <= c <= '9' || 'a' <= c <= 'f'
  }

  predicate IsLowerHex(s: string)
  {
    forall i :: 0 <= i < |s| ==> IsLowerHexChar(s[i])
  }

  /** The 32 hex digits of `uuid4().hex`; where it comes from is not modelled. */
  type UuidHex = s: string | |s| == 32 && IsLowerHex(s)
    witness "00000000000000000000000000000000"

  /** The default id: the first 12 hex digits of a fresh UUID. */
  function DefaultId(u: UuidHex): (id: string)
    ensures |id| == 12 && IsLowerHex(id)
    ensures id == u[..12]
  {
    u[..12]
  }

  /** The time a record was processed, as an abstract clock reading. */
  type Timestamp = int

  datatype Expense = Expense(
    id: string,
    filePath: string,
    fileHash: string,
    vendor: string,
    vendorCountry: string,
    invoiceNumber: string,
    receiptNumber: string,
    date: Option<Dates.CalendarDate>,
    period: string,
    description: string,
    amountGross: real,
    amountNet: real,
    currency: string,
    vatRate: real,
    vatAmount: real,
    vatNumber: string,
    categoryAccount: Option<int>,
    categoryName: string,
    labels: seq<string>,
    notes: string,
    contextFiles: seq<string>,
    extractionMethod: ExtractionMethod,
    extractionConfidence: real,
    processedAt: Timestamp,
    status: ExpenseStatus)

  /**
   * `Expense(file_path=..., file_hash=..., amount_gross=...)`: the three
   * fields without a default are the parameters; the id and the processing
   * time come from the fresh UUID and the clock passed in. Callers that pass
   * more keyword arguments update the result with `.(field := value)`.
   */
  function NewExpense(filePath: string, fileHash: string, amountGross: real,
                      u: UuidHex, now: Timestamp): (e: Expense)
    ensures e.filePath == filePath && e.fileHash == fileHash && e.amountGross == amountGross
    ensures e.id == DefaultId(u) && e.processedAt == now
    ensures e.amountNet == 0.0 && e.vatRate == 0.0 && e.vatAmount == 0.0
    ensures e.currency == "USD"
    ensures e.vendor == "" && e.vendorCountry == "" && e.invoiceNumber == ""
    ensures e.receiptNumber == "" && e.period == "" && e.description == ""
    ensures e.vatNumber == "" && e.categoryName == "" && e.notes == ""
    ensures e.date == None && e.categoryAccount == None
    ensures e.labels == [] && e.contextFiles == []
    ensures e.status == Processed && e.extractionMethod == PdfText
    ensures e.extractionConfidence == 1.0
  {
    Expense(DefaultId(u), filePath, fileHash, "", "", "", "", None, "", "",
            amountGross, 0.0, "USD", 0.0, 0.0, "", None, "", [], "", [],
            PdfText, 1.0, now, Processed)
  }

  /** Bytes, as read from a file. */
  type Byte = b: int | 0 <= b < 256

  /** A SHA-256 digest: 32 bytes. The hash function itself is a parameter. */
  type Digest = s: seq<Byte> | |s| == 32 witness seq(32, i => 0)

  const HexDigits: string := "0123456789abcdef"

  /** `bytes.hex()`: two lower-case hex digits per byte, high nibble first. */
  function Hex(bs: seq<Byte>): (s: string)
    ensures |s| == 2 * |bs| && IsLowerHex(s)
  {
    if bs == [] then ""
    else [HexDigits[bs[0] / 16], HexDigits[bs[0] % 16]] + Hex(bs[1..])
  }

  function HexDigitValue(c: char): int
  {
    if '0' <= c <= '9' then c as int - '0' as int
    else if 'a' <= c <= 'f' then c as int - 'a' as int + 10
    else 0
  }

  /** Reads lower-case hex text back into bytes (inverse of `Hex`). */
  function Unhex(s: string): seq<Byte>
    decreases |s|
  {
    if |s| < 2 then []
    else
      var v := 16 * HexDigitValue(s[0]) + HexDigitValue(s[1]);
      [if 0 <= v < 256 then v else 0] + Unhex(s[2..])
  }

  lemma HexDigitRoundTrip(k: int)
    requires 0 <= k < 16
    ensures HexDigitValue(HexDigits[k]) == k
  {
  }

  lemma {:induction false} UnhexHex(bs: seq<Byte>)
    ensures Unhex(Hex(bs)) == bs
  {
    if bs != [] {
      var b := bs[0];
      HexDigitRoundTrip(b / 16);
      HexDigitRoundTrip(b % 16);
      var s := Hex(bs);
      assert s[2..] == Hex(bs[1..]);
      UnhexHex(bs[1..]);
    }
  }

  /** Distinct byte strings have distinct hex texts. */
  lemma HexInjective(a: seq<Byte>, b: seq<Byte>)
    requires Hex(a) == Hex(b)
    ensures a == b
  {
    UnhexHex(a);
    UnhexHex(b);
  }

  /**
   * `file_hash(path)`: the hex digest of the file's bytes under `sha256`.
   * Equal bytes give equal text, and two texts are equal only when the
   * digests are.
   */
  function FileHash(sha256: seq<Byte> -> Digest, content: seq<Byte>): (h: string)
    ensures |h| == 64 && IsLowerHex(h)
    ensures Unhex(h) == sha256(content)
  {
    UnhexHex(sha256(content));
    Hex(sha256(content))
  }

  /** Two files have the same hash text exactly when their digests agree. */
  lemma FileHashSameIffSameDigest(sha256: seq<Byte> -> Digest, a: seq<Byte>, b: seq<Byte>)
    ensures FileHash(sha256, a) == FileHash(sha256, b) <==> sha256(a) == sha256(b)
  {
    if FileHash(sha256, a) == FileHash(sha256, b) {
      HexInjective(sha256(a), sha256(b));
    }
  }
}
