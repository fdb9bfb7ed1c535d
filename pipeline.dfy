// The three-tier extraction pipeline (`extraction/pipeline.py`): the fixed
// list of parsers tried in order, and `process_pdf`, which falls from the
// text layer to OCR to the AI tier while the text is blank, and maps a
// parse result to an expense record.
//
// The text layer, the OCR backend and the AI call are parameters: the text
// pdfplumber returned (it returns "" instead of raising), what OCR returned
// or that it raised, and the AI tier's key, reply and JSON decoder.
module Pipeline {
  import opened Wrappers
  import opened Text
  import Dates
  import opened ExpenseModel
  import opened ParserBase
  import Anomaly
  import Anthropic
  import ElevenLabs
  import Infomaniak
  import Hetzner
  import Twilio
  import Namecheap
  import Generic
  import AiExtract

  /** The parser classes, one per vendor, and the generic fallback. */
  datatype Vendor =
    | AnomalyParser | AnthropicParser | ElevenLabsParser | InfomaniakParser
    | HetznerParser | TwilioParser | NamecheapParser | GenericParser

  /** `PARSERS`: specific vendors first, the generic fallback last. */
  const Parsers: seq<Vendor> := [
    AnomalyParser, AnthropicParser, ElevenLabsParser, InfomaniakParser,
    HetznerParser, TwilioParser, NamecheapParser, GenericParser
  ]

  /** The searches of every parser. */
  datatype Regexes = Regexes(
    anomaly: Anomaly.Regexes,
    anthropic: Anthropic.Regexes,
    elevenLabs: ElevenLabs.Regexes,
    infomaniak: Infomaniak.Regexes,
    hetzner: Hetzner.Regexes,
    twilio: Twilio.Regexes,
    namecheap: Namecheap.Regexes,
    generic: Generic.Regexes)

  /** `parser.vendor_name`. */
  function VendorName(p: Vendor): string
  {
    match p
    case AnomalyParser => Anomaly.VendorName
    case AnthropicParser => Anthropic.VendorName
    case ElevenLabsParser => ElevenLabs.VendorName
    case InfomaniakParser => Infomaniak.VendorName
    case HetznerParser => Hetzner.VendorName
    case TwilioParser => Twilio.VendorName
    case NamecheapParser => Namecheap.VendorName
    case GenericParser => Generic.VendorName
  }

  /** `parser.can_parse(text)`. */
  function CanParse(p: Vendor, text: string): bool
  {
    match p
    case AnomalyParser => Anomaly.CanParse(text)
    case AnthropicParser => Anthropic.CanParse(text)
    case ElevenLabsParser => ElevenLabs.CanParse(text)
    case InfomaniakParser => Infomaniak.CanParse(text)
    case HetznerParser => Hetzner.CanParse(text)
    case TwilioParser => Twilio.CanParse(text)
    case NamecheapParser => Namecheap.CanParse(text)
    case GenericParser => Generic.CanParse(text)
  }

  /** What `parser.parse(text)` returns; only the generic parser can return None. */
  function Parsed(p: Vendor, text: string, rx: Regexes): Option<Draft>
  {
    match p
    case AnomalyParser => Some(Anomaly.Spec(text, rx.anomaly))
    case AnthropicParser => Some(Anthropic.Spec(text, rx.anthropic))
    case ElevenLabsParser => Some(ElevenLabs.Spec(text, rx.elevenLabs))
    case InfomaniakParser => Some(Infomaniak.Spec(text, rx.infomaniak))
    case HetznerParser => Some(Hetzner.Spec(text, rx.hetzner))
    case TwilioParser => Some(Twilio.Spec(text, rx.twilio))
    case NamecheapParser => Some(Namecheap.Spec(text, rx.namecheap))
    case GenericParser => Generic.Spec(text, rx.generic)
  }

  /** `parser.parse(text)`, dispatched to the vendor's parser. */
  method Parse(p: Vendor, text: string, rx: Regexes) returns (r: Option<Draft>)
    ensures r == Parsed(p, text, rx)
  {
    match p {
      case AnomalyParser =>
        var d := Anomaly.Parse(text, rx.anomaly);
        r := Some(d);
      case AnthropicParser =>
        var d := Anthropic.Parse(text, rx.anthropic);
        r := Some(d);
      case ElevenLabsParser =>
        var d := ElevenLabs.Parse(text, rx.elevenLabs);
        r := Some(d);
      case InfomaniakParser =>
        var d := Infomaniak.Parse(text, rx.infomaniak);
        r := Some(d);
      case HetznerParser =>
        var d := Hetzner.Parse(text, rx.hetzner);
        r := Some(d);
      case TwilioParser =>
        var d := Twilio.Parse(text, rx.twilio);
        r := Some(d);
      case NamecheapParser =>
        var d := Namecheap.Parse(text, rx.namecheap);
        r := Some(d);
      case GenericParser =>
        r := Generic.Parse(text, rx.generic);
    }
  }

  /** The parser recognises the text and yields a result with a positive gross amount. */
  predicate Accepts(p: Vendor, text: string, rx: Regexes)
  {
    CanParse(p, text) && Parsed(p, text, rx).Some? && Parsed(p, text, rx).value.amountGross > 0.0
  }

  /** The parser's result when it accepts the text, None when it does not. */
  function Accepted(p: Vendor, text: string, rx: Regexes): (r: Option<Draft>)
    ensures r.Some? <==> Accepts(p, text, rx)
    ensures r.Some? ==> r == Parsed(p, text, rx) && r.value.amountGross > 0.0
  {
    if Accepts(p, text, rx) then Parsed(p, text, rx) else None
  }

  /**
   * The result of the first parser of `ps` that accepts the text, with that
   * parser; None when none does.
   */
  function FirstAccepted(ps: seq<Vendor>, text: string, rx: Regexes): (r: Option<(Draft, Vendor)>)
    ensures r.None? <==> forall i :: 0 <= i < |ps| ==> Accepted(ps[i], text, rx).None?
    ensures r.Some? ==> exists k :: FirstAt(ps, k, text, rx, r.value)
  {
    if ps == [] then None
    else if Accepted(ps[0], text, rx).Some? then
      var found := (Accepted(ps[0], text, rx).value, ps[0]);
      assert FirstAt(ps, 0, text, rx, found);
      Some(found)
    else
      var r := FirstAccepted(ps[1..], text, rx);
      if r.Some? then
        assert exists k :: FirstAt(ps, k, text, rx, r.value) by {
          var k :| FirstAt(ps[1..], k, text, rx, r.value);
          FirstAtShift(ps, k, text, rx, r.value);
        }
        r
      else
        NoneShift(ps, text, rx);
        r
  }

  /** A first acceptance in the tail, after a parser that does not accept, is one in the whole list. */
  lemma FirstAtShift(ps: seq<Vendor>, k: int, text: string, rx: Regexes, found: (Draft, Vendor))
    requires ps != [] && Accepted(ps[0], text, rx).None?
    requires FirstAt(ps[1..], k, text, rx, found)
    ensures FirstAt(ps, k + 1, text, rx, found)
  {
    assert forall j :: 1 <= j < |ps| ==> ps[j] == ps[1..][j - 1];
  }

  /** No parser of the list accepts when neither its head nor any of its tail does. */
  lemma NoneShift(ps: seq<Vendor>, text: string, rx: Regexes)
    requires ps != [] && Accepted(ps[0], text, rx).None?
    requires forall i :: 0 <= i < |ps| - 1 ==> Accepted(ps[1..][i], text, rx).None?
    ensures forall i :: 0 <= i < |ps| ==> Accepted(ps[i], text, rx).None?
  {
    assert forall i :: 1 <= i < |ps| ==> ps[i] == ps[1..][i - 1];
  }

  /**
   * `ps[k]` accepts the text, no parser before it does, and `found` is its
   * result and the parser.
   */
  predicate FirstAt(ps: seq<Vendor>, k: int, text: string, rx: Regexes, found: (Draft, Vendor))
  {
    && 0 <= k < |ps|
    && ps[k] == found.1
    && Accepted(ps[k], text, rx) == Some(found.0)
    && (forall j :: 0 <= j < k ==> Accepted(ps[j], text, rx).None?)
  }

  /** One parser's turn in `_parse_text`: `can_parse`, then `parse` and the amount check. */
  method TryParser(p: Vendor, text: string, rx: Regexes) returns (r: Option<Draft>)
    ensures r == Accepted(p, text, rx)
  {
    r := None;
    if CanParse(p, text) {
      var parsed := Parse(p, text, rx);
      if parsed.Some? && parsed.value.amountGross > 0.0 {
        r := parsed;
      }
    }
  }

  /**
   * `_parse_text(text)`: each parser in turn, returning the first result
   * with a positive gross amount together with its parser, or (None, None).
   */
  method ParseText(text: string, rx: Regexes) returns (result: Option<Draft>, parser: Option<Vendor>)
    ensures result.Some? <==> parser.Some?
    ensures FirstAccepted(Parsers, text, rx)
         == if result.Some? then Some((result.value, parser.value)) else None
  {
    result, parser := TryInTurn(Parsers, text, rx);
  }

  /** The loop of `_parse_text` over the parsers `ps`. */
  method TryInTurn(ps: seq<Vendor>, text: string, rx: Regexes) returns (result: Option<Draft>, parser: Option<Vendor>)
    ensures result.Some? <==> parser.Some?
    ensures FirstAccepted(ps, text, rx)
         == if result.Some? then Some((result.value, parser.value)) else None
  {
    var i := 0;
    while i < |ps|
      invariant 0 <= i <= |ps|
      invariant FirstAccepted(ps, text, rx) == FirstAccepted(ps[i..], text, rx)
    {
      var r := TryParser(ps[i], text, rx);
      FirstAcceptedStep(ps, i, text, rx);
      if r.Some? {
        return r, Some(ps[i]);
      }
      i := i + 1;
    }
    assert ps[i..] == [];
    return None, None;
  }

  /** One turn of the loop: the suffix from `ps[i]` on yields `ps[i]`'s result, or else the next suffix's. */
  lemma FirstAcceptedStep(ps: seq<Vendor>, i: nat, text: string, rx: Regexes)
    requires i < |ps|
    ensures FirstAccepted(ps[i..], text, rx)
         == if Accepted(ps[i], text, rx).Some? then Some((Accepted(ps[i], text, rx).value, ps[i]))
            else FirstAccepted(ps[i + 1..], text, rx)
  {
    assert ps[i..][0] == ps[i];
    assert ps[i..][1..] == ps[i + 1..];
  }

  /**
   * The parser chosen is the earliest in the list that accepts the text:
   * once `ps[k]` accepts and none before it does, later parsers do not
   * matter.
   */
  lemma FirstAcceptedIsEarliest(ps: seq<Vendor>, k: nat, text: string, rx: Regexes)
    requires k < |ps| && Accepted(ps[k], text, rx).Some?
    requires forall j :: 0 <= j < k ==> Accepted(ps[j], text, rx).None?
    ensures FirstAccepted(ps, text, rx) == Some((Accepted(ps[k], text, rx).value, ps[k]))
  {
    var r := FirstAccepted(ps, text, rx).value;
    var k' :| FirstAt(ps, k', text, rx, r);
    assert !(k' < k) && !(k < k');
  }

  /** The generic parser recognises every text, and accepts it exactly when it returns a result. */
  lemma GenericAccepts(text: string, rx: Regexes)
    ensures Accepts(GenericParser, text, rx) <==> Generic.Spec(text, rx.generic).Some?
  {
    if Generic.Spec(text, rx.generic).Some? {
      Generic.Accepted(text, rx.generic);
    }
  }

  /**
   * `_parse_text` gives up only when even the generic fallback, the last
   * parser, finds no positive amount; every result it returns has a
   * positive gross amount.
   */
  lemma ParseTextGivesUp(text: string, rx: Regexes)
    ensures FirstAccepted(Parsers, text, rx).None? ==> Generic.Spec(text, rx.generic).None?
    ensures FirstAccepted(Parsers, text, rx).Some? ==> FirstAccepted(Parsers, text, rx).value.0.amountGross > 0.0
  {
    GenericAccepts(text, rx);
    assert Parsers[7] == GenericParser;
  }

  /** Each parser's results carry its own vendor name. */
  lemma VendorOfResult(p: Vendor, text: string, rx: Regexes)
    requires Parsed(p, text, rx).Some?
    ensures Parsed(p, text, rx).value.vendor == VendorName(p)
  {
    match p
    case AnomalyParser => Anomaly.FixedFields(text, rx.anomaly);
    case AnthropicParser => Anthropic.FixedFields(text, rx.anthropic);
    case ElevenLabsParser => ElevenLabs.FixedFields(text, rx.elevenLabs);
    case InfomaniakParser => Infomaniak.FixedFields(text, rx.infomaniak);
    case HetznerParser => Hetzner.FixedFields(text, rx.hetzner);
    case TwilioParser => Twilio.FixedFields(text, rx.twilio);
    case NamecheapParser => Namecheap.FixedFields(text, rx.namecheap);
    case GenericParser => Generic.Accepted(text, rx.generic);
  }

  /** The vendor parsers are fully trusted; only the generic fallback is not. */
  lemma ConfidenceOfResult(p: Vendor, text: string, rx: Regexes)
    requires Parsed(p, text, rx).Some?
    ensures Parsed(p, text, rx).value.confidence == (if p == GenericParser then 0.3 else 1.0)
  {
    match p
    case AnomalyParser => Anomaly.FixedFields(text, rx.anomaly);
    case AnthropicParser => Anthropic.FixedFields(text, rx.anthropic);
    case ElevenLabsParser => ElevenLabs.FixedFields(text, rx.elevenLabs);
    case InfomaniakParser => Infomaniak.FixedFields(text, rx.infomaniak);
    case HetznerParser => Hetzner.FixedFields(text, rx.hetzner);
    case TwilioParser => Twilio.FixedFields(text, rx.twilio);
    case NamecheapParser => Namecheap.FixedFields(text, rx.namecheap);
    case GenericParser => Generic.Accepted(text, rx.generic);
  }

  // ---------------------------------------------------------------------
  // From parse result to record
  // ---------------------------------------------------------------------

  /** Results at or above this confidence need no review. */
  const ReviewThreshold: real := 0.7

  function StatusFor(confidence: real): ExpenseStatus
  {
    if confidence >= ReviewThreshold then Processed else NeedsReview
  }

  /** `date.fromisoformat(result.date)` when the date is set; None when it is empty or raises. */
  function RecordDate(date: string): (d: Option<Dates.Date>)
    ensures d.Some? ==> Dates.ValidDate(d.value) && Dates.IsoFormat(d.value) == date
  {
    if date != "" then
      var d := Dates.FromIsoFormat(date);
      if d.Some? then Dates.FromIsoFormatRoundTrip(date); d else None
    else
      None
  }

  /** An ISO date is read back as that date; an empty date or a day that does not exist gives none. */
  lemma RecordDateCases(d: Dates.Date)
    requires Dates.ValidDate(d)
    ensures RecordDate(Dates.IsoFormat(d)) == Some(d)
    ensures RecordDate("") == None && RecordDate("2026-02-31") == None
  {
    Dates.IsoFormatRoundTrip(d);
    var s := "2026-02-31";
    assert s[..4] == "2026" && s[5..7] == "02" && s[8..] == "31";
    assert DigitsValue("02") == 2 && DigitsValue("31") == 31;
  }

  /** The `Expense(...)` built from a parse result. */
  function ToExpense(result: Draft, extractionMethod: ExtractionMethod, path: string,
                     fhash: string, u: UuidHex, now: Timestamp): Expense
  {
    NewExpense(path, fhash, result.amountGross, u, now).(
      vendor := result.vendor,
      vendorCountry := result.vendorCountry,
      invoiceNumber := result.invoiceNumber,
      receiptNumber := result.receiptNumber,
      date := RecordDate(result.date),
      period := result.period,
      description := result.description,
      amountNet := result.amountNet,
      currency := result.currency,
      vatRate := result.vatRate,
      vatAmount := result.vatAmount,
      vatNumber := result.vatNumber,
      categoryAccount := result.categoryAccount,
      categoryName := result.categoryName,
      extractionMethod := extractionMethod,
      extractionConfidence := result.confidence,
      status := StatusFor(result.confidence))
  }

  /** The AI tier's inputs: whether a key is configured, the reply or the exception, and the decoder. */
  datatype AiBackend = AiBackend(
    keyConfigured: bool,
    reply: AiExtract.Outcome<string>,
    jsonLoads: string -> Option<AiExtract.AiFields>)

  /** The text the parsers see, and how it was obtained: the text layer, else what OCR returned. */
  function TierText(pdfText: string, ocr: AiExtract.Outcome<string>): (string, ExtractionMethod)
  {
    if Strip(pdfText) != "" then (pdfText, PdfText)
    else if ocr.Returned? then (ocr.value, Ocr)
    else (pdfText, PdfText)
  }

  /** What `process_pdf` returns, given the file's hash and what each backend gives. */
  function ProcessPdfSpec(path: string, fhash: string, pdfText: string,
                          ocr: AiExtract.Outcome<string>, ai: AiBackend, rx: Regexes,
                          u: UuidHex, now: Timestamp): Option<Expense>
  {
    var (text, extractionMethod) := TierText(pdfText, ocr);
    if Strip(text) == "" then
      var out := AiExtract.ExtractWithAi(ai.keyConfigured, path, fhash, ai.reply, ai.jsonLoads, u, now);
      if out.Returned? then out.value else None
    else
      var found := FirstAccepted(Parsers, text, rx);
      if found.Some? then Some(ToExpense(found.value.0, extractionMethod, path, fhash, u, now))
      else None
  }

  /**
   * `process_pdf(path)`: hashes the file once, then takes the text layer;
   * OCR when that is blank (an OCR failure is ignored); the AI tier, whose
   * answer or failure is final, when the text is still blank; and
   * otherwise the first parser that accepts the text.
   */
  method ProcessPdf(path: string, content: seq<Byte>, sha256: seq<Byte> -> Digest,
                    pdfText: string, ocr: AiExtract.Outcome<string>, ai: AiBackend,
                    rx: Regexes, u: UuidHex, now: Timestamp) returns (e: Option<Expense>)
    ensures e == ProcessPdfSpec(path, FileHash(sha256, content), pdfText, ocr, ai, rx, u, now)
  {
    var fhash := FileHash(sha256, content);
    var text := pdfText;
    var extractionMethod := PdfText;
    if Strip(text) == "" {
      if ocr.Returned? {
        text := ocr.value;
        extractionMethod := Ocr;
      }
    }
    if Strip(text) == "" {
      var out := AiExtract.ExtractWithAi(ai.keyConfigured, path, fhash, ai.reply, ai.jsonLoads, u, now);
      if out.Raised? {
        return None;
      }
      return out.value;
    }
    var result, parser := ParseText(text, rx);
    if result.None? {
      return None;
    }
    e := Some(ToExpense(result.value, extractionMethod, path, fhash, u, now));
  }

  /**
   * Whichever tier produces the record, it carries the one hash of the
   * file's bytes and the path it was given.
   */
  lemma HashComputedOnce(path: string, content: seq<Byte>, sha256: seq<Byte> -> Digest,
                         pdfText: string, ocr: AiExtract.Outcome<string>, ai: AiBackend,
                         rx: Regexes, u: UuidHex, now: Timestamp)
    ensures var e := ProcessPdfSpec(path, FileHash(sha256, content), pdfText, ocr, ai, rx, u, now);
      e.Some? ==> e.value.fileHash == FileHash(sha256, content) && e.value.filePath == path
  {
    var fhash := FileHash(sha256, content);
    AiExtract.Result(ai.keyConfigured, path, fhash, ai.reply, ai.jsonLoads, u, now);
  }

  /**
   * When the text layer is not blank, neither OCR nor the AI tier is
   * consulted: the record is the first accepting parser's, marked as
   * extracted from the text layer.
   */
  lemma TextLayerFirst(path: string, fhash: string, pdfText: string,
                       ocr: AiExtract.Outcome<string>, ai: AiBackend,
                       ocr2: AiExtract.Outcome<string>, ai2: AiBackend,
                       rx: Regexes, u: UuidHex, now: Timestamp)
    requires Strip(pdfText) != ""
    ensures ProcessPdfSpec(path, fhash, pdfText, ocr, ai, rx, u, now)
         == ProcessPdfSpec(path, fhash, pdfText, ocr2, ai2, rx, u, now)
    ensures var e := ProcessPdfSpec(path, fhash, pdfText, ocr, ai, rx, u, now);
      e.Some? ==> e.value.extractionMethod == PdfText
  {
  }

  /**
   * A blank text layer with OCR text that is not blank: the record, if any,
   * is marked as OCR and the AI tier is not consulted.
   */
  lemma OcrSecond(path: string, fhash: string, pdfText: string, ocrText: string,
                  ai: AiBackend, ai2: AiBackend, rx: Regexes, u: UuidHex, now: Timestamp)
    requires Strip(pdfText) == "" && Strip(ocrText) != ""
    ensures ProcessPdfSpec(path, fhash, pdfText, AiExtract.Returned(ocrText), ai, rx, u, now)
         == ProcessPdfSpec(path, fhash, pdfText, AiExtract.Returned(ocrText), ai2, rx, u, now)
    ensures var e := ProcessPdfSpec(path, fhash, pdfText, AiExtract.Returned(ocrText), ai, rx, u, now);
      e.Some? ==> e.value.extractionMethod == Ocr
  {
  }

  /**
   * With a blank text layer, OCR that fails or returns blank text hands the
   * document to the AI tier, whose answer is returned as it is (no parser,
   * no threshold, gross not checked) and whose failure gives None.
   */
  lemma AiLast(path: string, fhash: string, pdfText: string, ocr: AiExtract.Outcome<string>,
               ai: AiBackend, rx: Regexes, u: UuidHex, now: Timestamp)
    requires Strip(pdfText) == "" && (ocr.Raised? || Strip(ocr.value) == "")
    ensures var out := AiExtract.ExtractWithAi(ai.keyConfigured, path, fhash, ai.reply, ai.jsonLoads, u, now);
      ProcessPdfSpec(path, fhash, pdfText, ocr, ai, rx, u, now)
        == (if out.Returned? then out.value else None)
  {
  }

  /**
   * A record from the text layer or OCR has a positive gross amount, holds
   * the accepting parser's fields, and is processed exactly when the
   * confidence is at least 0.7: always for a vendor parser, never for the
   * generic fallback.
   */
  lemma ParsedRecord(path: string, fhash: string, pdfText: string,
                     ocr: AiExtract.Outcome<string>, ai: AiBackend, rx: Regexes,
                     u: UuidHex, now: Timestamp)
    requires Strip(TierText(pdfText, ocr).0) != ""
    requires ProcessPdfSpec(path, fhash, pdfText, ocr, ai, rx, u, now).Some?
    ensures var e := ProcessPdfSpec(path, fhash, pdfText, ocr, ai, rx, u, now).value;
      var found := FirstAccepted(Parsers, TierText(pdfText, ocr).0, rx).value;
      && e.amountGross > 0.0
      && e.vendor == VendorName(found.1)
      && e.amountGross == found.0.amountGross && e.amountNet == found.0.amountNet
      && e.vatRate == found.0.vatRate && e.vatAmount == found.0.vatAmount
      && e.currency == found.0.currency && e.categoryAccount == found.0.categoryAccount
      && (e.status == Processed <==> e.extractionConfidence >= 0.7)
      && (e.status == Processed <==> found.1 != GenericParser)
  {
    var text := TierText(pdfText, ocr).0;
    var found := FirstAccepted(Parsers, text, rx).value;
    var k :| FirstAt(Parsers, k, text, rx, found);
    VendorOfResult(found.1, text, rx);
    ConfidenceOfResult(found.1, text, rx);
  }

  /** Exactly 0.7 is enough to need no review. */
  lemma ThresholdInclusive()
    ensures StatusFor(0.7) == Processed && StatusFor(0.69) == NeedsReview
    ensures StatusFor(1.0) == Processed && StatusFor(0.3) == NeedsReview
  {
  }
}
