// Tier 3 of the extraction pipeline (`extraction/ai_extract.py`): what
// happens to the model's reply once it has arrived. The API call, the
// reading of the document and `json.loads` are not modelled: the reply is a
// parameter (or the exception the call raised), and decoding is a function
// from the reply text to the decoded object. It is `None` wherever building
// the record raises: when the reply is not JSON, when pydantic rejects a
// field's type, and when `Decimal(str(...))` cannot read an amount or rate.
module AiExtract {
  import opened Wrappers
  import opened Text
  import Dates
  import opened ExpenseModel

  /** The result of a call that may raise: a returned value, or an exception. */
  datatype Outcome<T> = Returned(value: T) | Raised

  /**
   * The decoded JSON object, one entry per key the prompt asks for;
   * `None` where the key is absent.
   */
  datatype AiFields = AiFields(
    vendor: Option<string>,
    vendorCountry: Option<string>,
    invoiceNumber: Option<string>,
    receiptNumber: Option<string>,
    date: Option<string>,
    period: Option<string>,
    description: Option<string>,
    amountGross: Option<real>,
    amountNet: Option<real>,
    currency: Option<string>,
    vatRate: Option<real>,
    vatAmount: Option<real>,
    vatNumber: Option<string>,
    categoryAccount: Option<int>,
    categoryName: Option<string>)

  /** An object with none of the keys. */
  const NoFields: AiFields :=
    AiFields(None, None, None, None, None, None, None, None, None, None, None, None, None, None, None)

  const Fence: string := "```"

  /** Every AI result is held for review with this confidence. */
  const Confidence: real := 0.8

  /** `data.get(key, default)`. */
  function Get<T>(v: Option<T>, default: T): T
  {
    if v.Some? then v.value else default
  }

  /**
   * Markdown fence stripping: a reply starting with "```" loses its first
   * and its last line.
   */
  function StripFences(reply: string): string
  {
    if StartsWith(reply, Fence) then
      var lines := SplitOn(reply, '\n');
      if |lines| < 2 then "" else Join("\n", lines[1..|lines| - 1])
    else
      reply
  }

  /** A reply without a fence is decoded as it is. */
  lemma UnfencedKept(reply: string)
    requires !StartsWith(reply, Fence)
    ensures StripFences(reply) == reply
  {
  }

  /**
   * A reply fenced as "```tag", the body, "```" on three or more lines
   * comes back as exactly the body, whatever lines the body has.
   */
  lemma FencedBody(tag: string, body: string)
    requires '\n' !in tag
    ensures StripFences(Fence + tag + "\n" + body + "\n" + Fence) == body
  {
    var head := Fence + tag;
    var reply := head + "\n" + body + "\n" + Fence;
    assert reply[..3] == Fence;
    assert '\n' !in head;
    assert reply == (head + ['\n'] + body) + ['\n'] + Fence;
    SplitOnJoined(head + ['\n'] + body, '\n', Fence);
    SplitOnJoined(head, '\n', body);
    SplitOnNoSep(head, '\n');
    SplitOnNoSep(Fence, '\n');
    var lines := SplitOn(reply, '\n');
    assert lines == [head] + SplitOn(body, '\n') + [Fence];
    assert lines[1..|lines| - 1] == SplitOn(body, '\n');
    JoinSplitOn(body, '\n');
  }

  /** `date.fromisoformat(data["date"])` when the key holds a non-empty string; `None` otherwise or when it raises. */
  function DateOf(date: Option<string>): (d: Option<Dates.Date>)
    ensures d.Some? ==> date.Some? && Dates.ValidDate(d.value) && Dates.IsoFormat(d.value) == date.value
  {
    if date.Some? && date.value != "" then
      var d := Dates.FromIsoFormat(date.value);
      if d.Some? then Dates.FromIsoFormatRoundTrip(date.value); d else None
    else
      None
  }

  /** A date given in ISO form is read back as that date. */
  lemma DateOfIso(d: Dates.Date)
    requires Dates.ValidDate(d)
    ensures DateOf(Some(Dates.IsoFormat(d))) == Some(d)
  {
    Dates.IsoFormatRoundTrip(d);
  }

  /** A missing date, an empty one or a day that does not exist gives no date. */
  lemma NoDate()
    ensures DateOf(None) == None && DateOf(Some("")) == None
    ensures DateOf(Some("2026-02-31")) == None
  {
    var s := "2026-02-31";
    assert s[..4] == "2026" && s[5..7] == "02" && s[8..] == "31";
    assert DigitsValue("02") == 2 && DigitsValue("31") == 31;
  }

  /**
   * The `Expense(...)` built from the decoded object: every field present is
   * taken over, every missing one gets its default, and the record is marked
   * as an AI extraction held for review.
   */
  function FromFields(path: string, fhash: string, data: AiFields,
                      u: UuidHex, now: Timestamp): (e: Expense)
  {
    NewExpense(path, fhash, Get(data.amountGross, 0.0), u, now).(
      vendor := Get(data.vendor, ""),
      vendorCountry := Get(data.vendorCountry, ""),
      invoiceNumber := Get(data.invoiceNumber, ""),
      receiptNumber := Get(data.receiptNumber, ""),
      date := DateOf(data.date),
      period := Get(data.period, ""),
      description := Get(data.description, ""),
      amountNet := Get(data.amountNet, 0.0),
      currency := Get(data.currency, "USD"),
      vatRate := Get(data.vatRate, 0.0),
      vatAmount := Get(data.vatAmount, 0.0),
      vatNumber := Get(data.vatNumber, ""),
      categoryAccount := data.categoryAccount,
      categoryName := Get(data.categoryName, ""),
      extractionMethod := Ai,
      extractionConfidence := Confidence,
      status := NeedsReview)
  }

  /**
   * An object with no keys gives a fresh record with every default: empty
   * text, zero amounts and VAT, USD, no account and no date, and so a
   * gross of 0, which nothing here rejects.
   */
  lemma Defaults(path: string, fhash: string, u: UuidHex, now: Timestamp)
    ensures FromFields(path, fhash, NoFields, u, now)
         == NewExpense(path, fhash, 0.0, u, now).(extractionMethod := Ai,
              extractionConfidence := 0.8, status := NeedsReview)
  {
  }

  /** Every field the reply holds reaches the record unchanged. */
  lemma FieldsKept(path: string, fhash: string, data: AiFields, u: UuidHex, now: Timestamp)
    ensures var e := FromFields(path, fhash, data, u, now);
      && (data.vendor.Some? ==> e.vendor == data.vendor.value)
      && (data.invoiceNumber.Some? ==> e.invoiceNumber == data.invoiceNumber.value)
      && (data.amountGross.Some? ==> e.amountGross == data.amountGross.value)
      && (data.amountNet.Some? ==> e.amountNet == data.amountNet.value)
      && (data.currency.Some? ==> e.currency == data.currency.value)
      && (data.vatRate.Some? ==> e.vatRate == data.vatRate.value)
      && (data.vatAmount.Some? ==> e.vatAmount == data.vatAmount.value)
      && e.categoryAccount == data.categoryAccount
      && e.filePath == path && e.fileHash == fhash
  {
  }

  /**
   * `extract_with_ai(path, fhash)`: nothing without an API key; otherwise
   * the reply (or the exception the call raised), fences stripped, decoded
   * and turned into a record. A reply that does not decode into a valid
   * record (not JSON, a field pydantic rejects, an amount `Decimal` cannot
   * read) raises.
   */
  function ExtractWithAi(keyConfigured: bool, path: string, fhash: string,
                         reply: Outcome<string>, jsonLoads: string -> Option<AiFields>,
                         u: UuidHex, now: Timestamp): Outcome<Option<Expense>>
  {
    if !keyConfigured then Returned(None)
    else if reply.Raised? then Raised
    else
      var data := jsonLoads(StripFences(reply.value));
      if data.None? then Raised
      else Returned(Some(FromFields(path, fhash, data.value, u, now)))
  }

  /** Without a key the answer is None, whatever the call would have given. */
  lemma NoKeyNoResult(path: string, fhash: string, reply: Outcome<string>,
                      jsonLoads: string -> Option<AiFields>, u: UuidHex, now: Timestamp)
    ensures ExtractWithAi(false, path, fhash, reply, jsonLoads, u, now) == Returned(None)
  {
  }

  /**
   * With a key, the call either raises or returns a record; the record
   * carries the hash it was given, is an AI extraction with confidence 0.8
   * and is held for review.
   */
  lemma Result(keyConfigured: bool, path: string, fhash: string, reply: Outcome<string>,
               jsonLoads: string -> Option<AiFields>, u: UuidHex, now: Timestamp)
    ensures var r := ExtractWithAi(keyConfigured, path, fhash, reply, jsonLoads, u, now);
      && (keyConfigured ==> r != Returned(None))
      && (r.Returned? && r.value.Some? ==>
            && r.value.value.fileHash == fhash && r.value.value.filePath == path
            && r.value.value.extractionMethod == Ai
            && r.value.value.extractionConfidence == 0.8
            && r.value.value.status == NeedsReview)
  {
  }

  /** A fenced reply is decoded from its body alone. */
  lemma FencedReply(path: string, fhash: string, tag: string, body: string,
                    jsonLoads: string -> Option<AiFields>, u: UuidHex, now: Timestamp)
    requires '\n' !in tag && !StartsWith(body, Fence)
    ensures ExtractWithAi(true, path, fhash, Returned(Fence + tag + "\n" + body + "\n" + Fence), jsonLoads, u, now)
         == ExtractWithAi(true, path, fhash, Returned(body), jsonLoads, u, now)
  {
    FencedBody(tag, body);
  }
}
