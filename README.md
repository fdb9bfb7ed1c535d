# Gnomon expense ledger — a Dafny model

Gnomon Expenses turns PDF invoices and receipts from a handful of software
vendors into a ledger of expense records kept for Swiss SME (KMU)
bookkeeping.

Processing one file runs three tiers in turn:

1. The PDF's text layer is run through a fixed, ordered list of vendor parsers.
   These are Anomaly, Anthropic, ElevenLabs, Infomaniak, Hetzner, Twilio and
   Namecheap, with a generic last-resort parser at the end.
2. If the text layer is blank, OCR text is run through the same parsers.
3. If the text is still blank, an AI extraction produces the record.

The record is then:

- stored in a JSON ledger, which is upserted by id and mirrored into
  per-month partitions and CSV views;
- optionally filed into a `YY-MM` folder, with collision-free renaming.

It can later be labelled, annotated, categorised and summarised in per-currency
reports.

This project models that core in Dafny:

- **Value objects** (`expense.dfy`, `categories.dfy`, `vat.dfy`):
  - the expense record and its defaults;
  - the status and extraction-method enumerations;
  - the file hash as hex of an abstract SHA-256;
  - the 19-entry KMU account catalogue;
  - Swiss VAT extraction with half-even rounding to cents.
- **Parsers:**
  - `parser_base.dfy`: the default parse result and the amount, rate and
    date conversions the parsers share;
  - one module per vendor parser (`anomaly.dfy` … `generic.dfy`). Each has a
    recognition predicate, a specification function and a `Parse` method that
    builds the result field by field, as the source does.
- **Pipeline** (`pipeline.dfy`, `ai_extract.dfy`):
  - the first-accepting-parser loop;
  - the three-tier `process_pdf`;
  - the AI tier's field defaults, fence stripping and date handling.
- **Storage** (`local_json.dfy`): the storage class, whose record list,
  per-month partitions and CSV views are fields the methods reassign.
- **Reports** (`reports.dfy`):
  - the filters;
  - the nested currency/account and currency/rate grouping;
  - the summary and VAT report tables with their totals.
- **Command line** (`cli.dfy`):
  - the `process` loop with its new/skip/fail counts;
  - filing into month folders;
  - `label`, `note`, `attach-context` and `categorize`;
  - the `list` filters.
- **Supporting modules:**
  - `dates.dfy`: calendar dates, `isoformat`/`fromisoformat`, and `strptime`
    for the two English month-name formats;
  - `text.dfy`: Python's `strip`, `split`, `join`, `replace` and `zfill` on
    `seq<char>`;
  - `sorting.dfy`: a stable insertion sort, as a model of `sorted`;
  - `grouping.dfy`: insertion-ordered grouping, as a model of `defaultdict(list)`.

Regular expressions are not modelled. Each `re.search` / `re.findall` is an
oracle function in a `Regexes` record, and returns the capture groups that the
source then converts. The model proves what the source derives from those
groups.

Points where the model follows the code rather than the prose description:

- The Infomaniak and Hetzner parsers reorder "DD/MM/YYYY" without checking the
  calendar. So "31/02/2026" yields the string "2026-02-31". The pipeline later
  turns that string into an undated record.
- The "Total" row of the summary report counts category rows, not expenses.
  The VAT report's total row counts expenses.
- Saving a record whose date moved to another month leaves the old copy in the
  old month's partition.

## Model

| member | source | states |
|---|---|---|
| ExpenseModel.MethodFromValue | src/gnomon_expenses/models/expense.py:14-18 | a method value is accepted exactly when it is one of pdf_text, ocr, ai, manual, and it maps back to that value |
| ExpenseModel.MethodValueRoundTrip | src/gnomon_expenses/models/expense.py:14-18 | every extraction method survives being written as its value and read back |
| ExpenseModel.StatusFromValue | src/gnomon_expenses/models/expense.py:21-24 | a status value is accepted exactly when it is processed, needs_review or verified |
| ExpenseModel.StatusValueRoundTrip | src/gnomon_expenses/models/expense.py:21-24 | every status survives being written as its value and read back |
| ExpenseModel.DefaultId | src/gnomon_expenses/models/expense.py:30 | the default id is the first 12 characters of the UUID's hex form, so it is 12 lower-case hex digits |
| ExpenseModel.NewExpense | src/gnomon_expenses/models/expense.py:27-54 | a new record carries the given path, hash and gross, and every other field has its declared default: amounts 0, USD, empty text, labels and context files, no date or account, status processed, method pdf_text, confidence 1.0 |
| ExpenseModel.Hex | src/gnomon_expenses/models/expense.py:65 | a hex digest has two lower-case hex characters per byte |
| ExpenseModel.UnhexHex | src/gnomon_expenses/models/expense.py:65 | the hex digest can be decoded back to the bytes it came from |
| ExpenseModel.HexInjective | src/gnomon_expenses/models/expense.py:65 | different byte strings never have the same hex digest |
| ExpenseModel.FileHash | src/gnomon_expenses/models/expense.py:59-65 | the file hash is 64 lower-case hex characters that decode to the SHA-256 digest of the content |
| ExpenseModel.FileHashSameIffSameDigest | src/gnomon_expenses/models/expense.py:59-65 | two files have equal hashes exactly when their SHA-256 digests are equal |
| Categories.FindKey | src/gnomon_expenses/models/categories.py:37-38 | the lookup position is the first entry with the key, or the end when there is none |
| Categories.Lookup | src/gnomon_expenses/models/categories.py:37-38 | a lookup succeeds exactly when the key is in the table |
| Categories.LookupOfKey | src/gnomon_expenses/models/categories.py:37-38 | looking up the key of an entry not shadowed by an earlier one yields that entry's value |
| Categories.CatalogueWellFormed | src/gnomon_expenses/models/categories.py:14-34 | the catalogue has 19 entries; every account number equals its key and lies in 6000–6999 |
| Categories.CatalogueNameInitials | src/gnomon_expenses/models/categories.py:14-34 | every catalogue name is non-empty and does not start with 'U', so none is "Uncategorized" |
| Categories.CatalogueKeysDistinct | src/gnomon_expenses/models/categories.py:14-34 | no account number is listed twice |
| Categories.CatalogueAscending | src/gnomon_expenses/models/categories.py:14-34 | the catalogue is written in strictly ascending account order |
| Categories.AdjacentAscending | src/gnomon_expenses/models/categories.py:41-42 | a list whose neighbours ascend strictly is strictly ascending throughout |
| Categories.GetAccountSpec | src/gnomon_expenses/models/categories.py:37-38 | get_account(n) is present exactly when n is a catalogue key, and then it returns account n, which lies in 6000–6999 |
| Categories.GetAccountOfEntry | src/gnomon_expenses/models/categories.py:37-38 | get_account on an entry's key returns exactly that entry |
| Categories.ListAccountsSpec | src/gnomon_expenses/models/categories.py:41-42 | list_accounts returns all 19 accounts, each exactly once, in strictly ascending number order |
| Categories.EntryInCatalogue | src/gnomon_expenses/models/categories.py:14-34 | every (number, name) pair in the table is a catalogue pair |
| Categories.InfrastructureAccount | src/gnomon_expenses/models/categories.py:29 | 6810 "Informatik-Infrastruktur" is a catalogue pair |
| Categories.ServicesAccount | src/gnomon_expenses/models/categories.py:30 | 6820 "Informatik-Dienstleistungen" is a catalogue pair |
| Categories.TelecomAccount | src/gnomon_expenses/models/categories.py:31 | 6830 "Telekommunikation" is a catalogue pair |
| Categories.DomainsAccount | src/gnomon_expenses/models/categories.py:32 | 6840 "Domänen und Hosting" is a catalogue pair |
| Categories.SubscriptionsAccount | src/gnomon_expenses/models/categories.py:33 | 6850 "Software-Abonnemente" is a catalogue pair |
| Vat.RateLabel | src/gnomon_expenses/models/vat.py:11-16 | a rate has a label exactly when it is 8.1, 2.6, 3.8 or 0, and the label is the table's |
| Vat.RateLabelKeys | src/gnomon_expenses/models/vat.py:6-16 | the label table has exactly the four distinct keys 8.1, 2.6, 3.8 and 0 |
| Vat.RoundHalfEven | src/gnomon_expenses/models/vat.py:23 | the rounded integer is within one half of the value, and a tie goes to the even neighbour |
| Vat.RoundCents | src/gnomon_expenses/models/vat.py:23 | quantizing to 0.01 gives a whole number of cents within half a cent of the value, and a value exactly half a cent from the result is rounded to the even cent |
| Vat.RoundHalfEvenOfInt | src/gnomon_expenses/models/vat.py:23 | rounding leaves integers unchanged |
| Vat.RoundCentsOfCents | src/gnomon_expenses/models/vat.py:23 | quantizing leaves amounts already in cents unchanged |
| Vat.RoundHalfEvenMonotone | src/gnomon_expenses/models/vat.py:23 | half-even rounding is monotone |
| Vat.RoundCentsMonotone | src/gnomon_expenses/models/vat.py:23 | quantizing to cents is monotone |
| Vat.CentsDifference | src/gnomon_expenses/models/vat.py:26-28 | the difference of two cent amounts is a cent amount |
| Vat.ComputeVat | src/gnomon_expenses/models/vat.py:19-23 | VAT is 0 at rate 0; otherwise it is a cent amount within half a cent of gross·rate/(100+rate), and a share exactly half a cent from it is rounded to the even cent |
| Vat.NetPlusVatIsGross | src/gnomon_expenses/models/vat.py:26-28 | net plus VAT is exactly gross for every gross and rate, and net is gross at rate 0 |
| Vat.ShareBounds | src/gnomon_expenses/models/vat.py:23 | for non-negative gross and rate the unrounded VAT share lies between 0 and gross |
| Vat.VatWithinGross | src/gnomon_expenses/models/vat.py:19-28 | for a non-negative gross in cents and a non-negative rate, both VAT and net lie between 0 and gross |
| Vat.NormalRateExample | src/gnomon_expenses/models/vat.py:6-28 | at the 8.1% normal rate a gross of 8.11 splits into VAT 0.61 and net 7.50 |
| Vat.TieToEvenExample | src/gnomon_expenses/models/vat.py:19-23 | a VAT share of exactly half a cent goes to the even cent: gross 0.01 at rate 100 gives 0.00, gross 0.03 gives 0.02 |
| ParserBase.NewParseResult | src/gnomon_expenses/extraction/parsers/base.py:14-30 | a fresh parse result has empty text fields and date, zero amounts and rates, currency USD, no account and confidence 1.0 |
| ParserBase.NulsToSpaces | src/gnomon_expenses/extraction/parsers/anthropic.py:59 | cleaning replaces every NUL and keeps every other character and the length |
| ParserBase.AmountValue | src/gnomon_expenses/extraction/parsers/anomaly.py:46-50 | an amount with commas stripped is read as its whole part plus its two cent digits over 100, so it is a non-negative cent amount |
| ParserBase.AmountWithoutCommas | src/gnomon_expenses/extraction/parsers/anomaly.py:50 | removing the thousands commas leaves the whole digits, the point and the two cent digits |
| ParserBase.AmountValueExample | src/gnomon_expenses/extraction/parsers/anomaly.py:50 | "1,234.56" reads as 1234.56 |
| ParserBase.DecimalOfCents | src/gnomon_expenses/extraction/parsers/anomaly.py:50 | a digits-point-two-digits text denotes the whole part plus the cents over 100 |
| ParserBase.RateValue | src/gnomon_expenses/extraction/parsers/anthropic.py:62 | a rate text is read as a non-negative number, equal to its digits when it has no point |
| ParserBase.SplitDmy | src/gnomon_expenses/extraction/parsers/infomaniak.py:33-37 | splitting "DD/MM/YYYY" on '/' gives exactly the day, month and year parts |
| ParserBase.ReorderDmy | src/gnomon_expenses/extraction/parsers/infomaniak.py:33-37 | a "DD/MM/YYYY" date is rewritten as year-month-day from the same parts |
| ParserBase.ReorderDmyIso | src/gnomon_expenses/extraction/parsers/infomaniak.py:33-37 | the reordered text has ISO shape, and reads back as the date made of those parts exactly when that date is a calendar date |
| ParserBase.ReorderDmyRoundTrip | src/gnomon_expenses/extraction/parsers/hetzner.py:33-37 | a calendar date printed as "DD/MM/YYYY" is reordered into its ISO form, which reads back as the same date |
| ParserBase.ReorderDmyNonCalendarDate | src/gnomon_expenses/extraction/parsers/infomaniak.py:33-37 | "31/02/YYYY" is reordered without validation into a string that is not a calendar date |
| ParserBase.ReorderMdyOfParts | src/gnomon_expenses/extraction/parsers/namecheap.py:30-34 | "M/D/YYYY" becomes year-month-day with month and day zero-filled to two digits |
| ParserBase.ReorderMdyIso | src/gnomon_expenses/extraction/parsers/namecheap.py:30-34 | the reordered text has ISO shape and reads back as the date made of its parts exactly when that is a calendar date |
| ParserBase.LongDate | src/gnomon_expenses/extraction/parsers/anomaly.py:36-44 | the date stays "" exactly when there is no match or strptime with "%B %d, %Y" fails |
| ParserBase.LongDateRoundTrip | src/gnomon_expenses/extraction/parsers/anomaly.py:36-44 | "Month D, YYYY" of a calendar date, with the day plain or zero-padded, becomes that date's ISO form |
| Anomaly.CanParse | src/gnomon_expenses/extraction/parsers/anomaly.py:12-13 | the text is recognised exactly when it contains both "Anomaly" and "anoma.ly" |
| Anomaly.Parse | src/gnomon_expenses/extraction/parsers/anomaly.py:15-52 | the field-by-field construction always returns a result, namely the parser's specification |
| Anomaly.CatalogueAgrees | src/gnomon_expenses/extraction/parsers/anomaly.py:20-21 | the hard-coded account and name form a catalogue pair |
| Anomaly.FixedFields | src/gnomon_expenses/extraction/parsers/anomaly.py:16-44 | vendor Anomaly, US, USD, "opencode credits", no VAT, account 6820; each optional field stays "" without its match |
| Anomaly.Amounts | src/gnomon_expenses/extraction/parsers/anomaly.py:46-50 | gross is the "$X paid on" amount with commas stripped, else 0, and net always equals gross |
| Anomaly.ReceiptTrimmed | src/gnomon_expenses/extraction/parsers/anomaly.py:31-34 | the receipt number is the match trimmed at its ends only |
| Anomaly.DatePaid | src/gnomon_expenses/extraction/parsers/anomaly.py:36-44 | "Date paid Month D, YYYY" of a calendar date, with the day plain or zero-padded, gives that date's ISO form |
| Anthropic.CanParse | src/gnomon_expenses/extraction/parsers/anthropic.py:12-13 | the text is recognised exactly when it contains both "Anthropic" and "anthropic.com" |
| Anthropic.Parse | src/gnomon_expenses/extraction/parsers/anthropic.py:15-77 | the field-by-field construction returns the parser's specification |
| Anthropic.CatalogueAgrees | src/gnomon_expenses/extraction/parsers/anthropic.py:20-21 | the hard-coded account and name form a catalogue pair |
| Anthropic.FixedFields | src/gnomon_expenses/extraction/parsers/anthropic.py:16-55 | vendor Anthropic, US, USD, account 6820, no VAT number; each optional field stays "" without its match |
| Anthropic.Amounts | src/gnomon_expenses/extraction/parsers/anthropic.py:57-75 | the NUL-cleaned tax line sets rate and VAT, else both are 0; gross comes from "$X paid on"; net is the subtotal, else gross minus VAT; all are cent amounts |
| Anthropic.Description | src/gnomon_expenses/extraction/parsers/anthropic.py:45-50 | the description is the default exactly when no plan line matches, else "Claude " followed by the trimmed plan |
| Anthropic.ReceiptCollapsed | src/gnomon_expenses/extraction/parsers/anthropic.py:30-33 | the receipt number is single-spaced and keeps every non-space character of the match in order |
| Anthropic.DatePaid | src/gnomon_expenses/extraction/parsers/anthropic.py:35-43 | "Date paid Month D, YYYY" of a calendar date, with the day plain or zero-padded, gives that date's ISO form |
| Anthropic.TaxIgnoresNul | src/gnomon_expenses/extraction/parsers/anthropic.py:57-63 | texts that differ only by NUL versus space yield the same VAT rate and amount |
| ElevenLabs.CanParse | src/gnomon_expenses/extraction/parsers/elevenlabs.py:12-13 | the text is recognised exactly when it contains "Eleven Labs" or "elevenlabs.io" |
| ElevenLabs.Parse | src/gnomon_expenses/extraction/parsers/elevenlabs.py:15-79 | the field-by-field construction returns the parser's specification |
| ElevenLabs.CatalogueAgrees | src/gnomon_expenses/extraction/parsers/elevenlabs.py:20-21 | the hard-coded account and name form a catalogue pair |
| ElevenLabs.FixedFields | src/gnomon_expenses/extraction/parsers/elevenlabs.py:16-58 | vendor ElevenLabs, US, USD, account 6820; each optional field stays "" without its match |
| ElevenLabs.Amounts | src/gnomon_expenses/extraction/parsers/elevenlabs.py:60-77 | the NUL-cleaned "VAT - Switzerland" line sets rate and VAT, else both keep the default 0; gross from "$X paid on"; net is "Total excluding tax", else gross minus VAT |
| ElevenLabs.Description | src/gnomon_expenses/extraction/parsers/elevenlabs.py:48-53 | the description is the default exactly when no plan matches, else "ElevenLabs <plan> plan" |
| ElevenLabs.ReceiptCollapsed | src/gnomon_expenses/extraction/parsers/elevenlabs.py:28-31 | the receipt number is single-spaced and keeps every non-space character of the match |
| ElevenLabs.VatNumberTrimmed | src/gnomon_expenses/extraction/parsers/elevenlabs.py:43-46 | the VAT number is the match trimmed at its ends |
| ElevenLabs.DatePaid | src/gnomon_expenses/extraction/parsers/elevenlabs.py:33-41 | "Date paid Month D, YYYY" of a calendar date, with the day plain or zero-padded, gives that date's ISO form |
| Infomaniak.CanParse | src/gnomon_expenses/extraction/parsers/infomaniak.py:12-13 | the text is recognised exactly when it contains "Infomaniak" |
| Infomaniak.Parse | src/gnomon_expenses/extraction/parsers/infomaniak.py:15-71 | the field-by-field construction returns the parser's specification |
| Infomaniak.CatalogueAgrees | src/gnomon_expenses/extraction/parsers/infomaniak.py:20-21 | the hard-coded account and name form a catalogue pair |
| Infomaniak.FixedFields | src/gnomon_expenses/extraction/parsers/infomaniak.py:16-69 | vendor Infomaniak, CH, CHF, account 6850, no receipt; without their match the text fields stay "" and rate, gross, net and VAT stay 0, with no fallback between them |
| Infomaniak.AmountsInCents | src/gnomon_expenses/extraction/parsers/infomaniak.py:56-69 | gross, net and VAT are non-negative cent amounts |
| Infomaniak.InvoiceDate | src/gnomon_expenses/extraction/parsers/infomaniak.py:33-37 | "Date DD/MM/YYYY" of a calendar date becomes its ISO form, which reads back as that date |
| Infomaniak.InvoiceDateUnchecked | src/gnomon_expenses/extraction/parsers/infomaniak.py:33-37 | "31/02/YYYY" still yields a non-empty date string that is not a calendar date |
| Infomaniak.Description | src/gnomon_expenses/extraction/parsers/infomaniak.py:44-49 | the description is the default exactly when no kSuite line matches, else "kSuite (x)" |
| Infomaniak.VatNumberTrimmed | src/gnomon_expenses/extraction/parsers/infomaniak.py:23-26 | the VAT number is the match trimmed at its ends |
| Hetzner.CanParse | src/gnomon_expenses/extraction/parsers/hetzner.py:12-13 | the text is recognised exactly when it contains "Hetzner" |
| Hetzner.Parse | src/gnomon_expenses/extraction/parsers/hetzner.py:15-65 | the field-by-field construction returns the parser's specification |
| Hetzner.CatalogueAgrees | src/gnomon_expenses/extraction/parsers/hetzner.py:20-21 | the hard-coded account and name form a catalogue pair |
| Hetzner.FixedFields | src/gnomon_expenses/extraction/parsers/hetzner.py:16-49 | vendor Hetzner, DE, EUR, account 6810, no receipt; each optional text field stays "" without its match |
| Hetzner.Amounts | src/gnomon_expenses/extraction/parsers/hetzner.py:51-63 | gross comes from "Amount due"; the tax line sets rate, net and VAT and its own gross is ignored; without it all three stay 0; all are non-negative cent amounts |
| Hetzner.ExampleAgreesWithVat | src/gnomon_expenses/extraction/parsers/hetzner.py:57-63 | the tax line "8.1 % € 7.50 € 0.61 € 8.11" gives 8.1, 7.50 and 0.61, which agree with the VAT helpers on gross 8.11 |
| Hetzner.AmountOfTwoDigits | src/gnomon_expenses/extraction/parsers/hetzner.py:62 | a one-digit amount "w.cc" reads as w plus cc over 100 |
| Hetzner.RateOfOneDecimal | src/gnomon_expenses/extraction/parsers/hetzner.py:61 | a rate "w.f" reads as w plus f over 10 |
| Hetzner.InvoiceDate | src/gnomon_expenses/extraction/parsers/hetzner.py:33-37 | "Invoice date: DD/MM/YYYY" of a calendar date becomes its ISO form |
| Hetzner.Description | src/gnomon_expenses/extraction/parsers/hetzner.py:44-49 | the description is the default exactly when no project matches, else it embeds the project name |
| Twilio.CanParse | src/gnomon_expenses/extraction/parsers/twilio.py:12-13 | the text is recognised exactly when it contains both "Twilio" and "RECEIPT" |
| Twilio.Parse | src/gnomon_expenses/extraction/parsers/twilio.py:15-54 | the field-by-field construction returns the parser's specification |
| Twilio.CatalogueAgrees | src/gnomon_expenses/extraction/parsers/twilio.py:20-21 | the hard-coded account and name form a catalogue pair |
| Twilio.FixedFields | src/gnomon_expenses/extraction/parsers/twilio.py:16-52 | vendor Twilio, IE, USD, no VAT, account 6830, no invoice number; the receipt number is the Account SID when present |
| Twilio.Amounts | src/gnomon_expenses/extraction/parsers/twilio.py:43-47 | gross comes from "Total Paid", else 0, and net equals gross |
| Twilio.PeriodAndDate | src/gnomon_expenses/extraction/parsers/twilio.py:31-41 | the period is "<start> - <end>", and an end "D Month, YYYY" of a calendar date, with the day plain or zero-padded, gives that date's ISO form |
| Namecheap.CanParse | src/gnomon_expenses/extraction/parsers/namecheap.py:12-13 | the text is recognised exactly when it contains "Namecheap" |
| Namecheap.DomainsOf | src/gnomon_expenses/extraction/parsers/namecheap.py:36-44 | the domain list is the second group of every match, in order |
| Namecheap.Parse | src/gnomon_expenses/extraction/parsers/namecheap.py:15-63 | the field-by-field construction returns the parser's specification |
| Namecheap.CatalogueAgrees | src/gnomon_expenses/extraction/parsers/namecheap.py:20-21 | the hard-coded account and name form a catalogue pair |
| Namecheap.FixedFields | src/gnomon_expenses/extraction/parsers/namecheap.py:16-34 | vendor Namecheap, US, USD, no VAT, account 6840; order number and date stay "" without their match |
| Namecheap.Amounts | src/gnomon_expenses/extraction/parsers/namecheap.py:52-61 | gross is "TOTAL", else "Final Cost", else 0, and net equals gross unconditionally |
| Namecheap.Description | src/gnomon_expenses/extraction/parsers/namecheap.py:36-50 | the description is the default exactly when all three domain patterns find nothing; otherwise it names every domain of the first pattern that found some |
| Namecheap.OrderDate | src/gnomon_expenses/extraction/parsers/namecheap.py:30-34 | "Order Date: M/D/YYYY" of a calendar date becomes its ISO form, with month and day zero-filled |
| Generic.CanParse | src/gnomon_expenses/extraction/parsers/generic.py:12-14 | every text is recognised |
| Generic.AmountPatterns | src/gnomon_expenses/extraction/parsers/generic.py:21-29 | the priority list has seven entries, with the currency of each |
| Generic.FirstAmount | src/gnomon_expenses/extraction/parsers/generic.py:30-35 | the amount found comes from the first pattern that matches, and no earlier pattern matched |
| Generic.Parse | src/gnomon_expenses/extraction/parsers/generic.py:16-64 | the loop over the pattern list with its break returns the parser's specification |
| Generic.GivesUp | src/gnomon_expenses/extraction/parsers/generic.py:37-38 | the parser returns None exactly when no pattern matched or the first match was zero |
| Generic.Accepted | src/gnomon_expenses/extraction/parsers/generic.py:18-62 | a result has vendor Unknown, confidence 0.3, the review description, no VAT or account, net equal to a positive gross in cents, and currency CHF, EUR or USD |
| Generic.FoundCurrency | src/gnomon_expenses/extraction/parsers/generic.py:20-35 | the currency found is one of CHF, EUR and USD |
| Generic.LabelledChfFirst | src/gnomon_expenses/extraction/parsers/generic.py:20-35 | a non-zero "Total … CHF" amount wins over every other pattern |
| Generic.BareDollarLast | src/gnomon_expenses/extraction/parsers/generic.py:20-35 | a bare dollar amount is used only when none of the six earlier patterns matches |
| Generic.DatePreference | src/gnomon_expenses/extraction/parsers/generic.py:40-44 | a "DD/MM/YYYY" date is preferred, and that of a calendar date reads as its ISO form |
| Generic.LongDateFallback | src/gnomon_expenses/extraction/parsers/generic.py:45-54 | without a "DD/MM/YYYY" date, "Month D, YYYY" of a calendar date, with the day plain or zero-padded, gives its ISO form |
| Pipeline.Parse | src/gnomon_expenses/extraction/parsers/base.py:41-43 | dispatching parse on a vendor gives that vendor's result |
| Pipeline.Accepted | src/gnomon_expenses/extraction/pipeline.py:41-45 | a parser's result is accepted exactly when it recognises the text and returns a result with gross > 0 |
| Pipeline.FirstAccepted | src/gnomon_expenses/extraction/pipeline.py:39-46 | there is no result exactly when no parser is accepted; otherwise the result comes from an accepted parser all of whose predecessors were not accepted |
| Pipeline.TryParser | src/gnomon_expenses/extraction/pipeline.py:41-45 | one loop step yields the accepted result of that parser |
| Pipeline.TryInTurn | src/gnomon_expenses/extraction/pipeline.py:40-46 | the loop with early return yields the first accepted parser and its result, or (None, None) |
| Pipeline.ParseText | src/gnomon_expenses/extraction/pipeline.py:39-46 | _parse_text over PARSERS yields the first accepted parser and its result, or (None, None) |
| Pipeline.FirstAcceptedStep | src/gnomon_expenses/extraction/pipeline.py:40-46 | trying the parsers from position i is trying parser i and else the rest |
| Pipeline.FirstAcceptedIsEarliest | src/gnomon_expenses/extraction/pipeline.py:39-46 | when parser k is accepted and no earlier one is, the outcome is parser k's result; later parsers are not consulted |
| Pipeline.GenericAccepts | src/gnomon_expenses/extraction/pipeline.py:27-36 | the generic parser, last in the list, is accepted exactly when its parse returns a result |
| Pipeline.ParseTextGivesUp | src/gnomon_expenses/extraction/pipeline.py:27-46 | (None, None) is returned only if even the generic parser yields nothing; every result has gross > 0 |
| Pipeline.VendorOfResult | src/gnomon_expenses/extraction/pipeline.py:27-36 | a parser's result names that parser's vendor |
| Pipeline.ConfidenceOfResult | src/gnomon_expenses/extraction/pipeline.py:27-36 | a result has confidence 0.3 when it comes from the generic parser and 1.0 from any vendor parser |
| Pipeline.RecordDate | src/gnomon_expenses/extraction/pipeline.py:79-84 | a record date, when present, is a calendar date whose ISO form is the parsed date string |
| Pipeline.RecordDateCases | src/gnomon_expenses/extraction/pipeline.py:79-84 | the ISO form of a calendar date is read back as that date; "" and "2026-02-31" give no date |
| Pipeline.ProcessPdf | src/gnomon_expenses/extraction/pipeline.py:49-111 | the tier fall-through computes the specified outcome of the three tiers |
| Pipeline.HashComputedOnce | src/gnomon_expenses/extraction/pipeline.py:52-88 | every record carries the hash of the file's content and its path, whatever the tier |
| Pipeline.TextLayerFirst | src/gnomon_expenses/extraction/pipeline.py:54-77 | with a non-blank text layer, OCR and AI are never consulted and the method is pdf_text |
| Pipeline.OcrSecond | src/gnomon_expenses/extraction/pipeline.py:58-65 | with a blank text layer and non-blank OCR text, AI is never consulted and the method is ocr |
| Pipeline.AiLast | src/gnomon_expenses/extraction/pipeline.py:67-73 | when both texts are blank, the outcome is the AI result as-is, and None if AI raised |
| Pipeline.ParsedRecord | src/gnomon_expenses/extraction/pipeline.py:75-110 | a parsed record has gross > 0 and the first accepted parser's vendor, amounts, currency and account; it is processed exactly when confidence ≥ 0.7, that is, exactly when no generic parse was needed |
| Pipeline.ThresholdInclusive | src/gnomon_expenses/extraction/pipeline.py:106-110 | confidence 0.7 and 1.0 give processed; 0.69 and 0.3 give needs_review |
| AiExtract.UnfencedKept | src/gnomon_expenses/extraction/ai_extract.py:67-70 | a reply that does not start with a fence is kept unchanged |
| AiExtract.FencedBody | src/gnomon_expenses/extraction/ai_extract.py:67-70 | a fenced reply loses its first and last lines |
| AiExtract.DateOf | src/gnomon_expenses/extraction/ai_extract.py:74-79 | a date, when present, is a calendar date whose ISO form is the given string |
| AiExtract.DateOfIso | src/gnomon_expenses/extraction/ai_extract.py:74-79 | the ISO form of a calendar date is accepted as that date |
| AiExtract.NoDate | src/gnomon_expenses/extraction/ai_extract.py:74-79 | a missing, empty or non-calendar date gives None |
| AiExtract.Defaults | src/gnomon_expenses/extraction/ai_extract.py:81-101 | with no fields, the record is the default record with gross 0, method ai, confidence 0.8 and status needs_review |
| AiExtract.FieldsKept | src/gnomon_expenses/extraction/ai_extract.py:81-98 | every field present in the reply is copied, the account is taken as given, and path and hash are the ones passed in |
| AiExtract.NoKeyNoResult | src/gnomon_expenses/extraction/ai_extract.py:30-31 | without an API key the result is None before anything else happens |
| AiExtract.Result | src/gnomon_expenses/extraction/ai_extract.py:28-102 | with a key the function never returns None normally; every record has the given hash and path, method ai, confidence 0.8 and status needs_review |
| AiExtract.FencedReply | src/gnomon_expenses/extraction/ai_extract.py:67-72 | a fenced reply is decoded exactly as its body would be |
| LocalJson.MonthKeyOf | src/gnomon_expenses/storage/local_json.py:47-52 | a month key, when present, is seven characters long |
| LocalJson.MonthKeyOfDate | src/gnomon_expenses/storage/local_json.py:47-52 | an undated record has no month key; a dated one has "YYYY-MM" of its date |
| LocalJson.IdIndex | src/gnomon_expenses/storage/local_json.py:127-130 | the index is that of the first record with the id, or the end |
| LocalJson.UpsertSpec | src/gnomon_expenses/storage/local_json.py:124-138 | save replaces the first record with the same id (count unchanged) or appends at the end; every other record is unchanged |
| LocalJson.UpsertKeepsIdsUnique | src/gnomon_expenses/storage/local_json.py:124-138 | saving keeps ids unique, and the saved record is the only one with its id |
| LocalJson.UpsertTwice | src/gnomon_expenses/storage/local_json.py:127-133 | saving the same id twice equals saving only the second copy |
| LocalJson.StaleCopyKeptOnSave | src/gnomon_expenses/storage/local_json.py:99-113 | saving touches only the partition of the record's current month, and nothing for an undated record |
| LocalJson.HasMonthOfFront | src/gnomon_expenses/storage/local_json.py:60-69 | a month occurs in a list exactly when it occurs in its front or in its last record |
| LocalJson.ByMonthKeys | src/gnomon_expenses/storage/local_json.py:62-65 | grouping by month has a key exactly for the months that occur |
| LocalJson.ByMonthContents | src/gnomon_expenses/storage/local_json.py:62-65 | each month's group holds that month's records in stored order |
| LocalJson.ByMonthSpec | src/gnomon_expenses/storage/local_json.py:62-65 | the month grouping's keys are the months that occur, each holding that month's records in order |
| LocalJson.MonthRecordsEmpty | src/gnomon_expenses/storage/local_json.py:62-65 | a month that does not occur selects no records |
| LocalJson.RebuiltSpec | src/gnomon_expenses/storage/local_json.py:60-69 | rebuilding rewrites every month with records with exactly its records, and leaves every other partition as it was |
| LocalJson.CsvRows | src/gnomon_expenses/storage/local_json.py:72-82 | there is one CSV row per record |
| LocalJson.DateLePreorder | src/gnomon_expenses/storage/local_json.py:74 | comparing date keys is a total preorder |
| LocalJson.SortedByDateOrdered | src/gnomon_expenses/storage/local_json.py:74 | the CSV order is a permutation of the records, ordered by date key |
| LocalJson.SortedByDateStable | src/gnomon_expenses/storage/local_json.py:74 | records with equal date keys keep their stored order |
| LocalJson.CsvRowsByDate | src/gnomon_expenses/storage/local_json.py:72-82 | CSV rows are ordered by date, with undated rows first |
| LocalJson.SyncedMonthlyCsvSpec | src/gnomon_expenses/storage/local_json.py:85-96 | every month with records gets that month's CSV rows, and every other monthly CSV is left as it was |
| LocalJson.WithoutPrefixSpec | src/gnomon_expenses/storage/local_json.py:158-166 | delete keeps exactly the records whose id does not start with the prefix, and shrinks the list exactly when one does |
| LocalJson.EmptyPrefixDeletesAll | src/gnomon_expenses/storage/local_json.py:158-166 | the empty prefix deletes every record |
| LocalJson.LocalJsonStorage.constructor | src/gnomon_expenses/storage/local_json.py:116-119 | the storage starts with the given records, partitions and CSV views |
| LocalJson.LocalJsonStorage.LoadAll | src/gnomon_expenses/storage/local_json.py:121-122 | load_all returns the stored records |
| LocalJson.LocalJsonStorage.Save | src/gnomon_expenses/storage/local_json.py:124-138 | save upserts the record by id, updates its month partition only, and rewrites both CSV views from the new records |
| LocalJson.LocalJsonStorage.SaveAll | src/gnomon_expenses/storage/local_json.py:140-144 | save_all replaces the records, rebuilds the partitions and rewrites the CSV views |
| LocalJson.LocalJsonStorage.FindById | src/gnomon_expenses/storage/local_json.py:146-150 | the result is the first record, in stored order, whose id starts with the prefix, and None exactly when none does; it is the id lookup the commands use |
| LocalJson.LocalJsonStorage.FindByHash | src/gnomon_expenses/storage/local_json.py:152-156 | the result is the first record whose hash equals the given one, and None exactly when none does; it is the hash lookup `process` uses |
| LocalJson.LocalJsonStorage.Delete | src/gnomon_expenses/storage/local_json.py:158-166 | the result is true exactly when some id starts with the prefix; then those records are removed and the views rebuilt, else nothing changes |
| LocalJson.LocalJsonStorage.UpdateMonthly | src/gnomon_expenses/storage/local_json.py:99-113 | only the record's month partition is updated |
| LocalJson.LocalJsonStorage.RebuildMonthly | src/gnomon_expenses/storage/local_json.py:60-69 | the month partitions are rebuilt and nothing else changes |
| LocalJson.LocalJsonStorage.SyncCsv | src/gnomon_expenses/storage/local_json.py:85-96 | both CSV views are rewritten and nothing else changes |
| LocalJson.UpsertById | src/gnomon_expenses/storage/local_json.py:127-138 | the in-place replace or append loop computes the upsert |
| LocalJson.GroupByMonth | src/gnomon_expenses/storage/local_json.py:62-65 | the grouping loop computes the grouping by month |
| Reports.FilterIsOnePass | src/gnomon_expenses/reporting/reports.py:19-25 | the two successive filters equal one pass keeping the records that meet both |
| Reports.KeepWantedMembers | src/gnomon_expenses/reporting/reports.py:19-25 | the one-pass filter keeps exactly the records that meet both filters |
| Reports.FilterMembers | src/gnomon_expenses/reporting/reports.py:19-25 | _filter keeps exactly the dated records of the month and the records of the currency, compared case-insensitively |
| Reports.NoFilter | src/gnomon_expenses/reporting/reports.py:19-25 | a None or "" filter keeps everything |
| Reports.FilterExamples | src/gnomon_expenses/reporting/reports.py:19-25 | "chf" matches the CHF filter; an undated record is in no month; 2026-01-15 is in "2026-01" |
| Reports.MapInner | src/gnomon_expenses/reporting/reports.py:38-40 | each currency's bucket is grouped again by the inner key |
| Reports.GroupNested | src/gnomon_expenses/reporting/reports.py:38-40 | the nested fill loop computes the nested grouping |
| Reports.GroupBySnoc | src/gnomon_expenses/reporting/reports.py:38-40 | grouping one more record appends it to its key's bucket |
| Reports.NestedIsGroupBy | src/gnomon_expenses/reporting/reports.py:38-40 | the nested grouping is the currency grouping with each bucket grouped again |
| Reports.NestedBuckets | src/gnomon_expenses/reporting/reports.py:38-40 | currencies are distinct; each currency's inner buckets partition exactly that currency's records and are non-empty; every record's currency has a bucket |
| Reports.SortedCurrencies | src/gnomon_expenses/reporting/reports.py:42 | the sorted currency list is ordered, has distinct keys and holds every record's currency |
| Reports.SortedCurrencyEntry | src/gnomon_expenses/reporting/reports.py:42 | each sorted currency entry is the grouping of that currency's non-empty records |
| Reports.CurrencyOrder | src/gnomon_expenses/reporting/reports.py:42 | currencies are compared as strings, which is a total preorder |
| Reports.AccountOrder | src/gnomon_expenses/reporting/reports.py:58 | accounts are compared with None taken as 0, which is a total preorder |
| Reports.RateOrder | src/gnomon_expenses/reporting/reports.py:113 | rates are compared as numbers, which is a total preorder |
| Reports.CatalogueNamesNotUncategorized | src/gnomon_expenses/reporting/reports.py:64-65 | no catalogue account is named "Uncategorized" |
| Reports.CategoryNameSpec | src/gnomon_expenses/reporting/reports.py:64-65 | the name is "Uncategorized" exactly when the account is None, 0 or not in the catalogue; otherwise it is the catalogue name |
| Reports.AccountCellSpec | src/gnomon_expenses/reporting/reports.py:68 | the account cell is "—" exactly when the account is None or 0, and otherwise it reads back as the account number |
| Reports.SummaryTableFor | src/gnomon_expenses/reporting/reports.py:43-80 | the accumulation loop computes the summary table |
| Reports.SummaryTablesFor | src/gnomon_expenses/reporting/reports.py:42-81 | the loop over currencies computes one table per currency |
| Reports.SummaryTables | src/gnomon_expenses/reporting/reports.py:42-81 | there is one table per currency |
| Reports.SummaryReport | src/gnomon_expenses/reporting/reports.py:28-82 | summary_report computes the specified tables, or None when nothing is left |
| Reports.SummaryTableTotals | src/gnomon_expenses/reporting/reports.py:54-80 | the table totals equal the sums over the currency's records; the total count is the number of account rows, while the row counts add up to the number of records |
| Reports.SummaryRowsAreBuckets | src/gnomon_expenses/reporting/reports.py:58-74 | each row, in account order, summarises exactly that account's non-empty records |
| Reports.RowCountsSize | src/gnomon_expenses/reporting/reports.py:70 | the row counts add up to the number of bucketed records |
| Reports.SummaryRowOrder | src/gnomon_expenses/reporting/reports.py:58 | account rows are sorted, and equal keys keep their insertion order |
| Reports.SummaryReportEmpty | src/gnomon_expenses/reporting/reports.py:33-35 | the report is empty exactly when the filter leaves nothing |
| Reports.SummaryReportOrder | src/gnomon_expenses/reporting/reports.py:42 | tables come in strictly ascending currency order |
| Reports.SummaryReportCovers | src/gnomon_expenses/reporting/reports.py:38-42 | every filtered record's currency has a table |
| Reports.SummaryReportTotals | src/gnomon_expenses/reporting/reports.py:54-77 | each table's gross, net and VAT are the sums over that currency's filtered records, which are not empty |
| Reports.RateCellSpec | src/gnomon_expenses/reporting/reports.py:119 | a rate is shown with its label exactly when it is in the label table, and as a percentage exactly when it is not |
| Reports.VatTableFor | src/gnomon_expenses/reporting/reports.py:100-127 | the accumulation loop computes the VAT table |
| Reports.VatTablesFor | src/gnomon_expenses/reporting/reports.py:99-129 | the loop over currencies computes one VAT table per currency |
| Reports.VatTables | src/gnomon_expenses/reporting/reports.py:99-129 | there is one VAT table per currency |
| Reports.VatReport | src/gnomon_expenses/reporting/reports.py:85-129 | vat_report computes the specified tables, or None when nothing is left |
| Reports.VatTableTotals | src/gnomon_expenses/reporting/reports.py:113-127 | the total count is the number of records, and gross and VAT are their sums |
| Reports.VatRateOrder | src/gnomon_expenses/reporting/reports.py:113 | rate rows come in strictly ascending rate order |
| Reports.TotalCountsDiffer | src/gnomon_expenses/reporting/reports.py:80-127 | for two records in one bucket the summary total shows 1 and the VAT total shows 2 |
| Reports.SameKeyOneGroup | src/gnomon_expenses/reporting/reports.py:38-40 | two records with the same key fall into one group |
| Reports.VatReportEmpty | src/gnomon_expenses/reporting/reports.py:88-92 | the VAT report is empty exactly when the month filter leaves nothing |
| Reports.VatReportOrder | src/gnomon_expenses/reporting/reports.py:99 | VAT tables come in strictly ascending currency order |
| Reports.VatReportCovers | src/gnomon_expenses/reporting/reports.py:95-99 | every filtered record's currency has a VAT table |
| Reports.VatReportTotals | src/gnomon_expenses/reporting/reports.py:113-127 | each VAT table's count, gross and VAT are those of that currency's filtered records |
| Cli.LastDot | src/gnomon_expenses/cli.py:52 | the suffix begins at the last '.' of the name, if any |
| Cli.StemSuffix | src/gnomon_expenses/cli.py:52 | stem and suffix put together give the name back; a suffix is '.' and at least one more character, without another '.'; a non-empty name has a non-empty stem |
| Cli.CandidateInjective | src/gnomon_expenses/cli.py:53-56 | different counters give different candidate names |
| Cli.CandidatesSize | src/gnomon_expenses/cli.py:53-56 | the first n candidates are n distinct paths |
| Cli.TakenBound | src/gnomon_expenses/cli.py:53-56 | n taken candidates need at least n existing files, so the collision loop terminates |
| Cli.FirstFree | src/gnomon_expenses/cli.py:53-56 | the loop stops at the smallest counter whose candidate does not exist |
| Cli.FirstFreeUnique | src/gnomon_expenses/cli.py:53-56 | the smallest free counter is unique |
| Cli.FileIntoMonthFolder | src/gnomon_expenses/cli.py:33-59 | the while loop computes the specified destination and file system |
| Cli.FiledUndated | src/gnomon_expenses/cli.py:37-38 | an undated record leaves the file where it is |
| Cli.FiledInPlace | src/gnomon_expenses/cli.py:40-46 | a file already in its YY-MM folder stays put, and the folder exists afterwards |
| Cli.FiledMoved | src/gnomon_expenses/cli.py:48-59 | otherwise the file moves into the month folder under a free name: its own name if free, else stem_k.suffix for the smallest free k ≥ 1 |
| Cli.FiledCollisionExample | src/gnomon_expenses/cli.py:48-56 | with inv.pdf and inv_1.pdf taken, inv.pdf is filed as inv_2.pdf |
| Cli.InvPdfCandidates | src/gnomon_expenses/cli.py:52-55 | for inv.pdf the first two candidates are inv_1.pdf and inv_2.pdf |
| Cli.FiledHasDest | src/gnomon_expenses/cli.py:33-59 | the returned path exists afterwards |
| Cli.FiledKeepsFileCount | src/gnomon_expenses/cli.py:33-59 | filing never creates or loses a file |
| LocalJson.KnownHashSpec | src/gnomon_expenses/storage/local_json.py:152-156 | the hash lookup finds the first record with the hash, or none exactly when no record has it |
| LocalJson.FoundByHash | src/gnomon_expenses/storage/local_json.py:152-156 | any answer that is the first record with the hash, or None exactly when none has it, is the hash lookup |
| LocalJson.KnownIdSpec | src/gnomon_expenses/storage/local_json.py:146-150 | the id lookup finds the first record whose id starts with the prefix, or none exactly when none does |
| LocalJson.FoundById | src/gnomon_expenses/storage/local_json.py:146-150 | any answer that is the first record with the id prefix, or None exactly when none has it, is the id lookup |
| Cli.Process | src/gnomon_expenses/cli.py:72-120 | the loop over the PDFs leaves the storage, the disk and the counts as the specified run of all steps |
| Cli.ProcessOne | src/gnomon_expenses/cli.py:86-117 | one iteration performs the specified step |
| Cli.HandleOne | src/gnomon_expenses/cli.py:93-117 | extraction, filing and saving of one PDF perform the specified step |
| Cli.Prepare | src/gnomon_expenses/cli.py:100-106 | with --force the existing id is reused; filing is skipped with --no-file |
| Cli.ProcessCountsAll | src/gnomon_expenses/cli.py:81-120 | new + skip + fail grows by exactly the number of PDFs, and skips never decrease |
| Cli.SkipKnown | src/gnomon_expenses/cli.py:86-92 | a known hash without --force is skipped: the extractor is not consulted and ledger and disk stay unchanged |
| Cli.SkipKnownHelper | src/gnomon_expenses/cli.py:86-92 | a skip changes only the skip count |
| Cli.FailureLeavesNoTrace | src/gnomon_expenses/cli.py:94-98 | a failed extraction neither moves the file nor saves anything, and counts one PDF without a new record |
| Cli.ForceReplaces | src/gnomon_expenses/cli.py:100-108 | with --force a known file's record is replaced under its old id and the ledger does not grow |
| Cli.NewPdfAppended | src/gnomon_expenses/cli.py:94-118 | a new file with a new id is appended to the ledger and counted as new |
| Cli.ProcessedThenSkipped | src/gnomon_expenses/cli.py:86-108 | processing the same file twice without --force skips it the second time and changes nothing |
| Cli.NoFileKeepsDisk | src/gnomon_expenses/cli.py:104-106 | with --no-file the run never changes the disk |
| Cli.ProcessKeepsIdsUnique | src/gnomon_expenses/cli.py:85-118 | a run keeps record ids unique |
| Cli.StepKeepsIdsUnique | src/gnomon_expenses/cli.py:85-118 | one step keeps record ids unique |
| Cli.FiledRecordPointsAtFile | src/gnomon_expenses/cli.py:104-108 | after a PDF is filed and saved, the record just saved sits at its id's place in the ledger and its path names a file that exists |
| Cli.WithLabelsSpec | src/gnomon_expenses/cli.py:205-207 | labelling keeps the old labels as a prefix, adds every given label, adds nothing else, and keeps labels free of duplicates |
| Cli.WithPresentLabels | src/gnomon_expenses/cli.py:205-207 | labels already present change nothing |
| Cli.WithLabelsIdempotent | src/gnomon_expenses/cli.py:205-207 | labelling twice with the same labels equals labelling once |
| Cli.NoteAppendsLine | src/gnomon_expenses/cli.py:224-227 | every note keeps the old notes as a prefix and ends with the text; a text without a line break is one new last line |
| Cli.Label | src/gnomon_expenses/cli.py:196-210 | the command reports the specified outcome and saves the labelled record only when one was found |
| Cli.Note | src/gnomon_expenses/cli.py:216-230 | the command reports the specified outcome and saves the annotated record only when one was found |
| Cli.AttachContext | src/gnomon_expenses/cli.py:236-249 | the command reports the specified outcome and saves the record with the path only when one was found |
| Cli.Categorize | src/gnomon_expenses/cli.py:255-271 | the command reports the specified outcome and saves the categorised record only when one was found |
| Cli.CommandsSpec | src/gnomon_expenses/cli.py:197-249 | label, note and attach-context fail exactly when no id starts with the prefix; otherwise each changes only its field of the first matching record |
| Cli.AttachedPathPresent | src/gnomon_expenses/cli.py:244-246 | the path is present afterwards, attaching twice equals attaching once, no duplicates appear, and nothing else is added |
| Cli.CategorizedSpec | src/gnomon_expenses/cli.py:255-271 | an unknown account is rejected before any lookup; otherwise the first matching record gets the account and its catalogue name and keeps every other field |
| Cli.KeepMeetingMembers | src/gnomon_expenses/cli.py:135-145 | one list filter keeps exactly the records that meet it |
| Cli.ApplyAllMembers | src/gnomon_expenses/cli.py:135-145 | the chain of filters keeps exactly the records that meet all of them |
| Cli.ListedMembers | src/gnomon_expenses/cli.py:135-145 | list shows exactly the records that meet every given filter |
| Cli.AllMetAppend | src/gnomon_expenses/cli.py:135-145 | meeting two filter chains is meeting both |
| Cli.AllMetOptional | src/gnomon_expenses/cli.py:135-145 | a filter that was not given is met by every record |
| Cli.CriteriaMet | src/gnomon_expenses/cli.py:135-145 | the chain built from the options is met exactly by the wanted records |
| Cli.KeepMonthIsKeepMeeting | src/gnomon_expenses/cli.py:136-137 | list's month filter is the reports' month filter |
| Cli.KeepCurrencyIsKeepMeeting | src/gnomon_expenses/cli.py:142-143 | list's currency filter is the reports' currency filter |
| Cli.ListedAsReports | src/gnomon_expenses/cli.py:135-145 | with only month and currency given, list keeps the same records as the reports' filter |
| Dates.IsoFormat | src/gnomon_expenses/extraction/pipeline.py:79-84 | the ISO form of a date is ten characters long |
| Dates.FromIsoFormat | src/gnomon_expenses/extraction/pipeline.py:79-84 | fromisoformat yields only calendar dates |
| Dates.IsoFormatRoundTrip | src/gnomon_expenses/extraction/pipeline.py:79-84 | every calendar date survives isoformat followed by fromisoformat |
| Dates.FromIsoFormatRoundTrip | src/gnomon_expenses/extraction/pipeline.py:79-84 | every string fromisoformat accepts is the ISO form of its date |
| Dates.StrftimeYmdIsIso | src/gnomon_expenses/extraction/parsers/anomaly.py:42 | strftime "%Y-%m-%d" of a date with a four-digit year is its ISO form |
| Dates.StrftimeShortYm | src/gnomon_expenses/cli.py:40 | strftime "%y-%m" is five characters with a dash in the middle |
| Dates.MonthFromName | src/gnomon_expenses/extraction/parsers/anomaly.py:41 | a month name is accepted exactly when it is an English month name in any case, and gives that month |
| Dates.StrptimeMonthDayYear | src/gnomon_expenses/extraction/parsers/anomaly.py:41 | strptime with "%B %d, %Y" yields only calendar dates |
| Dates.StrptimeDayMonthYear | src/gnomon_expenses/extraction/parsers/twilio.py:38 | strptime with "%d %B, %Y" yields only calendar dates |
| Dates.MonthDayYearRoundTrip | src/gnomon_expenses/extraction/parsers/anomaly.py:41 | "Month D, YYYY" of a calendar date, with the day plain or zero-padded, parses back as that date |
| Dates.DayMonthYearRoundTrip | src/gnomon_expenses/extraction/parsers/twilio.py:38 | "D Month, YYYY" of a calendar date, with the day plain or zero-padded, parses back as that date |
| Text.StripIsTrimmedSlice | src/gnomon_expenses/extraction/pipeline.py:54 | strip removes exactly the leading and trailing whitespace |
| Text.StripEmptyIffBlank | src/gnomon_expenses/extraction/pipeline.py:54 | a text strips to "" exactly when it is all whitespace |
| Text.CollapseWhitespaceSpec | src/gnomon_expenses/extraction/parsers/anthropic.py:33 | joining the split words gives a single-spaced text with the same non-space characters |
| Text.JoinSplitOn | src/gnomon_expenses/extraction/ai_extract.py:69-70 | joining the pieces of a split with the separator gives the text back |
| Text.ZFillKeepsValue | src/gnomon_expenses/extraction/parsers/namecheap.py:34 | zfill keeps the digits' value and reaches the width |
| Text.NatToStringRoundTrip | src/gnomon_expenses/cli.py:54 | a counter written in decimal reads back as itself |
| Sorting.SortBySorted | src/gnomon_expenses/storage/local_json.py:74 | sorting by a total preorder gives an ordered sequence |
| Sorting.SortByStable | src/gnomon_expenses/reporting/reports.py:58 | sorting keeps elements with equal keys in their original order, as sorted does |
| Sorting.SortBy | src/gnomon_expenses/reporting/reports.py:42 | sorting gives a permutation of its input |
| Grouping.GroupBySpec | src/gnomon_expenses/reporting/reports.py:38-40 | grouping puts every element into exactly the bucket of its key, in order, with distinct keys in first-seen order |
| Grouping.GroupByTotal | src/gnomon_expenses/reporting/reports.py:54-77 | the bucket sums add up to the sum over all elements, and the bucket sizes to their number |
| Grouping.SortedTotal | src/gnomon_expenses/reporting/reports.py:58-77 | sorting the buckets keeps the total and the size |
| Grouping.SortByKeys | src/gnomon_expenses/reporting/reports.py:42-58 | sorting the buckets keeps their key set and distinct keys |

## Left out

- I/O of every kind is a parameter or left out. This covers PDF text extraction
  and OCR (inputs, with OCR possibly raising), reading file bytes, SHA-256 (an
  abstract function), `uuid4` and `datetime.now` (parameters), and the
  Anthropic API call with its `json.loads` (an abstract reply and decoder).
- AiExtract.ExtractWithAi: the abstract decoder returns None for every
  failure of building the record from the reply. This covers a reply that is
  not JSON, a field of the wrong type that pydantic rejects, and an amount
  or rate that `Decimal(str(...))` cannot read. Which of these failed, and
  the exception type raised, are not distinguished.
- Regular expressions are abstract oracle functions returning capture groups.
  The case-insensitive Generic invoice-number pattern, the greedy and lazy
  matches and the other `re` semantics are not modelled.
- File locking, JSON and CSV byte serialisation are not modelled.
  The stored ledger, month partitions and CSV views are in-memory sequences and
  maps in the storage class. The multi-process race is concurrency.
- The folder watcher, `adapter.py` (abstract signatures) and `config.py`
  (environment reads) are not part of this model. The data directory, the
  presence of the API key and the default currency are parameters.
- Rich tables, console output, Click parsing and `SystemExit` are not modelled.
  Reports are modelled as the values of their table cells and totals.
- The `export`, `watch`, `report`/`vat-report` wrappers and the `categories`
  display command are left out. They only print or call modelled functions.
- The `list` sorting, table and totals display is left out; only its filters
  are modelled.
- `_find_pdfs` (a directory glob) is left out. `process` takes the list of PDFs.
- `Path.resolve()`, symbolic links and `mkdir` are not modelled. Paths are a
  directory string and a name. `dest.exists()` is membership in a set of files,
  and folder creation adds to a set of directories.
- ParserBase.NewParseResult: the mutable `ParseResult` object is modelled as an
  immutable value. Each `Parse` method keeps the fields it assigns in local
  variables, updated match by match as the source does, and builds the value
  from them at the end. Aliasing of a result object is therefore not modelled;
  no two parsers share one.
- Vat.ComputeVat: uses exact reals with half-even rounding to cents instead of
  Decimal's 28-digit context. It requires a rate other than −100, where Python
  raises a division error.
- Dates.StrftimeYmdIsIso: years below 1000 are not zero-padded by `%Y` on the
  platform C library, so the lemma is stated for four-digit years only.
- Dates.MonthFromName: only English full month names are accepted. Locale
  behaviour and abbreviations of `strptime` are not modelled. Case mapping is
  ASCII only.
- Text.Lower and Text.Upper map ASCII letters only, where Python's `lower()`
  and `upper()` map all of Unicode. So Cli.Meets and Cli.ListedMembers (the
  `--vendor` filter of `list`) and Reports.SameCurrency (the currency filter
  of the reports and of `list`) compare non-ASCII letters case-sensitively:
  a vendor "BÄCKER AG" is not matched by `--vendor bäcker` in the model,
  though the program lists it.
- Cli.Label: requires at least one label, which Click enforces with
  `required=True` before the command runs.
- Python's `Decimal` and `float` are exact reals. Printing amounts as strings
  is not modelled.
