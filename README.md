# twse-rs: decoding and request building, modelled in Dafny

twse-rs is a small client for two reports of the Taiwan Stock Exchange (TWSE) on
the trading of institutional investors:
- the market-wide totals (endpoint `BFI82U`);
- the per-security figures (endpoints `T86`, `TWT54U` and `TWT47U`, one per granularity).

This project models the logic of that client that does not touch the network:

- **Cell converters** (`coercion.dfy`, module `Coercion`):
  - `clean_string` deletes every space.
  - `parse_u64` and `parse_i64` delete every `,` and then parse the rest with the
    grammar of Rust's `from_str`: an optional leading `+` (and `-` for `i64`), then
    decimal digits, with the value in range. Empty text is `Empty`; otherwise the
    first bad character decides: a non-digit gives `InvalidDigit`, and a digit that
    pushes the value past the limit gives the overflow kind, whatever follows it; a
    lone sign is `InvalidDigit`.
- **Dates** (`calendar.dfy`, module `Calendar`): Gregorian validity, chrono's
  `%Y%m%d` rendering of a date, and the parse of the feed's `YYYYMMDD` strings.
- **Row decoding** (`schema.dfy`, module `Schema`):
  - A record is decoded positionally, one cell per field, each cell through its
    field's converter.
  - The untagged `Data` enum tries the four-cell market-wide record first, then the
    nineteen-cell per-security record.
  - A `Response` decodes only if its date parses and every row decodes.
- **Arguments** (`args.dfy`, module `Args`): the granularities, the 42 security
  selections with their exchange codes (`IndustryType::value`), and the two argument
  records.
- **Fetchers** (`crawler.dfy`, module `Crawler`):
  - Each request is built as a value: the endpoint and its ordered query pairs.
  - The transport is a function parameter. It hands back either a response body
    already read as the report's JSON object, a malformed body, or a failure.
  - The status check and the loop that collects the rows of the expected variant are
    methods, proved against specification functions.
- **Sample vectors** (`fixtures.dfy`, module `Fixtures`): the repository's own sample
  rows, dates, codes and requests, decoded or built by the model.

`decimal.dfy` (module `Decimal`) holds digit strings, their values, and the renderers
used as reference definitions:
- unpadded;
- fixed width;
- grouped by thousands with `,`, as the feed writes amounts.

`wrappers.dfy` holds `Option` and `Result`.

Each operation is paired with an independent definition and proved against it:
- Parsing is paired with rendering, and both round trips are proved: grouped amounts
  parse back, dates format and parse back.
- The exchange codes are paired with a reader, and the mapping is proved injective.
- Each request builder is paired with a reader of requests. Building then reading gives
  back the arguments, and every readable request is the one built from what it reads.
- Each row decoder is paired with the feed's writer. Encoding then decoding gives back
  the record, and the positional field mapping is proved in both directions.
- The collection loops are proved equal to recursive specifications, whose own
  contracts state the status check, order, length and the wrong-variant error.

## Model

| member | source | states |
|---|---|---|
| Coercion.RemoveSpec | src/schema.rs:102 | `replace(",", "")` leaves no `,`, deletes exactly the occurrences of `,` (as multisets), and changes nothing when there is none |
| Coercion.RemoveAppend | src/schema.rs:93 | deletion works piece by piece, so the kept characters stay in their order |
| Coercion.CleanString | src/schema.rs:88-95 | `clean_string` output has no space, keeps every other character, and is the input when the input has no space |
| Coercion.CleanStringIdempotent | src/schema.rs:88-95 | cleaning twice equals cleaning once |
| Coercion.CleanStringConcat | src/schema.rs:88-95 | cleaning a concatenation is the concatenation of the cleaned pieces, so order is kept |
| Coercion.AccumulateCorrect | src/schema.rs:103 | the digit loop succeeds iff every character is a digit and the value is within the limit; the result is the value of the digits; every error is InvalidDigit or the overflow kind, and an all-digit string past the limit gives the overflow kind |
| Coercion.AccumulateFirstBad | src/schema.rs:103 | the first bad character decides the error, whatever follows it: a digit run past the limit gives the overflow kind, and a non-digit right after a run that fits gives InvalidDigit |
| Coercion.FromStrU64 | src/schema.rs:103 | `str::parse::<u64>` is Ok iff after an optional `+` there is a non-empty run of digits of value at most 2^64-1, with that value; Empty iff the text is empty; any other error is InvalidDigit or PosOverflow, and an all-digit body past the limit gives PosOverflow |
| Coercion.FromStrU64FirstBad | src/schema.rs:103 | for a u64 the first bad character after the optional `+` decides: digits past 2^64-1 give PosOverflow, a non-digit after digits that fit gives InvalidDigit |
| Coercion.FromStrI64 | src/schema.rs:113 | `str::parse::<i64>` is Ok iff the text is an optionally signed digit run whose signed value lies in the i64 range, with that value; Empty iff empty; any other error is InvalidDigit, PosOverflow or NegOverflow |
| Coercion.FromStrI64FirstBad | src/schema.rs:113 | for an i64 the first bad character after the sign decides: digits past 2^63 after `-` give NegOverflow, digits past 2^63-1 otherwise give PosOverflow, a non-digit after digits that fit gives InvalidDigit |
| Coercion.ParseU64 | src/schema.rs:97-105 | `parse_u64` succeeds exactly when the comma-stripped cell is a u64 literal, with its value; Empty exactly when the stripped cell is empty |
| Coercion.ParseI64 | src/schema.rs:107-115 | `parse_i64` succeeds exactly when the comma-stripped cell is an i64 literal, with its signed value; Empty exactly when the stripped cell is empty |
| Coercion.UngroupedDigits | src/schema.rs:102 | deleting the separators of a thousands-grouped number leaves a non-empty digit string of the same value |
| Coercion.ParseU64Grouped | src/schema.rs:97-105 | round trip: every n in the u64 range, written with `,` thousands grouping, parses back to n |
| Coercion.ParseI64Grouped | src/schema.rs:107-115 | round trip: every n in the i64 range, negative ones included, written with a sign and `,` grouping, parses back to n |
| Coercion.ParseU64RejectsNegative | src/schema.rs:102-104 | a negative amount, written as the feed writes it, is an InvalidDigit error for `parse_u64` |
| Calendar.DaysInMonth | src/schema.rs:84-85 | every month has between 28 and 31 days |
| Calendar.FormatYear | src/crawler.rs:18 | `%Y` writes years 0..=9999 as four digits denoting the year, a year above 9999 with a leading `+` and a negative year with a leading `-` |
| Calendar.FormatYmd | src/crawler.rs:18 | `format("%Y%m%d")` is eight digits exactly when the year has four digits |
| Calendar.ParseYmd | src/schema.rs:80-86 | `parse_date` yields only valid dates with four-digit years |
| Calendar.ParseFormat | src/schema.rs:78-86 | round trip: a valid date with a four-digit year, formatted then parsed, comes back unchanged |
| Calendar.FormatParse | src/schema.rs:78-86 | round trip: every string that parses is the formatting of the date it parses to |
| Calendar.ParseYmdExactly | src/schema.rs:78-86 | a string parses iff it is the `YYYYMMDD` rendering of a valid date |
| Schema.DecodeCell | src/schema.rs:24-32 | a cell goes through its field's converter: text is cleaned, and an amount cell decodes iff its parse succeeds, to the parsed value, with the kind its field expects |
| Schema.DecodeCells | src/schema.rs:35-76 | a struct decodes from an array iff there is exactly one cell per field and every cell converts; cell k becomes field k |
| Schema.TotalColumns | src/schema.rs:24-33 | the market-wide record's fields, in declaration order, have the converters' kinds |
| Schema.TotalFromCells | src/schema.rs:24-33 | the record read from its cells has exactly those cells as its fields |
| Schema.SingleStockColumnsFit | src/schema.rs:37-76 | the per-security record's nineteen fields, in declaration order, have the converters' kinds |
| Schema.SingleStockFromCells | src/schema.rs:37-76 | the record read from its cells has exactly those cells as its fields |
| Schema.DecodeTotal | src/schema.rs:22-33 | a market-wide row decodes iff its cells do, and the cells are the record's fields in order |
| Schema.DecodeSingleStock | src/schema.rs:35-76 | a per-security row decodes iff its cells do, and the cells are the record's fields in order |
| Schema.DecodeData | src/schema.rs:15-20 | the untagged enum tries the market-wide shape first: when its cells all convert the row is that record; otherwise, when the per-security cells all convert, it is that record; when it decodes, the variant is the market-wide one iff the row has 4 cells and the per-security one iff it has 19; any other length decodes to nothing |
| Schema.DecodeDataConverts | src/schema.rs:15-20 | a row decodes exactly when every one of its cells converts under the market-wide or under the per-security shape |
| Schema.DecodedTotal | src/schema.rs:15-33 | a row decoded as the market-wide variant has 4 cells, and its name, buy, sell and difference are those cells through their converters |
| Schema.DecodedSingleStock | src/schema.rs:15-76 | a row decoded as the per-security variant failed the market-wide shape, has 19 cells, and every field is its cell through its converter, in declaration order |
| Schema.DecodeRows | src/schema.rs:12 | the row list decodes iff every row does, keeping length and order |
| Schema.DecodeResponse | src/schema.rs:6-13 | a response decodes iff its date parses and all rows decode; stat, title and fields are copied; data keeps the rows' order |
| Schema.BadRowFailsResponse | src/schema.rs:12-20 | one row that fits neither variant makes the whole response fail |
| Schema.TotalFields | src/schema.rs:24-33 | a decoded market-wide row has 4 cells, mapped in order to name, buy, sell and difference through their converters |
| Schema.TotalFieldsComplete | src/schema.rs:24-33 | conversely, four cells that convert to a record's fields decode to that record, its difference taken from the wire |
| Schema.SingleStockFields | src/schema.rs:37-76 | a decoded per-security row has 19 cells mapped in declaration order; the dealers' total difference is cell 11 |
| Schema.SingleStockFieldsComplete | src/schema.rs:37-76 | conversely, nineteen cells that convert to a record's fields decode to that record |
| Schema.DecodeEncodeCell | src/schema.rs:88-115 | every unpadded field value, written as the feed writes it, converts back to itself |
| Schema.DecodeEncodeCells | src/schema.rs:35-76 | every record's cells, written as the feed writes them, decode back to the same cells |
| Schema.TotalRoundTrip | src/schema.rs:15-33 | a market-wide record written as a row decodes back to itself, as the first variant |
| Schema.SingleStockRoundTrip | src/schema.rs:15-76 | a per-security record written as a row decodes back to itself, as the second variant |
| Args.IndustryType.Value | src/args.rs:73-118 | every one of the 42 selections has a code, and no code is empty |
| Args.FromCodeSound | src/args.rs:75-116 | a code read as a selection is that selection's code |
| Args.FromCodeValue | src/args.rs:73-118 | every selection's code reads back as that selection |
| Args.ValueInjective | src/args.rs:75-116 | no two selections share a code |
| Args.TwoDigitCodesInRange | src/args.rs:84-115 | every two-digit code is an industry number from 01 to 31 |
| Args.EveryIndustryNumberUsed | src/args.rs:84-115 | every industry number from 01 to 31 is some selection's code |
| Crawler.SingleStockLinkType | src/crawler.rs:9-11 | the per-security endpoint determines the granularity |
| Crawler.SingleStockLinkTypeInverse | src/crawler.rs:9-11 | the three per-security endpoints are distinct, one per granularity |
| Crawler.SingleStockRequest | src/crawler.rs:18-38 | the endpoint is chosen by granularity, and the query is always response=json, date=`YYYYMMDD`, selectType=code, in that order |
| Crawler.SingleStockRequestRoundTrip | src/crawler.rs:18-38 | for a four-digit year, the request reader ReadSingleStockRequest recovers from a per-security request the date, granularity and selection it was built from |
| Crawler.SingleStockRequestCanonical | src/crawler.rs:18-38 | every per-security request that ReadSingleStockRequest accepts is the one built from what it reads |
| Crawler.GranularityType | src/crawler.rs:63-67 | the `type` value determines the granularity |
| Crawler.GranularityTypeInverse | src/crawler.rs:63-67 | the three `type` values are distinct, one per granularity |
| Crawler.TotalRequest | src/crawler.rs:60-67 | the endpoint is always BFI82U, and the query is response=json, then `<g>Date=YYYYMMDD`, then `type=<g>`, both named after the granularity g |
| Crawler.TotalRequestRoundTrip | src/crawler.rs:60-67 | for a four-digit year, the request reader ReadTotalRequest recovers from a market-wide request the date and granularity it was built from |
| Crawler.TotalRequestCanonical | src/crawler.rs:60-67 | every market-wide request that ReadTotalRequest accepts is the one built from what it reads |
| Crawler.SingleStockPayloads | src/crawler.rs:45-52 | unwrapping succeeds iff every row is a per-security record, and yields their payloads with the same length and order |
| Crawler.TotalPayloads | src/crawler.rs:74-81 | unwrapping succeeds iff every row is a market-wide record, and yields their payloads with the same length and order |
| Crawler.SingleStockOutcome | src/crawler.rs:41-54 | for a decoded response, a status other than OK is returned verbatim as TWSEError whatever the decoded rows hold; otherwise the result is Ok iff every row is a per-security record, in order, and EnumCastingError if not |
| Crawler.TotalOutcome | src/crawler.rs:70-83 | the same for the market-wide report and its record |
| Crawler.CollectSingleStock | src/crawler.rs:41-54 | the status check and the collecting loop, with its early return, compute SingleStockOutcome |
| Crawler.CollectTotal | src/crawler.rs:70-83 | the status check and the collecting loop, with its early return, compute TotalOutcome |
| Crawler.StatusNeedsDecodedBody | src/crawler.rs:40-43 | the status is looked at only after the whole body has decoded: a delivered body that does not decode is JsonError whatever its status, and a decoded one with a status other than OK is reported as TWSEError by both collection stages |
| Crawler.DecodeReply | src/crawler.rs:40 | a failed call is UreqError; a body that is not the report, or that does not decode, is JsonError; otherwise the decoded response |
| Crawler.BadRowIsJsonError | src/crawler.rs:40 | a delivered body with a row that fits neither record is a JSON error |
| Crawler.GetSingleStockInstitutionalInvestors | src/crawler.rs:15-55 | sends the per-security request once, then maps the reply through the transport, JSON and collection stages; success needs a delivered body |
| Crawler.GetTotalInstitutionInvestors | src/crawler.rs:57-84 | sends the market-wide request once, then maps the reply through the same stages; success needs a delivered body |
| Fixtures.CleanPaddedName | src/schema.rs:258 | the padded stock name `"環泥            "` is cleaned to `"環泥"` |
| Fixtures.ParseU64N87532849369 | src/schema.rs:183 | `"87,532,849,369"` parses to 87532849369 |
| Fixtures.ParseU64N0 | src/schema.rs:232 | `"0"` parses to 0 |
| Fixtures.ParseI64Neg5625328575 | src/schema.rs:179 | `"-5,625,328,575"` parses to -5625328575 |
| Fixtures.SampleDateParses | src/schema.rs:132 | `"20210205"` parses to 5 February 2021 |
| Fixtures.ForeignInvestorsRowDecodes | src/schema.rs:175-180 | the foreign investors' row decodes to buy 73576875154, sell 79202203729, difference -5625328575 |
| Fixtures.CementRowDecodes | src/schema.rs:256-276 | the row of security 1104 decodes field by field to the expected record |
| Fixtures.CementResponseDecodes | src/schema.rs:249-253 | a response with that row and that date decodes, with the row as its one per-security record |
| Fixtures.SpecificCodes | src/args.rs:75-116 | Cement is 01, All is ALL, AllWithoutWarrantsAndCBBCs is ALLBUT0999, ConvertibleCorporateBonds is CB, DepositoryReceipts is 9299 |
| Fixtures.WeeklyCementRequest | src/crawler.rs:25-30 | the weekly cement request for 2021-02-01 targets TWT54U with date=20210201 and selectType=01 |
| Fixtures.DailyTotalRequest | src/crawler.rs:60-64 | the daily market-wide request for 2021-02-01 targets BFI82U with dayDate=20210201 and type=day |
| Fixtures.CementResponseCollects | src/crawler.rs:45-54 | collecting a status-OK response of the cement record yields exactly that record |
| Fixtures.TotalRowIsWrongVariant | src/crawler.rs:47-51 | a market-wide record in a per-security response gives EnumCastingError |
| Fixtures.StatusIsReported | src/crawler.rs:41-43 | a status other than OK is returned verbatim by both collection stages once the body has decoded |

## Left out

- Network I/O: `ureq::get`, `.query`, `.call()` and `.into_json()` are not modelled. The request is a value, and the transport is the `call` parameter of the two fetchers.
- JSON text: serde_json's reading of the body is not modelled. A delivered body is already split into `stat`, `date`, `title`, `fields` and rows of string cells. A body of any other shape is the `Malformed` reply. serde's derived record visitors also accept a row written as a JSON object keyed by field name; the model has only array rows, so such a body is `Malformed` and gives JsonError where the Rust code would decode it.
- Keys that the report carries but the records do not declare (`params`, `notes`, `selectType`) are ignored by serde and do not appear in the model.
- `title` and `fields` are copied into the response and never drive decoding.
- Calendar.ParseYmd: chrono's `%Y` also accepts fewer or more than four year digits, signed years and whitespace before any field. The model accepts exactly eight ASCII digits that name a valid date. `%m` and `%d` likewise accept a single digit, so chrono reads `2021125` as 2021-12-05 where the model rejects it. This is the form the feed sends and the form the crawler formats for years 0..=9999.
- Status check: a reply whose status is not OK but whose body does not decode (its `date` does not parse, or a row fits neither record) is JsonError, not TWSEError, because the body is decoded before the status is read; the TWSEError promise holds only for bodies that decode.
- Calendar.Date: chrono's `NaiveDate` year range (about ±262143) is not modelled; years are unbounded integers. A valid date is a precondition of the request builders, as it is an invariant of `NaiveDate`.
- Round trips for dates, and so for requests, are stated for four-digit years only. Other years are formatted with a sign, which the restricted parse does not read.
- Error details: the text of serde, `ParseIntError` and chrono errors is not modelled. The integer error kind is kept; transport and JSON errors are opaque `UreqError` and `JsonError`.
- `std::io::Error` and `ureq::Error` are foreign types, so src/errors.rs is reduced to the four `TwseError` variants.
- The crawler's tests query the live exchange, so their pass or fail is not local logic. That includes the year-6021 cases, which fail only because the exchange rejects them.
- Vec capacity (`Vec::with_capacity`) has no observable effect and is not modelled.
- The `1110` entry of the per-security test's expected list has no matching row and is never compared, so it is not a sample here.
