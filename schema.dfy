/**
 * The feed's JSON envelope and its rows. Every row is an array of string
 * cells; serde decodes it positionally into one of two record shapes, tried
 * in declaration order because `Data` is `untagged`. A row that fits neither
 * shape makes the whole response fail to decode.
 */
module Schema {
  import opened Wrappers
  import opened Decimal
  import opened Coercion
  import opened Calendar

  /** One investor category of the market-wide report. `difference` is the wire value,
      never recomputed from `buy` and `sell`. */
  datatype TotalInstitutionalInvestors = TotalInstitutionalInvestors(
    name: string,
    buy: U64,
    sell: U64,
    difference: I64)

  /** One security of the per-security report, fields in the feed's column order. */
  datatype SingleStockInstitutionalInvestors = SingleStockInstitutionalInvestors(
    stockId: string,
    stockName: string,
    foreignInvestorBuy: U64,
    foreignInvestorSell: U64,
    foreignInvestorDifference: I64,
    foreignDealerSelfBuy: U64,
    foreignDealerSelfSell: U64,
    foreignDealerSelfDifference: I64,
    investmentTrustBuy: U64,
    investmentTrustSell: U64,
    investmentTrustDifference: I64,
    dealerTotalDifference: I64,
    dealerSelfBuy: U64,
    dealerSelfSell: U64,
    dealerSelfDifference: I64,
    dealerHedgingBuy: U64,
    dealerHedgingSell: U64,
    dealerDifference: I64,
    totalDifference: I64)

  /** A decoded row: the variants in the order serde tries them. */
  datatype Data =
    | Total(total: TotalInstitutionalInvestors)
    | SingleStock(singleStock: SingleStockInstitutionalInvestors)

  /** A row as it arrives: its string cells in order. */
  type Row = seq<string>

  /** The response envelope as it arrives (the keys the decoder reads). */
  datatype RawResponse = RawResponse(stat: string, date: string, title: string, fields: seq<string>, data: seq<Row>)

  /** The decoded envelope. */
  datatype Response = Response(stat: string, date: Date, title: string, fields: seq<string>, data: seq<Data>)

  // ---------------------------------------------------------------------------
  // Cells: the converter a position uses, and the value it produces.

  /** The converter a field's `deserialize_with` names. */
  datatype CellKind = CleanedText | UnsignedAmount | SignedAmount

  datatype Cell = Text(text: string) | Unsigned(unsigned: U64) | Signed(signed: I64)

  function KindOf(c: Cell): CellKind {
    match c
    case Text(_) => CleanedText
    case Unsigned(_) => UnsignedAmount
    case Signed(_) => SignedAmount
  }

  /** One cell through its field's converter: `clean_string`, `parse_u64` or `parse_i64`. */
  function DecodeCell(kind: CellKind, raw: string): (r: Option<Cell>)
    ensures r.Some? ==> KindOf(r.value) == kind
    ensures kind == CleanedText ==> r == Some(Text(CleanString(raw)))
    ensures kind == UnsignedAmount ==> (r.Some? <==> ParseU64(raw).Ok?)
    ensures kind == SignedAmount ==> (r.Some? <==> ParseI64(raw).Ok?)
    ensures kind == UnsignedAmount && r.Some? ==> r.value == Unsigned(ParseU64(raw).value)
    ensures kind == SignedAmount && r.Some? ==> r.value == Signed(ParseI64(raw).value)
  {
    match kind
    case CleanedText => Some(Text(CleanString(raw)))
    case UnsignedAmount => (match ParseU64(raw) case Ok(v) => Some(Unsigned(v)) case Err(_) => None)
    case SignedAmount => (match ParseI64(raw) case Ok(v) => Some(Signed(v)) case Err(_) => None)
  }

  /** Every cell has the kind its position's converter produces. */
  predicate FitsLayout(layout: seq<CellKind>, cells: seq<Cell>) {
    |cells| == |layout| && forall k :: 0 <= k < |cells| ==> KindOf(cells[k]) == layout[k]
  }

  /** serde's positional decoding of a struct from an array: exactly one cell per field,
      and cell k goes through field k's converter. */
  function DecodeCells(layout: seq<CellKind>, row: Row): (r: Option<seq<Cell>>)
    ensures r.Some? <==> |row| == |layout| && forall k :: 0 <= k < |row| ==> DecodeCell(layout[k], row[k]).Some?
    ensures r.Some? ==> FitsLayout(layout, r.value)
    ensures r.Some? ==> forall k :: 0 <= k < |row| ==> DecodeCell(layout[k], row[k]) == Some(r.value[k])
  {
    if |row| == |layout| && forall k :: 0 <= k < |row| ==> DecodeCell(layout[k], row[k]).Some? then
      Some(seq(|row|, k requires 0 <= k < |row| => DecodeCell(layout[k], row[k]).value))
    else None
  }

  // ---------------------------------------------------------------------------
  // The two record shapes: their fields' converters in declaration order, and
  // the record as its list of fields.

  const TotalLayout: seq<CellKind> := [CleanedText, UnsignedAmount, UnsignedAmount, SignedAmount]

  const SingleStockLayout: seq<CellKind> := [
    CleanedText, CleanedText,
    UnsignedAmount, UnsignedAmount, SignedAmount,
    UnsignedAmount, UnsignedAmount, SignedAmount,
    UnsignedAmount, UnsignedAmount, SignedAmount,
    SignedAmount,
    UnsignedAmount, UnsignedAmount, SignedAmount,
    UnsignedAmount, UnsignedAmount, SignedAmount,
    SignedAmount]

  /** The fields of a TotalInstitutionalInvestors in declaration order. */
  function TotalColumns(t: TotalInstitutionalInvestors): (cells: seq<Cell>)
    ensures FitsLayout(TotalLayout, cells)
  {
    [Text(t.name), Unsigned(t.buy), Unsigned(t.sell), Signed(t.difference)]
  }

  /** The fields of a SingleStockInstitutionalInvestors in declaration order. */
  function SingleStockColumns(s: SingleStockInstitutionalInvestors): seq<Cell>
  {
    [Text(s.stockId), Text(s.stockName),
     Unsigned(s.foreignInvestorBuy), Unsigned(s.foreignInvestorSell), Signed(s.foreignInvestorDifference),
     Unsigned(s.foreignDealerSelfBuy), Unsigned(s.foreignDealerSelfSell), Signed(s.foreignDealerSelfDifference),
     Unsigned(s.investmentTrustBuy), Unsigned(s.investmentTrustSell), Signed(s.investmentTrustDifference),
     Signed(s.dealerTotalDifference),
     Unsigned(s.dealerSelfBuy), Unsigned(s.dealerSelfSell), Signed(s.dealerSelfDifference),
     Unsigned(s.dealerHedgingBuy), Unsigned(s.dealerHedgingSell), Signed(s.dealerDifference),
     Signed(s.totalDifference)]
  }

  /** Field k of the record is cell k. */
  function TotalFromCells(cells: seq<Cell>): (t: TotalInstitutionalInvestors)
    requires FitsLayout(TotalLayout, cells)
    ensures TotalColumns(t) == cells
  {
    TotalInstitutionalInvestors(cells[0].text, cells[1].unsigned, cells[2].unsigned, cells[3].signed)
  }

  lemma SingleStockColumnsFit(s: SingleStockInstitutionalInvestors)
    ensures FitsLayout(SingleStockLayout, SingleStockColumns(s))
  {
  }

  /** The converter at each position of a per-security row. */
  lemma SingleStockKinds()
    ensures SingleStockLayout[0] == CleanedText
    ensures SingleStockLayout[1] == CleanedText
    ensures SingleStockLayout[2] == UnsignedAmount
    ensures SingleStockLayout[3] == UnsignedAmount
    ensures SingleStockLayout[4] == SignedAmount
    ensures SingleStockLayout[5] == UnsignedAmount
    ensures SingleStockLayout[6] == UnsignedAmount
    ensures SingleStockLayout[7] == SignedAmount
    ensures SingleStockLayout[8] == UnsignedAmount
    ensures SingleStockLayout[9] == UnsignedAmount
    ensures SingleStockLayout[10] == SignedAmount
    ensures SingleStockLayout[11] == SignedAmount
    ensures SingleStockLayout[12] == UnsignedAmount
    ensures SingleStockLayout[13] == UnsignedAmount
    ensures SingleStockLayout[14] == SignedAmount
    ensures SingleStockLayout[15] == UnsignedAmount
    ensures SingleStockLayout[16] == UnsignedAmount
    ensures SingleStockLayout[17] == SignedAmount
    ensures SingleStockLayout[18] == SignedAmount
  {
  }

  /** The field at each position of a per-security row. */
  lemma SingleStockPositions(s: SingleStockInstitutionalInvestors)
    ensures SingleStockColumns(s)[0] == Text(s.stockId)
    ensures SingleStockColumns(s)[1] == Text(s.stockName)
    ensures SingleStockColumns(s)[2] == Unsigned(s.foreignInvestorBuy)
    ensures SingleStockColumns(s)[3] == Unsigned(s.foreignInvestorSell)
    ensures SingleStockColumns(s)[4] == Signed(s.foreignInvestorDifference)
    ensures SingleStockColumns(s)[5] == Unsigned(s.foreignDealerSelfBuy)
    ensures SingleStockColumns(s)[6] == Unsigned(s.foreignDealerSelfSell)
    ensures SingleStockColumns(s)[7] == Signed(s.foreignDealerSelfDifference)
    ensures SingleStockColumns(s)[8] == Unsigned(s.investmentTrustBuy)
    ensures SingleStockColumns(s)[9] == Unsigned(s.investmentTrustSell)
    ensures SingleStockColumns(s)[10] == Signed(s.investmentTrustDifference)
    ensures SingleStockColumns(s)[11] == Signed(s.dealerTotalDifference)
    ensures SingleStockColumns(s)[12] == Unsigned(s.dealerSelfBuy)
    ensures SingleStockColumns(s)[13] == Unsigned(s.dealerSelfSell)
    ensures SingleStockColumns(s)[14] == Signed(s.dealerSelfDifference)
    ensures SingleStockColumns(s)[15] == Unsigned(s.dealerHedgingBuy)
    ensures SingleStockColumns(s)[16] == Unsigned(s.dealerHedgingSell)
    ensures SingleStockColumns(s)[17] == Signed(s.dealerDifference)
    ensures SingleStockColumns(s)[18] == Signed(s.totalDifference)
  {
  }

  /** Field k of the record is cell k. */
  function SingleStockFromCells(cells: seq<Cell>): (s: SingleStockInstitutionalInvestors)
    requires FitsLayout(SingleStockLayout, cells)
    ensures SingleStockColumns(s) == cells
  {
    SingleStockInstitutionalInvestors(
      cells[0].text, cells[1].text,
      cells[2].unsigned, cells[3].unsigned, cells[4].signed,
      cells[5].unsigned, cells[6].unsigned, cells[7].signed,
      cells[8].unsigned, cells[9].unsigned, cells[10].signed,
      cells[11].signed,
      cells[12].unsigned, cells[13].unsigned, cells[14].signed,
      cells[15].unsigned, cells[16].unsigned, cells[17].signed,
      cells[18].signed)
  }

  // ---------------------------------------------------------------------------
  // Row decoding.

  /** `TotalInstitutionalInvestors::deserialize` on one row. */
  function DecodeTotal(row: Row): (r: Option<TotalInstitutionalInvestors>)
    ensures r.Some? <==> DecodeCells(TotalLayout, row).Some?
    ensures r.Some? ==> DecodeCells(TotalLayout, row) == Some(TotalColumns(r.value))
  {
    var cells :- DecodeCells(TotalLayout, row);
    Some(TotalFromCells(cells))
  }

  /** `SingleStockInstitutionalInvestors::deserialize` on one row. */
  function DecodeSingleStock(row: Row): (r: Option<SingleStockInstitutionalInvestors>)
    ensures r.Some? <==> DecodeCells(SingleStockLayout, row).Some?
    ensures r.Some? ==> DecodeCells(SingleStockLayout, row) == Some(SingleStockColumns(r.value))
  {
    var cells :- DecodeCells(SingleStockLayout, row);
    Some(SingleStockFromCells(cells))
  }

  /** `Data::deserialize` (untagged): Total first, then SingleStock. */
  function DecodeData(row: Row): (r: Option<Data>)
    ensures r.Some? ==> (r.value.Total? <==> |row| == |TotalLayout|)
    ensures r.Some? ==> (r.value.SingleStock? <==> |row| == |SingleStockLayout|)
    ensures |row| != |TotalLayout| && |row| != |SingleStockLayout| ==> r.None?
    ensures DecodeTotal(row).Some? ==> r == Some(Total(DecodeTotal(row).value))
    ensures DecodeTotal(row).None? && DecodeSingleStock(row).Some? ==> r == Some(SingleStock(DecodeSingleStock(row).value))
  {
    match DecodeTotal(row)
    case Some(t) => Some(Total(t))
    case None =>
      match DecodeSingleStock(row)
      case Some(s) => Some(SingleStock(s))
      case None => None
  }

  /** A row decodes exactly when every cell converts under one of the two shapes. */
  lemma {:induction false} DecodeDataConverts(row: Row)
    ensures DecodeData(row).Some? <==> DecodeCells(TotalLayout, row).Some? || DecodeCells(SingleStockLayout, row).Some?
  {
    assert DecodeTotal(row).Some? <==> DecodeCells(TotalLayout, row).Some?;
    assert DecodeSingleStock(row).Some? <==> DecodeCells(SingleStockLayout, row).Some?;
  }

  /** `Vec<Data>::deserialize`: every row must decode; the result keeps the rows' order. */
  function DecodeRows(rows: seq<Row>): (r: Option<seq<Data>>)
    ensures r.Some? <==> forall i :: 0 <= i < |rows| ==> DecodeData(rows[i]).Some?
    ensures r.Some? ==> |r.value| == |rows|
    ensures r.Some? ==> forall i :: 0 <= i < |rows| ==> DecodeData(rows[i]) == Some(r.value[i])
  {
    if rows == [] then Some([])
    else
      var first :- DecodeData(rows[0]);
      var rest :- DecodeRows(rows[1..]);
      var decoded := [first] + rest;
      assert forall i :: 1 <= i < |rows| ==> rows[i] == rows[1..][i - 1] && decoded[i] == rest[i - 1];
      Some(decoded)
  }

  /** `Response::deserialize`: the date must parse and every row must decode. */
  function DecodeResponse(raw: RawResponse): (r: Option<Response>)
    ensures r.Some? <==> ParseYmd(raw.date).Some? && forall i :: 0 <= i < |raw.data| ==> DecodeData(raw.data[i]).Some?
    ensures r.Some? ==> r.value.stat == raw.stat && r.value.title == raw.title && r.value.fields == raw.fields
    ensures r.Some? ==> Some(r.value.date) == ParseYmd(raw.date)
    ensures r.Some? ==> |r.value.data| == |raw.data|
    ensures r.Some? ==> forall i :: 0 <= i < |raw.data| ==> DecodeData(raw.data[i]) == Some(r.value.data[i])
  {
    var date :- ParseYmd(raw.date);
    var data :- DecodeRows(raw.data);
    Some(Response(raw.stat, date, raw.title, raw.fields, data))
  }

  /** Decoding a row that the record shapes do not fit fails the whole response. */
  lemma {:induction false} BadRowFailsResponse(raw: RawResponse, i: int)
    requires 0 <= i < |raw.data| && DecodeData(raw.data[i]).None?
    ensures DecodeResponse(raw).None?
  {
  }

  /** The positional field mapping of a four-cell row. */
  lemma {:induction false} TotalFields(row: Row)
    requires DecodeTotal(row).Some?
    ensures var t := DecodeTotal(row).value;
      && |row| == 4
      && t.name == CleanString(row[0])
      && ParseU64(row[1]) == Ok(t.buy)
      && ParseU64(row[2]) == Ok(t.sell)
      && ParseI64(row[3]) == Ok(t.difference)
  {
    var t := DecodeTotal(row).value;
    var cells := TotalColumns(t);
    assert DecodeCell(TotalLayout[0], row[0]) == Some(cells[0]);
    assert DecodeCell(TotalLayout[1], row[1]) == Some(cells[1]);
    assert DecodeCell(TotalLayout[2], row[2]) == Some(cells[2]);
    assert DecodeCell(TotalLayout[3], row[3]) == Some(cells[3]);
  }

  /** A row decoded as the market-wide variant carries its four cells, converted, in order. */
  lemma {:induction false} DecodedTotal(row: Row, t: TotalInstitutionalInvestors)
    requires DecodeData(row) == Some(Total(t))
    ensures |row| == 4
    ensures t.name == CleanString(row[0])
    ensures ParseU64(row[1]) == Ok(t.buy) && ParseU64(row[2]) == Ok(t.sell)
    ensures ParseI64(row[3]) == Ok(t.difference)
  {
    TotalFields(row);
  }

  /** The positional field mapping of a nineteen-cell row: the dealers' total difference
      sits at position 11, before the dealer-self fields. */
  lemma {:induction false} SingleStockFields(row: Row)
    requires DecodeSingleStock(row).Some?
    ensures var s := DecodeSingleStock(row).value;
      && |row| == 19
      && s.stockId == CleanString(row[0]) && s.stockName == CleanString(row[1])
      && ParseU64(row[2]) == Ok(s.foreignInvestorBuy)
      && ParseU64(row[3]) == Ok(s.foreignInvestorSell)
      && ParseI64(row[4]) == Ok(s.foreignInvestorDifference)
      && ParseU64(row[5]) == Ok(s.foreignDealerSelfBuy)
      && ParseU64(row[6]) == Ok(s.foreignDealerSelfSell)
      && ParseI64(row[7]) == Ok(s.foreignDealerSelfDifference)
      && ParseU64(row[8]) == Ok(s.investmentTrustBuy)
      && ParseU64(row[9]) == Ok(s.investmentTrustSell)
      && ParseI64(row[10]) == Ok(s.investmentTrustDifference)
      && ParseI64(row[11]) == Ok(s.dealerTotalDifference)
      && ParseU64(row[12]) == Ok(s.dealerSelfBuy)
      && ParseU64(row[13]) == Ok(s.dealerSelfSell)
      && ParseI64(row[14]) == Ok(s.dealerSelfDifference)
      && ParseU64(row[15]) == Ok(s.dealerHedgingBuy)
      && ParseU64(row[16]) == Ok(s.dealerHedgingSell)
      && ParseI64(row[17]) == Ok(s.dealerDifference)
      && ParseI64(row[18]) == Ok(s.totalDifference)
  {
    var cells := SingleStockColumns(DecodeSingleStock(row).value);
    forall k | 0 <= k < 19
      ensures DecodeCell(SingleStockLayout[k], row[k]) == Some(cells[k])
    {
    }
  }

  /** A row decoded as the per-security variant failed the market-wide shape and
      carries its nineteen cells, converted, in declaration order. */
  lemma {:induction false} DecodedSingleStock(row: Row, s: SingleStockInstitutionalInvestors)
    requires DecodeData(row) == Some(SingleStock(s))
    ensures DecodeTotal(row).None? && |row| == 19
    ensures s.stockId == CleanString(row[0]) && s.stockName == CleanString(row[1])
    ensures ParseU64(row[2]) == Ok(s.foreignInvestorBuy) && ParseU64(row[3]) == Ok(s.foreignInvestorSell)
    ensures ParseI64(row[4]) == Ok(s.foreignInvestorDifference)
    ensures ParseU64(row[5]) == Ok(s.foreignDealerSelfBuy) && ParseU64(row[6]) == Ok(s.foreignDealerSelfSell)
    ensures ParseI64(row[7]) == Ok(s.foreignDealerSelfDifference)
    ensures ParseU64(row[8]) == Ok(s.investmentTrustBuy) && ParseU64(row[9]) == Ok(s.investmentTrustSell)
    ensures ParseI64(row[10]) == Ok(s.investmentTrustDifference)
    ensures ParseI64(row[11]) == Ok(s.dealerTotalDifference)
    ensures ParseU64(row[12]) == Ok(s.dealerSelfBuy) && ParseU64(row[13]) == Ok(s.dealerSelfSell)
    ensures ParseI64(row[14]) == Ok(s.dealerSelfDifference)
    ensures ParseU64(row[15]) == Ok(s.dealerHedgingBuy) && ParseU64(row[16]) == Ok(s.dealerHedgingSell)
    ensures ParseI64(row[17]) == Ok(s.dealerDifference)
    ensures ParseI64(row[18]) == Ok(s.totalDifference)
  {
    SingleStockFields(row);
  }

  lemma TextCell(raw: string, v: string)
    requires v == CleanString(raw)
    ensures DecodeCell(CleanedText, raw) == Some(Text(v))
  {
  }

  lemma UnsignedCell(raw: string, v: U64)
    requires ParseU64(raw) == Ok(v)
    ensures DecodeCell(UnsignedAmount, raw) == Some(Unsigned(v))
  {
  }

  lemma SignedCell(raw: string, v: I64)
    requires ParseI64(raw) == Ok(v)
    ensures DecodeCell(SignedAmount, raw) == Some(Signed(v))
  {
  }

  /** A row whose every cell converts to the matching column decodes to those columns. */
  lemma {:induction false} DecodeCellsOf(layout: seq<CellKind>, row: Row, cells: seq<Cell>)
    requires |row| == |layout| == |cells|
    requires forall k :: 0 <= k < |row| ==> DecodeCell(layout[k], row[k]) == Some(cells[k])
    ensures DecodeCells(layout, row) == Some(cells)
  {
    assert DecodeCells(layout, row).Some?;
    var decoded := DecodeCells(layout, row).value;
    assert forall k :: 0 <= k < |cells| ==> decoded[k] == cells[k];
    assert decoded == cells;
  }

  /** Conversely to TotalFields: four cells that convert to a record's fields decode,
      as the Total variant, to that record. */
  lemma {:induction false} TotalFieldsComplete(row: Row, t: TotalInstitutionalInvestors)
    requires |row| == 4
    requires t.name == CleanString(row[0])
    requires ParseU64(row[1]) == Ok(t.buy) && ParseU64(row[2]) == Ok(t.sell)
    requires ParseI64(row[3]) == Ok(t.difference)
    ensures DecodeData(row) == Some(Total(t))
  {
    var cells := TotalColumns(t);
    DecodeCellsOf(TotalLayout, row, cells);
    assert TotalFromCells(cells) == t;
  }

  /** Conversely to SingleStockFields: nineteen cells that convert to a record's fields
      decode, as the SingleStock variant, to that record. */
  lemma {:induction false} SingleStockFieldsComplete(row: Row, s: SingleStockInstitutionalInvestors)
    requires |row| == 19
    requires s.stockId == CleanString(row[0]) && s.stockName == CleanString(row[1])
    requires ParseU64(row[2]) == Ok(s.foreignInvestorBuy)
    requires ParseU64(row[3]) == Ok(s.foreignInvestorSell)
    requires ParseI64(row[4]) == Ok(s.foreignInvestorDifference)
    requires ParseU64(row[5]) == Ok(s.foreignDealerSelfBuy)
    requires ParseU64(row[6]) == Ok(s.foreignDealerSelfSell)
    requires ParseI64(row[7]) == Ok(s.foreignDealerSelfDifference)
    requires ParseU64(row[8]) == Ok(s.investmentTrustBuy)
    requires ParseU64(row[9]) == Ok(s.investmentTrustSell)
    requires ParseI64(row[10]) == Ok(s.investmentTrustDifference)
    requires ParseI64(row[11]) == Ok(s.dealerTotalDifference)
    requires ParseU64(row[12]) == Ok(s.dealerSelfBuy)
    requires ParseU64(row[13]) == Ok(s.dealerSelfSell)
    requires ParseI64(row[14]) == Ok(s.dealerSelfDifference)
    requires ParseU64(row[15]) == Ok(s.dealerHedgingBuy)
    requires ParseU64(row[16]) == Ok(s.dealerHedgingSell)
    requires ParseI64(row[17]) == Ok(s.dealerDifference)
    requires ParseI64(row[18]) == Ok(s.totalDifference)
    ensures DecodeData(row) == Some(SingleStock(s))
  {
    var cells := SingleStockColumns(s);
    SingleStockCells0(row, s);
    SingleStockCells1(row, s);
    SingleStockCells2(row, s);
    SingleStockCells3(row, s);
    SingleStockCellsAll(row, s);
    DecodeCellsOf(SingleStockLayout, row, cells);
    SingleStockColumnsFit(s);
    assert SingleStockFromCells(cells) == s;
  }

  lemma {:induction false} SingleStockCells0(row: Row, s: SingleStockInstitutionalInvestors)
    requires |row| == 19
    requires s.stockId == CleanString(row[0])
    requires s.stockName == CleanString(row[1])
    requires ParseU64(row[2]) == Ok(s.foreignInvestorBuy)
    requires ParseU64(row[3]) == Ok(s.foreignInvestorSell)
    requires ParseI64(row[4]) == Ok(s.foreignInvestorDifference)
    ensures DecodeCell(SingleStockLayout[0], row[0]) == Some(SingleStockColumns(s)[0])
    ensures DecodeCell(SingleStockLayout[1], row[1]) == Some(SingleStockColumns(s)[1])
    ensures DecodeCell(SingleStockLayout[2], row[2]) == Some(SingleStockColumns(s)[2])
    ensures DecodeCell(SingleStockLayout[3], row[3]) == Some(SingleStockColumns(s)[3])
    ensures DecodeCell(SingleStockLayout[4], row[4]) == Some(SingleStockColumns(s)[4])
  {
    SingleStockKinds();
    SingleStockPositions(s);
    TextCell(row[0], s.stockId);
    TextCell(row[1], s.stockName);
    UnsignedCell(row[2], s.foreignInvestorBuy);
    UnsignedCell(row[3], s.foreignInvestorSell);
    SignedCell(row[4], s.foreignInvestorDifference);
  }

  lemma {:induction false} SingleStockCells1(row: Row, s: SingleStockInstitutionalInvestors)
    requires |row| == 19
    requires ParseU64(row[5]) == Ok(s.foreignDealerSelfBuy)
    requires ParseU64(row[6]) == Ok(s.foreignDealerSelfSell)
    requires ParseI64(row[7]) == Ok(s.foreignDealerSelfDifference)
    requires ParseU64(row[8]) == Ok(s.investmentTrustBuy)
    requires ParseU64(row[9]) == Ok(s.investmentTrustSell)
    ensures DecodeCell(SingleStockLayout[5], row[5]) == Some(SingleStockColumns(s)[5])
    ensures DecodeCell(SingleStockLayout[6], row[6]) == Some(SingleStockColumns(s)[6])
    ensures DecodeCell(SingleStockLayout[7], row[7]) == Some(SingleStockColumns(s)[7])
    ensures DecodeCell(SingleStockLayout[8], row[8]) == Some(SingleStockColumns(s)[8])
    ensures DecodeCell(SingleStockLayout[9], row[9]) == Some(SingleStockColumns(s)[9])
  {
    SingleStockKinds();
    SingleStockPositions(s);
    UnsignedCell(row[5], s.foreignDealerSelfBuy);
    UnsignedCell(row[6], s.foreignDealerSelfSell);
    SignedCell(row[7], s.foreignDealerSelfDifference);
    UnsignedCell(row[8], s.investmentTrustBuy);
    UnsignedCell(row[9], s.investmentTrustSell);
  }

  lemma {:induction false} SingleStockCells2(row: Row, s: SingleStockInstitutionalInvestors)
    requires |row| == 19
    requires ParseI64(row[10]) == Ok(s.investmentTrustDifference)
    requires ParseI64(row[11]) == Ok(s.dealerTotalDifference)
    requires ParseU64(row[12]) == Ok(s.dealerSelfBuy)
    requires ParseU64(row[13]) == Ok(s.dealerSelfSell)
    requires ParseI64(row[14]) == Ok(s.dealerSelfDifference)
    ensures DecodeCell(SingleStockLayout[10], row[10]) == Some(SingleStockColumns(s)[10])
    ensures DecodeCell(SingleStockLayout[11], row[11]) == Some(SingleStockColumns(s)[11])
    ensures DecodeCell(SingleStockLayout[12], row[12]) == Some(SingleStockColumns(s)[12])
    ensures DecodeCell(SingleStockLayout[13], row[13]) == Some(SingleStockColumns(s)[13])
    ensures DecodeCell(SingleStockLayout[14], row[14]) == Some(SingleStockColumns(s)[14])
  {
    SingleStockKinds();
    SingleStockPositions(s);
    SignedCell(row[10], s.investmentTrustDifference);
    SignedCell(row[11], s.dealerTotalDifference);
    UnsignedCell(row[12], s.dealerSelfBuy);
    UnsignedCell(row[13], s.dealerSelfSell);
    SignedCell(row[14], s.dealerSelfDifference);
  }

  lemma {:induction false} SingleStockCells3(row: Row, s: SingleStockInstitutionalInvestors)
    requires |row| == 19
    requires ParseU64(row[15]) == Ok(s.dealerHedgingBuy)
    requires ParseU64(row[16]) == Ok(s.dealerHedgingSell)
    requires ParseI64(row[17]) == Ok(s.dealerDifference)
    requires ParseI64(row[18]) == Ok(s.totalDifference)
    ensures DecodeCell(SingleStockLayout[15], row[15]) == Some(SingleStockColumns(s)[15])
    ensures DecodeCell(SingleStockLayout[16], row[16]) == Some(SingleStockColumns(s)[16])
    ensures DecodeCell(SingleStockLayout[17], row[17]) == Some(SingleStockColumns(s)[17])
    ensures DecodeCell(SingleStockLayout[18], row[18]) == Some(SingleStockColumns(s)[18])
  {
    SingleStockKinds();
    SingleStockPositions(s);
    UnsignedCell(row[15], s.dealerHedgingBuy);
    UnsignedCell(row[16], s.dealerHedgingSell);
    SignedCell(row[17], s.dealerDifference);
    SignedCell(row[18], s.totalDifference);
  }

  /** Gathers the nineteen per-cell facts into one quantified statement. The case
      split hands each k its own requires clause instead of asking the solver to
      search all nineteen at once, which keeps the obligation small. */
  lemma {:induction false} SingleStockCellsAll(row: Row, s: SingleStockInstitutionalInvestors)
    requires |row| == 19
    requires DecodeCell(SingleStockLayout[0], row[0]) == Some(SingleStockColumns(s)[0])
    requires DecodeCell(SingleStockLayout[1], row[1]) == Some(SingleStockColumns(s)[1])
    requires DecodeCell(SingleStockLayout[2], row[2]) == Some(SingleStockColumns(s)[2])
    requires DecodeCell(SingleStockLayout[3], row[3]) == Some(SingleStockColumns(s)[3])
    requires DecodeCell(SingleStockLayout[4], row[4]) == Some(SingleStockColumns(s)[4])
    requires DecodeCell(SingleStockLayout[5], row[5]) == Some(SingleStockColumns(s)[5])
    requires DecodeCell(SingleStockLayout[6], row[6]) == Some(SingleStockColumns(s)[6])
    requires DecodeCell(SingleStockLayout[7], row[7]) == Some(SingleStockColumns(s)[7])
    requires DecodeCell(SingleStockLayout[8], row[8]) == Some(SingleStockColumns(s)[8])
    requires DecodeCell(SingleStockLayout[9], row[9]) == Some(SingleStockColumns(s)[9])
    requires DecodeCell(SingleStockLayout[10], row[10]) == Some(SingleStockColumns(s)[10])
    requires DecodeCell(SingleStockLayout[11], row[11]) == Some(SingleStockColumns(s)[11])
    requires DecodeCell(SingleStockLayout[12], row[12]) == Some(SingleStockColumns(s)[12])
    requires DecodeCell(SingleStockLayout[13], row[13]) == Some(SingleStockColumns(s)[13])
    requires DecodeCell(SingleStockLayout[14], row[14]) == Some(SingleStockColumns(s)[14])
    requires DecodeCell(SingleStockLayout[15], row[15]) == Some(SingleStockColumns(s)[15])
    requires DecodeCell(SingleStockLayout[16], row[16]) == Some(SingleStockColumns(s)[16])
    requires DecodeCell(SingleStockLayout[17], row[17]) == Some(SingleStockColumns(s)[17])
    requires DecodeCell(SingleStockLayout[18], row[18]) == Some(SingleStockColumns(s)[18])
    ensures forall k :: 0 <= k < 19 ==> DecodeCell(SingleStockLayout[k], row[k]) == Some(SingleStockColumns(s)[k])
  {
    forall k | 0 <= k < 19
      ensures DecodeCell(SingleStockLayout[k], row[k]) == Some(SingleStockColumns(s)[k])
    {
      if k == 0 {
      } else if k == 1 {
      } else if k == 2 {
      } else if k == 3 {
      } else if k == 4 {
      } else if k == 5 {
      } else if k == 6 {
      } else if k == 7 {
      } else if k == 8 {
      } else if k == 9 {
      } else if k == 10 {
      } else if k == 11 {
      } else if k == 12 {
      } else if k == 13 {
      } else if k == 14 {
      } else if k == 15 {
      } else if k == 16 {
      } else if k == 17 {
      }
    }
  }

  // ---------------------------------------------------------------------------
  // The feed's side: how a record is written as a row. Decoding inverts it.

  /** How the feed writes a field: text as it is, amounts with ',' thousands separators. */
  function EncodeCell(c: Cell): string {
    match c
    case Text(s) => s
    case Unsigned(v) => Grouped(v)
    case Signed(v) => SignedGrouped(v)
  }

  function EncodeCells(cells: seq<Cell>): (row: Row)
    ensures |row| == |cells|
  {
    seq(|cells|, k requires 0 <= k < |cells| => EncodeCell(cells[k]))
  }

  /** Text without padding, which `clean_string` leaves as it is. */
  predicate Unpadded(c: Cell) {
    c.Text? ==> ' ' !in c.text
  }

  lemma {:induction false} DecodeEncodeCell(c: Cell)
    requires Unpadded(c)
    ensures DecodeCell(KindOf(c), EncodeCell(c)) == Some(c)
  {
    match c
    case Text(s) =>
    case Unsigned(v) => ParseU64Grouped(v);
    case Signed(v) => ParseI64Grouped(v);
  }

  lemma {:induction false} DecodeEncodeCells(layout: seq<CellKind>, cells: seq<Cell>)
    requires FitsLayout(layout, cells) && forall k :: 0 <= k < |cells| ==> Unpadded(cells[k])
    ensures DecodeCells(layout, EncodeCells(cells)) == Some(cells)
  {
    var row := EncodeCells(cells);
    forall k | 0 <= k < |cells|
      ensures DecodeCell(layout[k], row[k]) == Some(cells[k])
    {
      DecodeEncodeCell(cells[k]);
    }
    DecodeCellsOf(layout, row, cells);
  }

  function EncodeTotal(t: TotalInstitutionalInvestors): Row {
    EncodeCells(TotalColumns(t))
  }

  function EncodeSingleStock(s: SingleStockInstitutionalInvestors): Row {
    EncodeCells(SingleStockColumns(s))
  }

  /** Round trip: a market-wide record written by the feed decodes back to itself, as the
      Total variant, whatever its difference (the decoder does not recompute it). */
  lemma {:induction false} TotalRoundTrip(t: TotalInstitutionalInvestors)
    requires ' ' !in t.name
    ensures DecodeData(EncodeTotal(t)) == Some(Total(t))
  {
    DecodeEncodeCells(TotalLayout, TotalColumns(t));
  }

  /** Round trip: a per-security record written by the feed decodes back to itself, as the
      SingleStock variant. */
  lemma {:induction false} SingleStockRoundTrip(s: SingleStockInstitutionalInvestors)
    requires ' ' !in s.stockId && ' ' !in s.stockName
    ensures DecodeData(EncodeSingleStock(s)) == Some(SingleStock(s))
  {
    var cells := SingleStockColumns(s);
    SingleStockColumnsFit(s);
    assert Unpadded(cells[0]) && Unpadded(cells[1]);
    DecodeEncodeCells(SingleStockLayout, cells);
    assert DecodeCells(TotalLayout, EncodeSingleStock(s)).None?;
  }
}
