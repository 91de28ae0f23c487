/**
 * The feed's own sample rows and the crawler's sample arguments, decoded and
 * built by the model. Each amount is shown to be the thousands-grouped
 * rendering of its value, so the parsing round trips apply to it.
 */
module Fixtures {
  import opened Wrappers
  import opened Decimal
  import opened Coercion
  import opened Calendar
  import opened Schema
  import opened Args
  import opened Crawler

  // ---------------------------------------------------------------------------
  // Amounts as the feed writes them.
  //
  // Each rendering is built one group at a time: one lemma per Grouped(n), per
  // FixedDigits group and per join. Unfolding a whole literal rendering in a
  // single proof is far costlier for the solver than these small steps.

  lemma {:induction false} GroupedStep(n: nat, head: string, tail: string)
    requires n >= 1000 && Grouped(n / 1000) == head && FixedDigits(n % 1000, 3) == tail
    ensures Grouped(n) == head + "," + tail
  {
  }

  lemma GroupedN0()
    ensures Grouped(0) == "0"
  {
  }

  lemma GroupedN3()
    ensures Grouped(3) == "3"
  {
  }

  lemma GroupedN5()
    ensures Grouped(5) == "5"
  {
  }

  lemma GroupedN35()
    ensures Grouped(35) == "35"
  {
  }

  lemma GroupedN38()
    ensures Grouped(38) == "38"
  {
  }

  lemma GroupedN73()
    ensures Grouped(73) == "73"
  {
  }

  lemma GroupedN79()
    ensures Grouped(79) == "79"
  {
  }

  lemma GroupedN86()
    ensures Grouped(86) == "86"
  {
  }

  lemma GroupedN87()
    ensures Grouped(87) == "87"
  {
  }

  lemma GroupedN121()
    ensures Grouped(121) == "121"
  {
  }

  lemma Fixed000()
    ensures FixedDigits(0, 3) == "000"
  {
  }

  lemma Fixed154()
    ensures FixedDigits(154, 3) == "154"
  {
  }

  lemma Fixed202()
    ensures FixedDigits(202, 3) == "202"
  {
  }

  lemma Fixed203()
    ensures FixedDigits(203, 3) == "203"
  {
  }

  lemma Fixed328()
    ensures FixedDigits(328, 3) == "328"
  {
  }

  lemma Fixed369()
    ensures FixedDigits(369, 3) == "369"
  {
  }

  lemma Fixed532()
    ensures FixedDigits(532, 3) == "532"
  {
  }

  lemma Fixed575()
    ensures FixedDigits(575, 3) == "575"
  {
  }

  lemma Fixed576()
    ensures FixedDigits(576, 3) == "576"
  {
  }

  lemma Fixed625()
    ensures FixedDigits(625, 3) == "625"
  {
  }

  lemma Fixed729()
    ensures FixedDigits(729, 3) == "729"
  {
  }

  lemma Fixed849()
    ensures FixedDigits(849, 3) == "849"
  {
  }

  lemma Fixed875()
    ensures FixedDigits(875, 3) == "875"
  {
  }

  lemma JoinedN3000()
    ensures "3" + "," + "000" == "3,000"
  {
  }

  lemma {:induction false} GroupedN3000()
    ensures Grouped(3000) == "3,000"
  {
    GroupedN3();
    Fixed000();
    GroupedStep(3000, "3", "000");
    JoinedN3000();
  }

  lemma JoinedN5625()
    ensures "5" + "," + "625" == "5,625"
  {
  }

  lemma {:induction false} GroupedN5625()
    ensures Grouped(5625) == "5,625"
  {
    GroupedN5();
    Fixed625();
    GroupedStep(5625, "5", "625");
    JoinedN5625();
  }

  lemma JoinedN35000()
    ensures "35" + "," + "000" == "35,000"
  {
  }

  lemma {:induction false} GroupedN35000()
    ensures Grouped(35000) == "35,000"
  {
    GroupedN35();
    Fixed000();
    GroupedStep(35000, "35", "000");
    JoinedN35000();
  }

  lemma JoinedN38000()
    ensures "38" + "," + "000" == "38,000"
  {
  }

  lemma {:induction false} GroupedN38000()
    ensures Grouped(38000) == "38,000"
  {
    GroupedN38();
    Fixed000();
    GroupedStep(38000, "38", "000");
    JoinedN38000();
  }

  lemma JoinedN73576()
    ensures "73" + "," + "576" == "73,576"
  {
  }

  lemma {:induction false} GroupedN73576()
    ensures Grouped(73576) == "73,576"
  {
    GroupedN73();
    Fixed576();
    GroupedStep(73576, "73", "576");
    JoinedN73576();
  }

  lemma JoinedN79202()
    ensures "79" + "," + "202" == "79,202"
  {
  }

  lemma {:induction false} GroupedN79202()
    ensures Grouped(79202) == "79,202"
  {
    GroupedN79();
    Fixed202();
    GroupedStep(79202, "79", "202");
    JoinedN79202();
  }

  lemma JoinedN86000()
    ensures "86" + "," + "000" == "86,000"
  {
  }

  lemma {:induction false} GroupedN86000()
    ensures Grouped(86000) == "86,000"
  {
    GroupedN86();
    Fixed000();
    GroupedStep(86000, "86", "000");
    JoinedN86000();
  }

  lemma JoinedN87532()
    ensures "87" + "," + "532" == "87,532"
  {
  }

  lemma {:induction false} GroupedN87532()
    ensures Grouped(87532) == "87,532"
  {
    GroupedN87();
    Fixed532();
    GroupedStep(87532, "87", "532");
    JoinedN87532();
  }

  lemma JoinedN121000()
    ensures "121" + "," + "000" == "121,000"
  {
  }

  lemma {:induction false} GroupedN121000()
    ensures Grouped(121000) == "121,000"
  {
    GroupedN121();
    Fixed000();
    GroupedStep(121000, "121", "000");
    JoinedN121000();
  }

  lemma JoinedN5625328()
    ensures "5,625" + "," + "328" == "5,625,328"
  {
  }

  lemma {:induction false} GroupedN5625328()
    ensures Grouped(5625328) == "5,625,328"
  {
    GroupedN5625();
    Fixed328();
    GroupedStep(5625328, "5,625", "328");
    JoinedN5625328();
  }

  lemma JoinedN73576875()
    ensures "73,576" + "," + "875" == "73,576,875"
  {
  }

  lemma {:induction false} GroupedN73576875()
    ensures Grouped(73576875) == "73,576,875"
  {
    GroupedN73576();
    Fixed875();
    GroupedStep(73576875, "73,576", "875");
    JoinedN73576875();
  }

  lemma JoinedN79202203()
    ensures "79,202" + "," + "203" == "79,202,203"
  {
  }

  lemma {:induction false} GroupedN79202203()
    ensures Grouped(79202203) == "79,202,203"
  {
    GroupedN79202();
    Fixed203();
    GroupedStep(79202203, "79,202", "203");
    JoinedN79202203();
  }

  lemma JoinedN87532849()
    ensures "87,532" + "," + "849" == "87,532,849"
  {
  }

  lemma {:induction false} GroupedN87532849()
    ensures Grouped(87532849) == "87,532,849"
  {
    GroupedN87532();
    Fixed849();
    GroupedStep(87532849, "87,532", "849");
    JoinedN87532849();
  }

  lemma JoinedN5625328575()
    ensures "5,625,328" + "," + "575" == "5,625,328,575"
  {
  }

  lemma {:induction false} GroupedN5625328575()
    ensures Grouped(5625328575) == "5,625,328,575"
  {
    GroupedN5625328();
    Fixed575();
    GroupedStep(5625328575, "5,625,328", "575");
    JoinedN5625328575();
  }

  lemma JoinedN73576875154()
    ensures "73,576,875" + "," + "154" == "73,576,875,154"
  {
  }

  lemma {:induction false} GroupedN73576875154()
    ensures Grouped(73576875154) == "73,576,875,154"
  {
    GroupedN73576875();
    Fixed154();
    GroupedStep(73576875154, "73,576,875", "154");
    JoinedN73576875154();
  }

  lemma JoinedN79202203729()
    ensures "79,202,203" + "," + "729" == "79,202,203,729"
  {
  }

  lemma {:induction false} GroupedN79202203729()
    ensures Grouped(79202203729) == "79,202,203,729"
  {
    GroupedN79202203();
    Fixed729();
    GroupedStep(79202203729, "79,202,203", "729");
    JoinedN79202203729();
  }

  lemma JoinedN87532849369()
    ensures "87,532,849" + "," + "369" == "87,532,849,369"
  {
  }

  lemma {:induction false} GroupedN87532849369()
    ensures Grouped(87532849369) == "87,532,849,369"
  {
    GroupedN87532849();
    Fixed369();
    GroupedStep(87532849369, "87,532,849", "369");
    JoinedN87532849369();
  }

  lemma {:induction false} ParseU64N121000()
    ensures ParseU64("121,000") == Ok(121000)
  {
    GroupedN121000();
    ParseU64Grouped(121000);
  }

  lemma {:induction false} ParseU64N86000()
    ensures ParseU64("86,000") == Ok(86000)
  {
    GroupedN86000();
    ParseU64Grouped(86000);
  }

  lemma {:induction false} ParseU64N0()
    ensures ParseU64("0") == Ok(0)
  {
    GroupedN0();
    ParseU64Grouped(0);
  }

  lemma {:induction false} ParseU64N3000()
    ensures ParseU64("3,000") == Ok(3000)
  {
    GroupedN3000();
    ParseU64Grouped(3000);
  }

  lemma {:induction false} ParseU64N73576875154()
    ensures ParseU64("73,576,875,154") == Ok(73576875154)
  {
    GroupedN73576875154();
    ParseU64Grouped(73576875154);
  }

  lemma {:induction false} ParseU64N79202203729()
    ensures ParseU64("79,202,203,729") == Ok(79202203729)
  {
    GroupedN79202203729();
    ParseU64Grouped(79202203729);
  }

  lemma {:induction false} ParseU64N87532849369()
    ensures ParseU64("87,532,849,369") == Ok(87532849369)
  {
    GroupedN87532849369();
    ParseU64Grouped(87532849369);
  }

  lemma {:induction false} ParseI64N35000()
    ensures ParseI64("35,000") == Ok(35000)
  {
    GroupedN35000();
    ParseI64Grouped(35000);
  }

  lemma {:induction false} ParseI64N0()
    ensures ParseI64("0") == Ok(0)
  {
    GroupedN0();
    ParseI64Grouped(0);
  }

  lemma {:induction false} ParseI64N3000()
    ensures ParseI64("3,000") == Ok(3000)
  {
    GroupedN3000();
    ParseI64Grouped(3000);
  }

  lemma {:induction false} ParseI64N38000()
    ensures ParseI64("38,000") == Ok(38000)
  {
    GroupedN38000();
    ParseI64Grouped(38000);
  }

  lemma {:induction false} ParseI64Neg5625328575()
    ensures ParseI64("-5,625,328,575") == Ok(-5625328575)
  {
    GroupedN5625328575();
    assert SignedGrouped(-5625328575) == "-" + "5,625,328,575" == "-5,625,328,575";
    ParseI64Grouped(-5625328575);
  }

  // ---------------------------------------------------------------------------
  // Text cells.

  /** The stock name's padding is removed. */
  lemma CleanPaddedName()
    ensures CleanString("環泥            ") == "環泥"
  {
    assert Remove("環泥            ", ' ') == "環泥";
  }

  lemma CleanStockId()
    ensures CleanString("1104") == "1104"
  {
    assert ' ' !in "1104";
  }

  lemma CleanInvestorName()
    ensures CleanString("外資及陸資") == "外資及陸資"
  {
    assert ' ' !in "外資及陸資";
  }

  // ---------------------------------------------------------------------------
  // Whole rows.

  const ForeignInvestorsRecord: TotalInstitutionalInvestors :=
    TotalInstitutionalInvestors("外資及陸資", 73576875154, 79202203729, -5625328575)

  /** The foreign investors' row of the market-wide sample: the difference is read
      from the wire, negative, and not recomputed from the other two amounts. */
  lemma {:induction false} ForeignInvestorsRowDecodes(row: Row)
    requires |row| == 4 && row[0] == "外資及陸資"
    requires row[1] == "73,576,875,154" && row[2] == "79,202,203,729" && row[3] == "-5,625,328,575"
    ensures DecodeData(row) == Some(Total(ForeignInvestorsRecord))
  {
    CleanInvestorName();
    ParseU64N73576875154();
    ParseU64N79202203729();
    ParseI64Neg5625328575();
    TotalFieldsComplete(row, ForeignInvestorsRecord);
  }

  const CementRecord: SingleStockInstitutionalInvestors := SingleStockInstitutionalInvestors(
    "1104", "環泥",
    121000, 86000, 35000,
    0, 0, 0,
    0, 0, 0,
    3000,
    3000, 0, 3000,
    0, 0, 0,
    38000)

  /** The first row of the per-security sample ("1104", cement), field by field: the
      dealers' total difference is cell 11, before the dealer-self cells. */
  lemma {:induction false} CementRowDecodes(row: Row)
    requires |row| == 19
    requires row[0] == "1104" && row[1] == "環泥            "
    requires row[2] == "121,000" && row[3] == "86,000" && row[4] == "35,000"
    requires row[5] == "0" && row[6] == "0" && row[7] == "0"
    requires row[8] == "0" && row[9] == "0" && row[10] == "0"
    requires row[11] == "3,000"
    requires row[12] == "3,000" && row[13] == "0" && row[14] == "3,000"
    requires row[15] == "0" && row[16] == "0" && row[17] == "0"
    requires row[18] == "38,000"
    ensures DecodeData(row) == Some(SingleStock(CementRecord))
  {
    CleanStockId();
    CleanPaddedName();
    ParseU64N121000();
    ParseU64N86000();
    ParseI64N35000();
    ParseU64N0();
    ParseI64N0();
    ParseI64N3000();
    ParseU64N3000();
    ParseI64N38000();
    SingleStockFieldsComplete(row, CementRecord);
  }

  // ---------------------------------------------------------------------------
  // Dates.

  lemma SampleYearText()
    ensures FixedDigits(2021, 4) == "2021"
  {
  }

  lemma FebruaryText()
    ensures FixedDigits(2, 2) == "02"
  {
  }

  lemma FifthText()
    ensures FixedDigits(5, 2) == "05"
  {
  }

  lemma FirstText()
    ensures FixedDigits(1, 2) == "01"
  {
  }

  lemma {:induction false} SampleDateText()
    ensures FixedDigits(2021, 4) == "2021" && FixedDigits(2, 2) == "02"
    ensures FixedDigits(5, 2) == "05" && FixedDigits(1, 2) == "01"
  {
    SampleYearText();
    FebruaryText();
    FifthText();
    FirstText();
  }

  /** The report date of both samples. */
  lemma {:induction false} SampleDateParses()
    ensures ParseYmd("20210205") == Some(Date(2021, 2, 5))
  {
    SampleDateText();
    assert FormatYmd(Date(2021, 2, 5)) == "2021" + "02" + "05" == "20210205";
    ParseFormat(Date(2021, 2, 5));
  }

  // ---------------------------------------------------------------------------
  // Selection codes.

  lemma SpecificCodes()
    ensures Cement.Value() == "01" && All.Value() == "ALL"
    ensures AllWithoutWarrantsAndCBBCs.Value() == "ALLBUT0999"
    ensures ConvertibleCorporateBonds.Value() == "CB" && DepositoryReceipts.Value() == "9299"
  {
  }

  // ---------------------------------------------------------------------------
  // Requests of the crawler's sample arguments: 2021-02-01, cement.

  /** The weekly per-security request. */
  lemma {:induction false} WeeklyCementRequest()
    ensures SingleStockRequest(SingleStockInstitutionalInvestorsArgs(Date(2021, 2, 1), Week, Cement))
      == Request("https://www.twse.com.tw/fund/TWT54U", [("response", "json"), ("date", "20210201"), ("selectType", "01")])
  {
    SampleDateText();
    assert FormatYmd(Date(2021, 2, 1)) == "2021" + "02" + "01" == "20210201";
  }

  /** The daily market-wide request. */
  lemma {:induction false} DailyTotalRequest()
    ensures TotalRequest(TotalInstitutionInvestorsArgs(Date(2021, 2, 1), Day))
      == Request("https://www.twse.com.tw/fund/BFI82U", [("response", "json"), ("dayDate", "20210201"), ("type", "day")])
  {
    SampleDateText();
    assert FormatYmd(Date(2021, 2, 1)) == "2021" + "02" + "01" == "20210201";
    assert "day" + "Date" == "dayDate";
  }

  // ---------------------------------------------------------------------------
  // Collection over a decoded sample.

  /** A per-security response holding the cement row decodes to that record. */
  lemma {:induction false} CementResponseDecodes(raw: RawResponse)
    requires raw.date == "20210205" && |raw.data| == 1
    requires var row := raw.data[0];
      && |row| == 19
      && row[0] == "1104" && row[1] == "環泥            "
      && row[2] == "121,000" && row[3] == "86,000" && row[4] == "35,000"
      && row[5] == "0" && row[6] == "0" && row[7] == "0"
      && row[8] == "0" && row[9] == "0" && row[10] == "0"
      && row[11] == "3,000"
      && row[12] == "3,000" && row[13] == "0" && row[14] == "3,000"
      && row[15] == "0" && row[16] == "0" && row[17] == "0"
      && row[18] == "38,000"
    ensures DecodeResponse(raw) == Some(Response(raw.stat, Date(2021, 2, 5), raw.title, raw.fields, [SingleStock(CementRecord)]))
  {
    CementRowDecodes(raw.data[0]);
    SampleResponseDecodes(raw, SingleStock(CementRecord));
  }

  lemma {:induction false} SampleResponseDecodes(raw: RawResponse, data: Data)
    requires raw.date == "20210205" && |raw.data| == 1 && DecodeData(raw.data[0]) == Some(data)
    ensures DecodeResponse(raw) == Some(Response(raw.stat, Date(2021, 2, 5), raw.title, raw.fields, [data]))
  {
    SampleDateParses();
    var response := DecodeResponse(raw).value;
    assert response.data == [response.data[0]];
  }

  /** Collecting a status-OK response of the cement record yields exactly that record. */
  lemma {:induction false} CementResponseCollects(response: Response)
    requires response.stat == "OK" && response.data == [SingleStock(CementRecord)]
    ensures SingleStockOutcome(response) == Ok([CementRecord])
  {
    var r := SingleStockOutcome(response);
    assert r.Ok? && |r.value| == 1;
    assert response.data[0] == SingleStock(r.value[0]);
    assert r.value == [r.value[0]];
  }

  /** A market-wide record in a per-security response is the wrong variant. */
  lemma {:induction false} TotalRowIsWrongVariant(response: Response)
    requires response.stat == "OK" && response.data == [Total(ForeignInvestorsRecord)]
    ensures SingleStockOutcome(response) == Err(EnumCastingError)
  {
    assert !response.data[0].SingleStock?;
  }

  /** Whatever the rows, a status other than OK is returned verbatim. */
  lemma {:induction false} StatusIsReported(response: Response)
    requires response.stat == "很抱歉，沒有符合條件的資料!"
    ensures SingleStockOutcome(response) == Err(TWSEError("很抱歉，沒有符合條件的資料!"))
    ensures TotalOutcome(response) == Err(TWSEError("很抱歉，沒有符合條件的資料!"))
  {
  }
}
