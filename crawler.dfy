/**
 * The two report fetchers: each builds a GET request from its arguments,
 * hands it to the transport, checks the exchange's status field and
 * collects the rows of the expected record shape.
 */
module Crawler {
  import opened Wrappers
  import opened Calendar
  import opened Args
  import opened Schema

  const SingleInvestorsDayLink: string := "https://www.twse.com.tw/fund/T86"
  const SingleInvestorsWeekLink: string := "https://www.twse.com.tw/fund/TWT54U"
  const SingleInvestorsMonthLink: string := "https://www.twse.com.tw/fund/TWT47U"
  const InvestorsLink: string := "https://www.twse.com.tw/fund/BFI82U"
  const TwseStateOk: string := "OK"

  /** A GET request: the endpoint and its query pairs in the order they are appended. */
  datatype Request = Request(url: string, query: seq<(string, string)>)
  {
    /** The request with one more query pair appended. */
    function Query(name: string, value: string): Request {
      Request(url, query + [(name, value)])
    }
  }

  function Get(url: string): Request {
    Request(url, [])
  }

  /** The per-security endpoint for a granularity. */
  function SingleStockLink(t: DateType): string {
    match t
    case Day => SingleInvestorsDayLink
    case Week => SingleInvestorsWeekLink
    case Month => SingleInvestorsMonthLink
  }

  /** The granularity a per-security endpoint serves; the inverse of SingleStockLink. */
  function SingleStockLinkType(url: string): (t: Option<DateType>)
    ensures t.Some? ==> SingleStockLink(t.value) == url
  {
    if url == SingleInvestorsDayLink then Some(Day)
    else if url == SingleInvestorsWeekLink then Some(Week)
    else if url == SingleInvestorsMonthLink then Some(Month)
    else None
  }

  lemma SingleStockLinkTypeInverse(t: DateType)
    ensures SingleStockLinkType(SingleStockLink(t)) == Some(t)
  {
  }

  /** The request for the per-security report. */
  function SingleStockRequest(args: SingleStockInstitutionalInvestorsArgs): (r: Request)
    requires Valid(args.date)
    ensures r.url == SingleStockLink(args.dateType)
    ensures r.query == [("response", "json"), ("date", FormatYmd(args.date)), ("selectType", args.industryType.Value())]
  {
    var date := FormatYmd(args.date);
    var request := Get(SingleInvestorsDayLink).Query("response", "json").Query("date", date);
    match args.dateType
    case Day => request.Query("selectType", args.industryType.Value())
    case Week =>
      Get(SingleInvestorsWeekLink).Query("response", "json").Query("date", date)
        .Query("selectType", args.industryType.Value())
    case Month =>
      Get(SingleInvestorsMonthLink).Query("response", "json").Query("date", date)
        .Query("selectType", args.industryType.Value())
  }

  /** The request reader for a per-security request: the arguments it asks for. */
  function ReadSingleStockRequest(r: Request): Option<SingleStockInstitutionalInvestorsArgs> {
    var dateType :- SingleStockLinkType(r.url);
    if |r.query| != 3 || r.query[0] != ("response", "json") || r.query[1].0 != "date" || r.query[2].0 != "selectType"
    then None
    else
      var date :- ParseYmd(r.query[1].1);
      var industryType :- FromCode(r.query[2].1);
      Some(SingleStockInstitutionalInvestorsArgs(date, dateType, industryType))
  }

  /** ReadSingleStockRequest recovers the arguments a per-security request was built from. */
  lemma {:induction false} SingleStockRequestRoundTrip(args: SingleStockInstitutionalInvestorsArgs)
    requires Valid(args.date) && FourDigitYear(args.date)
    ensures ReadSingleStockRequest(SingleStockRequest(args)) == Some(args)
  {
    SingleStockLinkTypeInverse(args.dateType);
    ParseFormat(args.date);
    FromCodeValue(args.industryType);
  }

  /** Every request ReadSingleStockRequest accepts is the one built from what it reads. */
  lemma {:induction false} SingleStockRequestCanonical(r: Request)
    requires ReadSingleStockRequest(r).Some?
    ensures Valid(ReadSingleStockRequest(r).value.date)
    ensures SingleStockRequest(ReadSingleStockRequest(r).value) == r
  {
    var args := ReadSingleStockRequest(r).value;
    FormatParse(r.query[1].1);
    FromCodeSound(r.query[2].1);
    assert r.query == [r.query[0], r.query[1], r.query[2]];
  }

  /** The granularity's name, as in `type=day` and `dayDate`. */
  function Granularity(t: DateType): string {
    match t
    case Day => "day"
    case Week => "week"
    case Month => "month"
  }

  /** The granularity a `type` value names; the inverse of Granularity. */
  function GranularityType(name: string): (t: Option<DateType>)
    ensures t.Some? ==> Granularity(t.value) == name
  {
    if name == "day" then Some(Day)
    else if name == "week" then Some(Week)
    else if name == "month" then Some(Month)
    else None
  }

  lemma GranularityTypeInverse(t: DateType)
    ensures GranularityType(Granularity(t)) == Some(t)
  {
  }

  /** The request for the market-wide report. */
  function TotalRequest(args: TotalInstitutionInvestorsArgs): (r: Request)
    requires Valid(args.date)
    ensures r.url == InvestorsLink
    ensures r.query == [("response", "json"), (Granularity(args.dateType) + "Date", FormatYmd(args.date)), ("type", Granularity(args.dateType))]
  {
    var request := Get(InvestorsLink).Query("response", "json");
    var date := FormatYmd(args.date);
    match args.dateType
    case Day =>
      assert "day" + "Date" == "dayDate";
      request.Query("dayDate", date).Query("type", "day")
    case Week =>
      assert "week" + "Date" == "weekDate";
      request.Query("weekDate", date).Query("type", "week")
    case Month =>
      assert "month" + "Date" == "monthDate";
      request.Query("monthDate", date).Query("type", "month")
  }

  /** The request reader for a market-wide request: the arguments it asks for. */
  function ReadTotalRequest(r: Request): Option<TotalInstitutionInvestorsArgs> {
    if r.url != InvestorsLink || |r.query| != 3 || r.query[0] != ("response", "json") || r.query[2].0 != "type"
    then None
    else
      var dateType :- GranularityType(r.query[2].1);
      if r.query[1].0 != Granularity(dateType) + "Date" then None
      else
        var date :- ParseYmd(r.query[1].1);
        Some(TotalInstitutionInvestorsArgs(date, dateType))
  }

  /** ReadTotalRequest recovers the arguments a market-wide request was built from. */
  lemma {:induction false} TotalRequestRoundTrip(args: TotalInstitutionInvestorsArgs)
    requires Valid(args.date) && FourDigitYear(args.date)
    ensures ReadTotalRequest(TotalRequest(args)) == Some(args)
  {
    GranularityTypeInverse(args.dateType);
    ParseFormat(args.date);
  }

  /** Every market-wide request ReadTotalRequest accepts is the one built from what it reads. */
  lemma {:induction false} TotalRequestCanonical(r: Request)
    requires ReadTotalRequest(r).Some?
    ensures Valid(ReadTotalRequest(r).value.date)
    ensures TotalRequest(ReadTotalRequest(r).value) == r
  {
    FormatParse(r.query[1].1);
    assert r.query == [r.query[0], r.query[1], r.query[2]];
  }

  /** The fetchers' errors; the transport's and the JSON reader's own errors are opaque. */
  datatype TwseError = EnumCastingError | TWSEError(stat: string) | UreqError | JsonError

  /** The payloads of rows that all hold per-security records, or None if one does not. */
  function SingleStockPayloads(data: seq<Data>): (r: Option<seq<SingleStockInstitutionalInvestors>>)
    ensures r.Some? <==> forall k :: 0 <= k < |data| ==> data[k].SingleStock?
    ensures r.Some? ==> |r.value| == |data|
    ensures r.Some? ==> forall k :: 0 <= k < |data| ==> data[k] == SingleStock(r.value[k])
  {
    if |data| == 0 then Some([])
    else if !data[0].SingleStock? then None
    else
      match SingleStockPayloads(data[1..])
      case None => None
      case Some(rest) =>
        var payloads := [data[0].singleStock] + rest;
        assert forall k :: 1 <= k < |data| ==> data[k] == data[1..][k - 1];
        Some(payloads)
  }

  /** The payloads of rows that all hold market-wide records, or None if one does not. */
  function TotalPayloads(data: seq<Data>): (r: Option<seq<TotalInstitutionalInvestors>>)
    ensures r.Some? <==> forall k :: 0 <= k < |data| ==> data[k].Total?
    ensures r.Some? ==> |r.value| == |data|
    ensures r.Some? ==> forall k :: 0 <= k < |data| ==> data[k] == Total(r.value[k])
  {
    if |data| == 0 then Some([])
    else if !data[0].Total? then None
    else
      match TotalPayloads(data[1..])
      case None => None
      case Some(rest) =>
        var payloads := [data[0].total] + rest;
        assert forall k :: 1 <= k < |data| ==> data[k] == data[1..][k - 1];
        Some(payloads)
  }

  /** What the per-security fetcher returns for a decoded response. */
  function SingleStockOutcome(response: Response): (r: Result<seq<SingleStockInstitutionalInvestors>, TwseError>)
    ensures response.stat != TwseStateOk ==> r == Err(TWSEError(response.stat))
    ensures r.Ok? <==> response.stat == TwseStateOk && forall k :: 0 <= k < |response.data| ==> response.data[k].SingleStock?
    ensures r.Ok? ==> |r.value| == |response.data|
    ensures r.Ok? ==> forall k :: 0 <= k < |response.data| ==> response.data[k] == SingleStock(r.value[k])
    ensures r.Err? && response.stat == TwseStateOk ==> r.error == EnumCastingError
  {
    if response.stat != TwseStateOk then Err(TWSEError(response.stat))
    else
      match SingleStockPayloads(response.data)
      case None => Err(EnumCastingError)
      case Some(payloads) => Ok(payloads)
  }

  /** What the market-wide fetcher returns for a decoded response. */
  function TotalOutcome(response: Response): (r: Result<seq<TotalInstitutionalInvestors>, TwseError>)
    ensures response.stat != TwseStateOk ==> r == Err(TWSEError(response.stat))
    ensures r.Ok? <==> response.stat == TwseStateOk && forall k :: 0 <= k < |response.data| ==> response.data[k].Total?
    ensures r.Ok? ==> |r.value| == |response.data|
    ensures r.Ok? ==> forall k :: 0 <= k < |response.data| ==> response.data[k] == Total(r.value[k])
    ensures r.Err? && response.stat == TwseStateOk ==> r.error == EnumCastingError
  {
    if response.stat != TwseStateOk then Err(TWSEError(response.stat))
    else
      match TotalPayloads(response.data)
      case None => Err(EnumCastingError)
      case Some(payloads) => Ok(payloads)
  }

  /** The status check and the loop that unwraps each per-security row. */
  method CollectSingleStock(response: Response) returns (r: Result<seq<SingleStockInstitutionalInvestors>, TwseError>)
    ensures r == SingleStockOutcome(response)
  {
    if response.stat != TwseStateOk {
      return Err(TWSEError(response.stat));
    }
    var ret: seq<SingleStockInstitutionalInvestors> := [];
    for i := 0 to |response.data|
      invariant |ret| == i
      invariant forall k :: 0 <= k < i ==> response.data[k] == SingleStock(ret[k])
    {
      var data := response.data[i];
      if data.SingleStock? {
        ret := ret + [data.singleStock];
      } else {
        return Err(EnumCastingError);
      }
    }
    var expected := SingleStockOutcome(response);
    assert expected.Ok? && |expected.value| == |ret|;
    assert forall k :: 0 <= k < |ret| ==> ret[k] == expected.value[k];
    assert ret == expected.value;
    return Ok(ret);
  }

  /** The status check and the loop that unwraps each market-wide row. */
  method CollectTotal(response: Response) returns (r: Result<seq<TotalInstitutionalInvestors>, TwseError>)
    ensures r == TotalOutcome(response)
  {
    if response.stat != TwseStateOk {
      return Err(TWSEError(response.stat));
    }
    var ret: seq<TotalInstitutionalInvestors> := [];
    for i := 0 to |response.data|
      invariant |ret| == i
      invariant forall k :: 0 <= k < i ==> response.data[k] == Total(ret[k])
    {
      var data := response.data[i];
      if data.Total? {
        ret := ret + [data.total];
      } else {
        return Err(EnumCastingError);
      }
    }
    var expected := TotalOutcome(response);
    assert expected.Ok? && |expected.value| == |ret|;
    assert forall k :: 0 <= k < |ret| ==> ret[k] == expected.value[k];
    assert ret == expected.value;
    return Ok(ret);
  }

  /**
   * What the transport hands back for a request: a body already read as a
   * JSON object with the report's keys, a body that is not such an object,
   * or a failed call.
   */
  datatype Reply = Delivered(body: RawResponse) | Malformed | TransportFailed

  /** The transport and JSON stages in front of the status check. */
  function DecodeReply(reply: Reply): (r: Result<Response, TwseError>)
    ensures reply.TransportFailed? ==> r == Err(UreqError)
    ensures r.Ok? <==> reply.Delivered? && DecodeResponse(reply.body).Some?
    ensures r.Ok? ==> r.value == DecodeResponse(reply.body).value
    ensures r.Err? && !reply.TransportFailed? ==> r.error == JsonError
  {
    match reply
    case TransportFailed => Err(UreqError)
    case Malformed => Err(JsonError)
    case Delivered(body) =>
      match DecodeResponse(body)
      case None => Err(JsonError)
      case Some(response) => Ok(response)
  }

  /** A delivered body with a row that fits neither record shape fails as a JSON error. */
  lemma {:induction false} BadRowIsJsonError(body: RawResponse, i: int)
    requires 0 <= i < |body.data| && DecodeData(body.data[i]).None?
    ensures DecodeReply(Delivered(body)) == Err(JsonError)
  {
    BadRowFailsResponse(body, i);
  }

  /**
   * The status is only looked at once the whole body has decoded: a delivered
   * body that does not decode is a JSON error whatever its status, and one that
   * decodes with a status other than OK reports that status from both collection
   * stages.
   */
  lemma {:induction false} StatusNeedsDecodedBody(body: RawResponse)
    ensures DecodeResponse(body).None? ==> DecodeReply(Delivered(body)) == Err(JsonError)
    ensures DecodeResponse(body).Some? && body.stat != TwseStateOk ==>
      && DecodeReply(Delivered(body)).Ok?
      && SingleStockOutcome(DecodeReply(Delivered(body)).value) == Err(TWSEError(body.stat))
      && TotalOutcome(DecodeReply(Delivered(body)).value) == Err(TWSEError(body.stat))
  {
  }

  /** Fetches the per-security report; `call` is the network round trip. */
  method GetSingleStockInstitutionalInvestors(args: SingleStockInstitutionalInvestorsArgs, call: Request -> Reply)
    returns (r: Result<seq<SingleStockInstitutionalInvestors>, TwseError>)
    requires Valid(args.date)
    ensures r.Err? || call(SingleStockRequest(args)).Delivered?
    ensures
      var decoded := DecodeReply(call(SingleStockRequest(args)));
      r == if decoded.Err? then Err(decoded.error) else SingleStockOutcome(decoded.value)
  {
    var request := SingleStockRequest(args);
    var response :- DecodeReply(call(request));
    r := CollectSingleStock(response);
  }

  /** Fetches the market-wide report; `call` is the network round trip. */
  method GetTotalInstitutionInvestors(args: TotalInstitutionInvestorsArgs, call: Request -> Reply)
    returns (r: Result<seq<TotalInstitutionalInvestors>, TwseError>)
    requires Valid(args.date)
    ensures r.Err? || call(TotalRequest(args)).Delivered?
    ensures
      var decoded := DecodeReply(call(TotalRequest(args)));
      r == if decoded.Err? then Err(decoded.error) else TotalOutcome(decoded.value)
  {
    var request := TotalRequest(args);
    var response :- DecodeReply(call(request));
    r := CollectTotal(response);
  }
}
