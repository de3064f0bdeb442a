/**
 * The market-data client with its network calls cut away: the URL of the
 * 24-hour ticker request, the query parameters and URL of the candle
 * ("kline") request, and the decoding of each positional candle record into
 * named fields.
 *
 * `URLSearchParams` serialisation is a parameter (`serialize`), as are the
 * string-to-number and number-to-string halves of JavaScript's `Number()`
 * and `String()` coercions.
 */
module MarketData {

  import opened Wrappers
  import opened Js
  import opened Text

  const BaseUrl: string := "https://data-api.binance.vision/api/v3"
  const TickerEndpoint: string := BaseUrl + "/ticker/24hr"
  const KlinesEndpoint: string := BaseUrl + "/klines"

  // ===========================================================================
  // getTicker24hr

  /** An optional string argument is truthy when it is given and not empty. */
  predicate StringTruthy(s: Option<string>)
  {
    s.Some? && s.value != ""
  }

  /** The URL `getTicker24hr(symbol)` fetches. */
  function TickerUrl(symbol: Option<string>): string
  {
    if StringTruthy(symbol) then BaseUrl + "/ticker/24hr?symbol=" + symbol.value
    else BaseUrl + "/ticker/24hr"
  }

  /** The symbol a ticker URL asks for, read back from its query. */
  function TickerUrlSymbol(url: string): Option<string>
  {
    var q := TickerEndpoint + "?symbol=";
    if IsPrefix(q, url) then Some(url[|q|..]) else None
  }

  /**
   * Every ticker URL is the ticker endpoint; it carries a `symbol` query
   * exactly when the argument is truthy, and then that query holds the
   * argument unchanged.
   */
  lemma TickerUrlRoundTrip(symbol: Option<string>)
    ensures IsPrefix(TickerEndpoint, TickerUrl(symbol))
    ensures TickerUrl(symbol) == TickerEndpoint <==> !StringTruthy(symbol)
    ensures TickerUrlSymbol(TickerUrl(symbol)) == if StringTruthy(symbol) then symbol else None
  {
    var url := TickerUrl(symbol);
    var q := TickerEndpoint + "?symbol=";
    if StringTruthy(symbol) {
      assert url == q + symbol.value;
      assert url[..|q|] == q && url[|q|..] == symbol.value;
      assert url[..|TickerEndpoint|] == TickerEndpoint;
    } else {
      assert !IsPrefix(q, url);
    }
  }

  // ===========================================================================
  // getKlines: the query parameters

  /** One `key=value` pair of a query, in insertion order. */
  type Param = (string, string)

  /** An optional number argument is truthy when it is given and not 0. */
  predicate NumberTruthy(n: Option<int>)
  {
    n.Some? && n.value != 0
  }

  /** `if (n) params.append(key, n.toString())`, as the pairs it adds. */
  function OptionalParam(key: string, n: Option<int>): seq<Param>
  {
    if NumberTruthy(n) then [(key, IntToString(n.value))] else []
  }

  /** The query `getKlines` sends, as a list of pairs. */
  function KlinesQuery(symbol: string, interval: string, startTime: Option<int>,
                       endTime: Option<int>, limit: Option<int>): seq<Param>
  {
    [("symbol", symbol), ("interval", interval)]
      + OptionalParam("startTime", startTime)
      + OptionalParam("endTime", endTime)
      + OptionalParam("limit", limit)
  }

  /**
   * Builds the query as `getKlines` does: start from `symbol` and `interval`,
   * then append each optional argument that is truthy.
   */
  method KlinesParams(symbol: string, interval: string, startTime: Option<int>,
                      endTime: Option<int>, limit: Option<int>) returns (params: seq<Param>)
    ensures params == KlinesQuery(symbol, interval, startTime, endTime, limit)
  {
    params := [("symbol", symbol), ("interval", interval)];
    if NumberTruthy(startTime) {
      params := params + [("startTime", IntToString(startTime.value))];
    }
    if NumberTruthy(endTime) {
      params := params + [("endTime", IntToString(endTime.value))];
    }
    if NumberTruthy(limit) {
      params := params + [("limit", IntToString(limit.value))];
    }
  }

  /** The position of a key in the fixed order symbol, interval, startTime, endTime, limit. */
  function KeyRank(key: string): nat
  {
    if key == "symbol" then 0
    else if key == "interval" then 1
    else if key == "startTime" then 2
    else if key == "endTime" then 3
    else if key == "limit" then 4
    else 5
  }

  /**
   * The query starts with `symbol` then `interval`, and every later key comes
   * later in the fixed order: no key is repeated and none is out of order.
   */
  lemma KlinesQueryOrder(symbol: string, interval: string, startTime: Option<int>,
                         endTime: Option<int>, limit: Option<int>)
    ensures var q := KlinesQuery(symbol, interval, startTime, endTime, limit);
            2 <= |q| <= 5 && q[0] == ("symbol", symbol) && q[1] == ("interval", interval) &&
            forall i, j :: 0 <= i < j < |q| ==> KeyRank(q[i].0) < KeyRank(q[j].0)
  {
  }

  /** `params.get(key)`: the value of the first pair with that key. */
  function Lookup(q: seq<Param>, key: string): Option<string>
  {
    if q == [] then None
    else if q[0].0 == key then Some(q[0].1)
    else Lookup(q[1..], key)
  }

  /** A numeric parameter as the server reads it back. */
  function ReadNumber(q: seq<Param>, key: string): Option<int>
  {
    match Lookup(q, key)
    case Some(v) => ParseInt(v)
    case None => None
  }

  lemma {:induction false} LookupAppend(a: seq<Param>, b: seq<Param>, key: string)
    ensures Lookup(a + b, key) == if Lookup(a, key).Some? then Lookup(a, key) else Lookup(b, key)
  {
    if a == [] {
      assert a + b == b;
    } else {
      assert (a + b)[1..] == a[1..] + b;
      LookupAppend(a[1..], b, key);
    }
  }

  lemma ReadOptionalParam(key: string, other: string, n: Option<int>)
    requires key != other
    ensures Lookup(OptionalParam(key, n), other) == None
    ensures ReadNumber(OptionalParam(key, n), key) == if NumberTruthy(n) then n else None
  {
    if NumberTruthy(n) {
      IntToStringRoundTrip(n.value);
    }
  }

  /**
   * Reading the query back gives the symbol, the interval, and each optional
   * argument exactly when it was truthy: an omitted argument, or 0, is absent.
   */
  lemma KlinesQueryReadBack(symbol: string, interval: string, startTime: Option<int>,
                            endTime: Option<int>, limit: Option<int>)
    ensures var q := KlinesQuery(symbol, interval, startTime, endTime, limit);
            && Lookup(q, "symbol") == Some(symbol)
            && Lookup(q, "interval") == Some(interval)
            && ReadNumber(q, "startTime") == (if NumberTruthy(startTime) then startTime else None)
            && ReadNumber(q, "endTime") == (if NumberTruthy(endTime) then endTime else None)
            && ReadNumber(q, "limit") == (if NumberTruthy(limit) then limit else None)
  {
    var head: seq<Param> := [("symbol", symbol), ("interval", interval)];
    var s := OptionalParam("startTime", startTime);
    var e := OptionalParam("endTime", endTime);
    var l := OptionalParam("limit", limit);
    var q := KlinesQuery(symbol, interval, startTime, endTime, limit);
    assert q == head + (s + (e + l));
    ReadOptionalParam("startTime", "endTime", startTime);
    ReadOptionalParam("startTime", "limit", startTime);
    ReadOptionalParam("endTime", "startTime", endTime);
    ReadOptionalParam("endTime", "limit", endTime);
    ReadOptionalParam("limit", "startTime", limit);
    ReadOptionalParam("limit", "endTime", limit);
    LookupAppend(e, l, "startTime");
    LookupAppend(e, l, "endTime");
    LookupAppend(e, l, "limit");
    LookupAppend(s, e + l, "startTime");
    LookupAppend(s, e + l, "endTime");
    LookupAppend(s, e + l, "limit");
    LookupAppend(head, s + (e + l), "startTime");
    LookupAppend(head, s + (e + l), "endTime");
    LookupAppend(head, s + (e + l), "limit");
  }

  // ===========================================================================
  // getKlines: the URL

  /** `${BASE_URL}/klines?${params.toString()}`. */
  function KlinesUrl(params: seq<Param>, serialize: seq<Param> -> string): string
  {
    KlinesEndpoint + "?" + serialize(params)
  }

  /** The request URL of `getKlines`, from its arguments. */
  method KlinesRequestUrl(symbol: string, interval: string, startTime: Option<int>,
                          endTime: Option<int>, limit: Option<int>,
                          serialize: seq<Param> -> string) returns (url: string)
    ensures IsPrefix(KlinesEndpoint + "?", url)
    ensures url[|KlinesEndpoint| + 1..] == serialize(KlinesQuery(symbol, interval, startTime, endTime, limit))
  {
    var params := KlinesParams(symbol, interval, startTime, endTime, limit);
    url := KlinesUrl(params, serialize);
    assert url == (KlinesEndpoint + "?") + serialize(params);
  }

  // ===========================================================================
  // getKlines: decoding the response

  /** One candle with named fields. */
  datatype Kline = Kline(
    openTime: Number,
    open: string,
    high: string,
    low: string,
    close: string,
    volume: string,
    closeTime: Number,
    quoteAssetVolume: string,
    numberOfTrades: Number,
    takerBuyBaseAssetVolume: string,
    takerBuyQuoteAssetVolume: string,
    ignore: string)

  /** The parts of `Number()` and `String()` that convert between strings and numbers. */
  datatype Coercions = Coercions(stringToNumber: string -> Number, numberToString: Number -> string)

  /** `record[i]`, which is `undefined` past the end of the array. */
  function At(record: seq<Value>, i: nat): Value
  {
    if i < |record| then record[i] else JsUndefined
  }

  /** `Number(v)`. */
  function ToNumber(v: Value, c: Coercions): Number
  {
    match v
    case JsNumber(n) => n
    case JsString(s) => c.stringToNumber(s)
    case JsUndefined => NaN
  }

  /** `String(v)`. */
  function ToText(v: Value, c: Coercions): string
  {
    match v
    case JsNumber(n) => c.numberToString(n)
    case JsString(s) => s
    case JsUndefined => "undefined"
  }

  /** The callback of `response.map`: fields by fixed position 0 to 11. */
  function DecodeKline(record: seq<Value>, c: Coercions): Kline
  {
    Kline(
      openTime := ToNumber(At(record, 0), c),
      open := ToText(At(record, 1), c),
      high := ToText(At(record, 2), c),
      low := ToText(At(record, 3), c),
      close := ToText(At(record, 4), c),
      volume := ToText(At(record, 5), c),
      closeTime := ToNumber(At(record, 6), c),
      quoteAssetVolume := ToText(At(record, 7), c),
      numberOfTrades := ToNumber(At(record, 8), c),
      takerBuyBaseAssetVolume := ToText(At(record, 9), c),
      takerBuyQuoteAssetVolume := ToText(At(record, 10), c),
      ignore := ToText(At(record, 11), c))
  }

  /** `response.map(...)`: one candle per record, in the same order. */
  function DecodeKlines(records: seq<seq<Value>>, c: Coercions): (klines: seq<Kline>)
    ensures |klines| == |records|
    ensures forall i :: 0 <= i < |records| ==> klines[i] == DecodeKline(records[i], c)
  {
    if records == [] then [] else [DecodeKline(records[0], c)] + DecodeKlines(records[1..], c)
  }

  /** The wire record of a candle, as the upstream API lays it out. */
  function EncodeKline(k: Kline): seq<Value>
  {
    [JsNumber(k.openTime), JsString(k.open), JsString(k.high), JsString(k.low),
     JsString(k.close), JsString(k.volume), JsNumber(k.closeTime),
     JsString(k.quoteAssetVolume), JsNumber(k.numberOfTrades),
     JsString(k.takerBuyBaseAssetVolume), JsString(k.takerBuyQuoteAssetVolume),
     JsString(k.ignore)]
  }

  /** A record with a number at positions 0, 6 and 8 and a string at the other nine. */
  predicate WellTyped(record: seq<Value>)
  {
    && |record| >= 12
    && record[0].JsNumber? && record[6].JsNumber? && record[8].JsNumber?
    && forall i :: 0 <= i < 12 && i != 0 && i != 6 && i != 8 ==> record[i].JsString?
  }

  /** Decoding a candle's wire record gives the candle back, whatever the coercions. */
  lemma DecodeEncode(k: Kline, c: Coercions)
    ensures WellTyped(EncodeKline(k))
    ensures DecodeKline(EncodeKline(k), c) == k
  {
  }

  /**
   * A well-typed record is the wire record of its decoding, up to anything
   * past position 11, which the decoder never reads.
   */
  lemma EncodeDecode(record: seq<Value>, c: Coercions)
    requires WellTyped(record)
    ensures EncodeKline(DecodeKline(record, c)) == record[..12]
  {
    assert record[1].JsString? && record[2].JsString? && record[3].JsString?;
    assert record[4].JsString? && record[5].JsString? && record[7].JsString?;
    assert record[9].JsString? && record[10].JsString? && record[11].JsString?;
  }

  function EncodeKlines(ks: seq<Kline>): (records: seq<seq<Value>>)
    ensures |records| == |ks|
    ensures forall i :: 0 <= i < |ks| ==> records[i] == EncodeKline(ks[i])
  {
    if ks == [] then [] else [EncodeKline(ks[0])] + EncodeKlines(ks[1..])
  }

  /** Decoding the wire form of a candle list gives the same candles in the same order. */
  lemma DecodeKlinesRoundTrip(ks: seq<Kline>, c: Coercions)
    ensures DecodeKlines(EncodeKlines(ks), c) == ks
  {
    var d := DecodeKlines(EncodeKlines(ks), c);
    forall i | 0 <= i < |ks| ensures d[i] == ks[i] {
      DecodeEncode(ks[i], c);
    }
  }

  /**
   * A record shorter than twelve elements reads `undefined` at every missing
   * position: a missing text field decodes to "undefined" and a missing
   * numeric field to NaN.
   */
  lemma ShortRecordFields(record: seq<Value>, c: Coercions)
    requires |record| < 12
    ensures forall i :: |record| <= i < 12 ==> At(record, i) == JsUndefined
    ensures var k := DecodeKline(record, c);
            && (|record| <= 0 ==> k.openTime == NaN)
            && (|record| <= 1 ==> k.open == "undefined")
            && (|record| <= 2 ==> k.high == "undefined")
            && (|record| <= 3 ==> k.low == "undefined")
            && (|record| <= 4 ==> k.close == "undefined")
            && (|record| <= 5 ==> k.volume == "undefined")
            && (|record| <= 6 ==> k.closeTime == NaN)
            && (|record| <= 7 ==> k.quoteAssetVolume == "undefined")
            && (|record| <= 8 ==> k.numberOfTrades == NaN)
            && (|record| <= 9 ==> k.takerBuyBaseAssetVolume == "undefined")
            && (|record| <= 10 ==> k.takerBuyQuoteAssetVolume == "undefined")
            && k.ignore == "undefined"
  {
  }
}
