/** A decoded JSON document, as `response.json()` hands it to Python. */
module Json {
  import opened Wrappers

  /** JSON numbers are kept as exact reals; floating point is not modelled. */
  datatype Json =
    | JNull
    | JBool(b: bool)
    | JNum(n: real)
    | JStr(s: string)
    | JArr(items: seq<Json>)
    | JObj(fields: map<string, Json>)

  /** `d.get(key, default)` on a dictionary. */
  function Get(fields: map<string, Json>, key: string, default: Json): (v: Json)
    ensures key in fields ==> v == fields[key]
    ensures key !in fields ==> v == default
  {
    if key in fields then fields[key] else default
  }

  /** The dictionary behind a value, or None where calling `.get` on it
      raises AttributeError (any value that is not an object). */
  function AsObject(j: Json): (m: Option<map<string, Json>>)
    ensures m.Some? <==> j.JObj?
  {
    if j.JObj? then Some(j.fields) else None
  }

  /** `j[0]`, or None where that raises: an empty list or string
      (IndexError), an object (KeyError: JSON keys are strings), a number,
      boolean or null (TypeError). */
  function First(j: Json): (r: Option<Json>)
    ensures j.JArr? && j.items != [] ==> r == Some(j.items[0])
    ensures j.JStr? && j.s != [] ==> r == Some(JStr([j.s[0]]))
    ensures (j.JArr? && j.items == []) || (j.JStr? && j.s == []) ==> r == None
    ensures !j.JArr? && !j.JStr? ==> r == None
  {
    match j
    case JArr(items) => if items == [] then None else Some(items[0])
    case JStr(s) => if s == [] then None else Some(JStr([s[0]]))
    case _ => None
  }

  /** Python's truth test `x > 0` on a JSON value: numbers compare as
      numbers and booleans as 0 and 1; for anything else (null, a string, a
      list or an object) the comparison raises TypeError, shown as None. */
  function NumericValue(j: Json): (v: Option<real>)
    ensures v.Some? <==> j.JNum? || j.JBool?
  {
    match j
    case JNum(n) => Some(n)
    case JBool(b) => Some(if b then 1.0 else 0.0)
    case _ => None
  }
}

/**
 * `obter_cotacao`: the quote for a ticker, read from the market-data
 * reply `chart.result[0].meta`.
 */
module Quotes {
  import opened Wrappers
  import opened Json

  /** The dictionary `obter_cotacao` returns. The three market fields hold
      whatever JSON value the reply had there. */
  datatype Quote = Quote(ticker: string, price: Json, currency: Json, name: Json)

  /** The record returned when anything in the request or in the reply's
      structure fails. */
  function Unavailable(ticker: string): (q: Quote)
    ensures q.ticker == ticker && q.price == JNum(0.0) && q.currency == JStr("N/A")
  {
    Quote(ticker, JNum(0.0), JStr("N/A"), JStr(ticker))
  }

  /** `data.get("chart", {}).get("result", [{}])[0].get("meta", {})`, or
      None when one of the steps raises. */
  function MetaOf(data: Json): Option<map<string, Json>> {
    match AsObject(data)
    case None => None
    case Some(top) =>
      match AsObject(Get(top, "chart", JObj(map[])))
      case None => None
      case Some(chart) =>
        match First(Get(chart, "result", JArr([JObj(map[])])))
        case None => None
        case Some(result) =>
          match AsObject(result)
          case None => None
          case Some(res) => AsObject(Get(res, "meta", JObj(map[])))
  }

  /** `obter_cotacao` once the HTTP request is done: `reply` is the decoded
      body, or None when the request or the decoding raised. The ticker is
      always echoed; every failure gives `Unavailable(ticker)`; otherwise
      each missing field takes its own default. */
  function ExtractQuote(ticker: string, reply: Option<Json>): (q: Quote)
    ensures q.ticker == ticker
    ensures reply.None? ==> q == Unavailable(ticker)
    ensures reply.Some? && MetaOf(reply.value).None? ==> q == Unavailable(ticker)
    ensures reply.Some? && MetaOf(reply.value).Some? ==>
      var meta := MetaOf(reply.value).value;
      && q.price == (if "regularMarketPrice" in meta then meta["regularMarketPrice"] else JNum(0.0))
      && q.currency == (if "currency" in meta then meta["currency"] else JStr("USD"))
      && q.name == (if "symbol" in meta then meta["symbol"] else JStr(ticker))
  {
    match reply
    case None => Unavailable(ticker)
    case Some(data) =>
      match MetaOf(data)
      case None => Unavailable(ticker)
      case Some(meta) =>
        Quote(ticker,
              Get(meta, "regularMarketPrice", JNum(0.0)),
              Get(meta, "currency", JStr("USD")),
              Get(meta, "symbol", JStr(ticker)))
  }

  /** The reply reaches a `meta` dictionary exactly when the top level and
      `chart` are objects (or `chart` is absent), `result` is absent or a
      non-empty list whose first element is an object, and that element's
      `meta` is absent or an object. */
  lemma MetaShape(data: Json)
    ensures MetaOf(data).Some? <==>
      && data.JObj?
      && ("chart" in data.fields ==> data.fields["chart"].JObj?)
      && var chart := Get(data.fields, "chart", JObj(map[])).fields;
         ("result" in chart ==>
            var result := chart["result"];
            result.JArr? && result.items != [] && result.items[0].JObj?
            && ("meta" in result.items[0].fields ==> result.items[0].fields["meta"].JObj?))
  {
  }

  /** The market-data service's answer for an unknown symbol,
      `{"chart": {"result": null, "error": {...}}}`, gives the unavailable
      quote; an empty `result` list does too. */
  lemma UnknownSymbolIsUnavailable(ticker: string, error: Json)
    ensures ExtractQuote(ticker, Some(JObj(map["chart" := JObj(map["result" := JNull, "error" := error])])))
            == Unavailable(ticker)
    ensures ExtractQuote(ticker, Some(JObj(map["chart" := JObj(map["result" := JArr([])])])))
            == Unavailable(ticker)
  {
  }

  /** A reply without `chart` is not a failure: every field takes its
      default, so the currency reads "USD" and not "N/A". */
  lemma MissingChartTakesDefaults(ticker: string)
    ensures ExtractQuote(ticker, Some(JObj(map[]))) == Quote(ticker, JNum(0.0), JStr("USD"), JStr(ticker))
  {
  }

  /** A well-formed reply passes the three market fields through. */
  lemma WellFormedReply(ticker: string, price: real, currency: string, symbol: string)
    ensures var meta := JObj(map["regularMarketPrice" := JNum(price), "currency" := JStr(currency),
                                 "symbol" := JStr(symbol)]);
      ExtractQuote(ticker, Some(JObj(map["chart" := JObj(map["result" := JArr([JObj(map["meta" := meta])])])])))
      == Quote(ticker, JNum(price), JStr(currency), JStr(symbol))
  {
  }

  /** Python's `quote["preco"] > 0` as written (main.py:275 and 350): None
      where the comparison raises TypeError, which nothing catches. */
  function PriceAboveZeroAsWritten(price: Json): (r: Option<bool>)
    ensures r.Some? <==> price.JNum? || price.JBool?
    ensures price.JNum? ==> r == Some(price.n > 0.0)
    ensures price.JBool? ==> r == Some(price.b)
  {
    match NumericValue(price)
    case None => None
    case Some(v) => Some(v > 0.0)
  }

  /** A reply whose `regularMarketPrice` is null reaches the comparison and
      makes it raise. */
  lemma NullPriceRaises(ticker: string)
    ensures var reply := JObj(map["chart" := JObj(map["result" := JArr([JObj(map["meta" :=
              JObj(map["regularMarketPrice" := JNull])])])])]);
      PriceAboveZeroAsWritten(ExtractQuote(ticker, Some(reply)).price) == None
  {
  }

  /** The price test the pipeline uses: a price is shown only when it is a
      number above zero; a value the comparison cannot handle counts as
      unavailable instead of aborting the run. It agrees with the comparison
      as written wherever that one does not raise. */
  function PriceAvailable(price: Json): (ok: bool)
    ensures ok ==> NumericValue(price).Some? && NumericValue(price).value > 0.0
    ensures PriceAboveZeroAsWritten(price).Some? ==> ok == PriceAboveZeroAsWritten(price).value
    ensures price.JNull? || price.JStr? || price.JArr? || price.JObj? ==> !ok
    ensures ok <==> (price.JNum? && price.n > 0.0) || (price.JBool? && price.b)
  {
    NumericValue(price).Some? && NumericValue(price).value > 0.0
  }

  /** The unavailable quote never shows a price. */
  lemma UnavailableHasNoPrice(ticker: string)
    ensures !PriceAvailable(Unavailable(ticker).price)
  {
  }
}
