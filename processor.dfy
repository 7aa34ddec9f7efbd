/** The scoring half of the magic-formula stock digest: the two guarded
    ratios and the builder of one ticker's record from the two responses
    of the financial-data service. Money values are `real`; the rounding
    of floating-point division is not modelled. */
module Processor {

  datatype Option<T> = None | Some(value: T)

  /** One field of a JSON response, as `float(...)` sees it. */
  datatype Field =
    | Absent        // the key is not in the dict
    | Num(x: real)  // a number, or a string that float() accepts
    | Garbled       // a string that float() rejects: ValueError
    | Null          // JSON null: float(None) raises TypeError

  /** The company-overview response: the four fundamentals it is asked for. */
  datatype Overview = Overview(ebit: Field, enterpriseValue: Field,
                               netFixedAssets: Field, workingCapital: Field)

  /** The daily-price response. `daily` is None when the response has no
      'Time Series (Daily)' key; otherwise it lists, most recent day first,
      each day's '4. close' field. */
  datatype TimeSeries = TimeSeries(daily: Option<seq<Field>>)

  /** The record process_stock_data builds for a ticker that qualifies. */
  datatype Stock = Stock(ticker: string, price: real, pctChange: real,
                         earningsYield: real, roc: real)

  /** The exceptions that escape process_stock_data (it catches only
      KeyError and ValueError). */
  datatype Error = AttributeError | TypeError | IndexError | ZeroDivisionError

  /** The three ways a Python expression or call can end: with a value,
      with the function returning None (explicitly or because the except
      clause caught a KeyError or ValueError), or with an exception that
      escapes to the caller. Usable with `:-`. */
  datatype Outcome<T> = Ok(value: T) | Skip | Raised(error: Error) {
    predicate IsFailure() {
      !Ok?
    }

    function PropagateFailure<U>(): Outcome<U>
      requires IsFailure()
    {
      if Skip? then Skip else Raised(error)
    }

    function Extract(): T
      requires Ok?
    {
      value
    }
  }

  /** compute_earnings_yield: EBIT / enterprise value, undefined when the
      enterprise value is not positive. */
  function EarningsYield(ebit: real, enterpriseValue: real): (r: Option<real>)
    ensures r.None? <==> enterpriseValue <= 0.0
    ensures r.Some? ==> r.value * enterpriseValue == ebit
    ensures r.Some? ==> (r.value >= 0.0 <==> ebit >= 0.0)
  {
    if enterpriseValue <= 0.0 then None else Some(ebit / enterpriseValue)
  }

  /** compute_roc: EBIT / (net fixed assets + working capital), undefined
      when that capital is not positive. */
  function ReturnOnCapital(ebit: real, netFixedAssets: real, workingCapital: real): (r: Option<real>)
    ensures r.None? <==> netFixedAssets + workingCapital <= 0.0
    ensures r.Some? ==> r.value * (netFixedAssets + workingCapital) == ebit
    ensures r.Some? ==> (r.value >= 0.0 <==> ebit >= 0.0)
  {
    var capital := netFixedAssets + workingCapital;
    if capital <= 0.0 then None else Some(ebit / capital)
  }

  /** float(overview.get(key, 0)): a missing fundamental reads as 0. */
  function ReadFundamental(f: Field): Outcome<real> {
    match f
    case Absent => Ok(0.0)
    case Num(x) => Ok(x)
    case Garbled => Skip
    case Null => Raised(TypeError)
  }

  /** The value a fundamental that parses stands for. */
  function FundamentalValue(f: Field): real
    requires f.Absent? || f.Num?
  {
    if f.Num? then f.x else 0.0
  }

  /** list(time_series['Time Series (Daily)'].values()): a response that is
      None cannot be subscripted, a missing key is a KeyError. */
  function DailyCloses(series: Option<TimeSeries>): Outcome<seq<Field>> {
    match series
    case None => Raised(TypeError)
    case Some(TimeSeries(daily)) =>
      if daily.None? then Skip else Ok(daily.value)
  }

  /** float(days[i]['4. close']): a day that does not exist is an
      IndexError, a day without a close is a KeyError. */
  function CloseAt(days: seq<Field>, i: nat): Outcome<real> {
    if i >= |days| then Raised(IndexError)
    else match days[i]
      case Num(x) => Ok(x)
      case Absent => Skip
      case Garbled => Skip
      case Null => Raised(TypeError)
  }

  /** (latest - prev) / prev * 100, which raises when prev is 0. */
  function PercentChange(latest: real, prev: real): (r: Outcome<real>)
    ensures r.Raised? <==> prev == 0.0
    ensures r.Ok? <==> prev != 0.0
    ensures r.Raised? ==> r.error == ZeroDivisionError
    ensures r.Ok? ==> r.value * prev == (latest - prev) * 100.0
  {
    if prev == 0.0 then Raised(ZeroDivisionError) else Ok((latest - prev) / prev * 100.0)
  }

  /** The four fundamentals all parse (missing ones as 0). */
  predicate FundamentalsParse(o: Overview) {
    && (o.ebit.Absent? || o.ebit.Num?)
    && (o.enterpriseValue.Absent? || o.enterpriseValue.Num?)
    && (o.netFixedAssets.Absent? || o.netFixedAssets.Num?)
    && (o.workingCapital.Absent? || o.workingCapital.Num?)
  }

  /** The price response holds at least two days whose closes parse and
      whose previous close is not zero. */
  predicate PricesUsable(series: Option<TimeSeries>) {
    && series.Some? && series.value.daily.Some?
    && var days := series.value.daily.value;
    && |days| >= 2 && days[0].Num? && days[1].Num? && days[1].x != 0.0
  }

  /** process_stock_data. The fields are read in the order the source reads
      them, so the first fault met decides between None and an escaping
      exception. A record is built exactly when everything parses, the
      previous close is not zero, enterprise value and capital are
      positive, and EBIT is not negative; its values are then the latest
      close, the percent change and the two ratios. */
  function ProcessStockData(ticker: string, overview: Option<Overview>,
                            series: Option<TimeSeries>): (r: Outcome<Stock>)
    ensures r.Ok? <==>
      && overview.Some? && FundamentalsParse(overview.value) && PricesUsable(series)
      && FundamentalValue(overview.value.enterpriseValue) > 0.0
      && FundamentalValue(overview.value.netFixedAssets)
         + FundamentalValue(overview.value.workingCapital) > 0.0
      && FundamentalValue(overview.value.ebit) >= 0.0
    ensures r.Ok? ==>
      var o, days := overview.value, series.value.daily.value;
      var ebit := FundamentalValue(o.ebit);
      && r.value.ticker == ticker
      && r.value.price == days[0].x
      && r.value.pctChange * days[1].x == (days[0].x - days[1].x) * 100.0
      && r.value.earningsYield * FundamentalValue(o.enterpriseValue) == ebit
      && r.value.roc * (FundamentalValue(o.netFixedAssets) + FundamentalValue(o.workingCapital)) == ebit
      && r.value.earningsYield >= 0.0 && r.value.roc >= 0.0
    ensures overview.None? ==> r == Raised(AttributeError)
    ensures overview.Some? && FundamentalsParse(overview.value) && PricesUsable(series) && !r.Ok? ==>
              r == Skip
  {
    if overview.None? then Raised(AttributeError) else
    var o := overview.value;
    var ebit :- ReadFundamental(o.ebit);
    var enterpriseValue :- ReadFundamental(o.enterpriseValue);
    var netFixedAssets :- ReadFundamental(o.netFixedAssets);
    var workingCapital :- ReadFundamental(o.workingCapital);
    var days :- DailyCloses(series);
    var latest :- CloseAt(days, 0);
    var prev :- CloseAt(days, 1);
    var pctChange :- PercentChange(latest, prev);
    var earningsYield := EarningsYield(ebit, enterpriseValue);
    var roc := ReturnOnCapital(ebit, netFixedAssets, workingCapital);
    if earningsYield.None? || roc.None? || earningsYield.value < 0.0 || roc.value < 0.0 then Skip
    else Ok(Stock(ticker, latest, pctChange, earningsYield.value, roc.value))
  }

  /** A negative EBIT never produces a record; once the inputs parse and
      the prices are usable, the result is None. */
  lemma NegativeEbitIsDropped(ticker: string, o: Overview, series: Option<TimeSeries>)
    requires FundamentalsParse(o) && FundamentalValue(o.ebit) < 0.0
    ensures !ProcessStockData(ticker, Some(o), series).Ok?
    ensures PricesUsable(series) ==> ProcessStockData(ticker, Some(o), series) == Skip
  {
  }

  /** A missing enterprise value reads as 0, so the earnings yield is
      undefined: never a record, and None once the prices are usable. */
  lemma MissingEnterpriseValueIsDropped(ticker: string, o: Overview, series: Option<TimeSeries>)
    requires o.enterpriseValue.Absent?
    ensures !ProcessStockData(ticker, Some(o), series).Ok?
    ensures FundamentalsParse(o) && PricesUsable(series) ==>
              ProcessStockData(ticker, Some(o), series) == Skip
  {
  }

  /** The fundamentals in the order the source reads them. */
  function Fundamentals(o: Overview): (fs: seq<Field>)
    ensures |fs| == 4
  {
    [o.ebit, o.enterpriseValue, o.netFixedAssets, o.workingCapital]
  }

  /** A fundamental that float() rejects (ValueError) makes the result None
      whatever the price response holds, provided the fields read before it
      parse. */
  lemma GarbledFundamentalIsDropped(ticker: string, o: Overview, series: Option<TimeSeries>, i: nat)
    requires i < 4 && Fundamentals(o)[i].Garbled?
    requires forall j :: 0 <= j < i ==> Fundamentals(o)[j].Absent? || Fundamentals(o)[j].Num?
    ensures ProcessStockData(ticker, Some(o), series) == Skip
  {
    var fs := Fundamentals(o);
    if i > 0 { assert fs[0].Absent? || fs[0].Num?; }
    if i > 1 { assert fs[1].Absent? || fs[1].Num?; }
    if i > 2 { assert fs[2].Absent? || fs[2].Num?; }
  }

  /** A fundamental that is JSON null makes float() raise TypeError, which
      escapes, provided the fields read before it parse. */
  lemma NullFundamentalEscapes(ticker: string, o: Overview, series: Option<TimeSeries>, i: nat)
    requires i < 4 && Fundamentals(o)[i].Null?
    requires forall j :: 0 <= j < i ==> Fundamentals(o)[j].Absent? || Fundamentals(o)[j].Num?
    ensures ProcessStockData(ticker, Some(o), series) == Raised(TypeError)
  {
    var fs := Fundamentals(o);
    if i > 0 { assert fs[0].Absent? || fs[0].Num?; }
    if i > 1 { assert fs[1].Absent? || fs[1].Num?; }
    if i > 2 { assert fs[2].Absent? || fs[2].Num?; }
  }

  /** A response without the 'Time Series (Daily)' key (a KeyError) makes
      the result None once the fundamentals parse. */
  lemma MissingDailySeriesIsDropped(ticker: string, o: Overview)
    requires FundamentalsParse(o)
    ensures ProcessStockData(ticker, Some(o), Some(TimeSeries(None))) == Skip
  {
  }

  /** Fewer than two days of prices raise IndexError, which escapes: the
      result is not None. */
  lemma ShortSeriesEscapes(ticker: string, o: Overview, days: seq<Field>)
    requires FundamentalsParse(o)
    requires |days| == 0 || (|days| == 1 && days[0].Num?)
    ensures ProcessStockData(ticker, Some(o), Some(TimeSeries(Some(days)))) == Raised(IndexError)
  {
  }

  /** A missing price response (None) cannot be subscripted: TypeError,
      which escapes once the fundamentals parse. */
  lemma MissingPriceResponseEscapes(ticker: string, o: Overview)
    requires FundamentalsParse(o)
    ensures ProcessStockData(ticker, Some(o), None) == Raised(TypeError)
  {
  }

  /** A close that is missing (KeyError) or that float() rejects
      (ValueError) makes the result None, provided the closes read before
      it parse. */
  lemma UnparsableCloseIsDropped(ticker: string, o: Overview, days: seq<Field>, i: nat)
    requires FundamentalsParse(o)
    requires i < 2 && i < |days| && (days[i].Absent? || days[i].Garbled?)
    requires forall j :: 0 <= j < i ==> days[j].Num?
    ensures ProcessStockData(ticker, Some(o), Some(TimeSeries(Some(days)))) == Skip
  {
    if i == 1 { assert days[0].Num?; }
  }

  /** A close that is JSON null makes float() raise TypeError, which
      escapes, provided the closes read before it parse. */
  lemma NullCloseEscapes(ticker: string, o: Overview, days: seq<Field>, i: nat)
    requires FundamentalsParse(o)
    requires i < 2 && i < |days| && days[i].Null?
    requires forall j :: 0 <= j < i ==> days[j].Num?
    ensures ProcessStockData(ticker, Some(o), Some(TimeSeries(Some(days)))) == Raised(TypeError)
  {
    if i == 1 { assert days[0].Num?; }
  }

  /** A previous close of 0 raises ZeroDivisionError, which escapes before
      either ratio is looked at. */
  lemma ZeroPreviousCloseEscapes(ticker: string, o: Overview, days: seq<Field>)
    requires FundamentalsParse(o)
    requires |days| >= 2 && days[0].Num? && days[1] == Num(0.0)
    ensures ProcessStockData(ticker, Some(o), Some(TimeSeries(Some(days)))) == Raised(ZeroDivisionError)
  {
  }
}
