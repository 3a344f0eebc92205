/** The client-side candle object: one OHLC bar built from loose data with
    defaults, and what the chart and the price panel derive from it. */
module CandleModel {
  import opened Common

  datatype CandleInput = CandleInput(
    timestamp: Option<int>,
    symbol: Option<string>,
    interval: Option<string>,
    open: Parsed,
    high: Parsed,
    low: Parsed,
    close: Parsed,
    volume: Parsed,
    isClosed: Option<bool>)

  datatype ClientCandle = ClientCandle(
    timestamp: int,
    symbol: string,
    interval: string,
    open: real,
    high: real,
    low: real,
    close: real,
    volume: real,
    isClosed: bool)

  /** The constructor; `now` stands for `Date.now()`. */
  function NewCandle(data: CandleInput, now: int): ClientCandle {
    ClientCandle(
      if data.timestamp.Some? && data.timestamp.value != 0 then data.timestamp.value else now,
      StrOr(data.symbol, Btc), StrOr(data.interval, "1m"),
      OrZero(data.open), OrZero(data.high), OrZero(data.low), OrZero(data.close), OrZero(data.volume),
      data.isClosed == Some(true))
  }

  function PriceChange(c: ClientCandle): real { c.close - c.open }

  function PercentChange(c: ClientCandle): real {
    if c.open == 0.0 then 0.0 else PriceChange(c) / c.open * 100.0
  }

  predicate IsBullish(c: ClientCandle) { c.close >= c.open }

  /** The Chart.js point: the time and the four prices under short names. */
  datatype ChartPoint = ChartPoint(x: int, o: real, h: real, l: real, c: real)

  function ToChartFormat(c: ClientCandle): ChartPoint {
    ChartPoint(c.timestamp, c.open, c.high, c.low, c.close)
  }

  function Max(a: real, b: real): real { if a >= b then a else b }
  function Min(a: real, b: real): real { if a <= b then a else b }

  predicate IsValid(c: ClientCandle) {
    && c.timestamp > 0
    && c.open >= 0.0 && c.high >= 0.0 && c.low >= 0.0 && c.close >= 0.0
    && c.high >= c.low
    && c.high >= Max(c.open, c.close)
    && c.low <= Min(c.open, c.close)
  }

  // ------------------------------------------------------------------ lemmas

  /** A candle built from nothing is an open one-minute BTCUSDT bar at 0,
      stamped with the clock; it is valid exactly when the clock is positive. */
  lemma DefaultCandle(now: int)
    ensures var c := NewCandle(CandleInput(None, None, None, NaN, NaN, NaN, NaN, NaN, None), now);
      && c == ClientCandle(now, "BTCUSDT", "1m", 0.0, 0.0, 0.0, 0.0, 0.0, false)
      && (IsValid(c) <==> now > 0)
  {
  }

  /** A bar is bullish exactly when its change is not negative, and for a
      positive open exactly when its percentage change is not negative. */
  lemma BullishMeansRising(c: ClientCandle)
    ensures IsBullish(c) <==> PriceChange(c) >= 0.0
    ensures c.open > 0.0 ==> (IsBullish(c) <==> PercentChange(c) >= 0.0)
  {
  }

  /** The percentage is 0 for a zero open and otherwise the change measured
      in hundredths of the open. */
  lemma PercentOfOpen(c: ClientCandle)
    ensures c.open == 0.0 ==> PercentChange(c) == 0.0
    ensures c.open != 0.0 ==> PercentChange(c) * c.open == PriceChange(c) * 100.0
  {
  }

  /** Validity is the OHLC ordering low <= min(open, close) <=
      max(open, close) <= high over non-negative prices, at a positive time. */
  lemma ValidMeansOrdered(c: ClientCandle)
    ensures IsValid(c) <==>
      c.timestamp > 0 && 0.0 <= c.low && c.low <= c.open && c.low <= c.close &&
      c.open <= c.high && c.close <= c.high
    ensures IsValid(c) ==> -100.0 <= PercentChange(c)
  {
    if IsValid(c) && c.open != 0.0 {
      assert PriceChange(c) >= -c.open;
      assert PriceChange(c) / c.open >= -1.0;
    }
  }

  /** The chart point keeps the four prices in their places, so a valid bar
      draws with its body inside its wick. */
  lemma ChartKeepsPrices(c: ClientCandle)
    ensures var p := ToChartFormat(c);
      p.o == c.open && p.h == c.high && p.l == c.low && p.c == c.close && p.x == c.timestamp
    ensures IsValid(c) ==>
      var p := ToChartFormat(c);
      p.l <= p.o <= p.h && p.l <= p.c <= p.h
  {
  }
}
