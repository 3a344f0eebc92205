/** The client's market cell: the latest price, the current bar's open,
    high and low, the connection flag and the time of the last update. */
module MarketState {
  import opened Common
  import CandleModel

  datatype MarketView = MarketView(
    currentPrice: real,
    openPrice: real,
    highPrice: real,
    lowPrice: real,
    isConnected: bool,
    lastUpdate: Option<int>)

  const InitialMarket: MarketView := MarketView(0.0, 0.0, 0.0, 0.0, false, None)

  class MarketStore {
    var currentPrice: real
    var openPrice: real
    var highPrice: real
    var lowPrice: real
    var isConnected: bool
    var lastUpdate: Option<int>

    function View(): MarketView
      reads this
    {
      MarketView(currentPrice, openPrice, highPrice, lowPrice, isConnected, lastUpdate)
    }

    /** The stored prices form a bar: low <= open, current <= high. */
    predicate InRange()
      reads this
    {
      lowPrice <= openPrice <= highPrice && lowPrice <= currentPrice <= highPrice
    }

    constructor()
      ensures View() == InitialMarket && InRange()
    {
      currentPrice, openPrice, highPrice, lowPrice := 0.0, 0.0, 0.0, 0.0;
      isConnected, lastUpdate := false, None;
    }

    /** A bare price tick; `now` stands for `Date.now()`. */
    method UpdatePrice(newPrice: real, now: int)
      modifies this
      ensures View() == old(View()).(currentPrice := newPrice, lastUpdate := Some(now))
    {
      currentPrice, lastUpdate := newPrice, Some(now);
    }

    /** A full bar: its close becomes the current price, the volume is not
        kept and the connection flag is untouched. */
    method UpdateCandle(c: CandleModel.ClientCandle, now: int)
      modifies this
      ensures View() == old(View()).(currentPrice := c.close, openPrice := c.open, highPrice := c.high,
                                     lowPrice := c.low, lastUpdate := Some(now))
      ensures CandleModel.IsValid(c) ==> InRange()
    {
      currentPrice, openPrice, highPrice, lowPrice := c.close, c.open, c.high, c.low;
      lastUpdate := Some(now);
    }

    method SetConnected(connected: bool)
      modifies this
      ensures View() == old(View()).(isConnected := connected)
    {
      isConnected := connected;
    }

    /** Back to the initial state, whatever the state was; a second reset
        therefore changes nothing. */
    method Reset()
      modifies this
      ensures View() == InitialMarket && InRange()
    {
      currentPrice, openPrice, highPrice, lowPrice := 0.0, 0.0, 0.0, 0.0;
      isConnected, lastUpdate := false, None;
    }
  }
}
