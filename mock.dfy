/** The in-memory ledger the /buy and /sell handlers fall back on in
    development mode, or when no database host is configured, and the
    portfolio views that read it. It is one
    global record shared by every user: a cash balance, one BTC quantity
    with no average price, and the trades newest first. */
module Mock {
  import opened Common
  import opened Orders
  import opened Ledger
  import opened Valuation

  /** A trade as the mock path records it; `id` is the clock reading it was
      stamped with, as text. */
  datatype MockTrade = MockTrade(id: string, userId: UserId, symbol: string, side: Side, quantity: real, price: real, total: real)

  datatype MockSnapshot = MockSnapshot(balance: real, position: real, trades: seq<MockTrade>)

  const Initial: MockSnapshot := MockSnapshot(StartingBalance, 0.0, [])

  /** What one mock trade does: the new record and the trade, or the refusal. */
  datatype MockOutcome = MockCommitted(state: MockSnapshot, trade: MockTrade) | MockRejected(reason: Rejection)

  /** What the handler answers. */
  datatype MockResult = Executed(trade: MockTrade) | Refused(reason: Rejection)

  /** One mock BUY or SELL. The symbol is recorded but the position is the
      single BTC quantity whatever it says. */
  function MockExecute(st: MockSnapshot, u: UserId, o: Order, id: string): MockOutcome {
    var total := Total(o);
    var t := MockTrade(id, u, o.symbol, o.side, o.quantity, o.price, total);
    match o.side
    case Buy =>
      if st.balance < total then MockRejected(InsufficientBalance(total, st.balance))
      else MockCommitted(MockSnapshot(st.balance - total, st.position + o.quantity, [t] + st.trades), t)
    case Sell =>
      if st.position < o.quantity then MockRejected(InsufficientHoldings(o.quantity, st.position))
      else MockCommitted(MockSnapshot(st.balance + total, st.position - o.quantity, [t] + st.trades), t)
  }

  function MockAfter(st: MockSnapshot, oc: MockOutcome): MockSnapshot {
    if oc.MockCommitted? then oc.state else st
  }

  function MockReport(oc: MockOutcome): MockResult {
    match oc
    case MockCommitted(_, t) => Executed(t)
    case MockRejected(why) => Refused(why)
  }

  // ---------------------------------------------------------------- invariant

  /** Cash spent on BUY trades. */
  function Spent(ts: seq<MockTrade>): real {
    if ts == [] then 0.0 else (if ts[0].side == Buy then ts[0].total else 0.0) + Spent(ts[1..])
  }

  /** Cash received from SELL trades. */
  function Received(ts: seq<MockTrade>): real {
    if ts == [] then 0.0 else (if ts[0].side == Sell then ts[0].total else 0.0) + Received(ts[1..])
  }

  /** BTC bought less BTC sold. */
  function Held(ts: seq<MockTrade>): real {
    if ts == [] then 0.0 else (if ts[0].side == Buy then ts[0].quantity else -ts[0].quantity) + Held(ts[1..])
  }

  /** The mock record is what its trade list says it is: the balance is the
      start less what was spent plus what was received, the position is the
      net quantity, neither is negative, and every trade carries validated
      amounts and its own total. */
  ghost predicate Accounted(st: MockSnapshot) {
    && st.balance == StartingBalance - Spent(st.trades) + Received(st.trades)
    && st.position == Held(st.trades)
    && st.balance >= 0.0 && st.position >= 0.0
    && forall k :: 0 <= k < |st.trades| ==> WellPriced(st.trades[k])
  }

  /** Validated amounts, and the total the handler computed from them. */
  predicate WellPriced(t: MockTrade) {
    t.quantity >= MinQuantity && t.price >= MinPrice && t.total == t.quantity * t.price
  }

  lemma InitialAccounted()
    ensures Accounted(Initial)
  {
  }

  /** Every mock trade keeps the record accounted. */
  lemma MockPreserves(st: MockSnapshot, u: UserId, o: Order, id: string)
    requires Accounted(st) && ValidOrder(o)
    ensures Accounted(MockAfter(st, MockExecute(st, u, o, id)))
  {
    var oc := MockExecute(st, u, o, id);
    if oc.MockCommitted? {
      var total := Total(o);
      var t := MockTrade(id, u, o.symbol, o.side, o.quantity, o.price, total);
      TotalPositive(o);
      SumsPrepend(t, st.trades);
      TradesKeepAmounts(st.trades, t);
      if o.side == Buy {
        assert oc.state == MockSnapshot(st.balance - total, st.position + o.quantity, [t] + st.trades);
      } else {
        assert oc.state == MockSnapshot(st.balance + total, st.position - o.quantity, [t] + st.trades);
      }
    }
  }

  lemma SumsPrepend(t: MockTrade, ts: seq<MockTrade>)
    ensures Spent([t] + ts) == (if t.side == Buy then t.total else 0.0) + Spent(ts)
    ensures Received([t] + ts) == (if t.side == Sell then t.total else 0.0) + Received(ts)
    ensures Held([t] + ts) == (if t.side == Buy then t.quantity else -t.quantity) + Held(ts)
  {
    assert ([t] + ts)[1..] == ts;
  }

  lemma TradesKeepAmounts(ts: seq<MockTrade>, t: MockTrade)
    requires WellPriced(t) && forall k :: 0 <= k < |ts| ==> WellPriced(ts[k])
    ensures forall k :: 0 <= k < |[t] + ts| ==> WellPriced(([t] + ts)[k])
  {
    forall k | 0 <= k < |[t] + ts| ensures WellPriced(([t] + ts)[k]) {
      if k > 0 {
        assert ([t] + ts)[k] == ts[k - 1];
      }
    }
  }

  /** A mock BUY is refused exactly when it costs more than the balance, a
      SELL exactly when it asks for more than the position; the refusal
      carries the figures compared. A committed trade moves the balance by
      the total and the position by the quantity, in opposite directions,
      and puts the trade at the head of the list. */
  lemma MockEffect(st: MockSnapshot, u: UserId, o: Order, id: string)
    ensures var oc := MockExecute(st, u, o, id);
      && (o.side == Buy ==>
            (oc.MockRejected? <==> st.balance < Total(o)) &&
            (oc.MockRejected? ==> oc.reason == InsufficientBalance(Total(o), st.balance)) &&
            (oc.MockCommitted? ==> oc.state.balance == st.balance - Total(o) && oc.state.position == st.position + o.quantity))
      && (o.side == Sell ==>
            (oc.MockRejected? <==> st.position < o.quantity) &&
            (oc.MockRejected? ==> oc.reason == InsufficientHoldings(o.quantity, st.position)) &&
            (oc.MockCommitted? ==> oc.state.balance == st.balance + Total(o) && oc.state.position == st.position - o.quantity))
      && (oc.MockCommitted? ==>
            && oc.trade == MockTrade(id, u, o.symbol, o.side, o.quantity, o.price, o.quantity * o.price)
            && oc.state.trades == [oc.trade] + st.trades
            && |oc.state.trades| == |st.trades| + 1 && oc.state.trades[0] == oc.trade)
  {
  }

  /** The mock position does not depend on the symbol an order names. */
  lemma MockIgnoresSymbol(st: MockSnapshot, u: UserId, o: Order, s: string, id: string)
    ensures var a := MockExecute(st, u, o, id);
            var b := MockExecute(st, u, o.(symbol := s), id);
            a.MockCommitted? == b.MockCommitted? &&
            (a.MockCommitted? ==> a.state.balance == b.state.balance && a.state.position == b.state.position)
  {
  }

  // -------------------------------------------------------------------- class

  /** The global mock record, updated in place by the handlers. */
  class MockPortfolio {
    var balance: real
    var position: real
    var trades: seq<MockTrade>

    function Snapshot(): MockSnapshot
      reads this
    {
      MockSnapshot(balance, position, trades)
    }

    ghost predicate Valid()
      reads this
    {
      Accounted(Snapshot())
    }

    constructor()
      ensures Snapshot() == Initial && Valid()
    {
      balance, position, trades := StartingBalance, 0.0, [];
    }

    /** The mock branch of POST /buy (side BUY) and POST /sell (side SELL). */
    method Trade(u: UserId, o: Order, id: string) returns (r: MockResult)
      requires Valid() && ValidOrder(o)
      modifies this
      ensures Valid()
      ensures r == MockReport(MockExecute(old(Snapshot()), u, o, id))
      ensures Snapshot() == MockAfter(old(Snapshot()), MockExecute(old(Snapshot()), u, o, id))
    {
      MockPreserves(Snapshot(), u, o, id);
      var total := Total(o);
      var t := MockTrade(id, u, o.symbol, o.side, o.quantity, o.price, total);
      match o.side {
        case Buy =>
          if balance < total {
            return Refused(InsufficientBalance(total, balance));
          }
          balance := balance - total;
          position := position + o.quantity;
        case Sell =>
          if position < o.quantity {
            return Refused(InsufficientHoldings(o.quantity, position));
          }
          balance := balance + total;
          position := position - o.quantity;
      }
      trades := [t] + trades;
      r := Executed(t);
    }
  }

  // ------------------------------------------------------------------- views

  /** `getMockPortfolio`: the global record, or a fresh one if there is none. */
  function GetMockPortfolio(global: Option<MockSnapshot>): (r: MockSnapshot)
    ensures global.Some? ==> r == global.value
    ensures global.None? ==> r == Initial && Accounted(r)
  {
    if global.Some? then global.value else Initial
  }

  /** The fallback price when neither the market feed nor a trade gives one. */
  const FallbackBtcPrice: real := 107000.0

  /** `getCurrentBTCPrice`: the cached BTCUSDT close if it is truthy, else the
      price of the newest mock trade, else the fixed fallback. */
  function CurrentBtcPrice(cache: map<string, Parsed>, st: MockSnapshot): real {
    if Btc in cache && Truthy(cache[Btc]) then cache[Btc].value
    else if st.trades != [] then st.trades[0].price
    else FallbackBtcPrice
  }

  /** Without a truthy cached close, the price after a committed mock trade is
      that trade's price, and on a fresh record it is the fallback; with one,
      it is the cached close whatever the trades. */
  lemma PriceChain(cache: map<string, Parsed>, st: MockSnapshot, u: UserId, o: Order, id: string)
    ensures Btc in cache && Truthy(cache[Btc]) ==> CurrentBtcPrice(cache, st) == cache[Btc].value
    ensures !(Btc in cache && Truthy(cache[Btc])) ==>
      && CurrentBtcPrice(cache, Initial) == 107000.0
      && (MockExecute(st, u, o, id).MockCommitted? ==>
            CurrentBtcPrice(cache, MockExecute(st, u, o, id).state) == o.price)
  {
  }

  /** On an accounted record with no cached close, or a positive one, the
      mark price is positive. */
  lemma PricePositive(cache: map<string, Parsed>, st: MockSnapshot)
    requires Accounted(st)
    requires Btc in cache && cache[Btc].Num? ==> cache[Btc].value >= 0.0
    ensures CurrentBtcPrice(cache, st) > 0.0
  {
  }

  /** The mock branch of GET /portfolio at mark price `price`. */
  function MockSummary(st: MockSnapshot, price: real): Summary {
    var positionValue := st.position * price;
    var totalValue := st.balance + positionValue;
    var totalPnL := totalValue - StartingBalance;
    Summary(st.balance, positionValue, totalValue, totalPnL, totalPnL, if st.position > 0.0 then 1 else 0)
  }

  /** The summary counts one position exactly when some BTC is held, reports
      the whole P&L as unrealised, and on an accounted record that P&L is
      what the trades gained: the cash received less the cash spent plus the
      holding at the mark. */
  lemma MockSummaryMeaning(st: MockSnapshot, price: real)
    ensures var s := MockSummary(st, price);
      && (s.positionsCount == 1 <==> st.position > 0.0)
      && (s.positionsCount == 0 <==> st.position <= 0.0)
      && s.totalUnrealizedPnL == s.totalPnL
      && s.totalValue == st.balance + st.position * price
      && s.totalPnL == s.totalValue - StartingBalance
    ensures Accounted(st) ==>
      MockSummary(st, price).totalPnL == Received(st.trades) - Spent(st.trades) + Held(st.trades) * price
  {
  }

  /** A BUY at the mark price swaps cash for BTC of equal value: the total
      value of the portfolio does not move. */
  lemma BuyAtMarkKeepsValue(st: MockSnapshot, u: UserId, o: Order, id: string)
    requires o.side == Buy && MockExecute(st, u, o, id).MockCommitted?
    ensures MockSummary(MockExecute(st, u, o, id).state, o.price).totalValue == MockSummary(st, o.price).totalValue
  {
    var st' := MockExecute(st, u, o, id).state;
    assert st'.balance + st'.position * o.price
        == st.balance - o.quantity * o.price + (st.position + o.quantity) * o.price;
  }

  /** The mock branch of GET /portfolio/positions: one BTCUSDT entry marked at
      the current price, when any BTC is held. */
  function MockPositions(st: MockSnapshot, price: real): seq<PositionView> {
    if st.position > 0.0 then [PositionView(Btc, st.position, price, price, st.position * price, 0.0, 0.0)]
    else []
  }

  /** At most one entry, present exactly when BTC is held, with its average
      equal to its mark and no profit; the list agrees with the summary's
      count and position value. */
  lemma MockPositionsMeaning(st: MockSnapshot, price: real)
    ensures var ps := MockPositions(st, price);
      && |ps| <= 1
      && (|ps| == 1 <==> st.position > 0.0)
      && (forall p :: p in ps ==>
            p.symbol == "BTCUSDT" && p.quantity == st.position && p.avgPrice == p.currentPrice == price &&
            p.unrealizedPnL == 0.0 && p.pnlPercentage == 0.0)
      && |ps| == MockSummary(st, price).positionsCount
      && (ps != [] ==> ps[0].positionValue == MockSummary(st, price).totalPositionValue)
  {
  }
}
