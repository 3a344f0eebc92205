/** The three trade endpoints end to end: validation first, then either the
    mock record (only /buy and /sell have a mock branch) or the database
    transaction, and the trade-executed notification only after a commit. */
module Routes {
  import opened Common
  import opened Orders
  import opened Ledger
  import LedgerDb
  import Mock
  import Relay

  /** How POST /trade, /buy or /sell answers. */
  datatype TradeResponse =
    | InvalidInput
    | Database(tx: LedgerDb.TxResult)
    | InMemory(mockResult: Mock.MockResult)

  /** Whether a request takes the mock branch: only the dedicated endpoints
      have one, and only in development mode, or when no database host is
      configured. */
  predicate UsesMock(e: Endpoint, mockMode: bool) {
    mockMode && e != TradeRoute
  }

  /** /sell is the one database path without the portfolio get-or-create. */
  predicate CreatesPortfolio(e: Endpoint) {
    e != SellRoute
  }

  class TradingServer {
    const store: LedgerDb.LedgerStore
    const mock: Mock.MockPortfolio
    const relay: Relay.Relay

    ghost predicate Valid()
      reads this, store, mock, relay
    {
      store.Valid() && mock.Valid() && relay.Valid()
    }

    constructor(store: LedgerDb.LedgerStore, mock: Mock.MockPortfolio, relay: Relay.Relay)
      requires store.Valid() && mock.Valid() && relay.Valid()
      ensures this.store == store && this.mock == mock && this.relay == relay
      ensures Valid()
    {
      this.store, this.mock, this.relay := store, mock, relay;
    }

    /** One trade request. `mockId` is the clock text the mock branch stamps
        its trade with; `failAt` is the statement, if any, at which the
        database throws. */
    method PlaceOrder(e: Endpoint, u: UserId, body: OrderBody, mockMode: bool, mockId: string, failAt: Option<nat>)
      returns (resp: TradeResponse)
      requires Valid()
      modifies store, mock, relay
      ensures Valid()
      ensures Validate(e, body).None? ==>
        resp == InvalidInput &&
        store.State() == old(store.State()) && mock.Snapshot() == old(mock.Snapshot()) &&
        relay.Snapshot() == old(relay.Snapshot())
      ensures Validate(e, body).Some? && UsesMock(e, mockMode) ==>
        var o := Validate(e, body).value;
        var oc := Mock.MockExecute(old(mock.Snapshot()), u, o, mockId);
        && resp == InMemory(Mock.MockReport(oc))
        && mock.Snapshot() == Mock.MockAfter(old(mock.Snapshot()), oc)
        && store.State() == old(store.State()) && relay.Snapshot() == old(relay.Snapshot())
      ensures Validate(e, body).Some? && !UsesMock(e, mockMode) ==>
        var o := Validate(e, body).value;
        var out := Execute(old(store.State()), u, o, CreatesPortfolio(e));
        && resp.Database?
        && mock.Snapshot() == old(mock.Snapshot())
        && (resp.tx.Failed? <==> LedgerDb.ThrowsIn(failAt, 0, LedgerDb.Issued(old(store.State()), u, o, CreatesPortfolio(e))))
        && (resp.tx.Failed? ==>
              var b0 := old(store.State());
              store.State() == b0.(nextId := b0.nextId + if LedgerDb.IdConsumed(b0, u, o, CreatesPortfolio(e), failAt) then 1 else 0))
        && (!resp.tx.Failed? ==>
              LedgerDb.Reports(out, resp.tx) && store.State() == After(old(store.State()), out))
        && relay.Snapshot() == (if resp.tx.Done? then Relay.NotifyUser(old(relay.Snapshot()), u, Relay.TradeExecuted(resp.tx.trade))
                                else old(relay.Snapshot()))
    {
      var order := Validate(e, body);
      if order.None? {
        return InvalidInput;
      }
      var o := order.value;
      if UsesMock(e, mockMode) {
        var r := mock.Trade(u, o, mockId);
        resp := InMemory(r);
      } else {
        var r := store.ExecuteTrade(u, o, CreatesPortfolio(e), failAt);
        if r.Done? {
          relay.EmitTradeExecuted(u, r.trade);
        }
        resp := Database(r);
      }
    }
  }

  /** Only a committed database trade is announced, and at most once: a
      refusal, a failure, a mock trade or an invalid body emits nothing. */
  lemma AnnouncedOnlyAfterCommit(st: Relay.RelayState, u: UserId, resp: TradeResponse, st': Relay.RelayState)
    requires Relay.ValidState(st)
    requires st' == (if resp.Database? && resp.tx.Done? then Relay.NotifyUser(st, u, Relay.TradeExecuted(resp.tx.trade)) else st)
    ensures |st'.outbox| <= |st.outbox| + 1 && st.outbox <= st'.outbox
    ensures |st'.outbox| == |st.outbox| + 1 <==> resp.Database? && resp.tx.Done? && st.ioReady
    ensures |st'.outbox| == |st.outbox| + 1 ==>
      st'.outbox[|st.outbox|] == Relay.Message.Deliver("user:" + u, {}, Relay.TradeExecuted(resp.tx.trade))
  {
    if resp.Database? && resp.tx.Done? {
      Relay.UserNotificationsReachNobody(st, u, Relay.TradeExecuted(resp.tx.trade));
    }
  }

  /** One entry of GET /trading/symbols. */
  datatype SymbolInfo = SymbolInfo(symbol: string, name: string, description: string, kind: string,
                                   baseCurrency: string, quoteCurrency: string)

  /** The supported-symbol list: the one pair the data server feeds. */
  function SupportedSymbols(): seq<SymbolInfo> {
    [SymbolInfo(Btc, "Bitcoin", "Bitcoin vs Tether USD", "crypto", "BTC", "USDT")]
  }

  /** The list names exactly one pair, the one the relay requests on
      connect; its name is the base followed by the quote, and it passes the
      strict symbol rule of /trade. */
  lemma SupportedSymbolsTradable()
    ensures |SupportedSymbols()| == 1
    ensures forall i :: 0 <= i < |SupportedSymbols()| ==>
      var s := SupportedSymbols()[i];
      s.symbol == Btc && s.symbol == s.baseCurrency + s.quoteCurrency && IsUpperSymbol(s.symbol)
  {
    var s := SupportedSymbols()[0];
    assert s.baseCurrency + s.quoteCurrency == "BTCUSDT";
    assert forall i :: 0 <= i < |Btc| ==> 'A' <= Btc[i] <= 'Z';
  }
}
