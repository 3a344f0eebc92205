/** The client's portfolio cell: cash, BTC held, total value and the recent
    trades. Every method replaces named fields and keeps the rest. */
module PortfolioState {
  import opened Common
  import Valuation
  import Mock

  datatype PortfolioView<T> = PortfolioView(balance: real, position: real, totalValue: real, trades: seq<T>)

  function InitialPortfolio<T>(): PortfolioView<T> {
    PortfolioView(StartingBalance, 0.0, StartingBalance, [])
  }

  /** `positions.find(p => p.symbol === "BTCUSDT")`: the first BTCUSDT entry. */
  function FirstBtc(ps: seq<Valuation.PositionView>): (r: Option<nat>)
    ensures r.Some? ==> r.value < |ps| && ps[r.value].symbol == Btc
    ensures r.Some? ==> forall j :: 0 <= j < r.value ==> ps[j].symbol != Btc
    ensures r.None? ==> forall j :: 0 <= j < |ps| ==> ps[j].symbol != Btc
  {
    if ps == [] then None
    else if ps[0].symbol == Btc then Some(0)
    else match FirstBtc(ps[1..]) {
      case None => None
      case Some(i) => Some(i + 1)
    }
  }

  /** The position the refresh takes from the positions list: the quantity
      of the first BTCUSDT entry, or 0 without one. */
  function BtcQuantity(ps: seq<Valuation.PositionView>): real {
    match FirstBtc(ps)
    case None => 0.0
    case Some(i) => ps[i].quantity
  }

  class PortfolioStore<T> {
    var balance: real
    var position: real
    var totalValue: real
    var trades: seq<T>

    function View(): PortfolioView<T>
      reads this
    {
      PortfolioView(balance, position, totalValue, trades)
    }

    /** The total value is the cash plus the BTC held marked at `price`. */
    predicate MarkedAt(price: real)
      reads this
    {
      totalValue == balance + position * price
    }

    constructor()
      ensures View() == InitialPortfolio()
      ensures forall price :: MarkedAt(price)
    {
      balance, position, totalValue, trades := StartingBalance, 0.0, StartingBalance, [];
    }

    method UpdateBalance(newBalance: real)
      modifies this
      ensures View() == old(View()).(balance := newBalance)
    {
      balance := newBalance;
    }

    method UpdatePosition(newPosition: real)
      modifies this
      ensures View() == old(View()).(position := newPosition)
    {
      position := newPosition;
    }

    /** The new trade goes first: the list is newest first. */
    method AddTrade(trade: T)
      modifies this
      ensures View() == old(View()).(trades := [trade] + old(trades))
      ensures |trades| == |old(trades)| + 1 && trades[0] == trade && trades[1..] == old(trades)
    {
      trades := [trade] + trades;
    }

    method UpdateTotalValue(bitcoinPrice: real)
      modifies this
      ensures View() == old(View()).(totalValue := old(balance) + old(position) * bitcoinPrice)
      ensures MarkedAt(bitcoinPrice)
    {
      totalValue := balance + position * bitcoinPrice;
    }

    /** Back to the initial state, whatever the state was. */
    method Reset()
      modifies this
      ensures View() == InitialPortfolio()
      ensures forall price :: MarkedAt(price)
    {
      balance, position, totalValue, trades := StartingBalance, 0.0, StartingBalance, [];
    }

    /** The merge step of `refresh`: applied only when all three responses
        are ok; `tradePage` is absent when the history response has no
        `trades` field. */
    method ApplyRefresh(allOk: bool, summary: Valuation.Summary, positions: seq<Valuation.PositionView>,
                        tradePage: Option<seq<T>>)
      modifies this
      ensures !allOk ==> View() == old(View())
      ensures allOk ==>
        View() == PortfolioView(summary.balance, BtcQuantity(positions), summary.totalValue,
                                if tradePage.Some? then tradePage.value else [])
    {
      if allOk {
        balance := summary.balance;
        position := BtcQuantity(positions);
        totalValue := summary.totalValue;
        trades := if tradePage.Some? then tradePage.value else [];
      }
    }
  }

  // ------------------------------------------------------------------ lemmas

  /** Refreshing from the mock backend takes over its cash, its BTC quantity
      and its total value exactly, and the cell is then marked at the price
      the backend used. */
  lemma RefreshFromMock(st: Mock.MockSnapshot, price: real)
    requires Mock.Accounted(st)
    ensures BtcQuantity(Mock.MockPositions(st, price)) == st.position
    ensures var s := Mock.MockSummary(st, price);
      s.totalValue == s.balance + BtcQuantity(Mock.MockPositions(st, price)) * price && s.balance == st.balance
  {
    var ps := Mock.MockPositions(st, price);
    if st.position > 0.0 {
      assert FirstBtc(ps) == Some(0);
    }
  }

  /** The refresh position ignores every entry before the first BTCUSDT one. */
  lemma BtcQuantityOfFirst(ps: seq<Valuation.PositionView>, other: seq<Valuation.PositionView>)
    requires forall j :: 0 <= j < |other| ==> other[j].symbol != Btc
    ensures BtcQuantity(other + ps) == BtcQuantity(ps)
  {
    var all := other + ps;
    match FirstBtc(ps) {
      case None =>
        forall j | 0 <= j < |all| ensures all[j].symbol != Btc {
          if j >= |other| {
            assert all[j] == ps[j - |other|];
          }
        }
      case Some(i) =>
        assert all[|other| + i] == ps[i];
        var k := FirstBtc(all).value;
        assert k >= |other| ==> all[k] == ps[k - |other|];
        assert k == |other| + i;
    }
  }
}
