/** What one trade transaction and one reset do to the ledger, stated through
    the lookups a caller can make (a balance, the row of a key, the trades of
    a user) rather than through the table positions the steps touch. */
module LedgerFacts {
  import opened Common
  import opened Orders
  import opened Ledger
  import opened LedgerTables
  import opened LedgerProofs

  /** The balance the transaction reads after its get-or-create step. */
  function SeenBalance(b: Book, u: UserId): real {
    if u in b.portfolios then b.portfolios[u] else StartingBalance
  }

  // ---------------------------------------------------------------------- BUY

  /** A BUY is rolled back exactly when its total exceeds the balance, a user
      without a portfolio being checked against the starting balance; the
      rejection reports both amounts. */
  lemma BuyRejection(b: Book, u: UserId, o: Order, lazyPortfolio: bool)
    requires Consistent(b) && ValidOrder(o) && o.side == Buy
    ensures Execute(b, u, o, lazyPortfolio).Rejected? <==> SeenBalance(b, u) < Total(o)
    ensures Execute(b, u, o, lazyPortfolio).Rejected? ==>
      Execute(b, u, o, lazyPortfolio).reason == InsufficientBalance(Total(o), SeenBalance(b, u))
  {
  }

  /** A committed BUY debits exactly the total from the buyer, creating the
      portfolio row if there was none, never overdraws, touches no other
      balance and appends exactly one trade carrying the next id. */
  lemma BuyCashAndTrade(b: Book, u: UserId, o: Order, lazyPortfolio: bool)
    requires Consistent(b) && ValidOrder(o) && o.side == Buy
    requires Execute(b, u, o, lazyPortfolio).Committed?
    ensures var r := Execute(b, u, o, lazyPortfolio);
      && r.book.portfolios.Keys == b.portfolios.Keys + {u}
      && r.book.portfolios[u] == SeenBalance(b, u) - Total(o) >= 0.0
      && (forall v :: v in b.portfolios && v != u ==> r.book.portfolios[v] == b.portfolios[v])
      && r.trade == TradeRow(b.nextId, u, o.symbol, Buy, o.quantity, o.price, o.quantity * o.price)
      && r.book.trades == b.trades + [r.trade]
      && r.book.nextId == b.nextId + 1
  {
  }

  /** A committed BUY sets the bought key's row to the weighted average of the
      old row and the trade, or creates it at the trade price, and leaves the
      row of every other key as it was. */
  lemma BuyPosition(b: Book, u: UserId, o: Order, lazyPortfolio: bool)
    requires Unique(b.positions) && RowsPositive(b.positions) && ValidOrder(o) && o.side == Buy
    requires Execute(b, u, o, lazyPortfolio).Committed?
    ensures RowOf(b.positions, u, o.symbol).Some? ==> RowOf(b.positions, u, o.symbol).value.quantity > 0.0
    ensures var rows' := Execute(b, u, o, lazyPortfolio).book.positions;
      && RowOf(rows', u, o.symbol) ==
           (match RowOf(b.positions, u, o.symbol)
            case Some(cur) => Some(Averaged(cur, o.quantity, o.price, Total(o)))
            case None => Some(PositionRow(u, o.symbol, o.quantity, o.price, o.price)))
      && (forall v, s :: !(v == u && s == o.symbol) ==> RowOf(rows', v, s) == RowOf(b.positions, v, s))
  {
    var rows := b.positions;
    var rows' := Execute(b, u, o, lazyPortfolio).book.positions;
    var total := Total(o);
    assert rows' == BuyRows(rows, u, o.symbol, o.quantity, o.price, total);
    FindIsRowOf(rows, u, o.symbol);
    RowOfIsStored(rows, u, o.symbol);
    match FindRow(rows, u, o.symbol)
    case Some(i) =>
      var r := Averaged(rows[i], o.quantity, o.price, total);
      assert rows' == rows[i := r];
      forall v, s ensures RowOf(rows', v, s) == if IsRowOf(r, v, s) then Some(r) else RowOf(rows, v, s) {
        RowUpdate(rows, i, r, v, s);
      }
    case None =>
      var r := PositionRow(u, o.symbol, o.quantity, o.price, o.price);
      assert rows' == rows + [r];
      forall v, s ensures RowOf(rows', v, s) == if IsRowOf(r, v, s) then Some(r) else RowOf(rows, v, s) {
        RowAppend(rows, r, v, s);
      }
  }

  /** The weighted average lies between the old average and the trade price. */
  lemma AveragedBetween(cur: PositionRow, o: Order)
    requires cur.quantity > 0.0 && o.quantity > 0.0
    ensures var a := Averaged(cur, o.quantity, o.price, Total(o)).avgPrice;
      (cur.avgPrice <= o.price ==> cur.avgPrice <= a <= o.price) &&
      (o.price <= cur.avgPrice ==> o.price <= a <= cur.avgPrice)
  {
    var q0, q, a0, p := cur.quantity, o.quantity, cur.avgPrice, o.price;
    var a := Averaged(cur, o.quantity, o.price, Total(o)).avgPrice;
    assert a * (q0 + q) == q0 * a0 + q * p;
    if a0 <= p {
      assert q0 * a0 + q * a0 <= q0 * a0 + q * p <= q0 * p + q * p;
      assert a0 * (q0 + q) <= a * (q0 + q) <= p * (q0 + q);
    } else {
      assert q0 * p + q * p <= q0 * a0 + q * p <= q0 * a0 + q * a0;
      assert p * (q0 + q) <= a * (q0 + q) <= a0 * (q0 + q);
    }
  }

  /** A BUY into a key without a row creates it at the trade price. */
  lemma FreshBuy(b: Book, u: UserId, o: Order)
    requires Unique(b.positions) && RowsPositive(b.positions) && ValidOrder(o) && o.side == Buy
    requires RowOf(b.positions, u, o.symbol) == None
    requires Execute(b, u, o, true).Committed?
    ensures var rows' := Execute(b, u, o, true).book.positions;
      Unique(rows') && RowsPositive(rows') &&
      RowOf(rows', u, o.symbol) == Some(PositionRow(u, o.symbol, o.quantity, o.price, o.price))
  {
    TotalPositive(o);
    BuyRowsEffect(b.positions, u, o.symbol, o.quantity, o.price, Total(o));
    BuyPosition(b, u, o, true);
  }

  /** Two BUYs into a fresh position leave the quantity-weighted average of
      the two prices. */
  lemma TwoBuysAverage(b: Book, u: UserId, o1: Order, o2: Order)
    requires Unique(b.positions) && RowsPositive(b.positions) && ValidOrder(o1) && ValidOrder(o2)
    requires o1.side == Buy && o2.side == Buy && o1.symbol == o2.symbol
    requires RowOf(b.positions, u, o1.symbol) == None
    requires Execute(b, u, o1, true).Committed?
    ensures RowsPositive(Execute(b, u, o1, true).book.positions)
    ensures var b1 := Execute(b, u, o1, true).book;
      Execute(b1, u, o2, true).Committed? ==>
        var row := RowOf(Execute(b1, u, o2, true).book.positions, u, o1.symbol);
        row.Some? && row.value.quantity == o1.quantity + o2.quantity &&
        row.value.avgPrice == WeightedAverage(o1.quantity, o1.price, o2.quantity, o2.price)
  {
    FreshBuy(b, u, o1);
    var b1 := Execute(b, u, o1, true).book;
    var r1 := PositionRow(u, o1.symbol, o1.quantity, o1.price, o1.price);
    assert RowOf(b1.positions, u, o1.symbol) == Some(r1);
    if Execute(b1, u, o2, true).Committed? {
      BuyPosition(b1, u, o2, true);
      AveragedWeights(r1, o2);
    }
  }

  /** The price of `q1` bought at `p1` and `q2` bought at `p2`, weighted by quantity. */
  function WeightedAverage(q1: real, p1: real, q2: real, p2: real): real
    requires q1 + q2 > 0.0
  {
    (q1 * p1 + q2 * p2) / (q1 + q2)
  }

  lemma AveragedWeights(cur: PositionRow, o: Order)
    requires cur.quantity > 0.0 && o.quantity > 0.0
    ensures Averaged(cur, o.quantity, o.price, Total(o)).avgPrice ==
      WeightedAverage(cur.quantity, cur.avgPrice, o.quantity, o.price)
  {
  }

  // --------------------------------------------------------------------- SELL

  /** A SELL is rolled back exactly when the seller holds less than the
      quantity (nothing at all without a row); the rejection reports the
      requested and the held quantity. */
  lemma SellRejection(b: Book, u: UserId, o: Order, lazyPortfolio: bool)
    requires Consistent(b) && ValidOrder(o) && o.side == Sell
    ensures Execute(b, u, o, lazyPortfolio).Rejected? <==> QtyOf(b.positions, u, o.symbol) < o.quantity
    ensures Execute(b, u, o, lazyPortfolio).Rejected? ==>
      Execute(b, u, o, lazyPortfolio).reason == InsufficientHoldings(o.quantity, QtyOf(b.positions, u, o.symbol))
  {
    FindIsRowOf(b.positions, u, o.symbol);
  }

  /** A committed SELL credits exactly the total to the seller, touches no
      other balance, creates no portfolio and appends exactly one trade. */
  lemma SellCashAndTrade(b: Book, u: UserId, o: Order, lazyPortfolio: bool)
    requires Consistent(b) && ValidOrder(o) && o.side == Sell
    requires Execute(b, u, o, lazyPortfolio).Committed?
    ensures var r := Execute(b, u, o, lazyPortfolio);
      && r.book.portfolios.Keys == b.portfolios.Keys
      && u in b.portfolios && r.book.portfolios[u] == b.portfolios[u] + Total(o)
      && (forall v :: v in b.portfolios && v != u ==> r.book.portfolios[v] == b.portfolios[v])
      && r.trade == TradeRow(b.nextId, u, o.symbol, Sell, o.quantity, o.price, o.quantity * o.price)
      && r.book.trades == b.trades + [r.trade]
      && r.book.nextId == b.nextId + 1
  {
    SellBook(b, u, o, lazyPortfolio);
  }

  /** A committed SELL deletes the row when nothing remains and otherwise
      lowers its quantity and moves its mark, keeping its average; every
      other key's row is as it was. */
  lemma SellPosition(b: Book, u: UserId, o: Order, lazyPortfolio: bool)
    requires Consistent(b) && ValidOrder(o) && o.side == Sell
    requires Execute(b, u, o, lazyPortfolio).Committed?
    ensures RowOf(b.positions, u, o.symbol).Some?
    ensures var cur := RowOf(b.positions, u, o.symbol).value;
      var rows' := Execute(b, u, o, lazyPortfolio).book.positions;
      && (if cur.quantity - o.quantity <= 0.0 then RowOf(rows', u, o.symbol) == None
          else RowOf(rows', u, o.symbol) == Some(cur.(quantity := cur.quantity - o.quantity, currentPrice := o.price)))
      && (forall v, s :: !(v == u && s == o.symbol) ==> RowOf(rows', v, s) == RowOf(b.positions, v, s))
  {
    SellBook(b, u, o, lazyPortfolio);
    var rows := b.positions;
    var i := FindRow(rows, u, o.symbol).value;
    FindIsRowOf(rows, u, o.symbol);
    var rows' := Execute(b, u, o, lazyPortfolio).book.positions;
    if rows[i].quantity - o.quantity <= 0.0 {
      forall v, s ensures RowOf(rows', v, s) == if IsRowOf(rows[i], v, s) then None else RowOf(rows, v, s) {
        RowDelete(rows, i, v, s);
      }
    } else {
      var r := rows[i].(quantity := rows[i].quantity - o.quantity, currentPrice := o.price);
      forall v, s ensures RowOf(rows', v, s) == if IsRowOf(r, v, s) then Some(r) else RowOf(rows, v, s) {
        RowUpdate(rows, i, r, v, s);
      }
    }
  }

  /** SELL never changes an average price, and never leaves an empty row. */
  lemma SellKeepsAverage(b: Book, u: UserId, o: Order, lazyPortfolio: bool)
    requires Consistent(b) && ValidOrder(o) && o.side == Sell
    requires Execute(b, u, o, lazyPortfolio).Committed?
    ensures var rows' := Execute(b, u, o, lazyPortfolio).book.positions;
      RowOf(b.positions, u, o.symbol).Some? &&
      (RowOf(rows', u, o.symbol).Some? ==>
        RowOf(rows', u, o.symbol).value.avgPrice == RowOf(b.positions, u, o.symbol).value.avgPrice &&
        RowOf(rows', u, o.symbol).value.quantity > 0.0)
  {
    SellPosition(b, u, o, lazyPortfolio);
  }

  /** On a consistent ledger the /sell database path, which skips the
      get-or-create step, behaves exactly like /trade: a seller has a
      position, and a position implies a portfolio row. */
  lemma SellEndpointsAgree(b: Book, u: UserId, o: Order)
    requires Consistent(b) && ValidOrder(o) && o.side == Sell
    ensures Execute(b, u, o, true) == Execute(b, u, o, false)
  {
    match FindRow(b.positions, u, o.symbol)
    case None =>
    case Some(i) =>
      assert b.positions[i].userId == u;
      assert EnsurePortfolio(b.portfolios, u) == b.portfolios;
  }

  // -------------------------------------------------------------------- reset

  /** Reset removes every position and trade of the user, puts the balance
      back to the start without creating a missing row, keeps the id sequence
      and leaves every other user's balance, rows and trades as they were. */
  lemma ResetEffect(b: Book, u: UserId)
    ensures var r := ResetBook(b, u);
      && r.portfolios.Keys == b.portfolios.Keys
      && (u in r.portfolios ==> r.portfolios[u] == StartingBalance)
      && (forall v :: v in b.portfolios && v != u ==> r.portfolios[v] == b.portfolios[v])
      && UserRows(r.positions, u) == [] && UserTrades(r.trades, u) == []
      && (forall v :: v != u ==> UserRows(r.positions, v) == UserRows(b.positions, v))
      && (forall v :: v != u ==> UserTrades(r.trades, v) == UserTrades(b.trades, v))
      && r.nextId == b.nextId
  {
    UserRowsDrop(b.positions, u, u);
    UserTradesDrop(b.trades, u, u);
    forall v | v != u
      ensures UserRows(DropUserRows(b.positions, u), v) == UserRows(b.positions, v)
      ensures UserTrades(DropUserTrades(b.trades, u), v) == UserTrades(b.trades, v)
    {
      UserRowsDrop(b.positions, u, v);
      UserTradesDrop(b.trades, u, v);
    }
  }

  /** A second reset changes nothing. */
  lemma ResetTwice(b: Book, u: UserId)
    ensures ResetBook(ResetBook(b, u), u) == ResetBook(b, u)
  {
    DropRowsTwice(b.positions, u);
    DropTradesTwice(b.trades, u);
  }
}
