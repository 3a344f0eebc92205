/** The ledger invariant `Consistent` holds of the empty database and is kept
    by every committed trade, by reset and by the summary's get-or-create. */
module LedgerProofs {
  import opened Common
  import opened Orders
  import opened Ledger
  import opened LedgerTables

  lemma EmptyBookConsistent()
    ensures Consistent(EmptyBook)
  {
  }

  lemma PositiveAverage(q: real, avg: real, total: real, nq: real)
    requires q > 0.0 && avg > 0.0 && total > 0.0 && nq > 0.0
    ensures (q * avg + total) / nq > 0.0
  {
    assert q * avg > 0.0;
  }

  /** The BUY position step keeps the table well formed and adds `q` to the
      bought key's quantity, and nothing to any other key. */
  lemma BuyRowsEffect(rows: seq<PositionRow>, u: UserId, s: string, q: real, price: real, total: real)
    requires Unique(rows) && RowsPositive(rows) && q > 0.0 && price > 0.0 && total > 0.0
    ensures Unique(BuyRows(rows, u, s, q, price, total))
    ensures RowsPositive(BuyRows(rows, u, s, q, price, total))
    ensures forall v, s' :: (QtyOf(BuyRows(rows, u, s, q, price, total), v, s') ==
      QtyOf(rows, v, s') + (if v == u && s' == s then q else 0.0))
  {
    var rows' := BuyRows(rows, u, s, q, price, total);
    FindIsRowOf(rows, u, s);
    match FindRow(rows, u, s)
    case Some(i) =>
      var cur := rows[i];
      var nq := cur.quantity + q;
      var r := cur.(quantity := nq, avgPrice := (cur.quantity * cur.avgPrice + total) / nq, currentPrice := price);
      assert rows' == rows[i := r];
      PositiveAverage(cur.quantity, cur.avgPrice, total, nq);
      forall v, s' ensures QtyOf(rows', v, s') == QtyOf(rows, v, s') + (if v == u && s' == s then q else 0.0) {
        RowUpdate(rows, i, r, v, s');
      }
      RowUpdate(rows, i, r, u, s);
    case None =>
      var r := PositionRow(u, s, q, price, price);
      assert rows' == rows + [r];
      forall v, s' ensures QtyOf(rows', v, s') == QtyOf(rows, v, s') + (if v == u && s' == s then q else 0.0) {
        RowAppend(rows, r, v, s');
      }
      RowAppend(rows, r, u, s);
  }

  /** The SELL position step on the found row removes `q` from that key only,
      and deletes the row exactly when nothing remains. */
  lemma SellRowsEffect(rows: seq<PositionRow>, i: nat, q: real, price: real)
    requires Unique(rows) && RowsPositive(rows) && i < |rows| && 0.0 < q <= rows[i].quantity && price > 0.0
    ensures Unique(SellRows(rows, i, q, price))
    ensures RowsPositive(SellRows(rows, i, q, price))
    ensures forall v, s' :: (QtyOf(SellRows(rows, i, q, price), v, s') ==
      QtyOf(rows, v, s') - (if IsRowOf(rows[i], v, s') then q else 0.0))
  {
    var rows' := SellRows(rows, i, q, price);
    RowAt(rows, i);
    if rows[i].quantity - q <= 0.0 {
      forall v, s' ensures QtyOf(rows', v, s') == QtyOf(rows, v, s') - (if IsRowOf(rows[i], v, s') then q else 0.0) {
        RowDelete(rows, i, v, s');
      }
      RowDelete(rows, i, "", "");
      forall k | 0 <= k < |rows'| ensures rows'[k].quantity > 0.0 && rows'[k].avgPrice > 0.0 && rows'[k].currentPrice > 0.0 {
        assert rows'[k] == if k < i then rows[k] else rows[k + 1];
      }
    } else {
      var r := rows[i].(quantity := rows[i].quantity - q, currentPrice := price);
      forall v, s' ensures QtyOf(rows', v, s') == QtyOf(rows, v, s') - (if IsRowOf(rows[i], v, s') then q else 0.0) {
        RowUpdate(rows, i, r, v, s');
      }
      RowUpdate(rows, i, r, "", "");
    }
  }

  /** The cash columns after a committed BUY. */
  lemma BuyCash(b: Book, u: UserId, o: Order, lazyPortfolio: bool)
    requires Consistent(b) && ValidOrder(o) && o.side == Buy
    requires Execute(b, u, o, lazyPortfolio).Committed?
    ensures var b' := Execute(b, u, o, lazyPortfolio).book;
      forall v :: v in b'.portfolios ==>
        b'.portfolios[v] >= 0.0 && b'.portfolios[v] == StartingBalance - Bought(b'.trades, v) + Sold(b'.trades, v)
  {
    var total := Total(o);
    var p := EnsurePortfolio(b.portfolios, u);
    var t := TradeRow(b.nextId, u, o.symbol, Buy, o.quantity, o.price, total);
    var b' := Execute(b, u, o, lazyPortfolio).book;
    assert b'.portfolios == p[u := p[u] - total] && b'.trades == b.trades + [t];
    if u !in b.portfolios {
      NoTradesNoSums(b.trades, u, "");
    }
    forall v | v in b'.portfolios
      ensures b'.portfolios[v] >= 0.0 && b'.portfolios[v] == StartingBalance - Bought(b'.trades, v) + Sold(b'.trades, v)
    {
      AppendTrade(b.trades, t, v, "");
    }
  }

  /** The positions table after a committed BUY. */
  lemma BuyPositions(b: Book, u: UserId, o: Order, lazyPortfolio: bool)
    requires Consistent(b) && ValidOrder(o) && o.side == Buy
    requires Execute(b, u, o, lazyPortfolio).Committed?
    ensures var b' := Execute(b, u, o, lazyPortfolio).book;
      Unique(b'.positions) && RowsPositive(b'.positions) &&
      (forall v, s :: QtyOf(b'.positions, v, s) == Net(b'.trades, v, s))
  {
    var total := Total(o);
    TotalPositive(o);
    var t := TradeRow(b.nextId, u, o.symbol, Buy, o.quantity, o.price, total);
    var b' := Execute(b, u, o, lazyPortfolio).book;
    assert b'.positions == BuyRows(b.positions, u, o.symbol, o.quantity, o.price, total) && b'.trades == b.trades + [t];
    BuyRowsEffect(b.positions, u, o.symbol, o.quantity, o.price, total);
    forall v, s ensures QtyOf(b'.positions, v, s) == Net(b'.trades, v, s) {
      AppendTrade(b.trades, t, v, s);
    }
  }

  /** Appending the next trade keeps the log well formed, increasing and
      referring only to existing portfolios. */
  lemma LogAppend(ts: seq<TradeRow>, t: TradeRow, nextId: nat, users: set<UserId>)
    requires IdsIncreasing(ts) && TradesWellFormed(ts)
    requires forall k :: 0 <= k < |ts| ==> ts[k].userId in users && ts[k].id < nextId
    requires t.id == nextId && t.userId in users
    requires t.quantity >= MinQuantity && t.price >= MinPrice && t.total == t.quantity * t.price
    ensures IdsIncreasing(ts + [t]) && TradesWellFormed(ts + [t])
    ensures forall k :: 0 <= k < |ts + [t]| ==> (ts + [t])[k].userId in users && (ts + [t])[k].id < nextId + 1
  {
    var ts' := ts + [t];
    forall i, j | 0 <= i < j < |ts'| ensures ts'[i].id < ts'[j].id {
      if j == |ts| {
        assert ts'[i] == ts[i];
      } else {
        assert ts'[i] == ts[i] && ts'[j] == ts[j];
      }
    }
    forall k | 0 <= k < |ts'|
      ensures ts'[k].quantity >= MinQuantity && ts'[k].price >= MinPrice && ts'[k].total == ts'[k].quantity * ts'[k].price
      ensures ts'[k].userId in users && ts'[k].id < nextId + 1
    {
      if k < |ts| {
        assert ts'[k] == ts[k];
      }
    }
  }

  /** A positions table whose every row has a positive quantity in the old
      table, or belongs to `u`, refers only to portfolios of `users`. */
  lemma NoOrphans(rows: seq<PositionRow>, rows': seq<PositionRow>, u: UserId, users: set<UserId>)
    requires Unique(rows') && RowsPositive(rows') && u in users
    requires forall i :: 0 <= i < |rows| ==> rows[i].userId in users
    requires forall v, s :: v != u ==> QtyOf(rows', v, s) == QtyOf(rows, v, s)
    ensures forall i :: 0 <= i < |rows'| ==> rows'[i].userId in users
  {
    forall i | 0 <= i < |rows'| ensures rows'[i].userId in users {
      var v, s := rows'[i].userId, rows'[i].symbol;
      if v != u {
        RowAt(rows', i);
        assert QtyOf(rows, v, s) > 0.0;
        FindIsRowOf(rows, v, s);
      }
    }
  }

  /** No orphan position and a well-formed trade log after a committed BUY. */
  lemma BuyReferences(b: Book, u: UserId, o: Order, lazyPortfolio: bool)
    requires Consistent(b) && ValidOrder(o) && o.side == Buy
    requires Execute(b, u, o, lazyPortfolio).Committed?
    ensures var b' := Execute(b, u, o, lazyPortfolio).book;
      (forall i :: 0 <= i < |b'.positions| ==> b'.positions[i].userId in b'.portfolios) &&
      (forall k :: 0 <= k < |b'.trades| ==> b'.trades[k].userId in b'.portfolios && b'.trades[k].id < b'.nextId) &&
      IdsIncreasing(b'.trades) && TradesWellFormed(b'.trades)
  {
    var total := Total(o);
    TotalPositive(o);
    var b' := Execute(b, u, o, lazyPortfolio).book;
    var t := TradeRow(b.nextId, u, o.symbol, Buy, o.quantity, o.price, total);
    assert b'.positions == BuyRows(b.positions, u, o.symbol, o.quantity, o.price, total);
    assert b'.trades == b.trades + [t];
    assert b'.nextId == b.nextId + 1 && b'.portfolios.Keys == b.portfolios.Keys + {u};
    BuyRowsEffect(b.positions, u, o.symbol, o.quantity, o.price, total);
    NoOrphans(b.positions, b'.positions, u, b'.portfolios.Keys);
    LogAppend(b.trades, t, b.nextId, b'.portfolios.Keys);
  }

  lemma BuyPreserves(b: Book, u: UserId, o: Order, lazyPortfolio: bool)
    requires Consistent(b) && ValidOrder(o) && o.side == Buy
    requires Execute(b, u, o, lazyPortfolio).Committed?
    ensures Consistent(Execute(b, u, o, lazyPortfolio).book)
  {
    BuyCash(b, u, o, lazyPortfolio);
    BuyPositions(b, u, o, lazyPortfolio);
    BuyReferences(b, u, o, lazyPortfolio);
  }

  /** The new tables of a committed SELL, spelled out. */
  lemma SellBook(b: Book, u: UserId, o: Order, lazyPortfolio: bool)
    requires Consistent(b) && ValidOrder(o) && o.side == Sell
    requires Execute(b, u, o, lazyPortfolio).Committed?
    ensures FindRow(b.positions, u, o.symbol).Some?
    ensures var i := FindRow(b.positions, u, o.symbol).value;
      u in b.portfolios && o.quantity <= b.positions[i].quantity &&
      Execute(b, u, o, lazyPortfolio).book ==
        Book(b.portfolios[u := b.portfolios[u] + Total(o)], SellRows(b.positions, i, o.quantity, o.price),
             b.trades + [TradeRow(b.nextId, u, o.symbol, Sell, o.quantity, o.price, Total(o))], b.nextId + 1)
  {
    var r := Execute(b, u, o, lazyPortfolio);
    match FindRow(b.positions, u, o.symbol) {
      case Some(i) =>
        assert IsRowOf(b.positions[i], u, o.symbol);
        assert b.positions[i].userId in b.portfolios;
        var p := if lazyPortfolio then EnsurePortfolio(b.portfolios, u) else b.portfolios;
        assert p == b.portfolios;
        assert Credit(p, u, Total(o)) == b.portfolios[u := b.portfolios[u] + Total(o)];
    }
  }

  /** The cash columns after a committed SELL. */
  lemma SellCash(b: Book, u: UserId, o: Order, lazyPortfolio: bool)
    requires Consistent(b) && ValidOrder(o) && o.side == Sell
    requires Execute(b, u, o, lazyPortfolio).Committed?
    ensures var b' := Execute(b, u, o, lazyPortfolio).book;
      forall v :: v in b'.portfolios ==>
        b'.portfolios[v] >= 0.0 && b'.portfolios[v] == StartingBalance - Bought(b'.trades, v) + Sold(b'.trades, v)
  {
    SellBook(b, u, o, lazyPortfolio);
    TotalPositive(o);
    var t := TradeRow(b.nextId, u, o.symbol, Sell, o.quantity, o.price, Total(o));
    var b' := Execute(b, u, o, lazyPortfolio).book;
    forall v | v in b'.portfolios
      ensures b'.portfolios[v] >= 0.0 && b'.portfolios[v] == StartingBalance - Bought(b'.trades, v) + Sold(b'.trades, v)
    {
      AppendTrade(b.trades, t, v, "");
    }
  }

  /** The positions table after a committed SELL. */
  lemma SellPositions(b: Book, u: UserId, o: Order, lazyPortfolio: bool)
    requires Consistent(b) && ValidOrder(o) && o.side == Sell
    requires Execute(b, u, o, lazyPortfolio).Committed?
    ensures var b' := Execute(b, u, o, lazyPortfolio).book;
      Unique(b'.positions) && RowsPositive(b'.positions) &&
      (forall v, s :: QtyOf(b'.positions, v, s) == Net(b'.trades, v, s)) &&
      (forall i :: 0 <= i < |b'.positions| ==> b'.positions[i].userId in b'.portfolios)
  {
    SellBook(b, u, o, lazyPortfolio);
    var i := FindRow(b.positions, u, o.symbol).value;
    var t := TradeRow(b.nextId, u, o.symbol, Sell, o.quantity, o.price, Total(o));
    var b' := Execute(b, u, o, lazyPortfolio).book;
    SellRowsEffect(b.positions, i, o.quantity, o.price);
    forall v, s ensures QtyOf(b'.positions, v, s) == Net(b'.trades, v, s) {
      AppendTrade(b.trades, t, v, s);
    }
    NoOrphans(b.positions, b'.positions, u, b'.portfolios.Keys);
  }

  lemma SellPreserves(b: Book, u: UserId, o: Order, lazyPortfolio: bool)
    requires Consistent(b) && ValidOrder(o) && o.side == Sell
    requires Execute(b, u, o, lazyPortfolio).Committed?
    ensures Consistent(Execute(b, u, o, lazyPortfolio).book)
  {
    SellBook(b, u, o, lazyPortfolio);
    TotalPositive(o);
    var t := TradeRow(b.nextId, u, o.symbol, Sell, o.quantity, o.price, Total(o));
    var b' := Execute(b, u, o, lazyPortfolio).book;
    SellCash(b, u, o, lazyPortfolio);
    SellPositions(b, u, o, lazyPortfolio);
    LogAppend(b.trades, t, b.nextId, b'.portfolios.Keys);
  }

  /** Every committed trade transaction keeps the ledger consistent. */
  lemma ExecutePreserves(b: Book, u: UserId, o: Order, lazyPortfolio: bool)
    requires Consistent(b) && ValidOrder(o)
    ensures Consistent(After(b, Execute(b, u, o, lazyPortfolio)))
  {
    if Execute(b, u, o, lazyPortfolio).Committed? {
      if o.side == Buy {
        BuyPreserves(b, u, o, lazyPortfolio);
      } else {
        SellPreserves(b, u, o, lazyPortfolio);
      }
    }
  }

  /** The cash columns after a reset. */
  lemma ResetCash(b: Book, u: UserId)
    requires Consistent(b)
    ensures var b' := ResetBook(b, u);
      forall v :: v in b'.portfolios ==>
        b'.portfolios[v] >= 0.0 && b'.portfolios[v] == StartingBalance - Bought(b'.trades, v) + Sold(b'.trades, v)
  {
    var b' := ResetBook(b, u);
    forall v | v in b'.portfolios
      ensures b'.portfolios[v] >= 0.0 && b'.portfolios[v] == StartingBalance - Bought(b'.trades, v) + Sold(b'.trades, v)
    {
      DropTradesSums(b.trades, u, v, "");
    }
  }

  /** The positions table after a reset. */
  lemma ResetPositions(b: Book, u: UserId)
    requires Consistent(b)
    ensures var b' := ResetBook(b, u);
      Unique(b'.positions) && RowsPositive(b'.positions) &&
      (forall v, s :: QtyOf(b'.positions, v, s) == Net(b'.trades, v, s)) &&
      (forall i :: 0 <= i < |b'.positions| ==> b'.positions[i].userId in b'.portfolios)
  {
    var b' := ResetBook(b, u);
    DropRowsUnique(b.positions, u);
    DropRowsKeep(b.positions, u, (r: PositionRow) => r.quantity > 0.0 && r.avgPrice > 0.0 && r.currentPrice > 0.0);
    DropRowsKeep(b.positions, u, (r: PositionRow) => r.userId in b.portfolios);
    forall v, s ensures QtyOf(b'.positions, v, s) == Net(b'.trades, v, s) {
      DropTradesSums(b.trades, u, v, s);
      RowDropUser(b.positions, u, v, s);
    }
  }

  /** The trade log after a reset. */
  lemma ResetLog(b: Book, u: UserId)
    requires Consistent(b)
    ensures var b' := ResetBook(b, u);
      (forall k :: 0 <= k < |b'.trades| ==> b'.trades[k].userId in b'.portfolios && b'.trades[k].id < b'.nextId) &&
      IdsIncreasing(b'.trades) && TradesWellFormed(b'.trades)
  {
    DropTradesKeep(b.trades, u, (t: TradeRow) => t.userId in b.portfolios && t.id < b.nextId);
    DropTradesKeep(b.trades, u, (t: TradeRow) => t.quantity >= MinQuantity && t.price >= MinPrice && t.total == t.quantity * t.price);
    DropTradesIncreasing(b.trades, u);
  }

  /** Reset keeps the ledger consistent. */
  lemma ResetPreserves(b: Book, u: UserId)
    requires Consistent(b)
    ensures Consistent(ResetBook(b, u))
  {
    ResetCash(b, u);
    ResetPositions(b, u);
    ResetLog(b, u);
  }

  /** The summary's get-or-create keeps the ledger consistent. */
  lemma LazyCreatePreserves(b: Book, u: UserId)
    requires Consistent(b)
    ensures Consistent(LazyCreate(b, u))
  {
    if u !in b.portfolios {
      NoTradesNoSums(b.trades, u, "");
    }
  }
}
