/** How the row lookups of the positions table and the folds over the trades
    table behave under the statements the routes issue: UPDATE of one row,
    INSERT, DELETE of one row, DELETE of all of a user's rows. */
module LedgerTables {
  import opened Common
  import opened Ledger

  // ------------------------------------------------------- positions lookups

  /** The lookup the routes run and the row it designates agree. */
  lemma {:induction false} FindIsRowOf(rows: seq<PositionRow>, u: UserId, s: string)
    ensures FindRow(rows, u, s).Some? ==> RowOf(rows, u, s) == Some(rows[FindRow(rows, u, s).value])
    ensures FindRow(rows, u, s).None? ==> RowOf(rows, u, s).None?
  {
    if rows != [] && !IsRowOf(rows[0], u, s) {
      FindIsRowOf(rows[1..], u, s);
    }
  }

  /** A lookup only ever returns a stored row of the asked key. */
  lemma {:induction false} RowOfIsStored(rows: seq<PositionRow>, u: UserId, s: string)
    ensures RowOf(rows, u, s).Some? ==>
      IsRowOf(RowOf(rows, u, s).value, u, s) && RowOf(rows, u, s).value in rows
  {
    if rows != [] && !IsRowOf(rows[0], u, s) {
      RowOfIsStored(rows[1..], u, s);
    }
  }

  /** Without a row of the key, the lookup finds nothing. */
  lemma {:induction false} RowAbsent(rows: seq<PositionRow>, u: UserId, s: string)
    requires forall j :: 0 <= j < |rows| ==> !IsRowOf(rows[j], u, s)
    ensures RowOf(rows, u, s) == None
  {
    if rows != [] {
      RowAbsent(rows[1..], u, s);
    }
  }

  /** Under the unique key, the lookup of a stored row's key is that row. */
  lemma {:induction false} RowAt(rows: seq<PositionRow>, i: nat)
    requires Unique(rows) && i < |rows|
    ensures RowOf(rows, rows[i].userId, rows[i].symbol) == Some(rows[i])
  {
    if i > 0 {
      assert !IsRowOf(rows[i], rows[0].userId, rows[0].symbol);
      assert rows[1..][i - 1] == rows[i];
      RowAt(rows[1..], i - 1);
    }
  }

  lemma UniqueTail(rows: seq<PositionRow>)
    requires Unique(rows) && rows != []
    ensures Unique(rows[1..])
  {
    forall i, j | 0 <= i < j < |rows[1..]|
      ensures !IsRowOf(rows[1..][j], rows[1..][i].userId, rows[1..][i].symbol)
    {
      assert rows[1..][i] == rows[i + 1] && rows[1..][j] == rows[j + 1];
    }
  }

  /** UPDATE of row `i` that keeps its key: the key now finds the new row,
      every other key finds what it found before. */
  lemma RowUpdate(rows: seq<PositionRow>, i: nat, r: PositionRow, u: UserId, s: string)
    requires Unique(rows) && i < |rows| && IsRowOf(r, rows[i].userId, rows[i].symbol)
    ensures Unique(rows[i := r])
    ensures RowOf(rows[i := r], u, s) == if IsRowOf(r, u, s) then Some(r) else RowOf(rows, u, s)
  {
    var rows' := rows[i := r];
    assert forall k :: 0 <= k < |rows| ==> IsRowOf(rows'[k], rows[k].userId, rows[k].symbol);
    assert Unique(rows');
    if IsRowOf(r, u, s) {
      RowAt(rows', i);
    } else {
      var f := FindRow(rows, u, s);
      FindIsRowOf(rows, u, s);
      if f.Some? {
        assert f.value != i;
        RowAt(rows, f.value);
        RowAt(rows', f.value);
      } else {
        RowAbsent(rows', u, s);
      }
    }
  }

  /** INSERT of a row whose key is absent. */
  lemma RowAppend(rows: seq<PositionRow>, r: PositionRow, u: UserId, s: string)
    requires Unique(rows) && RowOf(rows, r.userId, r.symbol) == None
    ensures Unique(rows + [r])
    ensures RowOf(rows + [r], u, s) == if IsRowOf(r, u, s) then Some(r) else RowOf(rows, u, s)
  {
    var rows' := rows + [r];
    FindIsRowOf(rows, r.userId, r.symbol);
    assert forall j :: 0 <= j < |rows| ==> !IsRowOf(rows[j], r.userId, r.symbol);
    assert Unique(rows');
    if IsRowOf(r, u, s) {
      RowAt(rows', |rows|);
    } else {
      var f := FindRow(rows, u, s);
      FindIsRowOf(rows, u, s);
      if f.Some? {
        RowAt(rows, f.value);
        RowAt(rows', f.value);
      } else {
        RowAbsent(rows', u, s);
      }
    }
  }

  /** DELETE of row `i`: its key finds nothing, every other key is unaffected. */
  lemma RowDelete(rows: seq<PositionRow>, i: nat, u: UserId, s: string)
    requires Unique(rows) && i < |rows|
    ensures Unique(rows[..i] + rows[i + 1..])
    ensures RowOf(rows[..i] + rows[i + 1..], u, s) == if IsRowOf(rows[i], u, s) then None else RowOf(rows, u, s)
  {
    var rows' := rows[..i] + rows[i + 1..];
    assert forall k :: 0 <= k < |rows'| ==> rows'[k] == if k < i then rows[k] else rows[k + 1];
    assert Unique(rows');
    if IsRowOf(rows[i], u, s) {
      forall j | 0 <= j < |rows'| ensures !IsRowOf(rows'[j], u, s) {
        if j >= i { assert rows'[j] == rows[j + 1]; }
      }
      RowAbsent(rows', u, s);
    } else {
      var f := FindRow(rows, u, s);
      FindIsRowOf(rows, u, s);
      if f.Some? {
        var k := f.value;
        assert k != i;
        RowAt(rows, k);
        var k' := if k < i then k else k - 1;
        assert rows'[k'] == rows[k];
        RowAt(rows', k');
      } else {
        forall j | 0 <= j < |rows'| ensures !IsRowOf(rows'[j], u, s) {
          if j >= i { assert rows'[j] == rows[j + 1]; }
        }
        RowAbsent(rows', u, s);
      }
    }
  }

  /** Every row left by the per-user DELETE was stored before, and is not the user's. */
  lemma {:induction false} DropRowsElements(rows: seq<PositionRow>, u: UserId)
    ensures forall r :: r in DropUserRows(rows, u) ==> r in rows && r.userId != u
  {
    if rows != [] {
      DropRowsElements(rows[1..], u);
    }
  }

  lemma {:induction false} DropRowsUnique(rows: seq<PositionRow>, u: UserId)
    requires Unique(rows)
    ensures Unique(DropUserRows(rows, u))
  {
    if rows != [] {
      UniqueTail(rows);
      DropRowsUnique(rows[1..], u);
      DropRowsElements(rows[1..], u);
      var d := DropUserRows(rows[1..], u);
      if rows[0].userId != u {
        var r := [rows[0]] + d;
        forall i, j | 0 <= i < j < |r| ensures !IsRowOf(r[j], r[i].userId, r[i].symbol) {
          if i == 0 {
            assert r[j] == d[j - 1];
            assert d[j - 1] in rows[1..];
            var k :| 0 <= k < |rows[1..]| && rows[1..][k] == d[j - 1];
            assert rows[k + 1] == d[j - 1];
          } else {
            assert r[i] == d[i - 1] && r[j] == d[j - 1];
          }
        }
      }
    }
  }

  /** The per-user DELETE of positions: the user's keys find nothing, every
      other user's keys find what they found before. */
  lemma {:induction false} RowDropUser(rows: seq<PositionRow>, u: UserId, v: UserId, s: string)
    ensures RowOf(DropUserRows(rows, u), v, s) == if v == u then None else RowOf(rows, v, s)
  {
    if rows != [] {
      RowDropUser(rows[1..], u, v, s);
      var d := DropUserRows(rows[1..], u);
      if rows[0].userId != u {
        assert ([rows[0]] + d)[1..] == d;
      } else {
        assert [] + d == d;
      }
    }
  }

  lemma {:induction false} DropRowsKeep(rows: seq<PositionRow>, u: UserId, P: PositionRow -> bool)
    requires forall i :: 0 <= i < |rows| ==> P(rows[i])
    ensures forall i :: 0 <= i < |DropUserRows(rows, u)| ==> P(DropUserRows(rows, u)[i])
  {
    DropRowsElements(rows, u);
    forall i | 0 <= i < |DropUserRows(rows, u)| ensures P(DropUserRows(rows, u)[i]) {
      var r := DropUserRows(rows, u)[i];
      assert r in rows;
    }
  }

  // ------------------------------------------------------------ trade folds

  /** Appending one trade adds exactly its contribution to each fold. */
  lemma AppendTrade(ts: seq<TradeRow>, t: TradeRow, u: UserId, s: string)
    ensures Bought(ts + [t], u) == Bought(ts, u) + (if t.userId == u && t.side == Buy then t.total else 0.0)
    ensures Sold(ts + [t], u) == Sold(ts, u) + (if t.userId == u && t.side == Sell then t.total else 0.0)
    ensures Net(ts + [t], u, s) == Net(ts, u, s) +
      (if t.userId == u && t.symbol == s then (if t.side == Buy then t.quantity else -t.quantity) else 0.0)
  {
    assert (ts + [t])[..|ts|] == ts;
  }

  /** A user with no trades has bought, sold and netted nothing. */
  lemma {:induction false} NoTradesNoSums(ts: seq<TradeRow>, u: UserId, s: string)
    requires forall k :: 0 <= k < |ts| ==> ts[k].userId != u
    ensures Bought(ts, u) == 0.0 && Sold(ts, u) == 0.0 && Net(ts, u, s) == 0.0
  {
    if ts != [] {
      NoTradesNoSums(ts[..|ts| - 1], u, s);
    }
  }

  /** The per-user DELETE of trades clears that user's folds and no other's. */
  lemma {:induction false} DropTradesSums(ts: seq<TradeRow>, u: UserId, v: UserId, s: string)
    ensures Bought(DropUserTrades(ts, u), v) == if v == u then 0.0 else Bought(ts, v)
    ensures Sold(DropUserTrades(ts, u), v) == if v == u then 0.0 else Sold(ts, v)
    ensures Net(DropUserTrades(ts, u), v, s) == if v == u then 0.0 else Net(ts, v, s)
  {
    if ts != [] {
      var init := ts[..|ts| - 1];
      var t := ts[|ts| - 1];
      DropTradesSums(init, u, v, s);
      assert ts == init + [t];
      AppendTrade(init, t, v, s);
      if t.userId != u {
        AppendTrade(DropUserTrades(init, u), t, v, s);
      } else {
        assert DropUserTrades(ts, u) == DropUserTrades(init, u) + [];
        assert DropUserTrades(init, u) + [] == DropUserTrades(init, u);
      }
    }
  }

  lemma {:induction false} DropTradesElements(ts: seq<TradeRow>, u: UserId)
    ensures forall t :: t in DropUserTrades(ts, u) ==> t in ts && t.userId != u
  {
    if ts != [] {
      DropTradesElements(ts[..|ts| - 1], u);
    }
  }

  lemma DropTradesKeep(ts: seq<TradeRow>, u: UserId, P: TradeRow -> bool)
    requires forall k :: 0 <= k < |ts| ==> P(ts[k])
    ensures forall k :: 0 <= k < |DropUserTrades(ts, u)| ==> P(DropUserTrades(ts, u)[k])
  {
    DropTradesElements(ts, u);
    forall k | 0 <= k < |DropUserTrades(ts, u)| ensures P(DropUserTrades(ts, u)[k]) {
      assert DropUserTrades(ts, u)[k] in ts;
    }
  }

  lemma {:induction false} DropTradesIncreasing(ts: seq<TradeRow>, u: UserId)
    requires IdsIncreasing(ts)
    ensures IdsIncreasing(DropUserTrades(ts, u))
  {
    if ts != [] {
      var init := ts[..|ts| - 1];
      var t := ts[|ts| - 1];
      assert IdsIncreasing(init);
      DropTradesIncreasing(init, u);
      DropTradesElements(init, u);
      var d := DropUserTrades(init, u);
      if t.userId != u {
        forall i, j | 0 <= i < j < |d + [t]| ensures (d + [t])[i].id < (d + [t])[j].id {
          assert (d + [t])[i] == d[i];
          if j == |d| {
            assert d[i] in init;
            var k :| 0 <= k < |init| && init[k] == d[i];
            assert ts[k] == d[i];
          } else {
            assert (d + [t])[j] == d[j];
          }
        }
      }
    }
  }
  // -------------------------------------------------------- per-user views

  /** After the per-user DELETE, the user has no rows left and everyone else
      sees the same rows in the same order. */
  lemma {:induction false} UserRowsDrop(rows: seq<PositionRow>, u: UserId, v: UserId)
    ensures UserRows(DropUserRows(rows, u), v) == if v == u then [] else UserRows(rows, v)
  {
    if rows != [] {
      UserRowsDrop(rows[1..], u, v);
      var d := DropUserRows(rows[1..], u);
      if rows[0].userId != u {
        assert ([rows[0]] + d)[1..] == d;
      } else {
        assert [] + d == d;
      }
    }
  }

  /** The same for the trades table. */
  lemma {:induction false} UserTradesDrop(ts: seq<TradeRow>, u: UserId, v: UserId)
    ensures UserTrades(DropUserTrades(ts, u), v) == if v == u then [] else UserTrades(ts, v)
  {
    if ts != [] {
      var init := ts[..|ts| - 1];
      var t := ts[|ts| - 1];
      UserTradesDrop(init, u, v);
      var d := DropUserTrades(init, u);
      if t.userId != u {
        assert (d + [t])[..|d|] == d;
      } else {
        assert d + [] == d;
      }
    }
  }

  /** Appending a trade extends exactly its owner's view by that trade. */
  lemma UserTradesAppend(ts: seq<TradeRow>, t: TradeRow, v: UserId)
    ensures UserTrades(ts + [t], v) == UserTrades(ts, v) + (if t.userId == v then [t] else [])
  {
    assert (ts + [t])[..|ts|] == ts;
  }

  /** The per-user DELETE is idempotent. */
  lemma {:induction false} DropRowsTwice(rows: seq<PositionRow>, u: UserId)
    ensures DropUserRows(DropUserRows(rows, u), u) == DropUserRows(rows, u)
  {
    if rows != [] {
      DropRowsTwice(rows[1..], u);
      var d := DropUserRows(rows[1..], u);
      if rows[0].userId != u {
        assert ([rows[0]] + d)[0] == rows[0];
        assert ([rows[0]] + d)[1..] == d;
      } else {
        assert [] + d == d;
      }
    }
  }

  lemma {:induction false} DropTradesTwice(ts: seq<TradeRow>, u: UserId)
    ensures DropUserTrades(DropUserTrades(ts, u), u) == DropUserTrades(ts, u)
  {
    if ts != [] {
      var init := ts[..|ts| - 1];
      var t := ts[|ts| - 1];
      DropTradesTwice(init, u);
      var d := DropUserTrades(init, u);
      if t.userId != u {
        assert (d + [t])[..|d|] == d;
        assert (d + [t])[|d|] == t;
      } else {
        assert d + [] == d;
      }
    }
  }
}
