/** Portfolio valuation of the database path: the summary's accumulation over
    the user's positions, the /positions view and the /performance
    statistics over the user's trades. */
module Valuation {
  import opened Common
  import opened Orders
  import opened Ledger
  import opened LedgerTables

  /** Value of one position at its mark. */
  function PositionValue(r: PositionRow): real {
    r.quantity * r.currentPrice
  }

  /** Unrealised profit of one position: the mark against the average. */
  function UnrealizedPnL(r: PositionRow): real {
    r.quantity * (r.currentPrice - r.avgPrice)
  }

  /** What the position cost. */
  function CostBasis(r: PositionRow): real {
    r.quantity * r.avgPrice
  }

  function SumValue(rows: seq<PositionRow>): real {
    if rows == [] then 0.0 else SumValue(rows[..|rows| - 1]) + PositionValue(rows[|rows| - 1])
  }

  function SumPnL(rows: seq<PositionRow>): real {
    if rows == [] then 0.0 else SumPnL(rows[..|rows| - 1]) + UnrealizedPnL(rows[|rows| - 1])
  }

  function SumCost(rows: seq<PositionRow>): real {
    if rows == [] then 0.0 else SumCost(rows[..|rows| - 1]) + CostBasis(rows[|rows| - 1])
  }

  /** The summary's `forEach` over the user's positions. */
  method Totals(rows: seq<PositionRow>) returns (totalPositionValue: real, totalUnrealizedPnL: real)
    ensures totalPositionValue == SumValue(rows)
    ensures totalUnrealizedPnL == SumPnL(rows)
  {
    totalPositionValue := 0.0;
    totalUnrealizedPnL := 0.0;
    var i := 0;
    while i < |rows|
      invariant 0 <= i <= |rows|
      invariant totalPositionValue == SumValue(rows[..i])
      invariant totalUnrealizedPnL == SumPnL(rows[..i])
    {
      assert rows[..i + 1][..i] == rows[..i];
      totalPositionValue := totalPositionValue + PositionValue(rows[i]);
      totalUnrealizedPnL := totalUnrealizedPnL + UnrealizedPnL(rows[i]);
      i := i + 1;
    }
    assert rows[..|rows|] == rows;
  }

  /** The unrealised profit of a set of positions is their value less their cost. */
  lemma {:induction false} PnLIsValueLessCost(rows: seq<PositionRow>)
    ensures SumPnL(rows) == SumValue(rows) - SumCost(rows)
  {
    if rows != [] {
      PnLIsValueLessCost(rows[..|rows| - 1]);
    }
  }

  /** Positions that all hold something at a positive mark are worth something. */
  lemma {:induction false} ValueNonNegative(rows: seq<PositionRow>)
    requires RowsPositive(rows)
    ensures SumValue(rows) >= 0.0
    ensures rows != [] ==> SumValue(rows) > 0.0
  {
    if rows != [] {
      var init := rows[..|rows| - 1];
      assert RowsPositive(init) by {
        forall i | 0 <= i < |init| ensures init[i].quantity > 0.0 && init[i].avgPrice > 0.0 && init[i].currentPrice > 0.0 {
          assert init[i] == rows[i];
        }
      }
      ValueNonNegative(init);
      var r := rows[|rows| - 1];
      assert r.quantity * r.currentPrice > 0.0;
    }
  }

  lemma SumsAppend(rows: seq<PositionRow>, r: PositionRow)
    ensures SumValue(rows + [r]) == SumValue(rows) + PositionValue(r)
    ensures SumPnL(rows + [r]) == SumPnL(rows) + UnrealizedPnL(r)
  {
    assert (rows + [r])[..|rows|] == rows;
  }

  // ------------------------------------------------------------------ summary

  /** The response of GET /portfolio. */
  datatype Summary = Summary(
    balance: real,
    totalPositionValue: real,
    totalValue: real,
    totalPnL: real,
    totalUnrealizedPnL: real,
    positionsCount: nat)

  /** The summary of a user who has a portfolio row, as the handler builds it
      from the accumulated totals. */
  function SummaryFrom(balance: real, rows: seq<PositionRow>, value: real, pnl: real): (s: Summary)
    ensures s.totalValue == balance + value && s.totalPnL == s.totalValue - StartingBalance
  {
    var totalValue := balance + value;
    Summary(balance, value, totalValue, totalValue - StartingBalance, pnl, |rows|)
  }

  /** The summary GET /portfolio reports for a user with a portfolio row. */
  function SummaryOf(b: Book, u: UserId): Summary
    requires u in b.portfolios
  {
    var rows := UserRows(b.positions, u);
    SummaryFrom(b.portfolios[u], rows, SumValue(rows), SumPnL(rows))
  }

  /** What the summary means: the cash plus the marked value of the user's
      positions, measured against the fixed start; one count per position row. */
  lemma SummaryMeaning(b: Book, u: UserId)
    requires u in b.portfolios
    ensures var s := SummaryOf(b, u);
      && s.balance == b.portfolios[u]
      && s.totalValue == b.portfolios[u] + SumValue(UserRows(b.positions, u))
      && s.totalPnL == s.totalValue - StartingBalance
      && s.totalUnrealizedPnL == SumValue(UserRows(b.positions, u)) - SumCost(UserRows(b.positions, u))
      && s.positionsCount == |UserRows(b.positions, u)|
  {
    PnLIsValueLessCost(UserRows(b.positions, u));
  }

  /** On a consistent ledger the total profit is the proceeds of the user's
      sales, less the cost of the purchases, plus what is still held at its
      mark. */
  lemma ProfitFromTrades(b: Book, u: UserId)
    requires Consistent(b) && u in b.portfolios
    ensures SummaryOf(b, u).totalPnL ==
      Sold(b.trades, u) - Bought(b.trades, u) + SumValue(UserRows(b.positions, u))
  {
  }

  /** A user without rows is valued at the balance alone. */
  lemma NoPositionsSummary(b: Book, u: UserId)
    requires u in b.portfolios && UserRows(b.positions, u) == []
    ensures SummaryOf(b, u) == Summary(b.portfolios[u], 0.0, b.portfolios[u], b.portfolios[u] - StartingBalance, 0.0, 0)
  {
  }

  /** After a reset the summary is exactly the starting one. */
  lemma ResetSummary(b: Book, u: UserId)
    requires u in b.portfolios
    ensures u in ResetBook(b, u).portfolios
    ensures SummaryOf(ResetBook(b, u), u) == Summary(StartingBalance, 0.0, StartingBalance, 0.0, 0.0, 0)
  {
    UserRowsDrop(b.positions, u, u);
  }

  /** So is the summary of a user seen for the first time. */
  lemma NewUserSummary(b: Book, u: UserId)
    requires Consistent(b) && u !in b.portfolios
    ensures SummaryOf(LazyCreate(b, u), u) == Summary(StartingBalance, 0.0, StartingBalance, 0.0, 0.0, 0)
  {
    NoRowsWithoutPortfolio(b.positions, u);
  }

  lemma {:induction false} NoRowsWithoutPortfolio(rows: seq<PositionRow>, u: UserId)
    requires forall i :: 0 <= i < |rows| ==> rows[i].userId != u
    ensures UserRows(rows, u) == []
  {
    if rows != [] {
      NoRowsWithoutPortfolio(rows[1..], u);
    }
  }

  /** Appending a row extends its owner's view by that row. */
  lemma {:induction false} UserRowsAppend(rows: seq<PositionRow>, r: PositionRow, v: UserId)
    ensures UserRows(rows + [r], v) == UserRows(rows, v) + (if r.userId == v then [r] else [])
  {
    if rows == [] {
      assert [r][1..] == [];
    } else {
      assert (rows + [r])[1..] == rows[1..] + [r];
      UserRowsAppend(rows[1..], r, v);
    }
  }

  /** Buying into a new position at the trade price moves cash into the
      position one for one, so the total value does not change. */
  lemma FreshBuyKeepsValue(b: Book, u: UserId, o: Order)
    requires Unique(b.positions) && RowsPositive(b.positions) && ValidOrder(o) && o.side == Buy
    requires u in b.portfolios && RowOf(b.positions, u, o.symbol) == None
    requires Execute(b, u, o, true).Committed?
    ensures u in Execute(b, u, o, true).book.portfolios
    ensures SummaryOf(Execute(b, u, o, true).book, u).totalValue == SummaryOf(b, u).totalValue
  {
    var b' := Execute(b, u, o, true).book;
    var r := PositionRow(u, o.symbol, o.quantity, o.price, o.price);
    FindIsRowOf(b.positions, u, o.symbol);
    assert b'.positions == b.positions + [r];
    UserRowsAppend(b.positions, r, u);
    SumsAppend(UserRows(b.positions, u), r);
  }

  // ---------------------------------------------------------------- positions

  /** One entry of GET /portfolio/positions. */
  datatype PositionView = PositionView(
    symbol: string,
    quantity: real,
    avgPrice: real,
    currentPrice: real,
    positionValue: real,
    unrealizedPnL: real,
    pnlPercentage: real)

  /** `v` shows row `r`: the row's own columns, its value at the mark, its
      unrealised profit against the average, and that profit as a percentage
      of the average. */
  predicate Shows(v: PositionView, r: PositionRow)
    requires r.avgPrice != 0.0
  {
    && v.symbol == r.symbol && v.quantity == r.quantity
    && v.avgPrice == r.avgPrice && v.currentPrice == r.currentPrice
    && v.positionValue == r.quantity * r.currentPrice
    && v.unrealizedPnL == v.positionValue - r.quantity * r.avgPrice
    && v.pnlPercentage == (r.currentPrice - r.avgPrice) / r.avgPrice * 100.0
  }

  /** The row as the positions query computes it; the percentage divides by
      the average price, so a zero average makes the query fail. */
  function ViewOf(r: PositionRow): (v: Option<PositionView>)
    ensures v.Some? <==> r.avgPrice != 0.0
    ensures v.Some? ==> Shows(v.value, r)
  {
    if r.avgPrice == 0.0 then None
    else Some(PositionView(r.symbol, r.quantity, r.avgPrice, r.currentPrice,
                           PositionValue(r), UnrealizedPnL(r),
                           (r.currentPrice - r.avgPrice) / r.avgPrice * 100.0))
  }

  /** The views of `rows` newest first (`ORDER BY created_at DESC`), or None
      when the query fails on some row. */
  function ViewsNewestFirst(rows: seq<PositionRow>): Option<seq<PositionView>> {
    if rows == [] then Some([])
    else
      match (ViewOf(rows[0]), ViewsNewestFirst(rows[1..]))
      case (Some(v), Some(vs)) => Some(vs + [v])
      case _ => None
  }

  /** GET /portfolio/positions of the database path. */
  function PositionsOf(b: Book, u: UserId): Option<seq<PositionView>> {
    ViewsNewestFirst(UserRows(b.positions, u))
  }

  /** The views are the rows in reverse creation order, each showing its
      row's value, unrealised profit and percentage against the average. */
  lemma {:induction false} ViewsMeaning(rows: seq<PositionRow>)
    requires forall i :: 0 <= i < |rows| ==> rows[i].avgPrice > 0.0
    ensures ViewsNewestFirst(rows).Some?
    ensures var vs := ViewsNewestFirst(rows).value;
      |vs| == |rows| && forall k :: 0 <= k < |vs| ==> Shows(vs[k], rows[|rows| - 1 - k])
  {
    if rows != [] {
      ViewsMeaning(rows[1..]);
      var vs := ViewsNewestFirst(rows[1..]).value;
      var all := ViewsNewestFirst(rows).value;
      assert all == vs + [ViewOf(rows[0]).value];
      forall k | 0 <= k < |all| ensures Shows(all[k], rows[|rows| - 1 - k]) {
        if k < |vs| {
          assert all[k] == vs[k];
          assert rows[1..][|rows[1..]| - 1 - k] == rows[|rows| - 1 - k];
        } else {
          assert all[k] == ViewOf(rows[0]).value;
        }
      }
    }
  }

  lemma {:induction false} UserRowsOf(rows: seq<PositionRow>, u: UserId)
    ensures forall r :: r in UserRows(rows, u) ==> r in rows && r.userId == u
  {
    if rows != [] {
      UserRowsOf(rows[1..], u);
    }
  }

  /** On a consistent ledger the positions query never fails and lists as
      many entries as the summary counts. */
  lemma PositionsConsistent(b: Book, u: UserId)
    requires Consistent(b) && u in b.portfolios
    ensures PositionsOf(b, u).Some?
    ensures |PositionsOf(b, u).value| == SummaryOf(b, u).positionsCount
  {
    var rows := UserRows(b.positions, u);
    UserRowsOf(b.positions, u);
    forall i | 0 <= i < |rows| ensures rows[i].avgPrice > 0.0 {
      assert rows[i] in b.positions;
    }
    ViewsMeaning(rows);
  }

  /** The sums of the entries' value and unrealised-profit columns. */
  function ViewValueSum(vs: seq<PositionView>): real {
    if vs == [] then 0.0 else ViewValueSum(vs[..|vs| - 1]) + vs[|vs| - 1].positionValue
  }

  function ViewPnLSum(vs: seq<PositionView>): real {
    if vs == [] then 0.0 else ViewPnLSum(vs[..|vs| - 1]) + vs[|vs| - 1].unrealizedPnL
  }

  /** The row sums split off the first row as well as the last. */
  lemma {:induction false} SumsCons(r: PositionRow, rows: seq<PositionRow>)
    ensures SumValue([r] + rows) == PositionValue(r) + SumValue(rows)
    ensures SumPnL([r] + rows) == UnrealizedPnL(r) + SumPnL(rows)
  {
    if rows != [] {
      var init := rows[..|rows| - 1];
      assert ([r] + rows)[..|rows|] == [r] + init;
      SumsCons(r, init);
    }
  }

  /** Whatever order the entries come in, their columns add up to the rows'
      value and unrealised profit. */
  lemma {:induction false} ViewsSum(rows: seq<PositionRow>)
    requires ViewsNewestFirst(rows).Some?
    ensures ViewValueSum(ViewsNewestFirst(rows).value) == SumValue(rows)
    ensures ViewPnLSum(ViewsNewestFirst(rows).value) == SumPnL(rows)
  {
    if rows != [] {
      ViewsSum(rows[1..]);
      var vs := ViewsNewestFirst(rows[1..]).value;
      var v := ViewOf(rows[0]).value;
      var all := vs + [v];
      assert ViewsNewestFirst(rows).value == all;
      assert all[..|vs|] == vs;
      assert rows == [rows[0]] + rows[1..];
      SumsCons(rows[0], rows[1..]);
    }
  }

  /** GET /portfolio/positions and GET /portfolio agree: on a consistent
      ledger the entries' position values add up to the summary's
      totalPositionValue and their unrealised profits to its
      totalUnrealizedPnL. */
  lemma PositionsAgreeWithSummary(b: Book, u: UserId)
    requires Consistent(b) && u in b.portfolios
    ensures PositionsOf(b, u).Some?
    ensures ViewValueSum(PositionsOf(b, u).value) == SummaryOf(b, u).totalPositionValue
    ensures ViewPnLSum(PositionsOf(b, u).value) == SummaryOf(b, u).totalUnrealizedPnL
  {
    PositionsConsistent(b, u);
    ViewsSum(UserRows(b.positions, u));
  }

  // -------------------------------------------------------------- performance

  /** The trade-statistics part of GET /portfolio/performance. */
  datatype Stats = Stats(
    totalTrades: nat,
    buyTrades: nat,
    sellTrades: nat,
    totalBought: real,
    totalSold: real,
    avgTradeSize: real)

  function CountSide(ts: seq<TradeRow>, side: Side): nat {
    if ts == [] then 0
    else CountSide(ts[..|ts| - 1], side) + (if ts[|ts| - 1].side == side then 1 else 0)
  }

  function SumSide(ts: seq<TradeRow>, side: Side): real {
    if ts == [] then 0.0
    else SumSide(ts[..|ts| - 1], side) + (if ts[|ts| - 1].side == side then ts[|ts| - 1].total else 0.0)
  }

  function SumTotals(ts: seq<TradeRow>): real {
    if ts == [] then 0.0 else SumTotals(ts[..|ts| - 1]) + ts[|ts| - 1].total
  }

  /** The aggregates over the user's trades; SUM and AVG over no rows are
      NULL, which the handler turns into 0. */
  function StatsOf(b: Book, u: UserId): Stats {
    var ts := UserTrades(b.trades, u);
    Stats(|ts|, CountSide(ts, Buy), CountSide(ts, Sell), SumSide(ts, Buy), SumSide(ts, Sell),
          if ts == [] then 0.0 else SumTotals(ts) / (|ts| as real))
  }

  /** Every trade is a BUY or a SELL, so the two counts partition the total
      and the two sums make up the traded volume. */
  lemma {:induction false} SidesPartition(ts: seq<TradeRow>)
    ensures CountSide(ts, Buy) + CountSide(ts, Sell) == |ts|
    ensures SumSide(ts, Buy) + SumSide(ts, Sell) == SumTotals(ts)
  {
    if ts != [] {
      SidesPartition(ts[..|ts| - 1]);
    }
  }

  /** The per-user sums of the statistics are the ledger's own folds. */
  lemma {:induction false} UserSums(ts: seq<TradeRow>, u: UserId)
    ensures SumSide(UserTrades(ts, u), Buy) == Bought(ts, u)
    ensures SumSide(UserTrades(ts, u), Sell) == Sold(ts, u)
  {
    if ts != [] {
      var init := ts[..|ts| - 1];
      var t := ts[|ts| - 1];
      UserSums(init, u);
      var d := UserTrades(init, u);
      if t.userId == u {
        assert (d + [t])[..|d|] == d;
      } else {
        assert d + [] == d;
      }
    }
  }

  /** The statistics count and sum the user's trades by side: the counts
      partition them and the sums are the ledger's own purchase and sale
      folds, which together make up the traded volume. */
  lemma StatsMeaning(b: Book, u: UserId)
    ensures var s := StatsOf(b, u);
      && s.buyTrades + s.sellTrades == s.totalTrades == |UserTrades(b.trades, u)|
      && s.totalBought == Bought(b.trades, u) && s.totalSold == Sold(b.trades, u)
      && s.totalBought + s.totalSold == SumTotals(UserTrades(b.trades, u))
  {
    SidesPartition(UserTrades(b.trades, u));
    UserSums(b.trades, u);
  }

  /** The average trade size is the volume spread over the trade count, and
      0 for an empty history. */
  lemma StatsAverage(b: Book, u: UserId)
    ensures var s := StatsOf(b, u);
      && (s.totalTrades == 0 ==> s.avgTradeSize == 0.0)
      && (s.totalTrades > 0 ==> s.avgTradeSize * (s.totalTrades as real) == SumTotals(UserTrades(b.trades, u)))
  {
    var ts := UserTrades(b.trades, u);
    if ts != [] {
      MeanTimesCount(SumTotals(ts), |ts|);
    }
  }

  lemma MeanTimesCount(sum: real, n: nat)
    requires n > 0
    ensures (sum / (n as real)) * (n as real) == sum
  {
  }

  /** On a consistent ledger the balance is the start less the bought plus
      the sold, as the statistics report them. */
  lemma StatsBalance(b: Book, u: UserId)
    requires Consistent(b) && u in b.portfolios
    ensures b.portfolios[u] == StartingBalance - StatsOf(b, u).totalBought + StatsOf(b, u).totalSold
  {
    UserSums(b.trades, u);
  }
}
