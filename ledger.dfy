/** The durable ledger of the trading routes: the portfolios, positions and
    trades tables, and the meaning of one committed trade transaction and of
    one portfolio reset as functions from the old tables to the new ones. */
module Ledger {
  import opened Common
  import opened Orders

  type UserId = string

  /** A row of the positions table; at most one per (user, symbol). */
  datatype PositionRow = PositionRow(userId: UserId, symbol: string, quantity: real, avgPrice: real, currentPrice: real)

  /** A row of the append-only trades table. */
  datatype TradeRow = TradeRow(id: nat, userId: UserId, symbol: string, side: Side, quantity: real, price: real, total: real)

  /** The three tables. `positions` is kept in creation order and `trades` in
      commit order; `nextId` is the next value of the trades id sequence, which a ROLLBACK
      does not wind back. */
  datatype Book = Book(portfolios: map<UserId, real>, positions: seq<PositionRow>, trades: seq<TradeRow>, nextId: nat)

  const EmptyBook: Book := Book(map[], [], [], 1)

  /** Why a transaction was rolled back by a business rule. */
  datatype Rejection =
    | InsufficientBalance(required: real, available: real)
    | InsufficientHoldings(requested: real, available: real)

  /** A committed transaction yields the new tables and the inserted trade; a
      rejected one yields no tables at all, because it is rolled back. */
  datatype Outcome = Committed(book: Book, trade: TradeRow) | Rejected(reason: Rejection)

  /** The tables an outcome leaves behind. */
  function After(b: Book, o: Outcome): Book {
    if o.Committed? then o.book else b
  }

  // ---------------------------------------------------------------- positions

  predicate IsRowOf(r: PositionRow, u: UserId, s: string) {
    r.userId == u && r.symbol == s
  }

  /** `SELECT * FROM positions WHERE user_id = u AND symbol = s`: the first match. */
  function FindRow(rows: seq<PositionRow>, u: UserId, s: string): (r: Option<nat>)
    ensures r.Some? ==> r.value < |rows| && IsRowOf(rows[r.value], u, s)
    ensures r.Some? ==> forall j :: 0 <= j < r.value ==> !IsRowOf(rows[j], u, s)
    ensures r.None? ==> forall j :: 0 <= j < |rows| ==> !IsRowOf(rows[j], u, s)
  {
    if rows == [] then None
    else if IsRowOf(rows[0], u, s) then Some(0)
    else
      match FindRow(rows[1..], u, s)
      case Some(k) => Some(k + 1)
      case None => None
  }

  /** The (first) row of a user in a symbol, as a value. */
  function RowOf(rows: seq<PositionRow>, u: UserId, s: string): Option<PositionRow> {
    if rows == [] then None
    else if IsRowOf(rows[0], u, s) then Some(rows[0])
    else RowOf(rows[1..], u, s)
  }

  /** The quantity a user holds in a symbol: the row's, or 0 without a row. */
  function QtyOf(rows: seq<PositionRow>, u: UserId, s: string): real {
    match RowOf(rows, u, s)
    case Some(r) => r.quantity
    case None => 0.0
  }

  /** The unique constraint on (user_id, symbol). */
  ghost predicate Unique(rows: seq<PositionRow>) {
    forall i, j :: 0 <= i < j < |rows| ==> !IsRowOf(rows[j], rows[i].userId, rows[i].symbol)
  }

  /** Every stored position holds something, at a positive average and mark. */
  ghost predicate RowsPositive(rows: seq<PositionRow>) {
    forall i :: 0 <= i < |rows| ==> rows[i].quantity > 0.0 && rows[i].avgPrice > 0.0 && rows[i].currentPrice > 0.0
  }

  /** The quantities only, which is what the BUY average formula needs. */
  predicate QuantitiesPositive(rows: seq<PositionRow>) {
    forall i :: 0 <= i < |rows| ==> rows[i].quantity > 0.0
  }

  /** `DELETE FROM positions WHERE user_id = u`. */
  function DropUserRows(rows: seq<PositionRow>, u: UserId): (r: seq<PositionRow>)
    ensures |r| <= |rows|
  {
    if rows == [] then []
    else (if rows[0].userId == u then [] else [rows[0]]) + DropUserRows(rows[1..], u)
  }

  /** `SELECT * FROM positions WHERE user_id = u`, in creation order. */
  function UserRows(rows: seq<PositionRow>, u: UserId): (r: seq<PositionRow>)
    ensures |r| <= |rows|
  {
    if rows == [] then []
    else (if rows[0].userId == u then [rows[0]] else []) + UserRows(rows[1..], u)
  }

  // ------------------------------------------------------------------- trades

  /** `SELECT * FROM trades WHERE user_id = u`, in commit order. */
  function UserTrades(ts: seq<TradeRow>, u: UserId): (r: seq<TradeRow>)
    ensures |r| <= |ts|
  {
    if ts == [] then []
    else UserTrades(ts[..|ts| - 1], u) + (if ts[|ts| - 1].userId == u then [ts[|ts| - 1]] else [])
  }

  /** `DELETE FROM trades WHERE user_id = u`, keeping the commit order. */
  function DropUserTrades(ts: seq<TradeRow>, u: UserId): (r: seq<TradeRow>)
    ensures |r| <= |ts|
  {
    if ts == [] then []
    else DropUserTrades(ts[..|ts| - 1], u) + (if ts[|ts| - 1].userId == u then [] else [ts[|ts| - 1]])
  }

  /** Sum of the totals of a user's BUY trades. */
  function Bought(ts: seq<TradeRow>, u: UserId): real {
    if ts == [] then 0.0
    else
      var t := ts[|ts| - 1];
      Bought(ts[..|ts| - 1], u) + (if t.userId == u && t.side == Buy then t.total else 0.0)
  }

  /** Sum of the totals of a user's SELL trades. */
  function Sold(ts: seq<TradeRow>, u: UserId): real {
    if ts == [] then 0.0
    else
      var t := ts[|ts| - 1];
      Sold(ts[..|ts| - 1], u) + (if t.userId == u && t.side == Sell then t.total else 0.0)
  }

  /** Net executed quantity of a user in a symbol: BUY quantities minus SELL quantities. */
  function Net(ts: seq<TradeRow>, u: UserId, s: string): real {
    if ts == [] then 0.0
    else
      var t := ts[|ts| - 1];
      Net(ts[..|ts| - 1], u, s) +
        (if t.userId == u && t.symbol == s then (if t.side == Buy then t.quantity else -t.quantity) else 0.0)
  }

  ghost predicate IdsIncreasing(ts: seq<TradeRow>) {
    forall i, j :: 0 <= i < j < |ts| ==> ts[i].id < ts[j].id
  }

  /** The trade rows the routes insert: validated amounts and `total = quantity * price`. */
  ghost predicate TradesWellFormed(ts: seq<TradeRow>) {
    forall k :: 0 <= k < |ts| ==>
      ts[k].quantity >= MinQuantity && ts[k].price >= MinPrice && ts[k].total == ts[k].quantity * ts[k].price
  }

  // ------------------------------------------------------- the trade transaction

  /** Get-or-create of the portfolio row, with the starting balance. */
  function EnsurePortfolio(p: map<UserId, real>, u: UserId): (r: map<UserId, real>)
    ensures u in r && r.Keys == p.Keys + {u}
    ensures u in p ==> r == p
    ensures u !in p ==> r[u] == StartingBalance
    ensures forall v :: v in p ==> r[v] == p[v]
  {
    if u in p then p else p[u := StartingBalance]
  }

  /** `UPDATE portfolios SET balance = balance + amount WHERE user_id = u`:
      no row, no effect. */
  function Credit(p: map<UserId, real>, u: UserId, amount: real): map<UserId, real> {
    if u in p then p[u := p[u] + amount] else p
  }

  /** The BUY position step: update the existing row with the weighted average,
      or insert a new row at the trade price. */
  function BuyRows(rows: seq<PositionRow>, u: UserId, s: string, q: real, price: real, total: real): seq<PositionRow>
    requires QuantitiesPositive(rows) && q > 0.0
  {
    match FindRow(rows, u, s)
    case Some(i) => rows[i := Averaged(rows[i], q, price, total)]
    case None => rows + [PositionRow(u, s, q, price, price)]
  }

  /** What an existing row becomes on a BUY of `q` at `price` costing `total`:
      quantities add up, the average is weighted by quantity and the mark
      moves to the trade price. */
  function Averaged(cur: PositionRow, q: real, price: real, total: real): PositionRow
    requires cur.quantity + q > 0.0
  {
    var nq := cur.quantity + q;
    cur.(quantity := nq, avgPrice := (cur.quantity * cur.avgPrice + total) / nq, currentPrice := price)
  }

  /** The SELL position step on row `i`: delete it when nothing remains,
      otherwise update quantity and mark only. */
  function SellRows(rows: seq<PositionRow>, i: nat, q: real, price: real): seq<PositionRow>
    requires i < |rows|
  {
    var nq := rows[i].quantity - q;
    if nq <= 0.0 then rows[..i] + rows[i + 1..]
    else rows[i := rows[i].(quantity := nq, currentPrice := price)]
  }

  /** The trade insert (with the next id) that precedes COMMIT. */
  function Commit(b: Book, u: UserId, o: Order, total: real): Outcome {
    var t := TradeRow(b.nextId, u, o.symbol, o.side, o.quantity, o.price, total);
    Committed(b.(trades := b.trades + [t], nextId := b.nextId + 1), t)
  }

  /** One trade transaction, from BEGIN to COMMIT or ROLLBACK.
      `lazyPortfolio` is false only on the database path of /sell, which never
      creates a missing portfolio row. */
  function Execute(b: Book, u: UserId, o: Order, lazyPortfolio: bool): Outcome
    requires ValidOrder(o) && QuantitiesPositive(b.positions)
  {
    var total := Total(o);
    match o.side
    case Buy =>
      var p := EnsurePortfolio(b.portfolios, u);
      if p[u] < total then Rejected(InsufficientBalance(total, p[u]))
      else
        Commit(b.(portfolios := p[u := p[u] - total],
                  positions := BuyRows(b.positions, u, o.symbol, o.quantity, o.price, total)), u, o, total)
    case Sell =>
      var p := if lazyPortfolio then EnsurePortfolio(b.portfolios, u) else b.portfolios;
      match FindRow(b.positions, u, o.symbol)
      case None => Rejected(InsufficientHoldings(o.quantity, 0.0))
      case Some(i) =>
        if b.positions[i].quantity < o.quantity then Rejected(InsufficientHoldings(o.quantity, b.positions[i].quantity))
        else
          Commit(b.(portfolios := Credit(p, u, total),
                    positions := SellRows(b.positions, i, o.quantity, o.price)), u, o, total)
  }

  // ------------------------------------------------------------------- reset

  /** POST /portfolio/reset: delete the user's positions and trades and set the
      balance back to the start, without creating a missing portfolio. */
  function ResetBook(b: Book, u: UserId): Book {
    b.(portfolios := if u in b.portfolios then b.portfolios[u := StartingBalance] else b.portfolios,
       positions := DropUserRows(b.positions, u),
       trades := DropUserTrades(b.trades, u))
  }

  /** The get-or-create the summary route performs outside any transaction. */
  function LazyCreate(b: Book, u: UserId): (r: Book)
    ensures u in r.portfolios && r.portfolios.Keys == b.portfolios.Keys + {u}
    ensures forall v :: v in b.portfolios ==> r.portfolios[v] == b.portfolios[v]
    ensures u !in b.portfolios ==> r.portfolios[u] == StartingBalance
    ensures r.positions == b.positions && r.trades == b.trades && r.nextId == b.nextId
  {
    b.(portfolios := EnsurePortfolio(b.portfolios, u))
  }

  // ------------------------------------------------------------- invariant

  /** What every committed state of the ledger satisfies: non-negative cash,
      no empty positions, the unique key, no orphan rows, increasing trade ids,
      cash equal to the start minus purchases plus sales, and every position
      equal to the net of its executions. */
  ghost predicate Consistent(b: Book) {
    && (forall u :: u in b.portfolios ==> b.portfolios[u] >= 0.0)
    && RowsPositive(b.positions)
    && Unique(b.positions)
    && (forall i :: 0 <= i < |b.positions| ==> b.positions[i].userId in b.portfolios)
    && (forall k :: 0 <= k < |b.trades| ==> b.trades[k].userId in b.portfolios && b.trades[k].id < b.nextId)
    && IdsIncreasing(b.trades)
    && TradesWellFormed(b.trades)
    && (forall u :: u in b.portfolios ==> b.portfolios[u] == StartingBalance - Bought(b.trades, u) + Sold(b.trades, u))
    && (forall u, s :: QtyOf(b.positions, u, s) == Net(b.trades, u, s))
  }
}
