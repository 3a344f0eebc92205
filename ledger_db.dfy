/** The database path of the trade, reset and summary handlers as the
    statement-by-statement read-modify-write it is. Any statement may throw;
    `failAt` names the statement that does (numbered from 0 in the order the
    handler issues them), and inside a transaction a throw rolls everything
    back. */
module LedgerDb {
  import opened Common
  import opened Orders
  import opened Ledger
  import opened LedgerProofs
  import opened Valuation

  /** How a trade request ends: committed with the inserted row, refused by a
      business rule (HTTP 400), or failed on a thrown error (HTTP 500). */
  datatype TxResult = Done(trade: TradeRow) | Refused(reason: Rejection) | Failed

  /** The result agrees with the outcome of the pure transaction step. */
  predicate Reports(o: Outcome, r: TxResult) {
    match o
    case Committed(_, t) => r == Done(t)
    case Rejected(why) => r == Refused(why)
  }

  /** A state the trade handler can leave behind is consistent. */
  lemma StaysConsistent(b0: Book, b1: Book, u: UserId, o: Order, lazyPortfolio: bool)
    requires Consistent(b0) && ValidOrder(o)
    requires b1 == b0 || b1 == b0.(nextId := b0.nextId + 1) || b1 == After(b0, Execute(b0, u, o, lazyPortfolio))
    ensures Consistent(b1)
  {
    ExecutePreserves(b0, u, o, lazyPortfolio);
  }

  /** A statement with index in [lo, hi) throws. */
  predicate ThrowsIn(failAt: Option<nat>, lo: nat, hi: nat) {
    failAt.Some? && lo <= failAt.value < hi
  }

  /** The get-or-create of the portfolio row issues a SELECT and, for a new
      user, an INSERT and a second SELECT. */
  function CreateCount(p: map<UserId, real>, u: UserId): nat {
    if u in p then 1 else 3
  }

  /** After the BUY balance check: the debit, the position SELECT and its
      UPDATE or INSERT; nothing when the balance is short. */
  function BuyCount(balance: real, total: real): nat {
    if balance < total then 0 else 3
  }

  /** The SELL position SELECT and, unless the holding is missing or short,
      the credit and the DELETE or UPDATE of the position. */
  function SellCount(rows: seq<PositionRow>, u: UserId, o: Order): nat {
    match FindRow(rows, u, o.symbol)
    case None => 1
    case Some(i) => if rows[i].quantity < o.quantity then 1 else 3
  }

  /** The statements before the trade INSERT: BEGIN, the get-or-create
      where the endpoint runs it, and the side's statements. */
  function BeforeInsert(b: Book, u: UserId, o: Order, lazyPortfolio: bool): nat
    requires ValidOrder(o)
  {
    var create := if o.side == Buy || lazyPortfolio then CreateCount(b.portfolios, u) else 0;
    var side := if o.side == Buy then BuyCount(EnsurePortfolio(b.portfolios, u)[u], Total(o))
                else SellCount(b.positions, u, o);
    1 + create + side
  }

  /** How many statements the trade handler issues on `b` when none throws:
      those before the trade INSERT, then the INSERT and COMMIT exactly when
      the transaction commits. The ROLLBACK of a refusal is not counted. */
  function Issued(b: Book, u: UserId, o: Order, lazyPortfolio: bool): nat
    requires ValidOrder(o) && QuantitiesPositive(b.positions)
  {
    BeforeInsert(b, u, o, lazyPortfolio) + if Execute(b, u, o, lazyPortfolio).Committed? then 2 else 0
  }

  /** The trade INSERT or the COMMIT after it throws. The id sequence hands
      the INSERT its value as the statement is issued, and a ROLLBACK does
      not give it back, so the failed request still moves `nextId` on. */
  predicate IdConsumed(b: Book, u: UserId, o: Order, lazyPortfolio: bool, failAt: Option<nat>)
    requires ValidOrder(o) && QuantitiesPositive(b.positions)
  {
    Execute(b, u, o, lazyPortfolio).Committed? && ThrowsIn(failAt, BeforeInsert(b, u, o, lazyPortfolio), Issued(b, u, o, lazyPortfolio))
  }

  /** The summary route issues the get-or-create and then the positions SELECT. */
  function SummaryCount(p: map<UserId, real>, u: UserId): nat {
    CreateCount(p, u) + 1
  }

  class LedgerStore {
    var portfolios: map<UserId, real>
    var positions: seq<PositionRow>
    var trades: seq<TradeRow>
    var nextId: nat

    function State(): Book
      reads this
    {
      Book(portfolios, positions, trades, nextId)
    }

    ghost predicate Valid()
      reads this
    {
      Consistent(State())
    }

    /** A fresh schema: three empty tables, the id sequence at 1. */
    constructor()
      ensures State() == EmptyBook && Valid()
    {
      portfolios, positions, trades, nextId := map[], [], [], 1;
      EmptyBookConsistent();
    }

    /** ROLLBACK: back to the tables as they were at BEGIN. */
    method Rollback(p: map<UserId, real>, rows: seq<PositionRow>, ts: seq<TradeRow>, id: nat)
      modifies this
      ensures State() == Book(p, rows, ts, id)
    {
      portfolios, positions, trades, nextId := p, rows, ts, id;
    }

    /** The get-or-create of the portfolio row: a SELECT and, for a new user,
        an INSERT with the starting balance and a second SELECT. */
    method GetOrCreate(u: UserId, failAt: Option<nat>, step: nat) returns (ok: bool, next: nat)
      modifies this
      ensures ok ==> portfolios == EnsurePortfolio(old(portfolios), u) && next == step + CreateCount(old(portfolios), u)
      ensures positions == old(positions) && trades == old(trades) && nextId == old(nextId)
      ensures ok <==> !ThrowsIn(failAt, step, step + CreateCount(old(portfolios), u))
    {
      next := step;
      ok := false;
      if failAt == Some(next) { return; }
      next := next + 1;
      if u !in portfolios {
        if failAt == Some(next) { return; }
        portfolios := portfolios[u := StartingBalance];
        next := next + 1;
        if failAt == Some(next) { return; }
        next := next + 1;
      }
      ok := true;
    }

    /** The BUY statements after the get-or-create: the balance check, the
        debit, and the update or insert of the position. */
    method BuySteps(u: UserId, o: Order, total: real, failAt: Option<nat>, step: nat)
      returns (ok: bool, refused: Option<Rejection>, next: nat)
      requires u in portfolios && QuantitiesPositive(positions) && ValidOrder(o) && total == Total(o)
      modifies this
      ensures trades == old(trades) && nextId == old(nextId)
      ensures ok && refused.Some? ==>
        old(portfolios)[u] < total && refused.value == InsufficientBalance(total, old(portfolios)[u])
      ensures ok && refused.None? ==>
        && old(portfolios)[u] >= total
        && portfolios == old(portfolios)[u := old(portfolios)[u] - total]
        && positions == BuyRows(old(positions), u, o.symbol, o.quantity, o.price, total)
      ensures ok ==> next == step + BuyCount(old(portfolios)[u], total)
      ensures ok <==> !ThrowsIn(failAt, step, step + BuyCount(old(portfolios)[u], total))
    {
      next := step;
      ok, refused := false, None;
      var balance := portfolios[u];
      if balance < total {
        ok, refused := true, Some(InsufficientBalance(total, balance));
        return;
      }
      // UPDATE the balance
      if failAt == Some(next) { return; }
      portfolios := portfolios[u := portfolios[u] - total];
      next := next + 1;
      // SELECT the position
      if failAt == Some(next) { return; }
      var found := FindRow(positions, u, o.symbol);
      next := next + 1;
      // UPDATE it with the weighted average, or INSERT it
      if failAt == Some(next) { return; }
      match found {
        case Some(i) =>
          positions := positions[i := Averaged(positions[i], o.quantity, o.price, total)];
        case None =>
          positions := positions + [PositionRow(u, o.symbol, o.quantity, o.price, o.price)];
      }
      next := next + 1;
      ok := true;
    }

    /** The SELL statements: the holdings check, the credit, and the delete
        or update of the position. */
    method SellSteps(u: UserId, o: Order, total: real, failAt: Option<nat>, step: nat)
      returns (ok: bool, refused: Option<Rejection>, next: nat)
      modifies this
      ensures trades == old(trades) && nextId == old(nextId)
      ensures ok && refused.Some? ==>
        match FindRow(old(positions), u, o.symbol)
        case None => refused.value == InsufficientHoldings(o.quantity, 0.0)
        case Some(i) =>
          old(positions)[i].quantity < o.quantity &&
          refused.value == InsufficientHoldings(o.quantity, old(positions)[i].quantity)
      ensures ok && refused.None? ==>
        && FindRow(old(positions), u, o.symbol).Some?
        && var i := FindRow(old(positions), u, o.symbol).value;
           && old(positions)[i].quantity >= o.quantity
           && portfolios == Credit(old(portfolios), u, total)
           && positions == SellRows(old(positions), i, o.quantity, o.price)
      ensures ok ==> next == step + SellCount(old(positions), u, o)
      ensures ok <==> !ThrowsIn(failAt, step, step + SellCount(old(positions), u, o))
    {
      next := step;
      ok, refused := false, None;
      // SELECT the position
      if failAt == Some(next) { return; }
      var found := FindRow(positions, u, o.symbol);
      next := next + 1;
      if found.None? {
        ok, refused := true, Some(InsufficientHoldings(o.quantity, 0.0));
        return;
      }
      var i := found.value;
      if positions[i].quantity < o.quantity {
        ok, refused := true, Some(InsufficientHoldings(o.quantity, positions[i].quantity));
        return;
      }
      // UPDATE the balance
      if failAt == Some(next) { return; }
      portfolios := Credit(portfolios, u, total);
      next := next + 1;
      // DELETE the position, or UPDATE its quantity and mark
      if failAt == Some(next) { return; }
      var remaining := positions[i].quantity - o.quantity;
      if remaining <= 0.0 {
        positions := positions[..i] + positions[i + 1..];
      } else {
        positions := positions[i := positions[i].(quantity := remaining, currentPrice := o.price)];
      }
      next := next + 1;
      ok := true;
    }

    /** BEGIN and every statement before the trade INSERT. Unless one of
        them throws, the tables hold the transaction's writes so far and
        `refused` is the business refusal, if any. */
    method Prepare(u: UserId, o: Order, lazyPortfolio: bool, failAt: Option<nat>)
      returns (ok: bool, refused: Option<Rejection>, step: nat)
      requires Valid() && ValidOrder(o)
      modifies this
      ensures trades == old(trades) && nextId == old(nextId)
      ensures ok <==> !ThrowsIn(failAt, 0, BeforeInsert(old(State()), u, o, lazyPortfolio))
      ensures ok ==> step == BeforeInsert(old(State()), u, o, lazyPortfolio)
      ensures ok ==>
        match Execute(old(State()), u, o, lazyPortfolio)
        case Rejected(why) => refused == Some(why)
        case Committed(b1, t) =>
          && refused.None? && portfolios == b1.portfolios && positions == b1.positions
          && b1.trades == trades + [t] && b1.nextId == nextId + 1
          && t == TradeRow(nextId, u, o.symbol, o.side, o.quantity, o.price, Total(o))
    {
      var total := Total(o);
      // BEGIN
      ok, step, refused := failAt != Some(0), 1, None;
      if ok && (o.side == Buy || lazyPortfolio) {
        ok, step := GetOrCreate(u, failAt, step);
      }
      if ok {
        if o.side == Buy {
          ok, refused, step := BuySteps(u, o, total, failAt, step);
        } else {
          ok, refused, step := SellSteps(u, o, total, failAt, step);
        }
      }
    }

    /** One trade transaction of POST /trade, /buy or /sell on the database
        path. `lazyPortfolio` is false on /sell, which does not run the
        portfolio get-or-create. */
    method ExecuteTrade(u: UserId, o: Order, lazyPortfolio: bool, failAt: Option<nat>) returns (r: TxResult)
      requires Valid() && ValidOrder(o)
      modifies this
      ensures Valid()
      ensures r.Failed? <==> ThrowsIn(failAt, 0, Issued(old(State()), u, o, lazyPortfolio))
      ensures r.Failed? ==>
        var b0 := old(State());
        State() == b0.(nextId := b0.nextId + if IdConsumed(b0, u, o, lazyPortfolio, failAt) then 1 else 0)
      ensures !r.Failed? ==>
        var out := Execute(old(State()), u, o, lazyPortfolio);
        Reports(out, r) && State() == After(old(State()), out)
    {
      ghost var b0 := State();
      var p0, rows0, ts0, id0 := portfolios, positions, trades, nextId;
      var ok, refused, step := Prepare(u, o, lazyPortfolio, failAt);
      var t := TradeRow(nextId, u, o.symbol, o.side, o.quantity, o.price, Total(o));
      if ok && refused.None? {
        // INSERT the trade, then COMMIT; the id stays drawn whatever follows
        nextId := nextId + 1;
        ok := failAt != Some(step);
        if ok {
          trades := trades + [t];
          ok := failAt != Some(step + 1);
        }
      }
      if !ok {
        Rollback(p0, rows0, ts0, nextId);
        r := Failed;
      } else if refused.Some? {
        Rollback(p0, rows0, ts0, id0);
        r := Refused(refused.value);
      } else {
        r := Done(t);
      }
      StaysConsistent(b0, State(), u, o, lazyPortfolio);
    }

    /** The statements of POST /portfolio/reset, 0 to 4: BEGIN, the two
        DELETEs, the balance UPDATE and COMMIT. Unless one throws, the
        tables hold the reset's writes. */
    method ResetStatements(u: UserId, failAt: Option<nat>) returns (ok: bool)
      modifies this
      ensures ok ==> State() == ResetBook(old(State()), u)
      ensures ok <==> !ThrowsIn(failAt, 0, 5)
    {
      ok := false;
      // BEGIN
      if failAt == Some(0) { return; }
      // DELETE the positions
      if failAt == Some(1) { return; }
      positions := DropUserRows(positions, u);
      // DELETE the trades
      if failAt == Some(2) { return; }
      trades := DropUserTrades(trades, u);
      // UPDATE the balance
      if failAt == Some(3) { return; }
      if u in portfolios {
        portfolios := portfolios[u := StartingBalance];
      }
      // COMMIT
      ok := failAt != Some(4);
    }

    /** POST /portfolio/reset: its statements in one transaction, rolled
        back when one of them throws. */
    method Reset(u: UserId, failAt: Option<nat>) returns (ok: bool)
      requires Valid()
      modifies this
      ensures Valid()
      ensures ok ==> State() == ResetBook(old(State()), u)
      ensures !ok ==> State() == old(State())
      ensures ok <==> !ThrowsIn(failAt, 0, 5)
    {
      ghost var b0 := State();
      var p0, rows0, ts0, id0 := portfolios, positions, trades, nextId;
      ok := ResetStatements(u, failAt);
      if ok {
        ResetPreserves(b0, u);
      } else {
        Rollback(p0, rows0, ts0, id0);
      }
    }

    /** GET /portfolio on the database path. Its get-or-create runs outside
        any transaction, so a throw after the INSERT keeps the new row. */
    method GetSummary(u: UserId, failAt: Option<nat>) returns (r: Option<Summary>)
      requires Valid()
      modifies this
      ensures Valid()
      ensures r.None? <==> ThrowsIn(failAt, 0, SummaryCount(old(portfolios), u))
      ensures State() == if ThrowsIn(failAt, 0, 2) then old(State()) else LazyCreate(old(State()), u)
      ensures r.Some? ==> r.value == SummaryOf(State(), u)
    {
      ghost var b0 := State();
      LazyCreatePreserves(b0, u);
      r := None;
      // SELECT the portfolio row
      if failAt == Some(0) { return; }
      var step := 1;
      if u !in portfolios {
        // INSERT it, then SELECT it again
        if failAt == Some(1) { return; }
        portfolios := portfolios[u := StartingBalance];
        if failAt == Some(2) { return; }
        step := 3;
      }
      // SELECT the positions
      if failAt == Some(step) { return; }
      var rows := UserRows(positions, u);
      var value, pnl := Totals(rows);
      r := Some(SummaryFrom(portfolios[u], rows, value, pnl));
    }
  }
}
