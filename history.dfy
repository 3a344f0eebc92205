/** GET /trading/history: one page of trades, from the shared mock list or
    from the user's rows newest first. */
module History {
  import opened Common
  import opened Ledger
  import opened Mock

  /** `parseInt(q) || d`: an absent or unparsable parameter, or 0, gives the
      default. */
  function QueryInt(q: Option<int>, d: int): (r: int)
    ensures (q.None? || q.value == 0) ==> r == d
    ensures q.Some? && q.value != 0 ==> r == q.value
  {
    if q.Some? && q.value != 0 then q.value else d
  }

  const DefaultLimit: int := 50
  const DefaultOffset: int := 0

  function Min(a: int, b: int): (r: int)
    ensures r <= a && r <= b && (r == a || r == b)
  {
    if a <= b then a else b
  }

  function Max(a: int, b: int): (r: int)
    ensures r >= a && r >= b && (r == a || r == b)
  {
    if a >= b then a else b
  }

  /** A JavaScript `Array.prototype.slice` index: negative counts from the end. */
  function SliceIndex(n: nat, i: int): (r: nat)
    ensures r <= n
  {
    if i < 0 then Max(n + i, 0) else Min(i, n)
  }

  /** `s.slice(start, end)`. */
  function JsSlice<T>(s: seq<T>, start: int, end: int): seq<T> {
    var lo := SliceIndex(|s|, start);
    var hi := SliceIndex(|s|, end);
    if lo < hi then s[lo..hi] else []
  }

  datatype HistoryPage<T> = HistoryPage(trades: seq<T>, total: int, limit: int, offset: int)

  /** The mock branch: a slice of the one shared list, whoever asks, with the
      full list's length as the total. */
  function MockHistory(ts: seq<MockTrade>, limitQ: Option<int>, offsetQ: Option<int>): HistoryPage<MockTrade> {
    var limit := QueryInt(limitQ, DefaultLimit);
    var offset := QueryInt(offsetQ, DefaultOffset);
    HistoryPage(JsSlice(ts, offset, offset + limit), |ts|, limit, offset)
  }

  function Reversed<T>(s: seq<T>): (r: seq<T>)
    ensures |r| == |s|
  {
    if s == [] then [] else Reversed(s[1..]) + [s[0]]
  }

  /** The database branch: `ORDER BY executed_at DESC LIMIT $2 OFFSET $3` over
      the user's rows; a negative LIMIT or OFFSET is a query error. The total
      reported is the row count of the page. */
  function DbHistory(b: Book, u: UserId, limitQ: Option<int>, offsetQ: Option<int>): Option<HistoryPage<TradeRow>> {
    var limit := QueryInt(limitQ, DefaultLimit);
    var offset := QueryInt(offsetQ, DefaultOffset);
    if limit < 0 || offset < 0 then None
    else
      var ts := Reversed(UserTrades(b.trades, u));
      var page := ts[Min(offset, |ts|)..Min(offset + limit, |ts|)];
      Some(HistoryPage(page, |page|, limit, offset))
  }

  // ------------------------------------------------------------------ lemmas

  lemma {:induction false} ReversedIndex<T>(s: seq<T>)
    ensures forall k :: 0 <= k < |s| ==> Reversed(s)[k] == s[|s| - 1 - k]
  {
    if s != [] {
      ReversedIndex(s[1..]);
      assert forall k :: 0 <= k < |s| - 1 ==> Reversed(s)[k] == Reversed(s[1..])[k];
    }
  }

  /** With a non-negative window the JavaScript slice is the plain
      sub-sequence, clipped to the list. */
  lemma SliceWindow<T>(s: seq<T>, start: int, end: int)
    requires 0 <= start && 0 <= end
    ensures JsSlice(s, start, end) == s[Min(start, |s|)..Max(Min(end, |s|), Min(start, |s|))]
  {
  }

  /** Two consecutive pages of the same size make up the page of twice the
      size. */
  lemma PagesConcatenate<T>(s: seq<T>, offset: int, limit: int)
    requires 0 <= offset && 0 <= limit
    ensures JsSlice(s, offset, offset + limit) + JsSlice(s, offset + limit, offset + 2 * limit)
         == JsSlice(s, offset, offset + 2 * limit)
  {
    var a, b, c := Min(offset, |s|), Min(offset + limit, |s|), Min(offset + 2 * limit, |s|);
    if a < b && b < c {
      assert s[a..b] + s[b..c] == s[a..c];
    }
  }

  /** The mock page: by default the 50 newest trades of the shared list;
      with non-negative parameters the window they name, never longer than
      the limit; the total is always the length of the whole list. */
  lemma MockHistoryMeaning(ts: seq<MockTrade>, limitQ: Option<int>, offsetQ: Option<int>)
    ensures MockHistory(ts, limitQ, offsetQ).total == |ts|
    ensures MockHistory(ts, None, None).trades == ts[..Min(50, |ts|)]
    ensures var p := MockHistory(ts, limitQ, offsetQ);
      p.limit >= 0 && p.offset >= 0 ==>
        |p.trades| <= p.limit &&
        p.trades == ts[Min(p.offset, |ts|)..Max(Min(p.offset + p.limit, |ts|), Min(p.offset, |ts|))]
  {
    var p := MockHistory(ts, limitQ, offsetQ);
    if p.limit >= 0 && p.offset >= 0 {
      SliceWindow(ts, p.offset, p.offset + p.limit);
    }
  }

  /** A negative offset counts from the oldest end of the list: with three
      trades and the default limit, offset -1 returns only the oldest one,
      and with limit 2 the window ends before it starts and is empty. */
  lemma NegativeOffsetFromEnd(a: MockTrade, b: MockTrade, c: MockTrade)
    ensures MockHistory([a, b, c], None, Some(-1)).trades == [c]
    ensures MockHistory([a, b, c], Some(2), Some(-1)).trades == []
  {
    assert [a, b, c][2..3] == [c];
  }

  lemma {:induction false} UserTradesElements(ts: seq<TradeRow>, u: UserId)
    ensures forall i :: 0 <= i < |UserTrades(ts, u)| ==>
      UserTrades(ts, u)[i].userId == u && UserTrades(ts, u)[i] in ts
  {
    if ts != [] {
      UserTradesElements(ts[..|ts| - 1], u);
      var d := UserTrades(ts[..|ts| - 1], u);
      assert forall i :: 0 <= i < |d| ==> UserTrades(ts, u)[i] == d[i];
      assert forall t :: t in ts[..|ts| - 1] ==> t in ts;
    }
  }

  /** The user's rows keep the id order of the whole table. */
  lemma {:induction false} UserTradesIncreasing(ts: seq<TradeRow>, u: UserId)
    requires IdsIncreasing(ts)
    ensures IdsIncreasing(UserTrades(ts, u))
  {
    if ts != [] {
      var init := ts[..|ts| - 1];
      var t := ts[|ts| - 1];
      assert IdsIncreasing(init);
      UserTradesIncreasing(init, u);
      UserTradesElements(init, u);
      var d := UserTrades(init, u);
      forall x | x in d ensures x.id < t.id {
        var k :| 0 <= k < |init| && init[k] == x;
        assert ts[k] == x;
      }
    }
  }

  /** A window of the reversed list holds, at place k, the element that
      many places back from the end of the original, past the window's start. */
  lemma ReversedWindow<T>(s: seq<T>, lo: nat, hi: nat)
    requires lo <= hi <= |s|
    ensures forall k :: 0 <= k < hi - lo ==> Reversed(s)[lo..hi][k] == s[|s| - 1 - (lo + k)]
  {
    ReversedIndex(s);
  }

  /** A window of the reversed log of a log with increasing ids has
      strictly decreasing ids. */
  lemma DecreasingWindow(s: seq<TradeRow>, lo: nat, hi: nat)
    requires lo <= hi <= |s| && IdsIncreasing(s)
    ensures var w := Reversed(s)[lo..hi];
      forall i, j :: 0 <= i < j < |w| ==> w[i].id > w[j].id
  {
    var w := Reversed(s)[lo..hi];
    ReversedWindow(s, lo, hi);
    forall i, j | 0 <= i < j < |w| ensures w[i].id > w[j].id {
      var x, y := |s| - 1 - (lo + j), |s| - 1 - (lo + i);
      assert w[i] == s[y] && w[j] == s[x] && 0 <= x < y < |s|;
    }
  }

  /** The database page: refused exactly when a parameter is negative;
      otherwise at most `limit` of the user's own trades, the ones at
      positions offset, offset+1, ... of the newest-first history, and a
      total equal to the page's own length. */
  lemma DbHistoryMeaning(b: Book, u: UserId, limitQ: Option<int>, offsetQ: Option<int>)
    ensures var limit, offset := QueryInt(limitQ, 50), QueryInt(offsetQ, 0);
      DbHistory(b, u, limitQ, offsetQ).None? <==> limit < 0 || offset < 0
    ensures DbHistory(b, u, limitQ, offsetQ).Some? ==>
      var p := DbHistory(b, u, limitQ, offsetQ).value;
      var mine := UserTrades(b.trades, u);
      && p.total == |p.trades| <= p.limit
      && (forall k :: 0 <= k < |p.trades| ==>
            p.offset + k < |mine| && p.trades[k] == mine[|mine| - 1 - (p.offset + k)] &&
            p.trades[k].userId == u && p.trades[k] in b.trades)
  {
    var limit, offset := QueryInt(limitQ, DefaultLimit), QueryInt(offsetQ, DefaultOffset);
    if limit >= 0 && offset >= 0 {
      var mine := UserTrades(b.trades, u);
      var lo, hi := Min(offset, |mine|), Min(offset + limit, |mine|);
      var page := Reversed(mine)[lo..hi];
      assert DbHistory(b, u, limitQ, offsetQ).value.trades == page;
      ReversedWindow(mine, lo, hi);
      UserTradesElements(b.trades, u);
      forall k | 0 <= k < |page|
        ensures offset + k < |mine| && page[k] == mine[|mine| - 1 - (offset + k)]
        ensures page[k].userId == u && page[k] in b.trades
      {
        var m := |mine| - 1 - (offset + k);
        assert lo == offset && page[k] == mine[m];
        assert 0 <= m < |mine|;
      }
    }
  }

  /** On a trade log with increasing ids, which every consistent ledger
      has, every database page is newest first: its ids strictly decrease. */
  lemma DbHistoryNewestFirst(b: Book, u: UserId, limitQ: Option<int>, offsetQ: Option<int>)
    requires IdsIncreasing(b.trades)
    ensures DbHistory(b, u, limitQ, offsetQ).Some? ==>
      var p := DbHistory(b, u, limitQ, offsetQ).value;
      forall i, j :: 0 <= i < j < |p.trades| ==> p.trades[i].id > p.trades[j].id
  {
    var limit, offset := QueryInt(limitQ, DefaultLimit), QueryInt(offsetQ, DefaultOffset);
    if limit >= 0 && offset >= 0 {
      var mine := UserTrades(b.trades, u);
      var lo, hi := Min(offset, |mine|), Min(offset + limit, |mine|);
      assert DbHistory(b, u, limitQ, offsetQ).value.trades == Reversed(mine)[lo..hi];
      UserTradesIncreasing(b.trades, u);
      DecreasingWindow(mine, lo, hi);
    }
  }

  /** Consecutive database pages of one size make up the page of twice the
      size. */
  lemma DbPagesConcatenate(b: Book, u: UserId, offset: int, limit: int)
    requires offset >= 0 && limit > 0
    ensures var p1 := DbHistory(b, u, Some(limit), Some(offset));
            var p2 := DbHistory(b, u, Some(limit), Some(offset + limit));
            var p := DbHistory(b, u, Some(2 * limit), Some(offset));
            p1.Some? && p2.Some? && p.Some? && p1.value.trades + p2.value.trades == p.value.trades
  {
    var ts := Reversed(UserTrades(b.trades, u));
    var a, m, c := Min(offset, |ts|), Min(offset + limit, |ts|), Min(offset + 2 * limit, |ts|);
    assert ts[a..m] + ts[m..c] == ts[a..c];
  }
}
