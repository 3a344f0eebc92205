/** The client-side trade object: an executed trade with its commission,
    computed once when the object is built. */
module TradeModel {
  import opened Common

  const CommissionAsset: string := "USDT"
  const CommissionRate: real := 0.0005

  datatype TradeInput = TradeInput(
    id: Option<string>,
    orderId: Option<string>,
    symbol: Option<string>,
    side: Option<string>,
    quantity: Parsed,
    price: Parsed,
    timestamp: Option<int>)

  datatype ClientTrade = ClientTrade(
    id: Option<string>,
    orderId: Option<string>,
    symbol: string,
    side: string,
    quantity: real,
    price: real,
    timestamp: int,
    commission: real,
    commissionAsset: string)

  function IdOr(id: Option<string>): Option<string> {
    if id.Some? && id.value != "" then id else None
  }

  function TotalValue(t: ClientTrade): real { t.quantity * t.price }

  /** The constructor; `now` is the clock reading used when no timestamp is given. */
  function NewTrade(data: TradeInput, now: int): (t: ClientTrade)
    ensures t.commission == CommissionRate * TotalValue(t) && t.commissionAsset == "USDT"
  {
    var q, p := OrZero(data.quantity), OrZero(data.price);
    var ts := if data.timestamp.Some? && data.timestamp.value != 0 then data.timestamp.value else now;
    ClientTrade(IdOr(data.id), IdOr(data.orderId), StrOr(data.symbol, Btc), StrOr(data.side, "BUY"),
                q, p, ts, CommissionRate * (q * p), CommissionAsset)
  }

  // ----------------------------------------------------- text helpers (ASCII)

  predicate OccursAt(s: string, pat: string, j: nat) {
    j + |pat| <= |s| && s[j..j + |pat|] == pat
  }

  /** The first position at or after `from` where `pat` occurs in `s`. */
  function IndexOf(s: string, pat: string, from: nat): (r: Option<nat>)
    requires from <= |s|
    ensures r.Some? ==> from <= r.value && OccursAt(s, pat, r.value)
    ensures r.Some? ==> forall j: nat :: from <= j < r.value ==> !OccursAt(s, pat, j)
    ensures r.None? ==> forall j: nat :: from <= j ==> !OccursAt(s, pat, j)
    decreases |s| - from
  {
    if |s| - from < |pat| then None
    else if s[from..from + |pat|] == pat then Some(from)
    else IndexOf(s, pat, from + 1)
  }

  /** `s.replace(pat, rep)` with a string pattern: the first occurrence only. */
  function ReplaceFirst(s: string, pat: string, rep: string): string {
    match IndexOf(s, pat, 0)
    case None => s
    case Some(i) => s[..i] + rep + s[i + |pat|..]
  }

  function UpperChar(c: char): char {
    if 'a' <= c <= 'z' then (c as int - 32) as char else c
  }

  /** `toUpperCase` on ASCII text. */
  function Upper(s: string): (r: string)
    ensures |r| == |s| && forall i :: 0 <= i < |s| ==> r[i] == UpperChar(s[i])
  {
    if s == [] then [] else [UpperChar(s[0])] + Upper(s[1..])
  }

  /** Whether the commission is charged in the currency the total is
      measured in, by the test the code applies. */
  predicate ChargedInQuote(t: ClientTrade) {
    Upper(t.commissionAsset) == Upper(ReplaceFirst(t.symbol, "USDT", "")) || t.commissionAsset == "USD"
  }

  function NetValue(t: ClientTrade): real {
    if ChargedInQuote(t) then
      if t.side == "BUY" then TotalValue(t) + t.commission else TotalValue(t) - t.commission
    else TotalValue(t)
  }

  predicate IsBuy(t: ClientTrade) { t.side == "BUY" }
  predicate IsSell(t: ClientTrade) { t.side == "SELL" }

  predicate IsValid(t: ClientTrade) {
    && t.id.Some? && t.orderId.Some? && t.symbol != ""
    && (t.side == "BUY" || t.side == "SELL")
    && t.quantity > 0.0 && t.price > 0.0 && t.timestamp > 0
  }

  // ------------------------------------------------------------------ lemmas

  /** The defaults: a BUY of BTCUSDT with nothing traded and no commission. */
  lemma DefaultTrade(now: int)
    ensures var t := NewTrade(TradeInput(None, None, None, None, NaN, NaN, None), now);
      t == ClientTrade(None, None, "BTCUSDT", "BUY", 0.0, 0.0, now, 0.0, "USDT") && !IsValid(t)
  {
  }

  /** The net value is the total, moved by the commission in the direction
      of the side only when the commission test passes. */
  lemma NetValueCases(t: ClientTrade)
    ensures ChargedInQuote(t) && t.side == "BUY" ==> NetValue(t) - TotalValue(t) == t.commission
    ensures ChargedInQuote(t) && t.side != "BUY" ==> TotalValue(t) - NetValue(t) == t.commission
    ensures !ChargedInQuote(t) ==> NetValue(t) == TotalValue(t)
  {
  }

  /** For the one traded pair the test fails ("USDT" is neither "BTC" nor
      "USD"), so the net value of a constructed BTCUSDT trade is its total. */
  lemma BtcNetIsTotal(data: TradeInput, now: int)
    requires NewTrade(data, now).symbol == "BTCUSDT"
    ensures NetValue(NewTrade(data, now)) == TotalValue(NewTrade(data, now))
  {
    var s := "BTCUSDT";
    assert OccursAt(s, "USDT", 3);
    assert !OccursAt(s, "USDT", 0) && !OccursAt(s, "USDT", 1) && !OccursAt(s, "USDT", 2) by {
      assert s[0] == 'B' && s[1] == 'T' && s[2] == 'C';
    }
    assert IndexOf(s, "USDT", 0) == Some(3);
    assert ReplaceFirst(s, "USDT", "") == "BTC";
    assert Upper("BTC")[0] == 'B';
    assert Upper("USDT") != Upper("BTC");
  }

  /** The test passes for a symbol whose base is itself USDT; only then does
      the commission move the net value. */
  lemma QuoteBaseIsCharged(data: TradeInput, now: int)
    requires NewTrade(data, now).symbol == "USDTUSDT"
    ensures ChargedInQuote(NewTrade(data, now))
  {
    var s := "USDTUSDT";
    assert OccursAt(s, "USDT", 0);
    assert IndexOf(s, "USDT", 0) == Some(0);
    assert s[..0] + "" + s[4..] == "USDT";
  }

  /** A valid constructed trade pays a positive commission of 0.05% of its
      total; without an order id no trade is valid. */
  lemma ValidTradeCommission(data: TradeInput, now: int)
    ensures IsValid(NewTrade(data, now)) ==>
      NewTrade(data, now).commission > 0.0 && NewTrade(data, now).commission * 2000.0 == TotalValue(NewTrade(data, now))
    ensures data.orderId.None? ==> !IsValid(NewTrade(data, now))
    ensures IsBuy(NewTrade(data, now)) ==> !IsSell(NewTrade(data, now))
  {
    var t := NewTrade(data, now);
    if IsValid(t) {
      assert t.quantity * t.price > 0.0;
    }
  }
}
