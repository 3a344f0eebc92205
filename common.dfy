/** Vocabulary shared by the backend ledger, the market-data relay and the
    client-side models: optional values, the outcome of JavaScript's
    `parseFloat`, order sides and the fixed constants of the simulator. */
module Common {

  datatype Option<T> = None | Some(value: T)

  /** The value `parseFloat` produces: a number, or NaN for text that does not parse. */
  datatype Parsed = Num(value: real) | NaN

  /** JavaScript truthiness of a number: NaN and 0 are falsy. */
  predicate Truthy(p: Parsed) {
    p.Num? && p.value != 0.0
  }

  /** `parseFloat(x) || 0`. */
  function OrZero(p: Parsed): real {
    if Truthy(p) then p.value else 0.0
  }

  /** JavaScript truthiness of a string: only the empty string is falsy. */
  function StrOr(s: Option<string>, default: string): string {
    if s.Some? && s.value != "" then s.value else default
  }

  datatype Side = Buy | Sell

  function SideName(s: Side): string {
    match s
    case Buy => "BUY"
    case Sell => "SELL"
  }

  /** Membership in `["BUY", "SELL"]`, as a parse. */
  function ParseSide(s: string): (r: Option<Side>)
    ensures r.Some? <==> (s == "BUY" || s == "SELL")
    ensures r.Some? ==> SideName(r.value) == s
  {
    if s == "BUY" then Some(Buy) else if s == "SELL" then Some(Sell) else None
  }

  /** The balance every portfolio starts from, and the base of every P&L figure. */
  const StartingBalance: real := 100000.0

  /** The one instrument the simulator trades. */
  const Btc: string := "BTCUSDT"
}
