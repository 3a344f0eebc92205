/** Order validation of the three trade endpoints (POST /trade, /buy, /sell).
    Validation happens before any storage access; a body that fails it never
    reaches the ledger. */
module Orders {
  import opened Common

  /** Which endpoint received the order. /buy and /sell fix the side themselves. */
  datatype Endpoint = TradeRoute | BuyRoute | SellRoute

  /** The request body as received: the numeric fields as `isFloat` sees them. */
  datatype OrderBody = OrderBody(symbol: string, side: string, quantity: Parsed, price: Parsed)

  /** A validated order. */
  datatype Order = Order(symbol: string, side: Side, quantity: real, price: real)

  const MinQuantity: real := 0.00000001
  const MinPrice: real := 0.01

  /** The /trade symbol rule: 1 to 10 characters, all of them upper-case letters. */
  predicate IsUpperSymbol(s: string) {
    1 <= |s| <= 10 && forall i :: 0 <= i < |s| ==> 'A' <= s[i] <= 'Z'
  }

  /** /buy and /sell only ask for a non-empty symbol. */
  predicate SymbolAccepted(e: Endpoint, s: string) {
    if e == TradeRoute then IsUpperSymbol(s) else |s| >= 1
  }

  function SideOf(e: Endpoint, requested: string): Option<Side> {
    match e
    case TradeRoute => ParseSide(requested)
    case BuyRoute => Some(Buy)
    case SellRoute => Some(Sell)
  }

  predicate AtLeast(p: Parsed, min: real) {
    p.Num? && p.value >= min
  }

  predicate ValidOrder(o: Order) {
    o.quantity >= MinQuantity && o.price >= MinPrice
  }

  /** The validation chain of one endpoint: `Some` exactly when every rule holds. */
  function Validate(e: Endpoint, body: OrderBody): (r: Option<Order>)
    ensures r.Some? <==>
      SymbolAccepted(e, body.symbol) && SideOf(e, body.side).Some? &&
      AtLeast(body.quantity, MinQuantity) && AtLeast(body.price, MinPrice)
    ensures r.Some? ==> ValidOrder(r.value) && r.value.symbol == body.symbol
    ensures r.Some? ==> r.value.quantity == body.quantity.value && r.value.price == body.price.value
    ensures r.Some? && e == BuyRoute ==> r.value.side == Buy
    ensures r.Some? && e == SellRoute ==> r.value.side == Sell
    ensures r.Some? && e == TradeRoute ==> SideName(r.value.side) == body.side
  {
    var side := SideOf(e, body.side);
    if SymbolAccepted(e, body.symbol) && side.Some? &&
       AtLeast(body.quantity, MinQuantity) && AtLeast(body.price, MinPrice)
    then Some(Order(body.symbol, side.value, body.quantity.value, body.price.value))
    else None
  }

  /** `total = quantity * price`, computed once per request. */
  function Total(o: Order): real {
    o.quantity * o.price
  }

  /** Every accepted order moves a strictly positive amount of cash. */
  lemma TotalPositive(o: Order)
    requires ValidOrder(o)
    ensures Total(o) >= MinQuantity * MinPrice > 0.0
  {
    assert o.quantity * o.price >= MinQuantity * o.price >= MinQuantity * MinPrice;
  }

  /** An order /trade accepts is accepted by the dedicated endpoint of its side. */
  lemma TradeRouteIsStricter(body: OrderBody)
    requires Validate(TradeRoute, body).Some?
    ensures var o := Validate(TradeRoute, body).value;
            Validate(if o.side == Buy then BuyRoute else SellRoute, body) == Some(o)
  {
  }

  /** The converse fails: /buy takes a lower-case symbol that /trade refuses. */
  lemma BuyAcceptsWhatTradeRefuses()
    ensures var body := OrderBody("btc", "BUY", Num(1.0), Num(1.0));
            Validate(BuyRoute, body).Some? && Validate(TradeRoute, body).None?
  {
    var body := OrderBody("btc", "BUY", Num(1.0), Num(1.0));
    assert !('A' <= body.symbol[0] <= 'Z');
  }
}
