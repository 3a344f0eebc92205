/** The client-side order object: built once from loose data with
    defaults, then only read. */
module OrderModel {
  import opened Common
  import Orders

  /** The loose data an order is built from; an absent field is `None`, a
      numeric field is what `parseFloat` makes of it. */
  datatype OrderInput = OrderInput(
    id: Option<string>,
    symbol: Option<string>,
    side: Option<string>,
    orderType: Option<string>,
    quantity: Parsed,
    price: Parsed,
    status: Option<string>,
    timestamp: Option<int>,
    filledQuantity: Parsed,
    averagePrice: Parsed)

  /** The order object; `orderType` is the `type` field. */
  datatype ClientOrder = ClientOrder(
    id: Option<string>,
    symbol: string,
    side: string,
    orderType: string,
    quantity: real,
    price: real,
    status: string,
    timestamp: int,
    filledQuantity: real,
    averagePrice: real)

  /** `data.id || null`: an empty id is no id. */
  function IdOr(id: Option<string>): Option<string> {
    if id.Some? && id.value != "" then id else None
  }

  /** `data.timestamp || Date.now()`, the clock reading given as `now`. */
  function StampOr(t: Option<int>, now: int): int {
    if t.Some? && t.value != 0 then t.value else now
  }

  /** The constructor. */
  function NewOrder(data: OrderInput, now: int): ClientOrder {
    ClientOrder(IdOr(data.id), StrOr(data.symbol, "BTCUSDT"), StrOr(data.side, "BUY"),
                StrOr(data.orderType, "MARKET"), OrZero(data.quantity), OrZero(data.price),
                StrOr(data.status, "PENDING"), StampOr(data.timestamp, now),
                OrZero(data.filledQuantity), OrZero(data.averagePrice))
  }

  function TotalValue(o: ClientOrder): real { o.quantity * o.price }
  function FilledValue(o: ClientOrder): real { o.filledQuantity * o.averagePrice }

  predicate IsComplete(o: ClientOrder) { o.status == "FILLED" }
  predicate IsBuyOrder(o: ClientOrder) { o.side == "BUY" }
  predicate IsSellOrder(o: ClientOrder) { o.side == "SELL" }
  predicate IsMarketOrder(o: ClientOrder) { o.orderType == "MARKET" }

  function StatusColor(o: ClientOrder): string {
    if o.status == "FILLED" then "text-green-400"
    else if o.status == "CANCELLED" then "text-red-400"
    else if o.status == "PENDING" then "text-yellow-400"
    else "text-gray-400"
  }

  function SideColor(o: ClientOrder): string {
    if IsBuyOrder(o) then "text-green-400" else "text-red-400"
  }

  /** The record sent to the server. */
  datatype ApiOrder = ApiOrder(symbol: string, side: string, orderType: string, quantity: real, price: real)

  function ToApiFormat(o: ClientOrder): ApiOrder {
    ApiOrder(o.symbol, o.side, o.orderType, o.quantity, o.price)
  }

  predicate IsValid(o: ClientOrder) {
    && o.symbol != ""
    && (o.side == "BUY" || o.side == "SELL")
    && (o.orderType == "MARKET" || o.orderType == "LIMIT")
    && o.quantity > 0.0
    && (o.orderType == "MARKET" || o.price > 0.0)
  }

  /** `fromApi` of a record the server would echo: only the five fields. */
  function InputOf(a: ApiOrder): OrderInput {
    OrderInput(None, Some(a.symbol), Some(a.side), Some(a.orderType), Num(a.quantity), Num(a.price), None, None, NaN, NaN)
  }

  /** The body the server's validation sees for an order sent from here. */
  function BodyOf(a: ApiOrder): Orders.OrderBody {
    Orders.OrderBody(a.symbol, a.side, Num(a.quantity), Num(a.price))
  }

  // ------------------------------------------------------------------ lemmas

  /** An order built from nothing is a pending market BUY of BTCUSDT with
      every amount 0, stamped with the clock; it is not valid. */
  lemma DefaultOrder(now: int)
    ensures var o := NewOrder(OrderInput(None, None, None, None, NaN, NaN, None, None, NaN, NaN), now);
      && o == ClientOrder(None, "BTCUSDT", "BUY", "MARKET", 0.0, 0.0, "PENDING", now, 0.0, 0.0)
      && !IsValid(o) && TotalValue(o) == 0.0
  {
  }

  /** Each numeric field is the parsed number, or 0 when it did not parse or
      was 0; each text field falls back to its default only when absent or
      empty. */
  lemma ConstructorFields(data: OrderInput, now: int)
    ensures var o := NewOrder(data, now);
      && (data.quantity.Num? ==> o.quantity == data.quantity.value)
      && (data.quantity.NaN? ==> o.quantity == 0.0)
      && (data.price.Num? ==> o.price == data.price.value)
      && (data.price.NaN? ==> o.price == 0.0)
      && o.symbol != "" && o.side != "" && o.orderType != "" && o.status != ""
      && (data.symbol.Some? && data.symbol.value != "" ==> o.symbol == data.symbol.value)
      && (data.timestamp.Some? && data.timestamp.value != 0 ==> o.timestamp == data.timestamp.value)
  {
  }

  /** An order is never both a buy order and a sell order, and a valid one is
      exactly one of them. */
  lemma SidesExclusive(o: ClientOrder)
    ensures !(IsBuyOrder(o) && IsSellOrder(o))
    ensures IsValid(o) ==> (IsBuyOrder(o) <==> !IsSellOrder(o))
    ensures IsComplete(o) <==> o.status == "FILLED"
  {
  }

  /** The four colours tell the statuses apart: green exactly for FILLED,
      red exactly for CANCELLED, yellow exactly for PENDING, gray for every
      other status. */
  lemma StatusColors(o: ClientOrder)
    ensures StatusColor(o) == "text-green-400" <==> o.status == "FILLED"
    ensures StatusColor(o) == "text-red-400" <==> o.status == "CANCELLED"
    ensures StatusColor(o) == "text-yellow-400" <==> o.status == "PENDING"
    ensures StatusColor(o) == "text-gray-400" <==> o.status !in {"FILLED", "CANCELLED", "PENDING"}
    ensures SideColor(o) == "text-green-400" <==> IsBuyOrder(o)
  {
  }

  /** The API record carries exactly symbol, side, type, quantity and price,
      and an order rebuilt from it is valid and sends the same record. */
  lemma ApiRoundTrip(o: ClientOrder, now: int)
    requires IsValid(o)
    ensures var o' := NewOrder(InputOf(ToApiFormat(o)), now);
      && ToApiFormat(o') == ToApiFormat(o) && IsValid(o')
      && o'.status == "PENDING" && o'.filledQuantity == 0.0 && o'.id.None?
  {
  }

  /** A LIMIT or MARKET order the /trade endpoint accepts passes the client
      check too. */
  lemma ServerAcceptedIsValid(o: ClientOrder)
    requires o.orderType == "MARKET" || o.orderType == "LIMIT"
    requires Orders.Validate(Orders.TradeRoute, BodyOf(ToApiFormat(o))).Some?
    ensures IsValid(o)
  {
    assert 'A' <= o.symbol[0] <= 'Z';
  }

  /** The converse fails: the client passes a MARKET order with no price,
      which the server refuses. */
  lemma PricelessMarketOrderRefused(now: int)
    ensures var o := NewOrder(OrderInput(None, None, None, None, Num(1.0), NaN, None, None, NaN, NaN), now);
      IsValid(o) && Orders.Validate(Orders.TradeRoute, BodyOf(ToApiFormat(o))).None?
  {
  }
}
