/** The market-data relay: the Socket.IO server side that tracks symbols,
    keeps client rooms, asks the upstream data server for history, caches the
    last close per symbol and forwards candles and trade notifications.
    Every handler is a method of `Relay`, specified by a pure transition on
    `RelayState`; what the handlers promise is proved about the transitions. */
module Relay {
  import opened Common
  import opened Ledger

  type ClientId = string

  /** A candle as the relay forwards it, each numeric field as `parseFloat`
      yields it. */
  datatype MarketCandle = MarketCandle(
    timestamp: int,
    symbol: string,
    interval: string,
    open: Parsed,
    high: Parsed,
    low: Parsed,
    close: Parsed,
    volume: Parsed,
    isClosed: bool)

  /** The `request_historical_data` payload. */
  datatype HistoryRequest = HistoryRequest(startTimeMs: int, endTimeMs: int, symbol: string, interval: string, limit: int)

  datatype Event =
    | CandleEvent(candle: MarketCandle)
    | TradeExecuted(trade: TradeRow)
    | PortfolioUpdate(message: string, timestamp: string)

  /** Everything the relay emits: requests to the upstream server, and events
      delivered to the members a room has at the moment of the emit. */
  datatype Message =
    | Upstream(request: HistoryRequest)
    | Deliver(room: string, recipients: set<ClientId>, event: Event)

  /** What `data.data` of a historical response is. */
  datatype Batch = NotAnArray | Candles(candles: seq<MarketCandle>)

  datatype RelayState = RelayState(
    ioReady: bool,
    upstreamConnected: bool,
    tracked: seq<string>,
    rooms: map<string, set<ClientId>>,
    priceCache: map<string, Parsed>,
    outbox: seq<Message>)

  const MinuteMs: int := 60000
  const DefaultLimit: int := 100

  function MarketRoom(s: string): string { "market:" + s }
  function UserRoom(u: UserId): string { "user:" + u }

  predicate IsMarketRoom(name: string) {
    |name| >= 7 && name[..7] == "market:"
  }

  function Members(rooms: map<string, set<ClientId>>, name: string): set<ClientId> {
    if name in rooms then rooms[name] else {}
  }

  predicate Distinct(ss: seq<string>) {
    forall i, j :: 0 <= i < j < |ss| ==> ss[i] != ss[j]
  }

  /** What the relay state always satisfies: a JavaScript Set holds each
      symbol once, and the only rooms the handlers join are market rooms.
      Socket.IO also puts each socket in a room named by its own id, which
      no emit here addresses and which is not modelled. An emptied room
      keeps its key here, where Socket.IO would delete it; `Members` reads
      both the same. */
  predicate ValidState(st: RelayState) {
    Distinct(st.tracked) && forall name :: name in st.rooms ==> IsMarketRoom(name)
  }

  // -------------------------------------------------------------- transitions

  /** The request for the `limit` one-minute candles ending at `now`. */
  function HistoryRequestFor(symbol: string, limit: int, now: int): (r: HistoryRequest)
    ensures r.endTimeMs - r.startTimeMs == limit * MinuteMs && r.endTimeMs == now
    ensures r.symbol == symbol && r.interval == "1m" && r.limit == limit
  {
    HistoryRequest(now - limit * MinuteMs, now, symbol, "1m", limit)
  }

  /** `requestHistoricalData`: nothing without an upstream connection. */
  function Request(st: RelayState, symbol: string, limit: int, now: int): RelayState {
    if st.upstreamConnected then st.(outbox := st.outbox + [Upstream(HistoryRequestFor(symbol, limit, now))])
    else st
  }

  function Track(tracked: seq<string>, s: string): seq<string> {
    if s in tracked then tracked else tracked + [s]
  }

  /** `socket.join` of the symbol's room and `connectedSymbols.add`. */
  function JoinRoom(st: RelayState, c: ClientId, s: string): RelayState {
    st.(rooms := st.rooms[MarketRoom(s) := Members(st.rooms, MarketRoom(s)) + {c}],
        tracked := Track(st.tracked, s))
  }

  function SubscribeOne(st: RelayState, c: ClientId, s: string, now: int): RelayState {
    Request(JoinRoom(st, c, s), s, DefaultLimit, now)
  }

  function SubscribeAll(st: RelayState, c: ClientId, ss: seq<string>, now: int): RelayState {
    if ss == [] then st
    else SubscribeOne(SubscribeAll(st, c, ss[..|ss| - 1], now), c, ss[|ss| - 1], now)
  }

  function UnsubscribeOne(st: RelayState, c: ClientId, s: string): RelayState {
    if MarketRoom(s) in st.rooms then st.(rooms := st.rooms[MarketRoom(s) := st.rooms[MarketRoom(s)] - {c}])
    else st
  }

  function UnsubscribeAll(st: RelayState, c: ClientId, ss: seq<string>): RelayState {
    if ss == [] then st
    else UnsubscribeOne(UnsubscribeAll(st, c, ss[..|ss| - 1]), c, ss[|ss| - 1])
  }

  /** A client's `disconnect`: Socket.IO takes the socket out of every room
      it was in; the handler itself only logs. */
  function Disconnect(st: RelayState, c: ClientId): RelayState {
    st.(rooms := map name | name in st.rooms :: st.rooms[name] - {c})
  }

  /** The requests issued on upstream connect for `tracked`, in order. */
  function RequestsFor(tracked: seq<string>, now: int): seq<Message> {
    if tracked == [] then []
    else RequestsFor(tracked[..|tracked| - 1], now) + [Upstream(HistoryRequestFor(tracked[|tracked| - 1], DefaultLimit, now))]
  }

  function Connect(st: RelayState, now: int): RelayState {
    st.(upstreamConnected := true,
        outbox := st.outbox + [Upstream(HistoryRequestFor(Btc, DefaultLimit, now))] + RequestsFor(st.tracked, now))
  }

  /** `broadcastCandleToClients`: a candle without a symbol, or one that
      arrives before the server is set up, is dropped. */
  function CandleStep(st: RelayState, c: MarketCandle): RelayState {
    if st.ioReady && c.symbol != "" then
      st.(priceCache := st.priceCache[c.symbol := c.close],
          outbox := st.outbox + [Deliver(MarketRoom(c.symbol), Members(st.rooms, MarketRoom(c.symbol)), CandleEvent(c))])
    else st
  }

  function CandleSteps(st: RelayState, cs: seq<MarketCandle>): RelayState {
    if cs == [] then st else CandleStep(CandleSteps(st, cs[..|cs| - 1]), cs[|cs| - 1])
  }

  /** The emit to one user's room; nothing before the server is set up. */
  function NotifyUser(st: RelayState, u: UserId, e: Event): RelayState {
    if st.ioReady then st.(outbox := st.outbox + [Deliver(UserRoom(u), Members(st.rooms, UserRoom(u)), e)])
    else st
  }

  // -------------------------------------------------------------------- class

  class Relay {
    var ioReady: bool
    var upstreamConnected: bool
    var tracked: seq<string>
    var rooms: map<string, set<ClientId>>
    var priceCache: map<string, Parsed>
    var outbox: seq<Message>

    function Snapshot(): RelayState
      reads this
    {
      RelayState(ioReady, upstreamConnected, tracked, rooms, priceCache, outbox)
    }

    ghost predicate Valid()
      reads this
    {
      ValidState(Snapshot())
    }

    /** Module load: no server, no upstream socket, no symbols, and the price
        cache that may already exist on `global`. */
    constructor(existingCache: Option<map<string, Parsed>>)
      ensures Snapshot() == RelayState(false, false, [], map[], if existingCache.Some? then existingCache.value else map[], [])
      ensures Valid()
    {
      ioReady, upstreamConnected, tracked, rooms := false, false, [], map[];
      priceCache := if existingCache.Some? then existingCache.value else map[];
      outbox := [];
    }

    /** `setupSocketHandlers`: keep the server and open a new, not yet
        connected upstream socket. */
    method Setup()
      requires Valid()
      modifies this
      ensures Valid()
      ensures Snapshot() == old(Snapshot()).(ioReady := true, upstreamConnected := false)
    {
      ioReady, upstreamConnected := true, false;
    }

    method RequestHistoricalData(symbol: string, limit: int, now: int)
      requires Valid()
      modifies this
      ensures Valid()
      ensures Snapshot() == Request(old(Snapshot()), symbol, limit, now)
    {
      if upstreamConnected {
        outbox := outbox + [Upstream(HistoryRequestFor(symbol, limit, now))];
      }
    }

    /** `socket.join` and `connectedSymbols.add` for one symbol. */
    method Join(client: ClientId, s: string)
      requires Valid()
      modifies this
      ensures Valid()
      ensures Snapshot() == JoinRoom(old(Snapshot()), client, s)
    {
      JoinKeepsValid(Snapshot(), client, s);
      rooms := rooms[MarketRoom(s) := Members(rooms, MarketRoom(s)) + {client}];
      if s !in tracked {
        tracked := tracked + [s];
      }
    }

    /** The `subscribe` handler: for each symbol in turn join its room, track
        it and request its history. */
    method Subscribe(client: ClientId, symbols: seq<string>, now: int)
      requires Valid()
      modifies this
      ensures Valid()
      ensures Snapshot() == SubscribeAll(old(Snapshot()), client, symbols, now)
    {
      var i := 0;
      while i < |symbols|
        invariant 0 <= i <= |symbols|
        invariant Snapshot() == SubscribeAll(old(Snapshot()), client, symbols[..i], now)
        invariant Valid()
      {
        var s := symbols[i];
        ghost var pre := Snapshot();
        Join(client, s);
        RequestHistoricalData(s, DefaultLimit, now);
        assert Snapshot() == SubscribeOne(pre, client, s, now);
        assert symbols[..i + 1][..i] == symbols[..i];
        i := i + 1;
      }
      assert symbols[..|symbols|] == symbols;
    }

    /** The `unsubscribe` handler: leave each symbol's room. */
    method Unsubscribe(client: ClientId, symbols: seq<string>)
      requires Valid()
      modifies this
      ensures Valid()
      ensures Snapshot() == UnsubscribeAll(old(Snapshot()), client, symbols)
    {
      var i := 0;
      while i < |symbols|
        invariant 0 <= i <= |symbols|
        invariant Snapshot() == UnsubscribeAll(old(Snapshot()), client, symbols[..i])
        invariant Valid()
      {
        var room := MarketRoom(symbols[i]);
        if room in rooms {
          rooms := rooms[room := rooms[room] - {client}];
        }
        assert symbols[..i + 1][..i] == symbols[..i];
        i := i + 1;
      }
      assert symbols[..|symbols|] == symbols;
    }

    /** A client's `disconnect`: it leaves every room at once. */
    method OnClientDisconnect(client: ClientId)
      requires Valid()
      modifies this
      ensures Valid()
      ensures Snapshot() == Disconnect(old(Snapshot()), client)
    {
      DisconnectEffect(Snapshot(), client);
      rooms := map name | name in rooms :: rooms[name] - {client};
    }

    /** The upstream `connect` handler: BTCUSDT first, then every tracked
        symbol in insertion order. */
    method OnUpstreamConnect(now: int)
      requires Valid()
      modifies this
      ensures Valid()
      ensures Snapshot() == Connect(old(Snapshot()), now)
    {
      upstreamConnected := true;
      RequestHistoricalData(Btc, DefaultLimit, now);
      var i := 0;
      while i < |tracked|
        invariant 0 <= i <= |tracked|
        invariant tracked == old(tracked) && upstreamConnected
        invariant Valid()
        invariant Snapshot() == old(Snapshot()).(upstreamConnected := true,
          outbox := old(outbox) + [Upstream(HistoryRequestFor(Btc, DefaultLimit, now))] + RequestsFor(tracked[..i], now))
      {
        assert tracked[..i + 1][..i] == tracked[..i];
        RequestHistoricalData(tracked[i], DefaultLimit, now);
        i := i + 1;
      }
      assert tracked[..|tracked|] == tracked;
    }

    /** The upstream socket's `connected` flag drops on disconnect. */
    method OnUpstreamDisconnect()
      requires Valid()
      modifies this
      ensures Valid()
      ensures Snapshot() == old(Snapshot()).(upstreamConnected := false)
    {
      upstreamConnected := false;
    }

    /** `broadcastCandleToClients`, which is also the `candle_update` handler. */
    method BroadcastCandle(c: MarketCandle)
      requires Valid()
      modifies this
      ensures Valid()
      ensures Snapshot() == CandleStep(old(Snapshot()), c)
    {
      if ioReady && c.symbol != "" {
        priceCache := priceCache[c.symbol := c.close];
        outbox := outbox + [Deliver(MarketRoom(c.symbol), Members(rooms, MarketRoom(c.symbol)), CandleEvent(c))];
      }
    }

    /** The `historical_data_response` handler: each candle of an array goes
        through the live-update path, in order; anything else is ignored. */
    method OnHistoricalData(data: Batch)
      requires Valid()
      modifies this
      ensures Valid()
      ensures Snapshot() == if data.Candles? then CandleSteps(old(Snapshot()), data.candles) else old(Snapshot())
    {
      if data.Candles? {
        var cs := data.candles;
        var i := 0;
        while i < |cs|
          invariant 0 <= i <= |cs|
          invariant Snapshot() == CandleSteps(old(Snapshot()), cs[..i])
          invariant Valid()
        {
          assert cs[..i + 1][..i] == cs[..i];
          BroadcastCandle(cs[i]);
          i := i + 1;
        }
        assert cs[..|cs|] == cs;
      }
    }

    /** The `error_response` and `connect_error` handlers only log. */
    method OnUpstreamError(message: string)
      ensures Snapshot() == old(Snapshot())
    {
    }

    method EmitTradeExecuted(u: UserId, trade: TradeRow)
      requires Valid()
      modifies this
      ensures Valid()
      ensures Snapshot() == NotifyUser(old(Snapshot()), u, TradeExecuted(trade))
    {
      if ioReady {
        outbox := outbox + [Deliver(UserRoom(u), Members(rooms, UserRoom(u)), TradeExecuted(trade))];
      }
    }

    method EmitPortfolioUpdate(u: UserId, timestamp: string)
      requires Valid()
      modifies this
      ensures Valid()
      ensures Snapshot() == NotifyUser(old(Snapshot()), u, PortfolioUpdate("Portfolio updated", timestamp))
    {
      if ioReady {
        outbox := outbox + [Deliver(UserRoom(u), Members(rooms, UserRoom(u)), PortfolioUpdate("Portfolio updated", timestamp))];
      }
    }

    /** `getTrackedSymbols`: the set's elements in insertion order. */
    method TrackedSymbols() returns (symbols: seq<string>)
      requires Valid()
      ensures symbols == tracked && Distinct(symbols)
    {
      symbols := tracked;
    }
  }

  // ------------------------------------------------------------------ lemmas

  lemma MarketRoomIsMarket(s: string)
    ensures IsMarketRoom(MarketRoom(s))
  {
    assert MarketRoom(s)[..7] == "market:";
  }

  /** A user room is never a market room. */
  lemma UserRoomNotMarket(u: UserId)
    ensures !IsMarketRoom(UserRoom(u))
  {
    assert UserRoom(u)[0] == 'u';
  }

  /** Joining a market room keeps the relay invariant. */
  lemma JoinKeepsValid(st: RelayState, c: ClientId, s: string)
    requires ValidState(st)
    ensures ValidState(JoinRoom(st, c, s))
  {
    MarketRoomIsMarket(s);
    var t := Track(st.tracked, s);
    if s !in st.tracked {
      forall i, j | 0 <= i < j < |t| ensures t[i] != t[j] {
        if j == |st.tracked| {
          assert t[i] == st.tracked[i];
        }
      }
    }
  }

  lemma SubscribeKeepsValid(st: RelayState, c: ClientId, s: string, now: int)
    requires ValidState(st)
    ensures ValidState(SubscribeOne(st, c, s, now))
  {
    JoinKeepsValid(st, c, s);
  }

  /** One symbol's subscription: the client joins its room, the symbol is
      tracked once and one request goes out when upstream is connected. */
  lemma SubscribeOneEffect(st: RelayState, c: ClientId, s: string, now: int)
    ensures var st' := SubscribeOne(st, c, s, now);
      && c in Members(st'.rooms, MarketRoom(s))
      && (forall name :: Members(st.rooms, name) <= Members(st'.rooms, name))
      && (forall name :: name != MarketRoom(s) ==> Members(st'.rooms, name) == Members(st.rooms, name))
      && st.tracked <= st'.tracked
      && (forall x :: x in st'.tracked <==> x in st.tracked || x == s)
      && st'.outbox == st.outbox + (if st.upstreamConnected then [Upstream(HistoryRequestFor(s, DefaultLimit, now))] else [])
      && st'.priceCache == st.priceCache
      && st'.upstreamConnected == st.upstreamConnected && st'.ioReady == st.ioReady
  {
  }

  /** Subscribing puts the client in the room of every listed symbol, takes
      nobody out of any room, and leaves the rooms of unlisted symbols as
      they were. */
  lemma {:induction false} SubscribeEffect(st: RelayState, c: ClientId, ss: seq<string>, now: int)
    ensures var st' := SubscribeAll(st, c, ss, now);
      && (forall s :: s in ss ==> c in Members(st'.rooms, MarketRoom(s)))
      && (forall name :: Members(st.rooms, name) <= Members(st'.rooms, name))
      && (forall name :: (forall s :: s in ss ==> name != MarketRoom(s)) ==> Members(st'.rooms, name) == Members(st.rooms, name))
  {
    if ss != [] {
      var init := ss[..|ss| - 1];
      var s := ss[|ss| - 1];
      var mid := SubscribeAll(st, c, init, now);
      var st' := SubscribeAll(st, c, ss, now);
      SubscribeEffect(st, c, init, now);
      SubscribeOneEffect(mid, c, s, now);
      assert st' == SubscribeOne(mid, c, s, now);
      assert forall x :: x in ss <==> x in init || x == s;
      forall x | x in ss ensures c in Members(st'.rooms, MarketRoom(x)) {
        if x != s {
          assert c in Members(mid.rooms, MarketRoom(x));
        }
      }
      forall name | forall x :: x in ss ==> name != MarketRoom(x)
        ensures Members(st'.rooms, name) == Members(st.rooms, name)
      {
        assert name != MarketRoom(s);
        assert forall x :: x in init ==> name != MarketRoom(x);
      }
    }
  }

  /** Subscribing tracks every listed symbol without forgetting or
      reordering earlier ones, requests history for each listed symbol in
      order exactly when upstream is connected, and leaves the price cache
      and both flags as they were. */
  lemma {:induction false} SubscribeRequests(st: RelayState, c: ClientId, ss: seq<string>, now: int)
    ensures var st' := SubscribeAll(st, c, ss, now);
      && st.tracked <= st'.tracked
      && (forall s :: s in st'.tracked <==> s in st.tracked || s in ss)
      && st'.outbox == st.outbox + (if st.upstreamConnected then RequestsFor(ss, now) else [])
      && st'.priceCache == st.priceCache
      && st'.upstreamConnected == st.upstreamConnected && st'.ioReady == st.ioReady
  {
    if ss != [] {
      var init := ss[..|ss| - 1];
      var s := ss[|ss| - 1];
      var mid := SubscribeAll(st, c, init, now);
      SubscribeRequests(st, c, init, now);
      SubscribeOneEffect(mid, c, s, now);
      assert forall x :: x in ss <==> x in init || x == s;
      assert RequestsFor(ss, now) == RequestsFor(init, now) + [Upstream(HistoryRequestFor(s, DefaultLimit, now))];
    }
  }

  /** Unsubscribing takes the client out of every listed room, keeps every
      other membership, and never forgets a tracked symbol. */
  lemma {:induction false} UnsubscribeEffect(st: RelayState, c: ClientId, ss: seq<string>)
    ensures var st' := UnsubscribeAll(st, c, ss);
      && (forall s :: s in ss ==> c !in Members(st'.rooms, MarketRoom(s)))
      && (forall name, d :: d != c ==> (d in Members(st'.rooms, name) <==> d in Members(st.rooms, name)))
      && (forall name :: (forall s :: s in ss ==> name != MarketRoom(s)) ==> Members(st'.rooms, name) == Members(st.rooms, name))
      && st'.rooms.Keys == st.rooms.Keys
      && st'.tracked == st.tracked && st'.outbox == st.outbox && st'.priceCache == st.priceCache
  {
    if ss != [] {
      var init := ss[..|ss| - 1];
      UnsubscribeEffect(st, c, init);
      assert forall x :: x in ss <==> x in init || x == ss[|ss| - 1];
    }
  }

  lemma UnsubscribeKeepsValid(st: RelayState, c: ClientId, ss: seq<string>)
    requires ValidState(st)
    ensures ValidState(UnsubscribeAll(st, c, ss))
  {
    UnsubscribeEffect(st, c, ss);
  }

  /** The connect requests: one BTCUSDT request, then one per tracked symbol
      in the set's order, each a 100-minute window ending now. */
  lemma {:induction false} ConnectRequests(st: RelayState, now: int)
    ensures var out := Connect(st, now).outbox[|st.outbox|..];
      && |out| == 1 + |st.tracked|
      && out[0] == Upstream(HistoryRequest(now - 100 * 60000, now, "BTCUSDT", "1m", 100))
      && forall k :: 0 <= k < |st.tracked| ==>
           out[k + 1] == Upstream(HistoryRequest(now - 100 * 60000, now, st.tracked[k], "1m", 100))
  {
    RequestsShape(st.tracked, now);
    var all := Connect(st, now).outbox;
    assert all[|st.outbox|..] == [Upstream(HistoryRequestFor(Btc, DefaultLimit, now))] + RequestsFor(st.tracked, now);
  }

  lemma {:induction false} RequestsShape(ss: seq<string>, now: int)
    ensures |RequestsFor(ss, now)| == |ss|
    ensures forall k :: 0 <= k < |ss| ==> RequestsFor(ss, now)[k] == Upstream(HistoryRequestFor(ss[k], DefaultLimit, now))
  {
    if ss != [] {
      RequestsShape(ss[..|ss| - 1], now);
    }
  }

  /** The close the cache holds for `s` after a batch: that of the last
      candle of `s`, if any. */
  function LastClose(cs: seq<MarketCandle>, s: string): Option<Parsed> {
    if cs == [] then None
    else if cs[|cs| - 1].symbol == s then Some(cs[|cs| - 1].close)
    else LastClose(cs[..|cs| - 1], s)
  }

  /** After a batch of candles, once the server is set up, each named
      symbol caches the close of its last candle, every other entry is
      untouched, and nothing but candle deliveries to market rooms was
      emitted; rooms, tracking and the upstream flag are unchanged. */
  lemma {:induction false} CandleStepsEffect(st: RelayState, cs: seq<MarketCandle>)
    ensures var st' := CandleSteps(st, cs);
      && st'.rooms == st.rooms && st'.tracked == st.tracked
      && st'.ioReady == st.ioReady && st'.upstreamConnected == st.upstreamConnected
      && st.outbox <= st'.outbox
      && (forall k :: |st.outbox| <= k < |st'.outbox| ==>
            st'.outbox[k].Deliver? && st'.outbox[k].event.CandleEvent? &&
            st'.outbox[k].room == MarketRoom(st'.outbox[k].event.candle.symbol))
      && (forall s :: s != "" && st.ioReady && LastClose(cs, s).Some? ==>
            s in st'.priceCache && st'.priceCache[s] == LastClose(cs, s).value)
      && (forall s :: (LastClose(cs, s).None? || !st.ioReady) && s in st.priceCache ==>
            s in st'.priceCache && st'.priceCache[s] == st.priceCache[s])
      && (!st.ioReady ==> st' == st)
  {
    if cs != [] {
      CandleStepsEffect(st, cs[..|cs| - 1]);
    }
  }

  /** One live candle is a batch of one. */
  lemma LiveIsBatchOfOne(st: RelayState, c: MarketCandle)
    ensures CandleSteps(st, [c]) == CandleStep(st, c)
  {
    assert [c][..0] == [];
  }

  /** Candle processing keeps the relay invariant. */
  lemma {:induction false} CandleStepsKeepValid(st: RelayState, cs: seq<MarketCandle>)
    requires ValidState(st)
    ensures ValidState(CandleSteps(st, cs))
  {
    CandleStepsEffect(st, cs);
  }

  /** No handler joins a user room, so trade and portfolio notifications
      reach nobody. */
  lemma UserNotificationsReachNobody(st: RelayState, u: UserId, e: Event)
    requires ValidState(st)
    ensures st.ioReady ==> NotifyUser(st, u, e).outbox == st.outbox + [Deliver(UserRoom(u), {}, e)]
    ensures !st.ioReady ==> NotifyUser(st, u, e) == st
  {
    UserRoomNotMarket(u);
  }

  /** After a disconnect the client is in no room, every other member keeps
      its rooms, and nothing else of the relay changes, so the invariant
      holds and the symbols stay tracked. */
  lemma DisconnectEffect(st: RelayState, c: ClientId)
    requires ValidState(st)
    ensures var st' := Disconnect(st, c);
      && ValidState(st')
      && st'.rooms.Keys == st.rooms.Keys
      && (forall name :: c !in Members(st'.rooms, name))
      && (forall name, d :: d != c ==> (d in Members(st'.rooms, name) <==> d in Members(st.rooms, name)))
      && st'.tracked == st.tracked && st'.priceCache == st.priceCache && st'.outbox == st.outbox
      && st'.ioReady == st.ioReady && st'.upstreamConnected == st.upstreamConnected
  {
  }

  /** A departed client is among the recipients of no later candle. */
  lemma {:induction false} DisconnectedGetsNoCandles(st: RelayState, c: ClientId, cs: seq<MarketCandle>)
    ensures forall k :: |st.outbox| <= k < |CandleSteps(Disconnect(st, c), cs).outbox| ==>
      CandleSteps(Disconnect(st, c), cs).outbox[k].Deliver? && c !in CandleSteps(Disconnect(st, c), cs).outbox[k].recipients
  {
    if cs != [] {
      DisconnectedGetsNoCandles(st, c, cs[..|cs| - 1]);
      var pre := CandleSteps(Disconnect(st, c), cs[..|cs| - 1]);
      assert pre.rooms == Disconnect(st, c).rooms by {
        CandleStepsKeepRooms(Disconnect(st, c), cs[..|cs| - 1]);
      }
      var last := cs[|cs| - 1];
      var st' := CandleStep(pre, last);
      assert st' == CandleSteps(Disconnect(st, c), cs);
      assert c !in Members(pre.rooms, MarketRoom(last.symbol));
      forall k | |st.outbox| <= k < |st'.outbox|
        ensures st'.outbox[k].Deliver? && c !in st'.outbox[k].recipients
      {
        if k < |pre.outbox| {
          assert st'.outbox[k] == pre.outbox[k];
        } else {
          assert st'.outbox[k] == Deliver(MarketRoom(last.symbol), Members(pre.rooms, MarketRoom(last.symbol)), CandleEvent(last));
        }
      }
    }
  }

  lemma {:induction false} CandleStepsKeepRooms(st: RelayState, cs: seq<MarketCandle>)
    ensures CandleSteps(st, cs).rooms == st.rooms
    ensures |CandleSteps(st, cs).outbox| >= |st.outbox|
    ensures CandleSteps(st, cs).outbox[..|st.outbox|] == st.outbox
  {
    if cs != [] {
      CandleStepsKeepRooms(st, cs[..|cs| - 1]);
    }
  }
}
