/** The back test itself: the stream that notifies of trades, and the loop that runs a strategy on the paper
    trader while the clock of the data moves on. */
module BackTest {
  import opened Trading
  import opened Orders
  import opened PaperTradeApi
  import opened BackTestSession
  import opened OrderIndex
  import opened WatchedOrders

  /** Trades only: the paper trader handles no other updates. */
  class BacktestWebsocketStream {
    const data: BackTestingData.BackTestingData
    var subscriptions: set<Pair>

    constructor (data: BackTestingData.BackTestingData)
      ensures this.data == data && subscriptions == {}
    {
      this.data := data;
      subscriptions := {};
    }

    /** The engine answers from `view`. */
    ghost predicate Shows(view: View)
      reads this, data
    {
      && data.Valid() && Usable(view)
      && forall p :: data.Rows(p) == view(p)
    }

    method Subscribe(pair: Pair)
      modifies `subscriptions
      ensures subscriptions == old(subscriptions) + {pair}
    {
      subscriptions := subscriptions + {pair};
    }

    method Unsubscribe(pair: Pair)
      modifies `subscriptions
      ensures subscriptions == old(subscriptions) - {pair}
    {
      subscriptions := subscriptions - {pair};
    }

    method GetLastTrade(pair: Pair, ghost view: View) returns (price: Price)
      requires Shows(view)
      modifies data`data, data`loads, data`iteratorCache
      ensures Shows(view) && price == MarketAt(view, data.dataTime)(pair)
    {
      var trade := data.GetTrade(pair);
      assert trade.price == MarketAt(view, data.dataTime)(pair);
      price := trade.price;
    }

    /** Sends the last trade of each subscribed pair to the paper trader, in no particular order. An exception
        of the paper trader ends it. */
    method Notify(api: PaperTradeApi, ghost view: View) returns (notified: Result<()>, ghost order: seq<Pair>)
      requires Shows(view) && api.Valid() && Indexed(api.State())
      modifies data`data, data`loads, data`iteratorCache, api
      ensures Shows(view) && api.Valid()
      ensures Lists(order, subscriptions)
      ensures var n := NotifiedOf(old(api.State()), order, MarketAt(view, data.dataTime), data.dataTime);
              api.State() == n.account && (n.threw <==> notified.Err?)
    {
      hide NotifiedOf, Usable, MarketAt, Indexed, Updated, PaperTradeApi.Valid;
      var left := subscriptions;
      var sent: seq<Pair> := [];
      ghost var prices, now := MarketAt(view, data.dataTime), data.dataTime;
      NothingNotified(api.State(), prices, now);
      while left != {}
        invariant Shows(view) && api.Valid() && Indexed(api.State())
        invariant left <= subscriptions && Lists(sent, subscriptions - left)
        invariant NotifiedOf(old(api.State()), sent, prices, now) == Notified(api.State(), false)
        decreases left
      {
        var pair :| pair in left;
        ListsOneMore(sent, subscriptions - left, pair);
        assert subscriptions - left + {pair} == subscriptions - (left - {pair});
        var price := GetLastTrade(pair, view);
        ghost var before := api.State();
        UpdateSamePrice(before, pair, _ => price, prices, now);
        IndexedByUpdate(before, pair, prices, now);
        var handled := api.TradeUpdateHandler(pair, _ => price, data.dataTime);
        NotifiedSnoc(old(api.State()), sent, pair, prices, now);
        left := left - {pair};
        sent := sent + [pair];
        if handled.Err? {
          ghost var rest := ListsCompleted(sent, subscriptions - left, subscriptions);
          order := sent + rest;
          NotifiedThrew(old(api.State()), sent, rest, prices, now);
          return Err(handled.message), order;
        }
      }
      assert subscriptions - left == subscriptions;
      return Ok(()), sent;
    }
  }

  /** What a test is made of: the stream with its data, the paper trader, and what has been seen of them. */
  ghost function SessionOf(stream: BacktestWebsocketStream, api: PaperTradeApi, unsubscribed: set<Pair>, replies: seq<Reply>)
    : Session
    reads stream, api
  {
    Session(api.State(), stream.subscriptions, unsubscribed, replies)
  }

  /** Placing an order: the trades of its pair are subscribed to, and the order is tried at once. */
  method PlaceOrder(stream: BacktestWebsocketStream, api: PaperTradeApi, request: Request, ghost view: View)
    returns (orderId: Result<OrderId>)
    requires stream.Shows(view) && api.Valid()
    modifies stream`subscriptions, stream.data`data, stream.data`loads, stream.data`iteratorCache, api
    ensures stream.Shows(view) && api.Valid()
    ensures stream.subscriptions == old(stream.subscriptions) + {request.pair}
    ensures var t := Added(old(api.State()), request, MarketAt(view, stream.data.dataTime), stream.data.dataTime);
            && api.State() == t.account
            && (t.outcome.Threw? <==> orderId.Err?)
            && (orderId.Ok? ==> orderId.value == old(api.nextOrderNumber))
  {
    hide TryFill, Placed, Usable, MarketAt, PaperTradeApi.Valid;
    if request.pair !in stream.subscriptions {
      stream.Subscribe(request.pair);
    }
    var price := stream.GetLastTrade(request.pair, view);
    orderId := api.AddOrder(request, _ => price, stream.data.dataTime);
  }

  /** One act of a strategy on the objects is one step of the session. */
  method Perform(stream: BacktestWebsocketStream, api: PaperTradeApi, act: Act,
                 ghost unsubscribed: set<Pair>, replies: seq<Reply>, ghost view: View)
    returns (reply: Reply, ghost nowUnsubscribed: set<Pair>)
    requires stream.Shows(view) && api.Valid() && act.Valid()
    modifies stream`subscriptions, stream.data`data, stream.data`loads, stream.data`iteratorCache, api
    ensures stream.Shows(view) && api.Valid()
    ensures SessionOf(stream, api, nowUnsubscribed, replies + [reply]) ==
            Acted(old(SessionOf(stream, api, unsubscribed, replies)), view, stream.data.dataTime, act)
  {
    hide TryFill, Placed, Usable, MarketAt, BackTestingData.Fresh, Described;
    nowUnsubscribed := unsubscribed;
    match act {
      case Ask(q) =>
        var answer := stream.data.AnswerTo(q);
        reply := Answered(answer);
      case Place(r) =>
        var id := PlaceOrder(stream, api, r, view);
        reply := if id.Ok? then Accepted(id.value) else Failed;
        nowUnsubscribed := unsubscribed - {r.pair};
      case Cancel(id) =>
        var done := api.CancelOrder(id);
        reply := if done.Ok? then Done else Failed;
      case Look =>
        var closed := api.GetClosedOrders();
        TestLogger.DescribedAre(closed, api.fills);
        reply := Seen(api.balances, api.openOrders, closed);
      case Subscribe(pair) =>
        stream.Subscribe(pair);
        reply := Done;
        nowUnsubscribed := unsubscribed - {pair};
      case Unsubscribe(pair) =>
        stream.Unsubscribe(pair);
        reply := Done;
        nowUnsubscribed := unsubscribed + {pair};
    }
  }

  /** One iteration of the strategy. */
  method RunIteration(stream: BacktestWebsocketStream, api: PaperTradeApi, i: nat, strategy: Strategy, limit: nat,
                      ghost unsubscribed: set<Pair>, replies: seq<Reply>, ghost view: View)
    returns (raised: bool, ghost nowUnsubscribed: set<Pair>, allReplies: seq<Reply>)
    requires stream.Shows(view) && api.Valid() && Proper(strategy)
    modifies stream`subscriptions, stream.data`data, stream.data`loads, stream.data`iteratorCache, api
    ensures stream.Shows(view) && api.Valid()
    ensures Turn(SessionOf(stream, api, nowUnsubscribed, allReplies), raised) ==
            Played(old(SessionOf(stream, api, unsubscribed, replies)), view, stream.data.dataTime, i, strategy, limit)
  {
    hide Acted, Usable, PaperTradeApi.Valid;
    nowUnsubscribed, allReplies := unsubscribed, replies;
    ghost var whole := Played(SessionOf(stream, api, unsubscribed, replies), view, stream.data.dataTime, i, strategy, limit);
    var left := limit;
    while left > 0
      invariant 0 <= left <= limit
      invariant stream.Shows(view) && api.Valid()
      invariant whole == Played(SessionOf(stream, api, nowUnsubscribed, allReplies), view, stream.data.dataTime, i,
                                strategy, left)
    {
      var move := strategy(i, allReplies);
      if !move.Do? {
        return move.Raise?, nowUnsubscribed, allReplies;
      }
      var reply: Reply;
      reply, nowUnsubscribed := Perform(stream, api, move.act, nowUnsubscribed, allReplies, view);
      allReplies := allReplies + [reply];
      left := left - 1;
    }
    raised := false;
  }

  // ---- The loop ----

  /** The log watches this trader alone, and holds the descriptions of the executions logged so far. */
  ghost predicate Logs(logger: TestLogger.TestLogger, api: PaperTradeApi, logged: seq<Fill>)
    reads logger, logger.Apis()
  {
    && logger.Valid() && |logger.exchangeData| == 1 && logger.exchangeData[0].tradeApi == api
    && TestLogger.RowsFrom(logger.file, logger.origin, 0) == TestLogger.Descriptions(logged)
  }

  /** More executions, more closed orders. */
  lemma ClosedExtends(closed: seq<Description>, fills: seq<Fill>, later: seq<Description>, laterFills: seq<Fill>)
    requires Described(closed, fills) && Described(later, laterFills) && fills <= laterFills
    ensures closed <= later
  {
  }

  method OpenLog(api: PaperTradeApi) returns (logger: TestLogger.TestLogger)
    requires api.Valid()
    ensures fresh(logger) && Logs(logger, api, [])
  {
    logger := new TestLogger.TestLogger([api]);
  }

  method Flush(logger: TestLogger.TestLogger, api: PaperTradeApi, ghost logged: seq<Fill>)
    requires Logs(logger, api, logged) && api.Valid()
    modifies logger
    ensures Logs(logger, api, api.fills)
  {
    logger.FlushTrades();
    TestLogger.DescribedAre(api.closedOrders, api.fills);
  }

  /** The objects of a test, and how far it has come. */
  ghost predicate At(stream: BacktestWebsocketStream, api: PaperTradeApi, logger: TestLogger.TestLogger, view: View,
                     p: Progress)
    reads stream, stream.data, api, logger, logger.Apis()
  {
    && stream.Shows(view) && api.Valid() && Logs(logger, api, p.logged)
    && p.session == SessionOf(stream, api, p.session.unsubscribed, p.session.replies)
  }

  /** Notifying, seen from the test: the log stays as it was. */
  method NotifyAll(stream: BacktestWebsocketStream, api: PaperTradeApi, logger: TestLogger.TestLogger,
                   ghost view: View, ghost p: Progress)
    returns (threw: bool, ghost order: seq<Pair>, ghost s: Session)
    requires At(stream, api, logger, view, p) && Indexed(api.State())
    modifies stream.data`data, stream.data`loads, stream.data`iteratorCache, api
    ensures At(stream, api, logger, view, p.(session := s)) && Lists(order, p.session.subscribed)
    ensures var n := NotifiedOf(p.session.account, order, MarketAt(view, stream.data.dataTime), stream.data.dataTime);
            s == p.session.(account := n.account) && (threw <==> n.threw)
  {
    hide Usable, Indexed, NotifiedOf, MarketAt, TestLogger.RowsFrom, TestLogger.Descriptions;
    ghost var now := stream.data.dataTime;
    var notified: Result<()>;
    notified, order := stream.Notify(api, view);
    NotifiedExtends(p.session.account, order, MarketAt(view, now), now);
    ClosedExtends(old(api.closedOrders), old(api.fills), api.closedOrders, api.fills);
    TestLogger.TradingKeepsLog(logger);
    s := p.session.(account := api.State());
    threw := notified.Err?;
  }

  /** The strategy's iteration, and the log after it. */
  method PlayOnce(stream: BacktestWebsocketStream, api: PaperTradeApi, logger: TestLogger.TestLogger,
                  i: nat, strategy: Strategy, limit: nat, replies: seq<Reply>, ghost view: View, ghost p: Progress)
    returns (raised: bool, allReplies: seq<Reply>, ghost s: Session)
    requires At(stream, api, logger, view, p) && replies == p.session.replies && Proper(strategy)
    modifies stream`subscriptions, stream.data`data, stream.data`loads, stream.data`iteratorCache, api
    ensures At(stream, api, logger, view, p.(session := s)) && allReplies == s.replies
    ensures Turn(s, raised) == Played(p.session, view, stream.data.dataTime, i, strategy, limit)
  {
    hide Usable, Described, Played, TestLogger.RowsFrom, TestLogger.Descriptions;
    ghost var unsubscribed;
    raised, unsubscribed, allReplies := RunIteration(stream, api, i, strategy, limit, p.session.unsubscribed, replies, view);
    PlayedExtends(p.session, view, stream.data.dataTime, i, strategy, limit);
    ClosedExtends(old(api.closedOrders), old(api.fills), api.closedOrders, api.fills);
    TestLogger.TradingKeepsLog(logger);
    s := SessionOf(stream, api, unsubscribed, allReplies);
  }

  /** One turn of the loop, up to the step of the clock. */
  method Iterate(stream: BacktestWebsocketStream, api: PaperTradeApi, logger: TestLogger.TestLogger,
                 i: nat, strategy: Strategy, limit: nat, replies: seq<Reply>, ghost view: View, ghost p: Progress)
    returns (aborted: bool, allReplies: seq<Reply>, ghost order: seq<Pair>, ghost after: Progress)
    requires At(stream, api, logger, view, p) && !p.aborted && replies == p.session.replies
    requires Proper(strategy) && Indexed(api.State())
    modifies stream`subscriptions, stream.data`data, stream.data`loads, stream.data`iteratorCache, api, logger
    ensures At(stream, api, logger, view, after) && allReplies == after.session.replies
    ensures aborted <==> after.aborted
    ensures Lists(order, p.session.subscribed)
    ensures after == Iterated(p, view, stream.data.dataTime, i, strategy, limit, order)
  {
    hide Usable, Indexed, Logs, PaperTradeApi.Valid, NotifiedOf, Played, MarketAt;
    ghost var s;
    aborted, order, s := NotifyAll(stream, api, logger, view, p);
    after := p.(session := s, aborted := aborted);
    allReplies := replies;
    if !aborted {
      var raised;
      raised, allReplies, s := PlayOnce(stream, api, logger, i, strategy, limit, replies, view, after);
      after := after.(session := s);
      if !raised {
        Flush(logger, api, p.logged);
        after := after.(logged := api.fills);
      }
    }
  }

  /** Every iteration notified the pairs subscribed to when it began, each once. */
  ghost predicate NotifiesSubscribed(t: Setting, view: View, orders: seq<seq<Pair>>)
    requires Usable(view) && Proper(t.strategy)
  {
    forall i :: 0 <= i < |orders| ==> Lists(orders[i], Tested(t, view, orders[..i]).session.subscribed)
  }

  lemma NotifiesOnceMore(t: Setting, view: View, orders: seq<seq<Pair>>, order: seq<Pair>)
    requires Usable(view) && Proper(t.strategy) && NotifiesSubscribed(t, view, orders)
    requires Lists(order, Tested(t, view, orders).session.subscribed)
    ensures NotifiesSubscribed(t, view, orders + [order])
    ensures Tested(t, view, orders + [order]) ==
            Iterated(Tested(t, view, orders), view, t.Clock(|orders|), |orders|, t.strategy, t.limit, order)
  {
    hide Lists, Iterated, Usable, Proper;
    var all := orders + [order];
    assert all[..|orders|] == orders;
    forall i | 0 <= i < |all| ensures Lists(all[i], Tested(t, view, all[..i]).session.subscribed) {
      if i < |orders| { assert all[..i] == orders[..i]; }
    }
  }

  /** The objects are where the test over values is; the clock is at the next iteration, or still at the one
      that was aborted. */
  ghost predicate Going(stream: BacktestWebsocketStream, api: PaperTradeApi, logger: TestLogger.TestLogger,
                        t: Setting, view: View, orders: seq<seq<Pair>>)
    requires Usable(view) && Proper(t.strategy)
    reads stream, stream.data, api, logger, logger.Apis()
  {
    var p := Tested(t, view, orders);
    && At(stream, api, logger, view, p) && NotifiesSubscribed(t, view, orders)
    && stream.data.stepSize == t.stepSize
    && (p.aborted ==> orders != [])
    && stream.data.dataTime == t.Clock(if p.aborted then |orders| - 1 else |orders|)
  }

  method Tick(stream: BacktestWebsocketStream, api: PaperTradeApi, logger: TestLogger.TestLogger, ghost view: View,
              ghost p: Progress)
    requires At(stream, api, logger, view, p)
    modifies stream.data`dataTime
    ensures At(stream, api, logger, view, p)
    ensures stream.data.dataTime == old(stream.data.dataTime) + stream.data.stepSize
  {
    hide Usable, TestLogger.RowsFrom, TestLogger.Descriptions;
    stream.data.Increment();
  }

  /** One turn of the loop and the step of the clock, which an exception in notifying skips. */
  method TakeTurn(stream: BacktestWebsocketStream, api: PaperTradeApi, logger: TestLogger.TestLogger,
                  i: nat, strategy: Strategy, limit: nat, replies: seq<Reply>,
                  ghost t: Setting, ghost view: View, ghost orders: seq<seq<Pair>>)
    returns (aborted: bool, allReplies: seq<Reply>, ghost order: seq<Pair>)
    requires Usable(view) && Proper(strategy) && t.strategy == strategy && t.limit == limit && i == |orders|
    requires t.account == Opened(t.account.fee, t.account.balances)
    requires Going(stream, api, logger, t, view, orders) && !Tested(t, view, orders).aborted
    requires replies == Tested(t, view, orders).session.replies
    modifies stream, stream.data, api, logger
    ensures Going(stream, api, logger, t, view, orders + [order])
    ensures aborted <==> Tested(t, view, orders + [order]).aborted
    ensures allReplies == Tested(t, view, orders + [order]).session.replies
  {
    hide Usable, Indexed, Proper, Logs, PaperTradeApi.Valid, Iterated, Tested, NotifiesSubscribed, BackTestRunner.Clock;
    TestIsWatched(t, view, orders);
    ghost var after;
    aborted, allReplies, order, after :=
      Iterate(stream, api, logger, i, strategy, limit, replies, view, Tested(t, view, orders));
    NotifiesOnceMore(t, view, orders, order);
    if !aborted {
      Tick(stream, api, logger, view, after);
      BackTestRunner.ClockNext(t.start, t.stepSize, i);
    }
  }

  lemma GoingAtStart(stream: BacktestWebsocketStream, api: PaperTradeApi, logger: TestLogger.TestLogger, t: Setting, view: View)
    requires Proper(t.strategy) && stream.Shows(view) && api.Valid() && Logs(logger, api, [])
    requires stream.subscriptions == {} && api.State() == t.account
    requires stream.data.stepSize == t.stepSize && stream.data.dataTime == t.start
    ensures Going(stream, api, logger, t, view, [])
    ensures Tested(t, view, []) == Opening(t.account)
  {
    hide Usable, Proper, Logs, PaperTradeApi.Valid, BackTestRunner.Clock, Iterated;
    BackTestRunner.ClockNext(t.start, t.stepSize, 0);
  }

  /** The objects of a test at its beginning. */
  method SetUp(data: BackTestingData.BackTestingData, fee: Percent, initialBalances: map<string, Price>,
               strategy: Strategy, limit: nat, ghost view: View)
    returns (stream: BacktestWebsocketStream, api: PaperTradeApi, logger: TestLogger.TestLogger, ghost t: Setting)
    requires data.Valid() && data.dataTime == data.startTime && Proper(strategy)
    requires Usable(view) && forall p :: data.Rows(p) == view(p)
    ensures fresh(stream) && fresh(api) && fresh(logger) && stream.data == data
    ensures t == Setting(Opened(fee, map asset | asset in initialBalances :: ToUnits(initialBalances[asset])),
                         data.startTime, data.stepSize, strategy, limit)
    ensures Going(stream, api, logger, t, view, [])
    ensures Tested(t, view, []) == Opening(t.account)
  {
    hide Usable, Proper, Logs, PaperTradeApi.Valid, Going, Tested;
    stream := new BacktestWebsocketStream(data);
    api := new PaperTradeApi(fee, initialBalances);
    logger := OpenLog(api);
    t := Setting(api.State(), data.startTime, data.stepSize, strategy, limit);
    GoingAtStart(stream, api, logger, t, view);
  }

  lemma Arrived(stream: BacktestWebsocketStream, api: PaperTradeApi, logger: TestLogger.TestLogger,
                t: Setting, view: View, orders: seq<seq<Pair>>)
    requires Usable(view) && Proper(t.strategy) && Going(stream, api, logger, t, view, orders)
    ensures var p := Tested(t, view, orders);
            && api.Valid() && api.State() == p.session.account && Logs(logger, api, p.logged)
            && NotifiesSubscribed(t, view, orders) && (p.aborted ==> orders != [])
            && stream.data.dataTime == t.Clock(if p.aborted then |orders| - 1 else |orders|)
  {
    hide Usable, Logs, Tested;
  }

  /** The back test: as many iterations as there are time steps, unless an exception ends it, the clock
      stepping on after each. The trader, the log and what the strategy was told are those of the test over
      values, whatever the order of notification was. */
  method RunBackTest(data: BackTestingData.BackTestingData, fee: Percent, initialBalances: map<string, Price>,
                     strategy: Strategy, limit: nat, ghost view: View)
    returns (api: PaperTradeApi, logger: TestLogger.TestLogger, aborted: bool,
             ghost t: Setting, ghost orders: seq<seq<Pair>>)
    requires data.Valid() && data.dataTime == data.startTime && Proper(strategy)
    requires Usable(view) && forall p :: data.Rows(p) == view(p)
    modifies data
    ensures t == Setting(Opened(fee, map asset | asset in initialBalances :: ToUnits(initialBalances[asset])),
                         data.startTime, data.stepSize, strategy, limit)
    ensures var p := Tested(t, view, orders);
            && api.Valid() && api.State() == p.session.account
            && Logs(logger, api, p.logged) && (aborted <==> p.aborted)
    ensures NotifiesSubscribed(t, view, orders)
    ensures var n := Later(0, data.timeSteps);
            if aborted then 0 < |orders| <= n && data.dataTime == t.Clock(|orders| - 1)
            else |orders| == n && data.dataTime == t.Clock(n)
  {
    hide Usable, Proper, Logs, PaperTradeApi.Valid, BackTestRunner.Clock, Tested, At, Going, NotifiesSubscribed;
    var stream;
    stream, api, logger, t := SetUp(data, fee, initialBalances, strategy, limit, view);
    orders := [];
    aborted := false;
    var replies: seq<Reply> := [];
    var i := 0;
    while i < data.timeSteps && !aborted
      invariant i == |orders| && i <= Later(0, data.timeSteps)
      invariant fresh(stream) && fresh(api) && fresh(logger)
      invariant Going(stream, api, logger, t, view, orders)
      invariant aborted <==> Tested(t, view, orders).aborted
      invariant replies == Tested(t, view, orders).session.replies
      decreases data.timeSteps - i
    {
      ghost var order;
      aborted, replies, order := TakeTurn(stream, api, logger, i, strategy, limit, replies, t, view, orders);
      orders := orders + [order];
      i := i + 1;
    }
    Arrived(stream, api, logger, t, view, orders);
  }
}
