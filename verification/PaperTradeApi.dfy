/** The paper trader: an exchange account that exists only in memory. */
module PaperTradeApi {
  import opened Trading
  import opened Orders

  datatype Result<+T> = Ok(value: T) | Err(message: string)

  ghost predicate Described(closed: seq<Description>, fills: seq<Fill>) {
    |closed| == |fills| && forall i :: 0 <= i < |fills| ==> closed[i] == Describe(fills[i])
  }

  lemma DescribedNext(closed: seq<Description>, fills: seq<Fill>, f: Fill)
    requires Described(closed, fills)
    ensures Described(closed + [Describe(f)], fills + [f])
  {
  }

  class PaperTradeApi {
    const fee: Percent
    var trailingOrderLimits: map<OrderId, real>
    var balances: Balances
    var openOrders: map<OrderId, Request>
    var openOrdersByPair: map<Pair, seq<OrderId>>
    var closedOrders: seq<Description>
    var nextOrderNumber: OrderId

    ghost var fills: seq<Fill>
    ghost var cancelled: set<OrderId>
    ghost var tried: map<OrderId, seq<Price>>
    ghost var attempts: seq<OrderId>

    /** The closed orders describe the executions. */
    ghost predicate Valid()
      reads `closedOrders, `fills
    {
      Described(closedOrders, fills)
    }

    ghost function State(): Account
      reads this
    {
      Account(fee, trailingOrderLimits, balances, openOrders, openOrdersByPair, fills, nextOrderNumber,
              cancelled, tried, attempts)
    }

    constructor (fee: Percent, initialBalances: map<string, Price>)
      ensures Valid() && State() == Opened(fee, map asset | asset in initialBalances :: ToUnits(initialBalances[asset]))
      ensures closedOrders == []
    {
      this.fee := fee;
      balances := map asset | asset in initialBalances :: ToUnits(initialBalances[asset]);
      trailingOrderLimits, openOrders, openOrdersByPair := map[], map[], map[];
      closedOrders, nextOrderNumber := [], 1;
      fills, cancelled, tried, attempts := [], {}, map[], [];
    }

    method HasSufficientFunds(asset: string, amount: nat) returns (sufficient: bool)
      ensures sufficient == Covers(balances, asset, amount)
    {
      if asset !in balances {
        return false;
      }
      return balances[asset] >= amount;
    }

    /** Whether and at what price an open order fills at `price`; a trailing order's extreme moves along. */
    method Decide(orderId: OrderId, request: Request, price: Price) returns (fillPrice: Option<Price>)
      requires orderId in openOrders && openOrders[orderId] == request
      modifies `trailingOrderLimits
      ensures fillPrice == FillPrice(old(State()), orderId, price)
      ensures trailingOrderLimits == TrailingAfter(old(State()), orderId, price)
    {
      fillPrice := None;
      match request.orderType {
        case Market =>
          fillPrice := Some(price);
        case Limit =>
          if ShouldCloseLimit(request, price) {
            fillPrice := Some(request.assetPrice);
          }
        case StopLoss =>
          if ShouldCloseStopLoss(request, price) {
            fillPrice := Some(request.stopPrice);
          }
        case TrailingStopLoss =>
          if orderId !in trailingOrderLimits {
            trailingOrderLimits := trailingOrderLimits[orderId := price];
          }
          trailingOrderLimits := trailingOrderLimits[orderId :=
            Follow(request.action, trailingOrderLimits[orderId], price)];
          if ShouldCloseTrailing(request, trailingOrderLimits[orderId], price) {
            fillPrice := Some(price);
            trailingOrderLimits := trailingOrderLimits - {orderId};
          }
        case TakeProfit =>
      }
    }

    method TryFillOrder(orderId: OrderId, prices: Prices, now: int) returns (filled: Result<bool>)
      requires Valid() && orderId in openOrders
      modifies this
      ensures Valid() && old(closedOrders) <= closedOrders
      ensures var t := TryFill(old(State()), orderId, prices(old(openOrders)[orderId].pair), now);
              State() == t.account && t.outcome == OutcomeOf(filled)
    {
      hide FillPrice, TrailingAfter, CanExecute, Executed;
      var request := openOrders[orderId];
      var price := prices(request.pair);
      attempts := attempts + [orderId];
      if price == 0.0 {
        return Ok(false);
      }
      DecisionIgnoresLog(old(State()), State(), orderId, price);
      var fillPrice := Decide(orderId, request, price);
      if fillPrice.None? {
        tried := tried[orderId := TriedAt(old(State()), orderId) + [price]];
        return Ok(false);
      }
      ghost var moved := State();
      CanExecuteSame(old(State()), moved, orderId, fillPrice.value);
      var executed := ExecuteOrder(orderId, request, fillPrice.value, now, price);
      if executed.Err? {
        tried := tried[orderId := []];
        return Err(executed.message);
      }
      return Ok(true);
    }

    ghost function OutcomeOf(filled: Result<bool>): Outcome {
      match filled case Err(_) => Threw case Ok(f) => if f then Filled else Kept
    }

    /** What executing a request at a price moves. */
    method DealFor(request: Request, fillPrice: Price) returns (deal: Deal)
      ensures deal == DealOf(fee, request, fillPrice)
      ensures deal.gained == (if request.action == Buy then request.pair.asset else request.pair.priceUnit)
      ensures deal.sold == (if request.action == Buy then request.pair.priceUnit else request.pair.asset)
    {
      hide Cost, FeeOf, ToUnits;
      var cost := Cost(request, fillPrice);
      var orderFee := FeeOf(cost, fee);
      var gainedAsset, soldAsset: string;
      var gainValue, soldValue: real;
      if request.action == Buy {
        gainedAsset, soldAsset := request.pair.asset, request.pair.priceUnit;
        gainValue, soldValue := request.volume, cost + orderFee;
      } else {
        gainedAsset, soldAsset := request.pair.priceUnit, request.pair.asset;
        gainValue, soldValue := cost - orderFee, request.volume;
      }
      deal := Deal(gainedAsset, soldAsset, ToUnits(gainValue), ToUnits(soldValue));
    }

    method MoveFunds(deal: Deal)
      requires Covers(balances, deal.sold, deal.cost)
      modifies `balances
      ensures balances == Settle(old(balances), deal)
      ensures forall asset :: asset != deal.gained && asset != deal.sold ==>
                && (asset in balances <==> asset in old(balances))
                && (asset in balances ==> balances[asset] == old(balances)[asset])
    {
      balances := balances[deal.gained := BalanceOf(balances, deal.gained) + deal.gain];
      balances := balances[deal.sold := balances[deal.sold] - deal.cost];
    }

    method ExecuteOrder(orderId: OrderId, request: Request, fillPrice: Price, now: int, ghost market: Price)
      returns (executed: Result<()>)
      requires Valid() && orderId in openOrders && openOrders[orderId] == request
      modifies this
      ensures Valid() && old(closedOrders) <= closedOrders
      ensures executed.Ok? <==> CanExecute(old(State()), orderId, fillPrice)
      ensures State() == if executed.Ok? then Executed(old(State()), orderId, fillPrice, now, market) else old(State())
      ensures executed.Err? ==> closedOrders == old(closedOrders)
      ensures executed.Ok? ==>
                && closedOrders == old(closedOrders) + [
                     Description(now, orderId, request.orderType, request.pair.asset + request.pair.priceUnit,
                                 request.action, fillPrice, request.volume)]
                && forall asset :: asset != request.pair.asset && asset != request.pair.priceUnit ==>
                     && (asset in balances <==> asset in old(balances))
                     && (asset in balances ==> balances[asset] == old(balances)[asset])
    {
      hide DealOf, Settle, Described, Executed, Covers;
      ghost var before := State();
      var deal := DealFor(request, fillPrice);
      var sufficient := HasSufficientFunds(deal.sold, deal.cost);
      if !sufficient {
        return Err("Insufficient funds (" + deal.sold + ")");
      }
      ExecutedIs(before, orderId, fillPrice, now, market);
      MoveFunds(deal);
      ghost var fill := Fill(orderId, request, fillPrice, now, market);
      DescribedNext(closedOrders, fills, fill);
      closedOrders := closedOrders + [Description(now, orderId, request.orderType,
                                                  request.pair.asset + request.pair.priceUnit,
                                                  request.action, fillPrice, request.volume)];
      fills := fills + [fill];
      openOrders := openOrders - {orderId};
      tried := tried - {orderId};
      return Ok(());
    }

    method TradeUpdateHandler(pair: Pair, prices: Prices, now: int) returns (handled: Result<()>)
      requires Valid()
      modifies this
      ensures Valid() && old(closedOrders) <= closedOrders
      ensures var s := Updated(old(State()), pair, prices, now);
              State() == s.account && (s.threw <==> handled.Err?)
    {
      hide TryFill, Valid, Scan, After;
      if pair !in openOrdersByPair {
        openOrdersByPair := openOrdersByPair[pair := []];
      }
      ghost var lists, all := openOrdersByPair, openOrdersByPair[pair];
      ghost var whole := Scan(State(), all, prices, now);
      ghost var kept := [];
      AfterNothing(whole);
      var orderIds := openOrdersByPair[pair];
      var orderCount := |orderIds|;
      var index := 0;
      for i := 0 to orderCount
        invariant Valid() && old(closedOrders) <= closedOrders
        invariant index == |kept| && orderIds == kept + all[i..]
        invariant openOrdersByPair == lists[pair := orderIds]
        invariant whole == After(kept, Scan(State().(byPair := lists), all[i..], prices, now))
      {
        var id := orderIds[index];
        SuffixStep(all, i);
        Middle(kept, id, all[i + 1..]);
        ghost var before, earlier := State(), kept;
        if id !in openOrders {
          ScanClosed(before.(byPair := lists), all[i..], prices, now);
          orderIds := orderIds[..index] + orderIds[index + 1..];
        } else {
          ScanOpen(before, lists, all[i..], prices, now);
          var filled := TryFillOrder(id, prices, now);
          if filled.Err? {
            LeftAfter(kept, Scanned(State().(byPair := lists), all[i..], true));
            return Err(filled.message);
          }
          if filled.value {
            orderIds := orderIds[..index] + orderIds[index + 1..];
          } else {
            AfterOneMore(kept, id, Scan(State().(byPair := lists), all[i + 1..], prices, now));
            kept := kept + [id];
            index := index + 1;
          }
        }
        SetAgain(lists, pair, earlier + all[i..], orderIds);
        openOrdersByPair := openOrdersByPair[pair := orderIds];
      }
      ScanNothing(State().(byPair := lists), prices, now);
      LeftAfter(kept, Scanned(State().(byPair := lists), [], false));
      return Ok(());
    }

    method AddOrder(request: Request, prices: Prices, now: int) returns (orderId: Result<OrderId>)
      requires Valid()
      modifies this
      ensures Valid() && old(closedOrders) <= closedOrders
      ensures var t := Added(old(State()), request, prices, now);
              && State() == t.account
              && (t.outcome.Threw? <==> orderId.Err?)
              && (orderId.Ok? ==> orderId.value == old(nextOrderNumber))
    {
      hide TryFill, Valid;
      var id := nextOrderNumber;
      nextOrderNumber := nextOrderNumber + 1;
      openOrders := openOrders[id := request];
      var ids := if request.pair in openOrdersByPair then openOrdersByPair[request.pair] else [];
      openOrdersByPair := openOrdersByPair[request.pair := ids + [id]];
      tried := tried[id := []];
      var filled := TryFillOrder(id, prices, now);
      if filled.Err? {
        return Err(filled.message);
      }
      return Ok(id);
    }

    method CancelOrder(orderId: OrderId) returns (done: Result<()>)
      requires Valid()
      modifies this
      ensures Valid() && closedOrders == old(closedOrders)
      ensures done.Ok? <==> orderId in old(openOrders)
      ensures State() == if done.Ok? then Cancelled(old(State()), orderId) else old(State())
    {
      if orderId !in openOrders {
        return Err("Could not find order");
      }
      openOrders := openOrders - {orderId};
      cancelled := cancelled + {orderId};
      tried := tried - {orderId};
      return Ok(());
    }

    method GetClosedOrders() returns (orders: seq<Description>)
      ensures orders == closedOrders
    {
      orders := closedOrders;
    }
  }

  /** One call from outside, whether it returns or throws, is one step of the account. */
  method Perform(api: PaperTradeApi, c: Command)
    requires api.Valid()
    modifies api
    ensures api.Valid() && old(api.closedOrders) <= api.closedOrders
    ensures api.State() == Step(old(api.State()), c)
  {
    hide TryFill, Scan, Placed, Cancelled;
    match c {
      case AddOrder(r, prices, now) =>
        var added := api.AddOrder(r, prices, now);
      case CancelOrder(id) =>
        var done := api.CancelOrder(id);
      case TradeUpdate(pair, prices, now) =>
        var handled := api.TradeUpdateHandler(pair, prices, now);
    }
  }

  /** A paper trader after any calls is in a reachable state of the account. */
  method Drive(fee: Percent, initialBalances: map<string, Price>, commands: seq<Command>)
    returns (api: PaperTradeApi)
    ensures fresh(api) && api.Valid()
    ensures api.State() ==
            Run(Opened(fee, map asset | asset in initialBalances :: ToUnits(initialBalances[asset])), commands)
  {
    hide Step;
    api := new PaperTradeApi(fee, initialBalances);
    ghost var start := api.State();
    for i := 0 to |commands|
      invariant fresh(api) && api.Valid() && api.State() == Run(start, commands[..i])
    {
      assert commands[..i + 1][..i] == commands[..i];
      Perform(api, commands[i]);
    }
    assert commands[..|commands|] == commands;
  }
}
