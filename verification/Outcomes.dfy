/** What comes of trying an order, and of every call, told without the functions that decide it. */
module Outcomes {
  import opened Trading
  import opened Orders
  import opened Tries
  import opened LifeCycle
  import opened OrderIndex
  import opened TrailingStops

  /** The market calls for the order: always for a market order; for a limit order when the price is no worse
      than the limit; for a stop order when it has reached the stop; for a trailing order when it has come back
      from the extreme of all prices tried by the delta. A take-profit order is never called for. */
  predicate Calls(r: Request, tried: seq<Price>, price: Price) {
    match r.orderType
    case Market => true
    case Limit => if r.action == Buy then price <= r.assetPrice else r.assetPrice <= price
    case StopLoss => if r.action == Buy then r.stopPrice <= price else price <= r.stopPrice
    case TrailingStopLoss =>
      var extreme := ExtremeOf(r.action, tried + [price]);
      if r.action == Buy then r.trailingDelta * extreme <= price - extreme
      else r.trailingDelta * extreme <= extreme - price
    case TakeProfit => false
  }

  /** The price it is then executed at. */
  function CalledAt(r: Request, price: Price): Price {
    match r.orderType
    case Limit => r.assetPrice
    case StopLoss => r.stopPrice
    case _ => price
  }

  /** The balances hold what the order costs at price `p`, the fee included for a buyer. */
  predicate Affords(b: Balances, fee: Percent, r: Request, p: Price) {
    var cost := p * r.volume;
    if r.action == Buy then r.pair.priceUnit in b && ToUnits(cost + FeeOf(cost, fee)) <= b[r.pair.priceUnit]
    else r.pair.asset in b && ToUnits(r.volume) <= b[r.pair.asset]
  }

  lemma FiresExactly(a: Account, id: OrderId, price: Price)
    requires id in a.open && OrderFollowed(a, id)
    ensures var r := a.open[id];
            FillPrice(a, id, price) == if Calls(r, TriedAt(a, id), price) then Some(CalledAt(r, price)) else None
  {
    hide ExtremeOf, Follow, ShouldCloseTrailing;
    var r := a.open[id];
    if r.orderType.TrailingStopLoss? {
      NewExtremeIs(a, id, price);
      FallsShortMeaning(r, ExtremeOf(r.action, TriedAt(a, id) + [price]), price);
    }
  }

  lemma AffordsExactly(a: Account, id: OrderId, p: Price)
    requires id in a.open
    ensures CanExecute(a, id, p) <==> Affords(a.balances, a.fee, a.open[id], p)
  {
    hide ToUnits;
  }

  /** A try in a reachable state keeps the order exactly if there is no price or the market does not call for
      it, and otherwise fills it exactly if the funds are there, and throws if not. */
  lemma TryOutcome(fee: Percent, balances: Balances, commands: seq<Command>, id: OrderId, price: Price, now: int)
    requires id in Run(Opened(fee, balances), commands).open
    ensures var a := Run(Opened(fee, balances), commands);
            var r, outcome := a.open[id], TryFill(a, id, price, now).outcome;
            var called := price != 0.0 && Calls(r, TriedAt(a, id), price);
            var affords := Affords(a.balances, a.fee, r, CalledAt(r, price));
            && (outcome == Kept <==> !called)
            && (outcome == Filled <==> called && affords)
            && (outcome == Threw <==> called && !affords)
  {
    hide Run, FillPrice, CanExecute, DealOf, Settle, Calls, Affords, TrailingAfter, OrderFollowed;
    var a := Run(Opened(fee, balances), commands);
    FollowedByRun(fee, balances, commands);
    FiresExactly(a, id, price);
    AffordsExactly(a, id, CalledAt(a.open[id], price));
  }

  /** A new order is open as it was asked for, or executed as it was asked for. */
  lemma PlacedAsAsked(a: Account, r: Request, prices: Prices, now: int)
    ensures var t := Added(a, r, prices, now);
            && t.account.next == a.next + 1
            && (t.outcome != Filled ==> a.next in t.account.open && t.account.open[a.next] == r)
            && (t.outcome == Filled ==>
                  && a.next !in t.account.open && |t.account.fills| == |a.fills| + 1
                  && var f := t.account.fills[|a.fills|];
                     f.id == a.next && f.request == r && f.time == now && f.market == prices(r.pair))
  {
    hide TryFill;
    TryKeeps(Placed(a, r), a.next, prices(r.pair), now);
    if Added(a, r, prices, now).outcome == Filled {
      var p := TryFills(Placed(a, r), a.next, prices(r.pair), now);
    }
  }

  /** The order is as open as before, or its execution is among the new ones. */
  ghost predicate StillOpenOrFilled(a: Account, b: Account, x: OrderId)
    requires x in a.open
  {
    || (x in b.open && b.open[x] == a.open[x])
    || exists i :: |a.fills| <= i < |b.fills| && b.fills[i].id == x && b.fills[i].request == a.open[x]
  }

  lemma TryLeavesOrFills(a: Account, id: OrderId, price: Price, now: int, x: OrderId)
    requires id in a.open && x in a.open
    ensures var b := TryFill(a, id, price, now).account;
            b.cancelled == a.cancelled && a.fills <= b.fills && StillOpenOrFilled(a, b, x)
  {
    hide TryFill;
    TryKeeps(a, id, price, now);
    TryIsLocal(a, id, price, now, x);
    if TryFill(a, id, price, now).outcome.Filled? {
      var p := TryFills(a, id, price, now);
      assert TryFill(a, id, price, now).account.fills[|a.fills|].id == id;
    }
  }

  lemma {:induction false} ScanCancelsNone(a: Account, ids: seq<OrderId>, prices: Prices, now: int)
    ensures Scan(a, ids, prices, now).account.cancelled == a.cancelled
    decreases |ids|
  {
    hide TryFill;
    if ids != [] {
      var b := a;
      if ids[0] in a.open {
        TryKeeps(a, ids[0], prices(a.open[ids[0]].pair), now);
        b := TryFill(a, ids[0], prices(a.open[ids[0]].pair), now).account;
      }
      ScanCancelsNone(b, ids[1..], prices, now);
    }
  }

  lemma {:induction false} ScanLeavesOrFills(a: Account, ids: seq<OrderId>, prices: Prices, now: int, x: OrderId)
    requires x in a.open
    ensures var b := Scan(a, ids, prices, now).account;
            b.cancelled == a.cancelled && a.fills <= b.fills && StillOpenOrFilled(a, b, x)
    decreases |ids|
  {
    hide TryFill;
    if ids != [] {
      var b, c := a, Scan(a, ids, prices, now).account;
      if ids[0] in a.open {
        TryLeavesOrFills(a, ids[0], prices(a.open[ids[0]].pair), now, x);
        b := TryFill(a, ids[0], prices(a.open[ids[0]].pair), now).account;
      }
      ScanExtends(b, ids[1..], prices, now);
      if x in b.open {
        ScanLeavesOrFills(b, ids[1..], prices, now, x);
      } else {
        ScanCancelsNone(b, ids[1..], prices, now);
        var i :| |a.fills| <= i < |b.fills| && b.fills[i].id == x && b.fills[i].request == a.open[x];
        assert Scan(b, ids[1..], prices, now).account.fills[i].id == x;
      }
    }
  }

  lemma CancelLeaves(a: Account, id: OrderId, x: OrderId)
    requires x in a.open
    ensures x != id ==> StillOpenOrFilled(a, Step(a, CancelOrder(id)), x)
  {
  }

  lemma AddLeavesOrFills(a: Account, r: Request, prices: Prices, now: int, x: OrderId)
    requires x in a.open && x != a.next
    ensures var b := Added(a, r, prices, now).account; b.cancelled == a.cancelled && StillOpenOrFilled(a, b, x)
  {
    hide TryFill;
    TryLeavesOrFills(Placed(a, r), a.next, prices(r.pair), now, x);
  }

  lemma UpdateLeavesOrFills(a: Account, pair: Pair, prices: Prices, now: int, x: OrderId)
    requires x in a.open
    ensures var b := Updated(a, pair, prices, now).account; b.cancelled == a.cancelled && StillOpenOrFilled(a, b, x)
  {
    hide Scan;
    ScanLeavesOrFills(a.(byPair := a.byPair[pair := ListOf(a, pair)]), ListOf(a, pair), prices, now, x);
  }

  /** In a reachable state no call but its own cancellation takes an open order away, unless by executing it
      as it was asked for; and cancelling touches neither balances nor executions. */
  lemma OnlyCancelCancels(fee: Percent, balances: Balances, commands: seq<Command>, c: Command, x: OrderId)
    requires x in Run(Opened(fee, balances), commands).open
    ensures var a := Run(Opened(fee, balances), commands);
            var b := Step(a, c);
            && (c != CancelOrder(x) ==> StillOpenOrFilled(a, b, x))
            && (c == CancelOrder(x) ==> x !in b.open && b.cancelled == a.cancelled + {x})
            && (c.CancelOrder? ==> b.balances == a.balances && b.fills == a.fills)
            && (!c.CancelOrder? ==> b.cancelled == a.cancelled)
  {
    hide Run, TryFill, Scan, StillOpenOrFilled, Closed, DistinctFills;
    var a := Run(Opened(fee, balances), commands);
    PartitionByRun(fee, balances, commands);
    assert Issued(a, x);
    match c
    case AddOrder(r, prices, now) => AddLeavesOrFills(a, r, prices, now, x);
    case CancelOrder(id) => if id != x { CancelLeaves(a, id, x); }
    case TradeUpdate(pair, prices, now) => UpdateLeavesOrFills(a, pair, prices, now, x);
  }
}
