/** Where the money goes: balances follow from the executed orders, and truncation gives little away. */
module Money {
  import opened Trading
  import opened Orders
  import opened Tries

  /** The balances after executing `fills` one after the other, if each can be paid for when it comes. */
  function Replay(b: Balances, fee: Percent, fills: seq<Fill>): Option<Balances> {
    if fills == [] then Some(b) else
      var n := |fills| - 1;
      match Replay(b, fee, fills[..n])
      case None => None
      case Some(m) =>
        var d := DealOf(fee, fills[n].request, fills[n].price);
        if Covers(m, d.sold, d.cost) then Some(Settle(m, d)) else None
  }

  ghost predicate Accounted(initial: Balances, a: Account) {
    Replay(initial, a.fee, a.fills) == Some(a.balances)
  }

  lemma ReplayNext(b: Balances, fee: Percent, fills: seq<Fill>, f: Fill)
    requires Replay(b, fee, fills).Some?
    requires var d := DealOf(fee, f.request, f.price); Covers(Replay(b, fee, fills).value, d.sold, d.cost)
    ensures Replay(b, fee, fills + [f]) ==
            Some(Settle(Replay(b, fee, fills).value, DealOf(fee, f.request, f.price)))
  {
    hide DealOf, Settle, Covers;
    assert (fills + [f])[..|fills|] == fills;
  }

  lemma AccountedByTry(initial: Balances, a: Account, id: OrderId, price: Price, now: int)
    requires Accounted(initial, a) && id in a.open
    ensures Accounted(initial, TryFill(a, id, price, now).account)
  {
    hide TryFill, DealOf, Settle, Covers, Replay;
    TryKeeps(a, id, price, now);
    if TryFill(a, id, price, now).outcome.Filled? {
      var p := TryFills(a, id, price, now);
      ReplayNext(initial, a.fee, a.fills, Fill(id, a.open[id], p, now, price));
    }
  }

  lemma {:induction false} AccountedByScan(initial: Balances, a: Account, ids: seq<OrderId>, prices: Prices, now: int)
    requires Accounted(initial, a)
    ensures Accounted(initial, Scan(a, ids, prices, now).account)
    decreases |ids|
  {
    hide TryFill, Accounted;
    if ids != [] {
      var b := a;
      if ids[0] in a.open {
        AccountedByTry(initial, a, ids[0], prices(a.open[ids[0]].pair), now);
        b := TryFill(a, ids[0], prices(a.open[ids[0]].pair), now).account;
      }
      AccountedByScan(initial, b, ids[1..], prices, now);
    }
  }

  lemma AccountedByStep(initial: Balances, a: Account, c: Command)
    requires Accounted(initial, a)
    ensures Accounted(initial, Step(a, c))
  {
    hide TryFill, Scan, Replay;
    match c
    case AddOrder(r, prices, now) =>
      AccountedByTry(initial, Placed(a, r), a.next, prices(r.pair), now);
    case CancelOrder(id) =>
    case TradeUpdate(pair, prices, now) =>
      AccountedByScan(initial, a.(byPair := a.byPair[pair := ListOf(a, pair)]), ListOf(a, pair), prices, now);
  }

  lemma ReplayNothing(initial: Balances, fee: Percent)
    ensures Replay(initial, fee, []) == Some(initial)
  {
  }

  /** In every reachable state the balances are the initial ones with the executions replayed, and every
      execution was covered when it was made: no subtraction goes below zero. */
  lemma {:induction false} BalancesReplay(fee: Percent, initial: Balances, commands: seq<Command>)
    ensures var a := Run(Opened(fee, initial), commands);
            Replay(initial, a.fee, a.fills) == Some(a.balances)
  {
    hide Step, Replay;
    if commands == [] {
      ReplayNothing(initial, fee);
    } else {
      var before := commands[..|commands| - 1];
      BalancesReplay(fee, initial, before);
      AccountedByStep(initial, Run(Opened(fee, initial), before), commands[|commands| - 1]);
    }
  }

  /** A try throws exactly when the order fires at a price it cannot be paid at; then the order stays open,
      balances and closed orders stay as they were, and a trailing order has lost its extreme. */
  lemma FailureLeavesOrderOpen(a: Account, id: OrderId, price: Price, now: int)
    requires id in a.open
    ensures var t := TryFill(a, id, price, now);
            && (t.outcome.Threw? <==>
                  price != 0.0 && FillPrice(a, id, price).Some? && !CanExecute(a, id, FillPrice(a, id, price).value))
            && (t.outcome.Threw? ==>
                  && t.account.open == a.open && t.account.balances == a.balances && t.account.fills == a.fills
                  && t.account.trailing == (if a.open[id].orderType.TrailingStopLoss? then a.trailing - {id} else a.trailing)
                  && TriedAt(t.account, id) == [])
  {
    hide FillPrice, CanExecute, DealOf, Settle;
  }

  // ---- What an execution moves ----

  /** The asset is there, and as much of it, in one as in the other. */
  predicate SameOf(b: Balances, c: Balances, asset: string) {
    (asset in b <==> asset in c) && BalanceOf(b, asset) == BalanceOf(c, asset)
  }

  /** An execution raises the gained asset by the gain, lowers the sold one by the cost, and leaves every
      other asset as it was. */
  lemma SettleMeaning(b: Balances, d: Deal, asset: string)
    requires Covers(b, d.sold, d.cost)
    ensures asset != d.gained && asset != d.sold ==> SameOf(b, Settle(b, d), asset)
    ensures d.gained in Settle(b, d) && d.sold in Settle(b, d)
    ensures d.gained != d.sold ==>
              && BalanceOf(Settle(b, d), d.gained) == BalanceOf(b, d.gained) + d.gain
              && BalanceOf(Settle(b, d), d.sold) == BalanceOf(b, d.sold) - d.cost
    ensures d.gained == d.sold ==> BalanceOf(Settle(b, d), d.sold) == BalanceOf(b, d.sold) + d.gain - d.cost
  {
  }

  /** The balances after a try that fills: a buyer gets the volume for its price with the fee, a seller the
      price without the fee for the volume, each in units cut off, and no other asset is touched. */
  lemma FilledMoves(a: Account, id: OrderId, price: Price, now: int, asset: string) returns (p: Price)
    requires id in a.open && TryFill(a, id, price, now).outcome.Filled?
    ensures FillPrice(a, id, price) == Some(p)
    ensures var b, r := TryFill(a, id, price, now).account.balances, a.open[id];
            var bought, cost := r.pair.asset, p * r.volume;
            var unit := r.pair.priceUnit;
            && (asset != bought && asset != unit ==> SameOf(a.balances, b, asset))
            && bought in b && unit in b
            && (bought != unit && r.action == Buy ==>
                  && BalanceOf(b, bought) == BalanceOf(a.balances, bought) + ToUnits(r.volume)
                  && BalanceOf(b, unit) == BalanceOf(a.balances, unit) - ToUnits(cost + FeeOf(cost, a.fee)))
            && (bought != unit && r.action == Sell ==>
                  && BalanceOf(b, bought) == BalanceOf(a.balances, bought) - ToUnits(r.volume)
                  && BalanceOf(b, unit) == BalanceOf(a.balances, unit) + ToUnits(cost - FeeOf(cost, a.fee)))
  {
    hide TryFill, FillPrice, Settle, ToUnits, FeeOf;
    p := TryFills(a, id, price, now);
    var d := DealOf(a.fee, a.open[id], p);
    SettleMeaning(a.balances, d, asset);
  }

  lemma {:induction false} ReplayLeaves(b: Balances, fee: Percent, fills: seq<Fill>, asset: string)
    requires Replay(b, fee, fills).Some?
    requires forall i :: 0 <= i < |fills| ==> asset != fills[i].request.pair.asset && asset != fills[i].request.pair.priceUnit
    ensures SameOf(b, Replay(b, fee, fills).value, asset)
  {
    hide Settle, Covers;
    if fills != [] {
      var n := |fills| - 1;
      ReplayLeaves(b, fee, fills[..n], asset);
      SettleMeaning(Replay(b, fee, fills[..n]).value, DealOf(fee, fills[n].request, fills[n].price), asset);
    }
  }

  /** In every reachable state an asset that no executed order was about is held as it was at first. */
  lemma UntradedIsKept(fee: Percent, initial: Balances, commands: seq<Command>, asset: string)
    requires var fills := Run(Opened(fee, initial), commands).fills;
             forall i :: 0 <= i < |fills| ==> asset != fills[i].request.pair.asset && asset != fills[i].request.pair.priceUnit
    ensures SameOf(initial, Run(Opened(fee, initial), commands).balances, asset)
  {
    hide Run, Replay;
    var a := Run(Opened(fee, initial), commands);
    BalancesReplay(fee, initial, commands);
    ReplayLeaves(initial, a.fee, a.fills, asset);
  }

  // ---- The prices orders are filled at ----

  /** A market or trailing order filled at the market; a limit order at its limit, with the market no worse;
      a stop order at its stop price, however far the market had gone past it. */
  ghost predicate PricedRight(f: Fill) {
    var r := f.request;
    && f.market != 0.0
    && match r.orderType
       case Market => f.price == f.market
       case TrailingStopLoss => f.price == f.market
       case Limit => f.price == r.assetPrice && if r.action == Buy then f.market <= f.price else f.price <= f.market
       case StopLoss => f.price == r.stopPrice && if r.action == Buy then f.price <= f.market else f.market <= f.price
       case TakeProfit => false
  }

  ghost predicate AllPricedRight(fills: seq<Fill>) {
    forall i :: 0 <= i < |fills| ==> PricedRight(fills[i])
  }

  lemma FillIsPricedRight(a: Account, id: OrderId, price: Price, now: int, fillPrice: Price)
    requires id in a.open && price != 0.0 && FillPrice(a, id, price) == Some(fillPrice)
    ensures PricedRight(Fill(id, a.open[id], fillPrice, now, price))
  {
    MarketAtFill(a, id, price);
  }

  lemma PricedByTry(a: Account, id: OrderId, price: Price, now: int)
    requires AllPricedRight(a.fills) && id in a.open
    ensures AllPricedRight(TryFill(a, id, price, now).account.fills)
  {
    hide TryFill, PricedRight;
    TryKeeps(a, id, price, now);
    if TryFill(a, id, price, now).outcome.Filled? {
      var p := TryFills(a, id, price, now);
      FillIsPricedRight(a, id, price, now, p);
    }
  }

  lemma {:induction false} PricedByScan(a: Account, ids: seq<OrderId>, prices: Prices, now: int)
    requires AllPricedRight(a.fills)
    ensures AllPricedRight(Scan(a, ids, prices, now).account.fills)
    decreases |ids|
  {
    hide TryFill, AllPricedRight;
    if ids != [] {
      var b := a;
      if ids[0] in a.open {
        PricedByTry(a, ids[0], prices(a.open[ids[0]].pair), now);
        b := TryFill(a, ids[0], prices(a.open[ids[0]].pair), now).account;
      }
      PricedByScan(b, ids[1..], prices, now);
    }
  }

  lemma PricedByStep(a: Account, c: Command)
    requires AllPricedRight(a.fills)
    ensures AllPricedRight(Step(a, c).fills)
  {
    hide TryFill, Scan, AllPricedRight;
    match c
    case AddOrder(r, prices, now) =>
      PricedByTry(Placed(a, r), a.next, prices(r.pair), now);
    case CancelOrder(id) =>
    case TradeUpdate(pair, prices, now) =>
      PricedByScan(a.(byPair := a.byPair[pair := ListOf(a, pair)]), ListOf(a, pair), prices, now);
  }

  /** In every reachable state every execution was made at the price its order allows, in a market that
      called for it. */
  lemma {:induction false} ExecutionsPricedRight(fee: Percent, initial: Balances, commands: seq<Command>)
    ensures AllPricedRight(Run(Opened(fee, initial), commands).fills)
  {
    hide Step;
    if commands != [] {
      var before := commands[..|commands| - 1];
      ExecutionsPricedRight(fee, initial, before);
      PricedByStep(Run(Opened(fee, initial), before), commands[|commands| - 1]);
    }
  }

  // ---- What truncation gives away ----

  /** The value of a pair's two balances in units of the price unit, the asset priced at `p`. */
  function Worth(b: Balances, pair: Pair, p: real): real {
    BalanceOf(b, pair.priceUnit) as real + p * BalanceOf(b, pair.asset) as real
  }

  lemma UnitsBounds(v: real)
    requires v >= 0.0
    ensures v * VOLUME_MODIFIER - 1.0 < ToUnits(v) as real <= v * VOLUME_MODIFIER
  {
  }

  lemma FeeRate(cost: real, fee: Percent, m: real)
    requires cost >= 0.0
    ensures (cost + FeeOf(cost, fee)) * m == cost * m * (1.0 + fee / 100.0)
    ensures (cost - FeeOf(cost, fee)) * m == cost * m * (1.0 - fee / 100.0)
  {
    var f := FeeOf(cost, fee);
    assert f == cost * (fee / 100.0);
    assert f * m == cost * m * (fee / 100.0);
  }

  /** A deal moves the volume one way and the price of it the other, the fee added for a buyer and taken
      off for a seller, each amount short of the exact one by less than a unit. */
  lemma DealMeaning(fee: Percent, r: Request, p: Price)
    ensures var d, v, c := DealOf(fee, r, p), r.volume * VOLUME_MODIFIER, p * r.volume * VOLUME_MODIFIER;
            var rate := fee / 100.0;
            if r.action == Buy then
              && d.gained == r.pair.asset && v - 1.0 < d.gain as real <= v
              && d.sold == r.pair.priceUnit && c * (1.0 + rate) - 1.0 < d.cost as real <= c * (1.0 + rate)
            else
              && d.sold == r.pair.asset && v - 1.0 < d.cost as real <= v
              && d.gained == r.pair.priceUnit && c * (1.0 - rate) - 1.0 < d.gain as real <= c * (1.0 - rate)
  {
    hide ToUnits;
    var cost := Cost(r, p);
    UnitsBounds(r.volume);
    FeeRate(cost, fee, VOLUME_MODIFIER);
    if r.action == Buy { UnitsBounds(cost + FeeOf(cost, fee)); } else { UnitsBounds(cost - FeeOf(cost, fee)); }
  }

  lemma ProductOrder(p: real, x: real, y: real)
    requires p > 0.0
    ensures x <= y ==> p * x <= p * y
    ensures x < y ==> p * x < p * y
  {
  }

  lemma BuyArithmetic(p: real, v: real, f: real, m: real, gain: real, cost: real)
    requires p > 0.0 && f >= 0.0 && m >= 0.0
    requires gain <= v * m && (p * v + f) * m - 1.0 < cost
    ensures p * gain - cost < 1.0
  {
    ProductOrder(p, gain, v * m);
    assert f * m >= 0.0;
    assert (p * v + f) * m == p * (v * m) + f * m;
  }

  lemma SellArithmetic(p: real, v: real, f: real, m: real, gain: real, cost: real)
    requires p > 0.0 && f >= 0.0 && m >= 0.0
    requires gain <= (p * v - f) * m && v * m - 1.0 < cost
    ensures gain - p * cost < p
  {
    ProductOrder(p, v * m - 1.0, cost);
    assert f * m >= 0.0;
    assert (p * v - f) * m == p * (v * m) - f * m;
    assert p * (v * m - 1.0) == p * (v * m) - p;
  }

  /** The worth of a pair changes by what its deal moves. */
  lemma WorthMoves(b: Balances, pair: Pair, d: Deal, p: real)
    requires pair.asset != pair.priceUnit && Covers(b, d.sold, d.cost)
    ensures d.gained == pair.asset && d.sold == pair.priceUnit ==>
              Worth(Settle(b, d), pair, p) == Worth(b, pair, p) + p * d.gain as real - d.cost as real
    ensures d.gained == pair.priceUnit && d.sold == pair.asset ==>
              Worth(Settle(b, d), pair, p) == Worth(b, pair, p) + d.gain as real - p * d.cost as real
  {
    var asset := BalanceOf(b, pair.asset) as real;
    assert p * (asset + d.gain as real) == p * asset + p * d.gain as real;
    assert p * (asset - d.cost as real) == p * asset - p * d.cost as real;
  }

  /** One execution raises the worth of its pair by less than the fraction of a unit it may cut off. */
  lemma SettleLeak(b: Balances, fee: Percent, r: Request, p: Price)
    requires r.pair.asset != r.pair.priceUnit && p > 0.0
    requires var d := DealOf(fee, r, p); Covers(b, d.sold, d.cost)
    ensures Worth(Settle(b, DealOf(fee, r, p)), r.pair, p) < Worth(b, r.pair, p) + Max(1.0, p)
  {
    hide ToUnits, FeeOf, Settle, Worth;
    var d := DealOf(fee, r, p);
    var cost, f := Cost(r, p), FeeOf(Cost(r, p), fee);
    WorthMoves(b, r.pair, d, p);
    UnitsBounds(r.volume);
    if r.action == Buy {
      UnitsBounds(cost + f);
      BuyArithmetic(p, r.volume, f, VOLUME_MODIFIER, d.gain as real, d.cost as real);
    } else {
      UnitsBounds(cost - f);
      SellArithmetic(p, r.volume, f, VOLUME_MODIFIER, d.gain as real, d.cost as real);
    }
  }

  lemma Multiple(n: nat, x: real)
    ensures (n + 1) as real * x == n as real * x + x
  {
    var y := n as real;
    assert (n + 1) as real == y + 1.0;
    assert (y + 1.0) * x == y * x + x;
  }

  /** At a constant price, executing n orders of one pair raises the worth of its two balances by less than
      n units of the larger of 1 and the price. */
  lemma {:induction false} TruncationLeakIsBounded(initial: Balances, fee: Percent, fills: seq<Fill>, pair: Pair, p: Price)
    requires pair.asset != pair.priceUnit && p > 0.0 && Replay(initial, fee, fills).Some?
    requires forall i :: 0 <= i < |fills| ==> fills[i].request.pair == pair && fills[i].price == p
    ensures var after := Worth(Replay(initial, fee, fills).value, pair, p);
            if fills == [] then after == Worth(initial, pair, p)
            else after < Worth(initial, pair, p) + |fills| as real * Max(1.0, p)
  {
    hide DealOf, Settle, Worth, Covers, Max;
    if fills != [] {
      var n := |fills| - 1;
      TruncationLeakIsBounded(initial, fee, fills[..n], pair, p);
      SettleLeak(Replay(initial, fee, fills[..n]).value, fee, fills[n].request, p);
      Multiple(n, Max(1.0, p));
    }
  }

  lemma UnitsMonotone(x: real, y: real)
    requires 0.0 <= x <= y
    ensures ToUnits(x) <= ToUnits(y)
  {
    var m, n := x * VOLUME_MODIFIER, y * VOLUME_MODIFIER;
    assert m <= n;
  }

  lemma SameCost(r: Request, s: Request, p: Price)
    requires r.volume == s.volume
    ensures Cost(r, p) == Cost(s, p)
  {
  }

  /** Buying a volume and selling it again at the same price restores the asset exactly and never leaves
      more of the price unit than before. */
  lemma BuyThenSell(b: Balances, fee: Percent, buy: Request, sell: Request, p: Price)
    requires buy.action == Buy && sell.action == Sell && buy.pair == sell.pair && buy.volume == sell.volume
    requires buy.pair.asset != buy.pair.priceUnit
    requires var d := DealOf(fee, buy, p); Covers(b, d.sold, d.cost)
    ensures var m := Settle(b, DealOf(fee, buy, p));
            var d := DealOf(fee, sell, p);
            && Covers(m, d.sold, d.cost)
            && BalanceOf(Settle(m, d), buy.pair.asset) == BalanceOf(b, buy.pair.asset)
            && BalanceOf(Settle(m, d), buy.pair.priceUnit) <= BalanceOf(b, buy.pair.priceUnit)
  {
    hide ToUnits, FeeOf, Cost;
    assert Cost(sell, p) == Cost(buy, p) by { SameCost(buy, sell, p); }
    var cost := Cost(buy, p);
    UnitsMonotone(cost - FeeOf(cost, fee), cost + FeeOf(cost, fee));
  }
}
