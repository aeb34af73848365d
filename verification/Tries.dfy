/** What one try of an order can change. */
module Tries {
  import opened Trading
  import opened Orders

  /** A try that does not fill changes neither the balances nor the open and closed orders. */
  lemma TryKeeps(a: Account, id: OrderId, price: Price, now: int)
    requires id in a.open
    ensures var t := TryFill(a, id, price, now);
            && t.account.fee == a.fee && t.account.byPair == a.byPair && t.account.next == a.next
            && t.account.cancelled == a.cancelled && t.account.attempts == a.attempts + [id]
            && (!t.outcome.Filled? ==>
                  t.account.open == a.open && t.account.balances == a.balances && t.account.fills == a.fills)
  {
    hide FillPrice, TrailingAfter, CanExecute, DealOf, Settle;
  }

  /** Where the market stands when an order fills: a limit order fills at its limit when the market is no
      worse than that, and a stop order at its stop price however far the market has gone past it. */
  lemma MarketAtFill(a: Account, id: OrderId, price: Price)
    requires id in a.open && FillPrice(a, id, price).Some?
    ensures var r, filled := a.open[id], FillPrice(a, id, price).value;
            && (r.orderType.Limit? ==>
                  filled == r.assetPrice && if r.action == Buy then price <= filled else filled <= price)
            && (r.orderType.StopLoss? ==>
                  filled == r.stopPrice && if r.action == Buy then filled <= price else price <= filled)
            && (r.orderType.Market? || r.orderType.TrailingStopLoss? ==> filled == price)
            && !r.orderType.TakeProfit?
  {
  }

  /** A try that fills closes that order alone, and settles it from funds that were there. */
  lemma TryFills(a: Account, id: OrderId, price: Price, now: int) returns (fillPrice: Price)
    requires id in a.open && TryFill(a, id, price, now).outcome.Filled?
    ensures price != 0.0 && CanExecute(a, id, fillPrice) && FillPrice(a, id, price) == Some(fillPrice)
    ensures var b := TryFill(a, id, price, now).account;
            && b.open == a.open - {id}
            && b.fills == a.fills + [Fill(id, a.open[id], fillPrice, now, price)]
            && b.balances == Settle(a.balances, DealOf(a.fee, a.open[id], fillPrice))
  {
    hide TrailingAfter, CanExecute, DealOf, Settle;
    fillPrice := FillPrice(a, id, price).value;
  }
}
