/** Trailing orders follow the best price they have seen. */
module TrailingStops {
  import opened Trading
  import opened Orders
  import opened Tries
  import opened OrderIndex

  /** The lowest of the prices for a buy, the highest for a sale, taken one by one. */
  function ExtremeOf(action: Action, prices: seq<Price>): real
    requires prices != []
  {
    var n := |prices| - 1;
    if n == 0 then prices[0] else Follow(action, ExtremeOf(action, prices[..n]), prices[n])
  }

  lemma {:induction false} ExtremeMeaning(action: Action, prices: seq<Price>)
    requires prices != []
    ensures forall i :: 0 <= i < |prices| ==>
              if action == Buy then ExtremeOf(action, prices) <= prices[i] else prices[i] <= ExtremeOf(action, prices)
    ensures exists i :: 0 <= i < |prices| && prices[i] == ExtremeOf(action, prices)
  {
    var n := |prices| - 1;
    if n == 0 {
      assert prices[0] == ExtremeOf(action, prices);
    } else {
      ExtremeMeaning(action, prices[..n]);
      var k :| 0 <= k < n && prices[..n][k] == ExtremeOf(action, prices[..n]);
      assert prices[k] == ExtremeOf(action, prices) || prices[n] == ExtremeOf(action, prices);
      forall i | 0 <= i < |prices|
        ensures if action == Buy then ExtremeOf(action, prices) <= prices[i] else prices[i] <= ExtremeOf(action, prices)
      {
        if i < n { assert prices[..n][i] == prices[i]; }
      }
    }
  }

  /** The price has not risen from the lowest price, for a buy, or fallen from the highest, for a sale, by
      the delta, a fraction of that extreme. */
  predicate FallsShort(action: Action, delta: real, extreme: real, price: real) {
    if action == Buy then price - extreme < delta * extreme else extreme - price < delta * extreme
  }

  lemma FallsShortMeaning(r: Request, extreme: real, price: real)
    ensures ShouldCloseTrailing(r, extreme, price) <==> !FallsShort(r.action, r.trailingDelta, extreme, price)
  {
    assert extreme * (1.0 + r.trailingDelta) == extreme + r.trailingDelta * extreme;
    assert extreme * (1.0 - r.trailingDelta) == extreme - r.trailingDelta * extreme;
  }

  /** None of the prices tried so far was the one to fire at. */
  ghost predicate Patient(r: Request, tried: seq<Price>) {
    forall k :: 0 <= k < |tried| ==> FallsShort(r.action, r.trailingDelta, ExtremeOf(r.action, tried[..k + 1]), tried[k])
  }

  /** A trailing order holds the extreme of the prices it was tried at since it was placed or last failed,
      and none of them was the one to fire at; other orders hold no extreme. */
  ghost predicate OrderFollowed(a: Account, id: OrderId)
    requires id in a.open
  {
    var r, tried := a.open[id], TriedAt(a, id);
    if r.orderType.TrailingStopLoss? then
      && (id in a.trailing <==> tried != [])
      && (tried != [] ==> a.trailing[id] == ExtremeOf(r.action, tried))
      && Patient(r, tried)
    else id !in a.trailing
  }

  ghost predicate Followed(a: Account) {
    && (forall id :: id in a.open ==> id < a.next && OrderFollowed(a, id))
    && (forall id :: id in a.trailing ==> id < a.next)
  }

  lemma ExtremeNext(action: Action, tried: seq<Price>, price: Price)
    ensures ExtremeOf(action, tried + [price]) ==
            if tried == [] then price else Follow(action, ExtremeOf(action, tried), price)
  {
    assert (tried + [price])[..|tried|] == tried;
  }

  lemma PatientNext(r: Request, tried: seq<Price>, price: Price)
    requires Patient(r, tried) && FallsShort(r.action, r.trailingDelta, ExtremeOf(r.action, tried + [price]), price)
    ensures Patient(r, tried + [price])
  {
    var all := tried + [price];
    forall k | 0 <= k < |all|
      ensures FallsShort(r.action, r.trailingDelta, ExtremeOf(r.action, all[..k + 1]), all[k])
    {
      if k < |tried| { assert all[..k + 1] == tried[..k + 1]; } else { assert all[..k + 1] == all; }
    }
  }

  lemma NewExtremeIs(a: Account, id: OrderId, price: Price)
    requires id in a.open && a.open[id].orderType.TrailingStopLoss? && OrderFollowed(a, id)
    ensures NewExtreme(a, id, price) == ExtremeOf(a.open[id].action, TriedAt(a, id) + [price])
  {
    ExtremeNext(a.open[id].action, TriedAt(a, id), price);
  }

  /** A trailing order fires at the first price at which the move from the extreme of all it was tried at,
      that price included, reaches its delta; it is kept at every price before. */
  lemma TrailingFires(a: Account, id: OrderId, price: Price, now: int)
    requires Followed(a) && id in a.open && a.open[id].orderType.TrailingStopLoss? && price != 0.0
    ensures var t, r := TryFill(a, id, price, now), a.open[id];
            var extreme := ExtremeOf(r.action, TriedAt(a, id) + [price]);
            && Patient(r, TriedAt(a, id))
            && (r.action == Buy ==> (t.outcome.Kept? <==> price - extreme < r.trailingDelta * extreme))
            && (r.action == Sell ==> (t.outcome.Kept? <==> extreme - price < r.trailingDelta * extreme))
            && (t.outcome.Kept? ==> id in t.account.trailing && t.account.trailing[id] == extreme)
  {
    hide CanExecute, DealOf, Settle, ShouldCloseTrailing, Follow;
    assert OrderFollowed(a, id);
    NewExtremeIs(a, id, price);
    FallsShortMeaning(a.open[id], ExtremeOf(a.open[id].action, TriedAt(a, id) + [price]), price);
  }

  lemma TrailingOther(a: Account, id: OrderId, price: Price, other: OrderId)
    requires id in a.open && other != id
    ensures var after := TrailingAfter(a, id, price);
            (other in a.trailing <==> other in after) && (other in after ==> after[other] == a.trailing[other])
  {
    hide FillPrice, NewExtreme;
  }

  /** A try touches the extreme and the history of its own order only. */
  lemma TryOther(a: Account, id: OrderId, price: Price, now: int, other: OrderId)
    requires id in a.open && other != id
    ensures var b := TryFill(a, id, price, now).account;
            && (other in a.trailing <==> other in b.trailing)
            && (other in a.trailing ==> a.trailing[other] == b.trailing[other])
            && TriedAt(a, other) == TriedAt(b, other)
  {
    hide CanExecute, DealOf, Settle, FillPrice, TrailingAfter;
    TrailingOther(a, id, price, other);
  }

  lemma TryOwn(a: Account, id: OrderId, price: Price, now: int)
    requires id in a.open && OrderFollowed(a, id) && !TryFill(a, id, price, now).outcome.Filled?
    ensures var b := TryFill(a, id, price, now).account; id in b.open && OrderFollowed(b, id)
  {
    hide CanExecute, DealOf, Settle, ShouldCloseTrailing, ShouldCloseLimit, ShouldCloseStopLoss, Follow, ExtremeOf;
    var r := a.open[id];
    if r.orderType.TrailingStopLoss? && price != 0.0 {
      NewExtremeIs(a, id, price);
      FallsShortMeaning(r, ExtremeOf(r.action, TriedAt(a, id) + [price]), price);
      if FillPrice(a, id, price).None? {
        PatientNext(r, TriedAt(a, id), price);
      }
    }
  }

  lemma FollowedSame(a: Account, b: Account, x: OrderId)
    requires x in a.open && x in b.open && a.open[x] == b.open[x] && TriedAt(a, x) == TriedAt(b, x)
    requires x in a.trailing <==> x in b.trailing
    requires x in a.trailing ==> a.trailing[x] == b.trailing[x]
    requires OrderFollowed(a, x)
    ensures OrderFollowed(b, x)
  {
  }

  lemma FollowedByTry(a: Account, id: OrderId, price: Price, now: int)
    requires Followed(a) && id in a.open
    ensures Followed(TryFill(a, id, price, now).account)
  {
    hide TryFill, OrderFollowed;
    var t := TryFill(a, id, price, now);
    var b := t.account;
    TryKeeps(a, id, price, now);
    forall x | x in b.open ensures x < b.next && OrderFollowed(b, x) {
      TryIsLocal(a, id, price, now, x);
      if x == id {
        TryOwn(a, id, price, now);
      } else {
        TryOther(a, id, price, now, x);
        FollowedSame(a, b, x);
      }
    }
    forall x | x in b.trailing ensures x < b.next {
      if x != id { TryOther(a, id, price, now, x); }
    }
  }

  lemma {:induction false} FollowedByScan(a: Account, ids: seq<OrderId>, prices: Prices, now: int)
    requires Followed(a)
    ensures Followed(Scan(a, ids, prices, now).account)
    decreases |ids|
  {
    hide TryFill, Followed;
    if ids != [] {
      var b := a;
      if ids[0] in a.open {
        FollowedByTry(a, ids[0], prices(a.open[ids[0]].pair), now);
        b := TryFill(a, ids[0], prices(a.open[ids[0]].pair), now).account;
      }
      FollowedByScan(b, ids[1..], prices, now);
    }
  }

  lemma NewFollowed(b: Account, x: OrderId)
    requires x in b.open && x !in b.trailing && TriedAt(b, x) == []
    ensures OrderFollowed(b, x)
  {
  }

  lemma FollowedByPlacing(a: Account, r: Request)
    requires Followed(a)
    ensures Followed(Placed(a, r)) && a.next in Placed(a, r).open
  {
    hide OrderFollowed;
    var b := Placed(a, r);
    forall x | x in b.open ensures x < b.next && OrderFollowed(b, x) {
      if x == a.next { NewFollowed(b, x); } else { FollowedSame(a, b, x); }
    }
  }

  lemma FollowedIgnoresLists(a: Account, lists: map<Pair, seq<OrderId>>)
    requires Followed(a)
    ensures Followed(a.(byPair := lists))
  {
    hide OrderFollowed;
    forall x | x in a.open ensures OrderFollowed(a.(byPair := lists), x) {
      FollowedSame(a, a.(byPair := lists), x);
    }
  }

  lemma FollowedByCancelling(a: Account, id: OrderId)
    requires Followed(a) && id in a.open
    ensures Followed(Cancelled(a, id))
  {
    hide OrderFollowed;
    var b := Cancelled(a, id);
    forall x | x in b.open ensures OrderFollowed(b, x) {
      FollowedSame(a, b, x);
    }
  }

  lemma FollowedByStep(a: Account, c: Command)
    requires Followed(a)
    ensures Followed(Step(a, c))
  {
    hide TryFill, Scan, Placed, Cancelled, Followed;
    match c
    case AddOrder(r, prices, now) =>
      FollowedByPlacing(a, r);
      FollowedByTry(Placed(a, r), a.next, prices(r.pair), now);
    case CancelOrder(id) =>
      if id in a.open { FollowedByCancelling(a, id); }
    case TradeUpdate(pair, prices, now) =>
      var begun := a.(byPair := a.byPair[pair := ListOf(a, pair)]);
      FollowedIgnoresLists(a, begun.byPair);
      FollowedByScan(begun, ListOf(a, pair), prices, now);
      var s := Scan(begun, ListOf(a, pair), prices, now);
      FollowedIgnoresLists(s.account, s.account.byPair[pair := s.left]);
  }

  lemma OpenedIsFollowed(fee: Percent, balances: Balances)
    ensures Followed(Opened(fee, balances))
  {
  }

  /** In every reachable state every open trailing order holds the extreme of the non-zero prices it was
      tried at since it was placed or last failed, none of which was one to fire at. */
  lemma {:induction false} FollowedByRun(fee: Percent, balances: Balances, commands: seq<Command>)
    ensures Followed(Run(Opened(fee, balances), commands))
  {
    hide Step, Followed;
    if commands == [] {
      OpenedIsFollowed(fee, balances);
    } else {
      FollowedByRun(fee, balances, commands[..|commands| - 1]);
      FollowedByStep(Run(Opened(fee, balances), commands[..|commands| - 1]), commands[|commands| - 1]);
    }
  }

  /** So does every trailing order that is open in any reachable state. */
  lemma TrailingFiresInRun(
    fee: Percent, balances: Balances, commands: seq<Command>, id: OrderId, price: Price, now: int)
    requires id in Run(Opened(fee, balances), commands).open && price != 0.0
    requires Run(Opened(fee, balances), commands).open[id].orderType.TrailingStopLoss?
    ensures var a := Run(Opened(fee, balances), commands);
            var r, t := a.open[id], TryFill(a, id, price, now);
            var extreme := ExtremeOf(r.action, TriedAt(a, id) + [price]);
            && Patient(r, TriedAt(a, id))
            && (r.action == Buy ==> (t.outcome.Kept? <==> price - extreme < r.trailingDelta * extreme))
            && (r.action == Sell ==> (t.outcome.Kept? <==> extreme - price < r.trailingDelta * extreme))
  {
    hide Run, TryFill, Followed, Patient, ExtremeOf;
    FollowedByRun(fee, balances, commands);
    TrailingFires(Run(Opened(fee, balances), commands), id, price, now);
  }

  /** A sale that trails by a tenth, tried at 100, 120 and 100, waits at the first two prices and fires at the
      third. */
  lemma TrailingWitness(a: Account, id: OrderId)
    requires id in a.open && id !in a.trailing && TriedAt(a, id) == []
    requires var r := a.open[id]; r.orderType == TrailingStopLoss && r.action == Sell && r.trailingDelta == 0.1
    ensures var b := TryFill(a, id, 100.0, 0);
            && b.outcome == Kept && id in b.account.open
            && var c := TryFill(b.account, id, 120.0, 1);
               && c.outcome == Kept && id in c.account.open && c.account.trailing[id] == 120.0
               && TryFill(c.account, id, 100.0, 2).outcome != Kept
  {
    hide CanExecute, DealOf, Settle;
  }
}
