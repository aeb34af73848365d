/** No open order is forgotten: the pairs of open orders are subscribed to, and each order is tried in every
    iteration. */
module WatchedOrders {
  import opened Trading
  import opened Orders
  import opened OrderIndex
  import opened BackTestSession

  /** The pair of every open order is subscribed to, unless the strategy has unsubscribed from it since. */
  ghost predicate Watched(s: Session) {
    forall id :: id in s.account.open ==>
      s.account.open[id].pair in s.subscribed || s.account.open[id].pair in s.unsubscribed
  }

  lemma WatchedByAct(s: Session, view: View, now: int, act: Act)
    requires Usable(view) && act.Valid() && Watched(s)
    ensures Watched(Acted(s, view, now, act))
  {
    hide TryFill, Usable, MarketAt;
    if act.Place? {
      var r, a := act.request, s.account;
      forall id ensures id in Placed(a, r).open ==> id == a.next || id in a.open {}
      forall id | id in Added(a, r, MarketAt(view, now), now).account.open
        ensures id in Placed(a, r).open && Added(a, r, MarketAt(view, now), now).account.open[id] == Placed(a, r).open[id]
      {
        TryIsLocal(Placed(a, r), a.next, MarketAt(view, now)(r.pair), now, id);
      }
    }
  }

  lemma {:induction false} WatchedByPlaying(s: Session, view: View, now: int, i: nat, strategy: Strategy, limit: nat)
    requires Usable(view) && Proper(strategy) && Watched(s)
    ensures Watched(Played(s, view, now, i, strategy, limit).session)
    decreases limit
  {
    hide Acted, Usable, Watched;
    if limit > 0 && strategy(i, s.replies).Do? {
      var act := strategy(i, s.replies).act;
      WatchedByAct(s, view, now, act);
      WatchedByPlaying(Acted(s, view, now, act), view, now, i, strategy, limit - 1);
    }
  }

  lemma UpdateIsLocal(a: Account, pair: Pair, prices: Prices, now: int, id: OrderId)
    requires Indexed(a)
    ensures var b := Updated(a, pair, prices, now).account;
            && (id in b.open ==> id in a.open && b.open[id] == a.open[id])
            && (id in a.open && a.open[id].pair != pair ==> id in b.open)
  {
    hide Scan, Indexed;
    var begun := a.(byPair := a.byPair[pair := ListOf(a, pair)]);
    ScanIsLocal(begun, ListOf(a, pair), prices, now, id);
    ListFits(a, pair);
  }

  /** Notifying only closes orders, and keeps the lists of orders right. */
  lemma {:induction false} NotifiedIsLocal(a: Account, order: seq<Pair>, prices: Prices, now: int)
    requires Indexed(a)
    ensures var b := NotifiedOf(a, order, prices, now).account;
            Indexed(b) && forall id :: id in b.open ==> id in a.open && b.open[id] == a.open[id]
    decreases |order|
  {
    hide Updated, Indexed;
    if order != [] {
      var b := Updated(a, order[0], prices, now).account;
      IndexedByUpdate(a, order[0], prices, now);
      forall id ensures id in b.open ==> id in a.open && b.open[id] == a.open[id] {
        UpdateIsLocal(a, order[0], prices, now, id);
      }
      NotifiedIsLocal(b, order[1..], prices, now);
    }
  }

  lemma IndexedByAct(s: Session, view: View, now: int, act: Act)
    requires Usable(view) && act.Valid() && Indexed(s.account)
    ensures Indexed(Acted(s, view, now, act).account)
  {
    hide TryFill, Indexed, Usable, MarketAt, Placed, Cancelled;
    if act.Place? { IndexedByStep(s.account, AddOrder(act.request, MarketAt(view, now), now)); }
    if act.Cancel? { IndexedByStep(s.account, CancelOrder(act.id)); }
  }

  lemma {:induction false} IndexedByPlaying(s: Session, view: View, now: int, i: nat, strategy: Strategy, limit: nat)
    requires Usable(view) && Proper(strategy) && Indexed(s.account)
    ensures Indexed(Played(s, view, now, i, strategy, limit).session.account)
    decreases limit
  {
    hide Step, TryFill, Indexed, Usable, MarketAt;
    if limit > 0 && strategy(i, s.replies).Do? {
      var act := strategy(i, s.replies).act;
      var after := Acted(s, view, now, act);
      IndexedByAct(s, view, now, act);
      IndexedByPlaying(after, view, now, i, strategy, limit - 1);
    }
  }

  /** After any test every open order is watched and in its pair's list. */
  lemma {:induction false} TestIsWatched(t: Setting, view: View, orders: seq<seq<Pair>>)
    requires Usable(view) && Proper(t.strategy) && t.account == Opened(t.account.fee, t.account.balances)
    ensures var s := Tested(t, view, orders).session; Watched(s) && Indexed(s.account)
  {
    hide Played, NotifiedOf, Usable, MarketAt, Indexed;
    if orders == [] {
      OpenedIsIndexed(t.account.fee, t.account.balances);
    } else {
      var n := |orders| - 1;
      var p := Tested(t, view, orders[..n]);
      TestIsWatched(t, view, orders[..n]);
      var now := t.Clock(n);
      NotifiedIsLocal(p.session.account, orders[n], MarketAt(view, now), now);
      var s := p.session.(account := NotifiedOf(p.session.account, orders[n], MarketAt(view, now), now).account);
      WatchedByPlaying(s, view, now, n, t.strategy, t.limit);
      IndexedByPlaying(s, view, now, n, t.strategy, t.limit);
    }
  }

  /** `ids` are the open orders of the pairs `pairs`, each once. */
  ghost predicate OpenOfAll(a: Account, pairs: seq<Pair>, ids: seq<OrderId>) {
    && (forall i, j :: 0 <= i < j < |ids| ==> ids[i] != ids[j])
    && (forall id :: id in ids <==> id in a.open && a.open[id].pair in pairs)
  }

  lemma OpenOfJoined(a: Account, b: Account, pairs: seq<Pair>, first: seq<OrderId>, rest: seq<OrderId>)
    requires pairs != [] && pairs[0] !in pairs[1..]
    requires OpenOf(a, pairs[0], first) && OpenOfAll(b, pairs[1..], rest)
    requires forall id :: id in b.open ==> id in a.open && b.open[id] == a.open[id]
    requires forall id :: id in a.open && a.open[id].pair != pairs[0] ==> id in b.open
    ensures OpenOfAll(a, pairs, first + rest)
  {
    assert pairs == [pairs[0]] + pairs[1..];
    assert forall p :: p in pairs <==> p == pairs[0] || p in pairs[1..];
    var ids := first + rest;
    forall i, j | 0 <= i < j < |ids| ensures ids[i] != ids[j] {
      if i < |first| <= j {
        assert ids[i] in first && ids[j] in rest;
      }
    }
  }

  lemma NothingOpenOf(a: Account)
    ensures OpenOfAll(a, [], [])
  {
  }

  /** Notifying that does not throw tries the open orders of all notified pairs, each exactly once. */
  lemma {:induction false} NotifiedTries(a: Account, order: seq<Pair>, prices: Prices, now: int)
    returns (tried: seq<OrderId>)
    requires Indexed(a) && !NotifiedOf(a, order, prices, now).threw
    requires forall i, j :: 0 <= i < j < |order| ==> order[i] != order[j]
    ensures NotifiedOf(a, order, prices, now).account.attempts == a.attempts + tried
    ensures OpenOfAll(a, order, tried)
    decreases |order|
  {
    hide Updated, Indexed, OpenOf, OpenOfAll;
    if order == [] {
      tried := [];
      NothingOpenOf(a);
    } else {
      var b := Updated(a, order[0], prices, now).account;
      var k := IndexedUpdateTries(a, order[0], prices, now);
      IndexedByUpdate(a, order[0], prices, now);
      var rest := NotifiedTries(b, order[1..], prices, now);
      var first := OpenIn(ListOf(a, order[0]), a.open);
      forall id
        ensures id in b.open ==> id in a.open && b.open[id] == a.open[id]
        ensures id in a.open && a.open[id].pair != order[0] ==> id in b.open
      {
        UpdateIsLocal(a, order[0], prices, now, id);
      }
      OpenOfJoined(a, b, order, first, rest);
      tried := first + rest;
    }
  }

  /** As long as the strategy has unsubscribed from nothing, every iteration tries every open order exactly
      once before the strategy acts, or an exception ends the test there. */
  lemma EveryOrderTried(t: Setting, view: View, orders: seq<seq<Pair>>, order: seq<Pair>)
    returns (tried: seq<OrderId>)
    requires Usable(view) && Proper(t.strategy) && t.account == Opened(t.account.fee, t.account.balances)
    requires var s := Tested(t, view, orders).session; s.unsubscribed == {} && Lists(order, s.subscribed)
    ensures var a, now := Tested(t, view, orders).session.account, t.Clock(|orders|);
            var notified := NotifiedOf(a, order, MarketAt(view, now), now);
            !notified.threw ==>
              && notified.account.attempts == a.attempts + tried
              && (forall i, j :: 0 <= i < j < |tried| ==> tried[i] != tried[j])
              && (forall id :: id in tried <==> id in a.open)
  {
    hide Tested, NotifiedOf, Indexed, Usable, MarketAt;
    var a, now := Tested(t, view, orders).session.account, t.Clock(|orders|);
    TestIsWatched(t, view, orders);
    tried := [];
    if !NotifiedOf(a, order, MarketAt(view, now), now).threw {
      tried := NotifiedTries(a, order, MarketAt(view, now), now);
    }
  }

  // ---- Only prices that are asked for matter ----

  lemma {:induction false} ScanSamePrices(a: Account, ids: seq<OrderId>, prices: Prices, other: Prices, now: int)
    requires forall id :: id in ids && id in a.open ==> prices(a.open[id].pair) == other(a.open[id].pair)
    ensures Scan(a, ids, prices, now) == Scan(a, ids, other, now)
    decreases |ids|
  {
    hide TryFill;
    if ids != [] {
      assert ids[0] in ids && forall id :: id in ids[1..] ==> id in ids;
      var b := a;
      if ids[0] in a.open {
        var price := prices(a.open[ids[0]].pair);
        b := TryFill(a, ids[0], price, now).account;
        forall id ensures id in b.open ==> id in a.open && b.open[id] == a.open[id] {
          TryIsLocal(a, ids[0], price, now, id);
        }
      }
      ScanSamePrices(b, ids[1..], prices, other, now);
    }
  }

  /** An update of a pair reads the price of that pair only. */
  lemma UpdateSamePrice(a: Account, pair: Pair, prices: Prices, other: Prices, now: int)
    requires Indexed(a) && prices(pair) == other(pair)
    ensures Updated(a, pair, prices, now) == Updated(a, pair, other, now)
  {
    hide Scan, Indexed;
    ListFits(a, pair);
    ScanSamePrices(a.(byPair := a.byPair[pair := ListOf(a, pair)]), ListOf(a, pair), prices, other, now);
  }

  lemma {:induction false} NotifiedSamePrices(a: Account, order: seq<Pair>, prices: Prices, other: Prices, now: int)
    requires Indexed(a) && forall p :: prices(p) == other(p)
    ensures NotifiedOf(a, order, prices, now) == NotifiedOf(a, order, other, now)
    decreases |order|
  {
    hide Updated, Indexed;
    if order != [] {
      UpdateSamePrice(a, order[0], prices, other, now);
      IndexedByUpdate(a, order[0], prices, now);
      NotifiedSamePrices(Updated(a, order[0], prices, now).account, order[1..], prices, other, now);
    }
  }
}
