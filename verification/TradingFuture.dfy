/** Trading without knowing the future: a whole test does not depend on rows after its last clock. */
module TradingFuture {
  import opened Trading
  import opened Orders
  import opened OrderIndex
  import opened BackTestSession
  import opened WatchedOrders

  /** The same rows up to `now`, and either later rows in both or in neither. */
  ghost predicate SameSoFar(rows: seq<Ohlcv>, other: seq<Ohlcv>, now: int) {
    && BackTestRunner.Past(rows, now) == BackTestRunner.Past(other, now)
    && (BackTestRunner.Past(rows, now) == rows <==> BackTestRunner.Past(other, now) == other)
  }

  /** Nothing comes after an earlier time only if nothing comes after the later one. */
  lemma PastIsAll(rows: seq<Ohlcv>, now: int, t: int)
    requires BackTestingData.Ascending(rows) && t <= now
    ensures BackTestRunner.Past(rows, t) == rows <==>
            BackTestRunner.Past(rows, now) == rows && BackTestRunner.Past(BackTestRunner.Past(rows, now), t) == BackTestRunner.Past(rows, now)
  {
    BackTestRunner.PastOfPast(rows, now, t);
    BackTestRunner.CountInPast(rows, now, t);
  }

  lemma SameEarlier(rows: seq<Ohlcv>, other: seq<Ohlcv>, now: int, t: int)
    requires BackTestingData.Ascending(rows) && BackTestingData.Ascending(other)
    requires SameSoFar(rows, other, now) && t <= now
    ensures SameSoFar(rows, other, t)
  {
    BackTestRunner.PastOfPast(rows, now, t);
    BackTestRunner.PastOfPast(other, now, t);
    BackTestRunner.CountInPast(rows, now, t);
    BackTestRunner.CountInPast(other, now, t);
    PastIsAll(rows, now, t);
    PastIsAll(other, now, t);
  }

  lemma SameTrade(rows: seq<Ohlcv>, other: seq<Ohlcv>, now: int)
    requires BackTestingData.Ascending(rows) && BackTestingData.Ascending(other)
    requires SameSoFar(rows, other, now)
    ensures BackTestingData.TradeAt(rows, now) == BackTestingData.TradeAt(other, now)
  {
    if BackTestRunner.Past(rows, now) != [] {
      BackTestRunner.TradePeeks(rows, other, now);
      assert |rows| > |BackTestRunner.Past(rows, now)| <==> BackTestRunner.Past(rows, now) != rows;
      assert |other| > |BackTestRunner.Past(other, now)| <==> BackTestRunner.Past(other, now) != other;
    }
  }

  lemma SameAnswers(rows: seq<Ohlcv>, other: seq<Ohlcv>, now: int, q: BackTestingData.Query)
    requires BackTestingData.Ascending(rows) && BackTestingData.Ascending(other)
    requires SameSoFar(rows, other, now) && q.Valid()
    ensures BackTestingData.Fresh(rows, now, q) == BackTestingData.Fresh(other, now, q)
    ensures BackTestingData.TradeAt(rows, now) == BackTestingData.TradeAt(other, now)
  {
    SameTrade(rows, other, now);
    if !q.GetTrade? { BackTestRunner.NoPeeking(rows, other, now, q); }
  }

  ghost predicate AllSameSoFar(view: View, other: View, now: int) {
    forall p :: SameSoFar(view(p), other(p), now)
  }

  lemma SameMarket(view: View, other: View, now: int)
    requires Usable(view) && Usable(other) && AllSameSoFar(view, other, now)
    ensures forall p :: MarketAt(view, now)(p) == MarketAt(other, now)(p)
  {
    forall p ensures MarketAt(view, now)(p) == MarketAt(other, now)(p) {
      SameTrade(view(p), other(p), now);
    }
  }

  lemma SameAct(s: Session, view: View, other: View, now: int, act: Act)
    requires Usable(view) && Usable(other) && AllSameSoFar(view, other, now) && act.Valid()
    ensures Acted(s, view, now, act) == Acted(s, other, now, act)
  {
    hide TryFill, MarketAt, BackTestingData.Fresh, BackTestingData.Ascending;
    match act
    case Ask(q) => SameAnswers(view(q.pair), other(q.pair), now, q);
    case Place(r) => SameMarket(view, other, now);
    case _ =>
  }

  lemma {:induction false} SamePlay(
    s: Session, view: View, other: View, now: int, i: nat, strategy: Strategy, limit: nat)
    requires Usable(view) && Usable(other) && AllSameSoFar(view, other, now) && Proper(strategy)
    ensures Played(s, view, now, i, strategy, limit) == Played(s, other, now, i, strategy, limit)
    decreases limit
  {
    hide Acted, Usable, AllSameSoFar;
    if limit > 0 && strategy(i, s.replies).Do? {
      var act := strategy(i, s.replies).act;
      SameAct(s, view, other, now, act);
      SamePlay(Acted(s, view, now, act), view, other, now, i, strategy, limit - 1);
    }
  }

  lemma AllSameEarlier(view: View, other: View, now: int, t: int)
    requires Usable(view) && Usable(other) && AllSameSoFar(view, other, now) && t <= now
    ensures AllSameSoFar(view, other, t)
  {
    forall p ensures SameSoFar(view(p), other(p), t) {
      SameEarlier(view(p), other(p), now, t);
    }
  }

  /** A whole test, orders, balances and log included, does not depend on rows after the last clock, but for
      whether a pair has any. */
  lemma {:induction false} TradingIgnoresFuture(t: Setting, view: View, other: View, orders: seq<seq<Pair>>)
    requires Usable(view) && Usable(other) && Proper(t.strategy) && t.stepSize > 0
    requires t.account == Opened(t.account.fee, t.account.balances)
    requires orders != [] ==> AllSameSoFar(view, other, t.Clock(|orders| - 1))
    ensures Tested(t, view, orders) == Tested(t, other, orders)
  {
    hide Played, NotifiedOf, Usable, MarketAt, Indexed, AllSameSoFar, BackTestRunner.Clock;
    if orders != [] {
      var n := |orders| - 1;
      var now := t.Clock(n);
      if n > 0 {
        BackTestRunner.ClockNext(t.start, t.stepSize, n - 1);
        AllSameEarlier(view, other, now, t.Clock(n - 1));
      }
      TradingIgnoresFuture(t, view, other, orders[..n]);
      var p := Tested(t, view, orders[..n]);
      TestIsWatched(t, view, orders[..n]);
      SameMarket(view, other, now);
      NotifiedSamePrices(p.session.account, orders[n], MarketAt(view, now), MarketAt(other, now), now);
      var notified := NotifiedOf(p.session.account, orders[n], MarketAt(view, now), now);
      SamePlay(p.session.(account := notified.account), view, other, now, n, t.strategy, t.limit);
    }
  }
}
