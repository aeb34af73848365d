/** An exception while notifying ends a test, and loses trades from the log. */
module AbortedTest {
  import opened Trading
  import opened Orders
  import opened Tries
  import opened BackTestSession

  const PAIR := Pair("BTC", "USD")

  /** A price of 10, then one of 4. */
  const FALLING: seq<Ohlcv> := [
    Ohlcv(0, 10.0, 10.0, 10.0, 10.0, 0.0), Ohlcv(60, 4.0, 4.0, 4.0, 4.0, 0.0), Ohlcv(120, 4.0, 4.0, 4.0, 4.0, 0.0)]

  /** An order to buy one at 5 or less. */
  const LIMIT_ORDER: Request := OrderRequest(Limit, PAIR, Buy, 5.0, 0.0, 1.0, 0.0)

  /** Places that order twice in the first iteration. */
  function PlaceTwice(i: nat, seen: seq<Reply>): Move {
    if i == 0 && |seen| < 2 then Do(Place(LIMIT_ORDER)) else Finish
  }

  lemma FallingPrices(view: View)
    requires view == ((p: Pair) => FALLING)
    ensures Usable(view) && MarketAt(view, 0)(PAIR) == 10.0 && MarketAt(view, 60)(PAIR) == 4.0
  {
    BackTestingData.CountIs(FALLING, 0, 1);
    BackTestingData.CountIs(FALLING, 60, 2);
  }

  const COST := 50000000000

  lemma NoFee(cost: real)
    requires cost >= 0.0
    ensures FeeOf(cost, 0.0) == 0.0
  {
    assert cost * 0.0 == 0.0;
  }

  lemma UnitsOfFive()
    ensures ToUnits(5.0) == COST
  {
  }

  /** The deal of the order: its cost in units, without a fee. */
  lemma LimitDeal()
    ensures DealOf(0.0, LIMIT_ORDER, 5.0) == Deal("BTC", "USD", ToUnits(1.0), COST)
  {
    UnitsOfFive();
    NoFee(5.0);
    hide ToUnits, FeeOf;
    assert Cost(LIMIT_ORDER, 5.0) == 5.0;
  }

  lemma LimitTried(a: Account, id: OrderId, price: Price, now: int)
    requires id in a.open && a.open[id] == LIMIT_ORDER && a.fee == 0.0 && "USD" in a.balances
    requires price == 10.0 || price == 4.0
    ensures var t := TryFill(a, id, price, now);
            && (price == 10.0 ==> t.outcome == Kept)
            && (price == 4.0 && a.balances["USD"] >= COST ==>
                  t.outcome == Filled && "USD" in t.account.balances
                  && t.account.balances["USD"] == a.balances["USD"] - COST)
            && (price == 4.0 && a.balances["USD"] < COST ==> t.outcome == Threw)
  {
    hide ToUnits;
    LimitDeal();
  }

  lemma PlacedTwice(view: View, s: Session)
    requires view == ((p: Pair) => FALLING) && s.replies == []
    requires s.account == Opened(0.0, map["USD" := 60000000000])
    ensures Usable(view)
    ensures var after := Played(s, view, 0, 0, PlaceTwice, 2);
            var a := after.session.account;
            && !after.raised && a.fee == 0.0 && a.balances == map["USD" := 60000000000] && a.fills == []
            && a.byPair == map[PAIR := [1, 2]] && a.open == map[1 := LIMIT_ORDER, 2 := LIMIT_ORDER]
  {
    hide Usable, MarketAt, TryFill;
    FallingPrices(view);
    var a := s.account;
    var b := Placed(a, LIMIT_ORDER);
    assert ListOf(a, PAIR) + [1] == [1];
    assert b.byPair == map[PAIR := [1]] && b.open == map[1 := LIMIT_ORDER];
    LimitTried(b, 1, 10.0, 0);
    TryKeeps(b, 1, 10.0, 0);
    var c := TryFill(b, 1, 10.0, 0).account;
    var d := Placed(c, LIMIT_ORDER);
    assert ListOf(c, PAIR) + [2] == [1, 2];
    assert d.byPair == map[PAIR := [1, 2]] && d.open == map[1 := LIMIT_ORDER, 2 := LIMIT_ORDER];
    LimitTried(d, 2, 10.0, 0);
    TryKeeps(d, 2, 10.0, 0);
    var s1 := Acted(s, view, 0, Place(LIMIT_ORDER));
    assert s1.account == c && |s1.replies| == 1;
    var s2 := Acted(s1, view, 0, Place(LIMIT_ORDER));
    assert s2.account == TryFill(d, 2, 10.0, 0).account && |s2.replies| == 2;
    assert Played(s2, view, 0, 0, PlaceTwice, 0) == Turn(s2, false);
    assert Played(s1, view, 0, 0, PlaceTwice, 1) == Turn(s2, false);
  }

  /** Both orders fire when the price falls, and only one of them is funded. */
  lemma SecondThrows(a: Account, prices: Prices, now: int)
    requires a.fee == 0.0 && a.balances == map["USD" := 60000000000] && a.fills == []
    requires a.byPair == map[PAIR := [1, 2]] && a.open == map[1 := LIMIT_ORDER, 2 := LIMIT_ORDER]
    requires prices(PAIR) == 4.0
    ensures var n := NotifiedOf(a, [PAIR], prices, now); n.threw && |n.account.fills| == 1
  {
    hide TryFill;
    var begun := a.(byPair := a.byPair[PAIR := [1, 2]]);
    LimitTried(begun, 1, 4.0, now);
    TryKeeps(begun, 1, 4.0, now);
    var p := TryFills(begun, 1, 4.0, now);
    var b := TryFill(begun, 1, 4.0, now).account;
    LimitTried(b, 2, 4.0, now);
    TryKeeps(b, 2, 4.0, now);
    assert [1, 2][1..] == [2];
    assert Scan(b, [2], prices, now) == Scanned(TryFill(b, 2, 4.0, now).account, [2], true);
    assert Scan(begun, [1, 2], prices, now) == Scan(b, [2], prices, now);
    assert Updated(a, PAIR, prices, now).threw;
  }

  lemma FirstIteration(p: Progress, view: View)
    requires view == ((p: Pair) => FALLING)
    requires p == Opening(Opened(0.0, map["USD" := 60000000000]))
    ensures Usable(view) && Proper(PlaceTwice)
    ensures var q := Iterated(p, view, 0, 0, PlaceTwice, 2, []);
            var a := q.session.account;
            && !q.aborted && q.logged == [] && a.fee == 0.0 && a.balances == map["USD" := 60000000000] && a.fills == []
            && a.byPair == map[PAIR := [1, 2]] && a.open == map[1 := LIMIT_ORDER, 2 := LIMIT_ORDER]
  {
    hide Usable, MarketAt, Played, NotifiedOf;
    FallingPrices(view);
    NothingNotified(p.session.account, MarketAt(view, 0), 0);
    PlacedTwice(view, p.session);
  }

  lemma SecondIteration(p: Progress, view: View)
    requires view == ((p: Pair) => FALLING) && !p.aborted && p.logged == []
    requires var a := p.session.account;
             && a.fee == 0.0 && a.balances == map["USD" := 60000000000] && a.fills == []
             && a.byPair == map[PAIR := [1, 2]] && a.open == map[1 := LIMIT_ORDER, 2 := LIMIT_ORDER]
    ensures Usable(view) && Proper(PlaceTwice)
    ensures var q := Iterated(p, view, 60, 1, PlaceTwice, 2, [PAIR]);
            q.aborted && |q.session.account.fills| == 1 && q.logged == []
  {
    hide Usable, MarketAt, Played, NotifiedOf;
    FallingPrices(view);
    SecondThrows(p.session.account, MarketAt(view, 60), 60);
  }

  lemma FirstClocks(t: Setting)
    requires t.start == 0 && t.stepSize == 60
    ensures t.Clock(0) == 0 && t.Clock(1) == 60
  {
  }

  lemma TestedOnce(t: Setting, view: View, order: seq<Pair>)
    requires Usable(view) && Proper(t.strategy)
    ensures Tested(t, view, [order]) ==
            Iterated(Opening(t.account), view, t.Clock(0), 0, t.strategy, t.limit, order)
  {
    hide Usable, Iterated, Proper;
    assert [order][..0] == [];
  }

  lemma TestedTwice(t: Setting, view: View, order: seq<Pair>, next: seq<Pair>)
    requires Usable(view) && Proper(t.strategy)
    ensures Tested(t, view, [order, next]) ==
            Iterated(Tested(t, view, [order]), view, t.Clock(1), 1, t.strategy, t.limit, next)
  {
    hide Usable, Iterated, Proper;
    assert [order, next][..1] == [order];
  }

  /** A test whose second of two resting orders is not funded ends while notifying, with the first one
      executed and never logged. */
  lemma AbortedTestLosesTrades(t: Setting, view: View)
    requires view == ((p: Pair) => FALLING)
    requires t == Setting(Opened(0.0, map["USD" := 60000000000]), 0, 60, PlaceTwice, 2)
    ensures Usable(view) && Proper(t.strategy)
    ensures var p := Tested(t, view, [[], [PAIR]]);
            p.aborted && |p.session.account.fills| == 1 && p.logged == []
  {
    hide *;
    FirstClocks(t);
    FirstIteration(Opening(t.account), view);
    TestedOnce(t, view, []);
    SecondIteration(Tested(t, view, [[]]), view);
    TestedTwice(t, view, [], [PAIR]);
  }
}
