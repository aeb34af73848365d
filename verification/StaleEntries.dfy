/** What is left behind by filled and cancelled orders, in the lists and among the extremes, is never
    looked at again: cleaning up late is as good as cleaning up at once. */
module StaleEntries {
  import opened Trading
  import opened Orders
  import opened Tries
  import opened LifeCycle
  import opened OrderIndex
  import opened TrailingStops

  /** Two accounts that differ only in entries of orders that are not open. */
  ghost predicate Twin(a: Account, b: Account) {
    && b == a.(trailing := b.trailing, byPair := b.byPair)
    && (forall id :: id in a.open ==> (id in a.trailing <==> id in b.trailing))
    && (forall id :: id in a.open && id in a.trailing ==> a.trailing[id] == b.trailing[id])
  }

  ghost predicate ListsAlike(a: Account, b: Account) {
    && a.byPair.Keys == b.byPair.Keys
    && (forall p :: p in a.byPair ==> OpenIn(a.byPair[p], a.open) == OpenIn(b.byPair[p], b.open))
  }

  /** The account with every such entry removed at once. */
  function Cleaned(a: Account): Account {
    a.(trailing := map id | id in a.trailing && id in a.open :: a.trailing[id],
       byPair := map p | p in a.byPair :: OpenIn(a.byPair[p], a.open))
  }

  lemma CleanedIsTwin(a: Account)
    ensures Twin(a, Cleaned(a)) && ListsAlike(a, Cleaned(a))
  {
    forall p | p in a.byPair ensures OpenIn(a.byPair[p], a.open) == OpenIn(Cleaned(a).byPair[p], a.open) {
      OpenInTwice(a.byPair[p], a.open, a.open);
    }
  }

  /** Twins stay twins when the extremes of both move to maps that agree on the open orders. */
  lemma TwinMoves(a: Account, b: Account, s: map<OrderId, real>, t: map<OrderId, real>)
    requires Twin(a, b)
    requires forall x :: x in a.open ==> (x in s <==> x in t) && (x in s ==> s[x] == t[x])
    ensures Twin(a.(trailing := s), b.(trailing := t))
  {
  }

  /** Twins stay twins when both close, fail or keep the same order in the same way. */
  lemma TwinEnds(a: Account, b: Account, tried: map<OrderId, seq<Price>>, attempts: seq<OrderId>)
    requires Twin(a, b)
    ensures Twin(a.(tried := tried, attempts := attempts), b.(tried := tried, attempts := attempts))
  {
  }

  lemma TwinExecutes(a: Account, b: Account, id: OrderId, fillPrice: Price, now: int, market: Price)
    requires Twin(a, b) && id in a.open && CanExecute(a, id, fillPrice) && CanExecute(b, id, fillPrice)
    ensures Twin(Executed(a, id, fillPrice, now, market), Executed(b, id, fillPrice, now, market))
  {
    hide CanExecute, DealOf, Settle;
  }

  lemma TwinIsSame(a: Account, b: Account)
    requires Twin(a, b)
    ensures a.open == b.open && a.balances == b.balances && a.fee == b.fee
    ensures a.tried == b.tried && a.attempts == b.attempts
  {
  }

  lemma TwinDecides(a: Account, b: Account, id: OrderId, price: Price)
    requires Twin(a, b) && id in a.open
    ensures FillPrice(a, id, price) == FillPrice(b, id, price)
    ensures NewExtreme(a, id, price) == NewExtreme(b, id, price)
  {
  }

  lemma TwinTrailing(a: Account, b: Account, id: OrderId, price: Price)
    requires Twin(a, b) && id in a.open
    ensures var s, t := TrailingAfter(a, id, price), TrailingAfter(b, id, price);
            forall x :: x in a.open ==> (x in s <==> x in t) && (x in s ==> s[x] == t[x])
  {
    TwinDecides(a, b, id, price);
    hide FillPrice, NewExtreme;
  }

  /** A try of an open order has the same outcome on twins, and leaves twins. */
  lemma TwinTry(a: Account, b: Account, id: OrderId, price: Price, now: int)
    requires Twin(a, b) && id in a.open
    ensures var s, t := TryFill(a, id, price, now), TryFill(b, id, price, now);
            s.outcome == t.outcome && Twin(s.account, t.account)
  {
    hide FillPrice, CanExecute, TrailingAfter, Executed, Twin;
    TwinIsSame(a, b);
    var attempts, fillPrice := a.attempts + [id], FillPrice(a, id, price);
    TwinEnds(a, b, a.tried, attempts);
    TwinDecides(a, b, id, price);
    TwinTrailing(a, b, id, price);
    var c, d := a.(attempts := attempts), b.(attempts := attempts);
    var e, f := c.(trailing := TrailingAfter(a, id, price)), d.(trailing := TrailingAfter(b, id, price));
    if price != 0.0 {
      TwinMoves(c, d, e.trailing, f.trailing);
      if fillPrice.None? {
        TwinEnds(e, f, a.tried[id := TriedAt(a, id) + [price]], attempts);
      } else {
        CanExecuteSame(a, b, id, fillPrice.value);
        CanExecuteSame(a, e, id, fillPrice.value);
        CanExecuteSame(a, f, id, fillPrice.value);
        if CanExecute(a, id, fillPrice.value) {
          TwinExecutes(e, f, id, fillPrice.value, now, price);
        } else {
          TwinEnds(e, f, a.tried[id := []], attempts);
        }
      }
    }
  }

  lemma SameAfter(ids: seq<OrderId>, others: seq<OrderId>, open: map<OrderId, Request>, fewer: map<OrderId, Request>)
    requires fewer.Keys <= open.Keys && OpenIn(ids, open) == OpenIn(others, open)
    ensures OpenIn(ids, fewer) == OpenIn(others, fewer)
  {
    OpenInTwice(ids, open, fewer);
    OpenInTwice(others, open, fewer);
  }

  lemma OpenInCons(id: OrderId, rest: seq<OrderId>, open: map<OrderId, Request>)
    ensures OpenIn([id] + rest, open) == (if id in open then [id] else []) + OpenIn(rest, open)
  {
    assert ([id] + rest)[1..] == rest;
  }

  lemma OpenInHead(ids: seq<OrderId>, open: map<OrderId, Request>)
    requires ids != []
    ensures OpenIn(ids, open) == (if ids[0] in open then [ids[0]] else []) + OpenIn(ids[1..], open)
  {
  }

  lemma TwinOpen(a: Account, b: Account)
    requires Twin(a, b)
    ensures a.open == b.open
  {
  }

  lemma ConsSame<T>(x: T, xs: seq<T>, y: T, ys: seq<T>)
    requires [x] + xs == [y] + ys
    ensures x == y && xs == ys
  {
    assert ([x] + xs)[0] == x && ([x] + xs)[1..] == xs;
    assert ([y] + ys)[0] == y && ([y] + ys)[1..] == ys;
  }

  /** Scanning lists that show the same open orders, on twins, goes the same way. */
  lemma {:induction false} TwinScan(
    a: Account, b: Account, ids: seq<OrderId>, others: seq<OrderId>, prices: Prices, now: int)
    requires Twin(a, b) && OpenIn(ids, a.open) == OpenIn(others, a.open)
    ensures var s, t := Scan(a, ids, prices, now), Scan(b, others, prices, now);
            && s.threw == t.threw && Twin(s.account, t.account)
            && s.account.open.Keys <= a.open.Keys
            && OpenIn(s.left, s.account.open) == OpenIn(t.left, s.account.open)
    decreases |ids| + |others|
  {
    hide TryFill, Scan, OpenIn, Twin;
    TwinOpen(a, b);
    if ids != [] && ids[0] !in a.open {
      OpenInHead(ids, a.open);
      ScanClosed(a, ids, prices, now);
      TwinScan(a, b, ids[1..], others, prices, now);
    } else if others != [] && others[0] !in a.open {
      OpenInHead(others, a.open);
      ScanClosed(b, others, prices, now);
      TwinScan(a, b, ids, others[1..], prices, now);
    } else if ids == [] || others == [] {
      OpenInNothing(a.open);
      if ids != [] { OpenInHead(ids, a.open); }
      if others != [] { OpenInHead(others, a.open); }
      ScanNothing(a, prices, now);
      ScanNothing(b, prices, now);
    } else {
      OpenInHead(ids, a.open);
      OpenInHead(others, a.open);
      ConsSame(ids[0], OpenIn(ids[1..], a.open), others[0], OpenIn(others[1..], a.open));
      TwinScanOpen(a, b, ids, others, prices, now);
    }
  }

  lemma TryShrinks(a: Account, id: OrderId, price: Price, now: int)
    requires id in a.open
    ensures TryFill(a, id, price, now).account.open.Keys <= a.open.Keys
  {
    hide TryFill;
    TryKeeps(a, id, price, now);
    if TryFill(a, id, price, now).outcome.Filled? {
      var p := TryFills(a, id, price, now);
    }
  }

  lemma {:induction false} TwinScanOpen(
    a: Account, b: Account, ids: seq<OrderId>, others: seq<OrderId>, prices: Prices, now: int)
    requires Twin(a, b) && ids != [] && others != [] && ids[0] == others[0] && ids[0] in a.open
    requires OpenIn(ids, a.open) == OpenIn(others, a.open)
    requires OpenIn(ids[1..], a.open) == OpenIn(others[1..], a.open)
    ensures var s, t := Scan(a, ids, prices, now), Scan(b, others, prices, now);
            && s.threw == t.threw && Twin(s.account, t.account)
            && s.account.open.Keys <= a.open.Keys
            && OpenIn(s.left, s.account.open) == OpenIn(t.left, s.account.open)
    decreases |ids| + |others|, 0
  {
    hide TryFill, OpenIn, Twin;
    TwinOpen(a, b);
    var id, price := ids[0], prices(a.open[ids[0]].pair);
    var s, t := TryFill(a, id, price, now), TryFill(b, id, price, now);
    TwinTry(a, b, id, price, now);
    TryKeeps(a, id, price, now);
    TryShrinks(a, id, price, now);
    if !s.outcome.Threw? {
      SameAfter(ids[1..], others[1..], a.open, s.account.open);
      TwinScan(s.account, t.account, ids[1..], others[1..], prices, now);
      var u, v := Scan(s.account, ids[1..], prices, now), Scan(t.account, others[1..], prices, now);
      OpenInCons(id, u.left, u.account.open);
      OpenInCons(id, v.left, u.account.open);
    }
  }

  ghost predicate NoneFrom(ids: seq<OrderId>, next: OrderId) {
    forall x :: x in ids ==> x < next
  }

  /** No entry, stale or not, is of an id yet to be issued. */
  ghost predicate NothingAhead(a: Account) {
    && (forall id :: id in a.trailing ==> id < a.next)
    && (forall id :: id in a.open ==> id < a.next)
    && (forall p :: p in a.byPair ==> NoneFrom(a.byPair[p], a.next))
  }

  lemma {:induction false} OpenInPlaced(ids: seq<OrderId>, open: map<OrderId, Request>, id: OrderId, r: Request)
    requires NoneFrom(ids, id)
    ensures OpenIn(ids, open[id := r]) == OpenIn(ids, open)
  {
    if ids != [] {
      assert ids[0] in ids && forall x :: x in ids[1..] ==> x in ids;
      OpenInPlaced(ids[1..], open, id, r);
    }
  }

  lemma {:induction false} OpenInJoin(ids: seq<OrderId>, more: seq<OrderId>, open: map<OrderId, Request>)
    ensures OpenIn(ids + more, open) == OpenIn(ids, open) + OpenIn(more, open)
  {
    if ids == [] {
      assert ids + more == more;
    } else {
      assert (ids + more)[1..] == ids[1..] + more;
      OpenInJoin(ids[1..], more, open);
    }
  }

  // ---- Steps and runs ----

  ghost predicate Alike(a: Account, b: Account) {
    Twin(a, b) && ListsAlike(a, b)
  }

  /** When orders close, lists that showed the same open orders still do. */
  lemma ListsStayAlike(a: Account, b: Account, c: Account, d: Account)
    requires Alike(a, b) && Twin(c, d) && c.byPair == a.byPair && d.byPair == b.byPair
    requires c.open.Keys <= a.open.Keys
    ensures Alike(c, d)
  {
    forall p | p in c.byPair ensures OpenIn(c.byPair[p], c.open) == OpenIn(d.byPair[p], d.open) {
      SameAfter(a.byPair[p], b.byPair[p], a.open, c.open);
    }
  }

  lemma TryStaysAlike(a: Account, b: Account, id: OrderId, price: Price, now: int)
    requires Alike(a, b) && id in a.open
    ensures Alike(TryFill(a, id, price, now).account, TryFill(b, id, price, now).account)
  {
    hide TryFill, Twin, ListsAlike;
    TwinOpen(a, b);
    TwinTry(a, b, id, price, now);
    TryKeeps(a, id, price, now);
    TryKeeps(b, id, price, now);
    TryShrinks(a, id, price, now);
    ListsStayAlike(a, b, TryFill(a, id, price, now).account, TryFill(b, id, price, now).account);
  }

  lemma PlacedTwins(a: Account, b: Account, r: Request)
    requires Twin(a, b) && NothingAhead(a) && NothingAhead(b)
    ensures Twin(Placed(a, r), Placed(b, r)) && a.next == b.next && a.next in Placed(a, r).open
  {
  }

  lemma NothingEmpty(next: OrderId)
    ensures NoneFrom([], next)
  {
  }

  lemma PlacedStaysAlike(a: Account, b: Account, r: Request)
    requires Alike(a, b) && NothingAhead(a) && NothingAhead(b)
    ensures Alike(Placed(a, r), Placed(b, r)) && a.next == b.next && a.next in Placed(a, r).open
  {
    hide Twin, OpenIn, NoneFrom;
    PlacedTwins(a, b, r);
    TwinOpen(a, b);
    var c, d := Placed(a, r), Placed(b, r);
    OpenInNothing(a.open);
    forall p | p in c.byPair ensures OpenIn(c.byPair[p], c.open) == OpenIn(d.byPair[p], d.open) {
      NothingEmpty(a.next);
      OpenInPlaced(ListOf(a, p), a.open, a.next, r);
      OpenInPlaced(ListOf(b, p), a.open, a.next, r);
      if p == r.pair {
        OpenInJoin(ListOf(a, p), [a.next], c.open);
        OpenInJoin(ListOf(b, p), [a.next], c.open);
      }
    }
    TwinOpen(c, d);
  }

  lemma CancelStaysAlike(a: Account, b: Account, id: OrderId)
    requires Alike(a, b) && id in a.open
    ensures id in b.open && Alike(Cancelled(a, id), Cancelled(b, id))
  {
    hide ListsAlike, OpenIn;
    ListsStayAlike(a, b, Cancelled(a, id), Cancelled(b, id));
  }

  lemma TwinIgnoresLists(a: Account, b: Account, l: map<Pair, seq<OrderId>>, m: map<Pair, seq<OrderId>>)
    requires Twin(a, b)
    ensures Twin(a.(byPair := l), b.(byPair := m))
  {
  }

  lemma UpdateStaysAlike(a: Account, b: Account, pair: Pair, prices: Prices, now: int)
    requires Alike(a, b)
    ensures Alike(Updated(a, pair, prices, now).account, Updated(b, pair, prices, now).account)
    ensures Updated(a, pair, prices, now).threw == Updated(b, pair, prices, now).threw
  {
    hide Scan, Twin, OpenIn;
    TwinOpen(a, b);
    var ids, others := ListOf(a, pair), ListOf(b, pair);
    var c, d := a.(byPair := a.byPair[pair := ids]), b.(byPair := b.byPair[pair := others]);
    TwinIgnoresLists(a, b, c.byPair, d.byPair);
    TwinScan(c, d, ids, others, prices, now);
    ScanExtends(c, ids, prices, now);
    ScanExtends(d, others, prices, now);
    var s, t := Scan(c, ids, prices, now), Scan(d, others, prices, now);
    var e, f := Updated(a, pair, prices, now).account, Updated(b, pair, prices, now).account;
    TwinIgnoresLists(s.account, t.account, e.byPair, f.byPair);
    TwinOpen(e, f);
    forall p | p in e.byPair ensures OpenIn(e.byPair[p], e.open) == OpenIn(f.byPair[p], f.open) {
      if p != pair { SameAfter(a.byPair[p], b.byPair[p], a.open, e.open); }
    }
  }

  lemma AlikeOpen(a: Account, b: Account)
    requires Alike(a, b)
    ensures a.open == b.open
  {
  }

  /** A step keeps accounts alike that differ only in stale entries. */
  lemma StepStaysAlike(a: Account, b: Account, c: Command)
    requires Alike(a, b) && NothingAhead(a) && NothingAhead(b)
    ensures Alike(Step(a, c), Step(b, c))
  {
    hide TryFill, Placed, Cancelled, Updated, Alike, NothingAhead;
    assert a.open == b.open by { AlikeOpen(a, b); }
    match c
    case AddOrder(r, prices, now) =>
      PlacedStaysAlike(a, b, r);
      TryStaysAlike(Placed(a, r), Placed(b, r), a.next, prices(r.pair), now);
      AlikeOpen(Placed(a, r), Placed(b, r));
    case CancelOrder(id) =>
      if id in a.open { CancelStaysAlike(a, b, id); }
    case TradeUpdate(pair, prices, now) =>
      UpdateStaysAlike(a, b, pair, prices, now);
  }

  // ---- Nothing is ahead of the next id ----

  lemma AheadByTry(a: Account, id: OrderId, price: Price, now: int)
    requires NothingAhead(a) && id in a.open
    ensures NothingAhead(TryFill(a, id, price, now).account)
  {
    hide TryFill, NoneFrom;
    var b := TryFill(a, id, price, now).account;
    TryKeeps(a, id, price, now);
    TryShrinks(a, id, price, now);
    forall x | x in b.trailing ensures x < b.next {
      if x != id { TryOther(a, id, price, now, x); }
    }
  }

  lemma {:induction false} AheadByScan(a: Account, ids: seq<OrderId>, prices: Prices, now: int)
    requires NothingAhead(a) && NoneFrom(ids, a.next)
    ensures NothingAhead(Scan(a, ids, prices, now).account) && NoneFrom(Scan(a, ids, prices, now).left, a.next)
    decreases |ids|
  {
    hide TryFill, NothingAhead;
    if ids != [] {
      var b := a;
      assert ids[0] in ids && forall x :: x in ids[1..] ==> x in ids;
      if ids[0] in a.open {
        var price := prices(a.open[ids[0]].pair);
        AheadByTry(a, ids[0], price, now);
        TryKeeps(a, ids[0], price, now);
        b := TryFill(a, ids[0], price, now).account;
      }
      AheadByScan(b, ids[1..], prices, now);
    }
  }

  lemma AheadByPlacing(a: Account, r: Request)
    requires NothingAhead(a)
    ensures NothingAhead(Placed(a, r)) && a.next in Placed(a, r).open
  {
    var b := Placed(a, r);
    forall p | p in b.byPair ensures NoneFrom(b.byPair[p], b.next) {
      if p in a.byPair { assert NoneFrom(a.byPair[p], a.next); }
    }
  }

  lemma AheadByStep(a: Account, c: Command)
    requires NothingAhead(a)
    ensures NothingAhead(Step(a, c))
  {
    hide TryFill, Scan, Placed, NoneFrom;
    match c
    case AddOrder(r, prices, now) =>
      AheadByPlacing(a, r);
      AheadByTry(Placed(a, r), a.next, prices(r.pair), now);
    case CancelOrder(id) =>
    case TradeUpdate(pair, prices, now) =>
      NothingEmpty(a.next);
      var begun := a.(byPair := a.byPair[pair := ListOf(a, pair)]);
      AheadByScan(begun, ListOf(a, pair), prices, now);
      ScanExtends(begun, ListOf(a, pair), prices, now);
  }

  lemma AheadByCleaning(a: Account)
    requires NothingAhead(a)
    ensures NothingAhead(Cleaned(a))
  {
    var b := Cleaned(a);
    forall p | p in b.byPair ensures NoneFrom(b.byPair[p], b.next) {
      assert NoneFrom(a.byPair[p], a.next);
      OpenInTwice(a.byPair[p], a.open, a.open);
    }
  }

  /** The account that cleans up after every step. */
  function Eagerly(a: Account, commands: seq<Command>): Account {
    if commands == [] then a else
      var n := |commands| - 1;
      Cleaned(Step(Eagerly(a, commands[..n]), commands[n]))
  }

  lemma AlikeChain(a: Account, b: Account, c: Account)
    requires Alike(a, b) && Alike(b, c)
    ensures Alike(a, c)
  {
    hide OpenIn;
  }

  lemma AlikeAtStart(fee: Percent, balances: Balances)
    ensures Alike(Opened(fee, balances), Opened(fee, balances)) && NothingAhead(Opened(fee, balances))
  {
  }

  lemma CleanedIsAlike(a: Account)
    ensures Alike(a, Cleaned(a))
  {
    CleanedIsTwin(a);
  }

  /** Cleaning up late is as good as cleaning up at once: over any run the lazy account and the eager one
      have the same balances, open and closed orders, failures and attempts, and agree on every entry of
      an open order. */
  lemma {:induction false} LazyIsEager(fee: Percent, balances: Balances, commands: seq<Command>)
    ensures Alike(Run(Opened(fee, balances), commands), Eagerly(Opened(fee, balances), commands))
    ensures NothingAhead(Run(Opened(fee, balances), commands))
    ensures NothingAhead(Eagerly(Opened(fee, balances), commands))
  {
    hide Step, Alike, NothingAhead, Cleaned;
    var start := Opened(fee, balances);
    if commands == [] {
      AlikeAtStart(fee, balances);
    } else {
      var n := |commands| - 1;
      LazyIsEager(fee, balances, commands[..n]);
      var lazy, eager := Run(start, commands[..n]), Eagerly(start, commands[..n]);
      StepStaysAlike(lazy, eager, commands[n]);
      AheadByStep(lazy, commands[n]);
      AheadByStep(eager, commands[n]);
      AheadByCleaning(Step(eager, commands[n]));
      CleanedIsAlike(Step(eager, commands[n]));
      AlikeChain(Step(lazy, commands[n]), Step(eager, commands[n]), Cleaned(Step(eager, commands[n])));
    }
  }

  /** Accounts that are alike cannot be told apart by their balances, orders or outcomes. */
  lemma AlikeIsInvisible(a: Account, b: Account, id: OrderId, price: Price, now: int)
    requires Alike(a, b)
    ensures a.balances == b.balances && a.open == b.open && a.fills == b.fills && a.attempts == b.attempts
    ensures a.next == b.next && a.cancelled == b.cancelled
    ensures id in a.open ==> TryFill(a, id, price, now).outcome == TryFill(b, id, price, now).outcome
  {
    hide TryFill;
    if id in a.open { TwinTry(a, b, id, price, now); }
  }
}
