/** The lists of orders per pair, cleaned only when a trade update passes over them. */
module OrderIndex {
  import opened Trading
  import opened Orders
  import opened Tries
  import opened LifeCycle

  ghost predicate InPlacementOrder(ids: seq<OrderId>) {
    forall i, j :: 0 <= i < j < |ids| ==> ids[i] < ids[j]
  }

  /** A list is in order of placement, and the open orders in it are of its pair. */
  ghost predicate Fits(a: Account, pair: Pair, ids: seq<OrderId>) {
    && InPlacementOrder(ids)
    && (forall x :: x in ids ==> x < a.next)
    && (forall x :: x in ids && x in a.open ==> a.open[x].pair == pair)
  }

  ghost predicate Listed(a: Account, x: OrderId)
    requires x in a.open
  {
    x < a.next && x in ListOf(a, a.open[x].pair)
  }

  /** Every list fits its pair, and every open order is in its pair's list: so exactly once, and in no
      other. */
  ghost predicate Indexed(a: Account) {
    && (forall p :: p in a.byPair ==> Fits(a, p, a.byPair[p]))
    && (forall x :: x in a.open ==> Listed(a, x))
  }

  /** The ids of a list that are open, in the order of the list. */
  function OpenIn(ids: seq<OrderId>, open: map<OrderId, Request>): seq<OrderId> {
    if ids == [] then [] else
      var rest := OpenIn(ids[1..], open);
      if ids[0] in open then [ids[0]] + rest else rest
  }

  lemma {:induction false} OpenInAgrees(ids: seq<OrderId>, open: map<OrderId, Request>, other: map<OrderId, Request>)
    requires forall x :: x in ids ==> (x in open <==> x in other)
    ensures OpenIn(ids, open) == OpenIn(ids, other)
  {
    if ids != [] {
      assert forall x :: x in ids[1..] ==> x in ids;
      assert ids[0] in ids;
      OpenInAgrees(ids[1..], open, other);
    }
  }

  lemma {:induction false} OpenInTwice(ids: seq<OrderId>, open: map<OrderId, Request>, fewer: map<OrderId, Request>)
    requires fewer.Keys <= open.Keys
    ensures OpenIn(OpenIn(ids, open), fewer) == OpenIn(ids, fewer)
    ensures forall x :: x in OpenIn(ids, open) ==> x in ids && x in open
  {
    if ids != [] {
      OpenInTwice(ids[1..], open, fewer);
      var rest := OpenIn(ids[1..], open);
      if ids[0] in open {
        assert ([ids[0]] + rest)[1..] == rest;
      }
    }
  }

  lemma OrderTail(ids: seq<OrderId>)
    requires InPlacementOrder(ids) && ids != []
    ensures InPlacementOrder(ids[1..]) && ids[0] !in ids[1..] && forall x :: x in ids[1..] ==> ids[0] < x
  {
  }

  lemma OrderCons(id: OrderId, rest: seq<OrderId>)
    requires InPlacementOrder(rest) && forall x :: x in rest ==> id < x
    ensures InPlacementOrder([id] + rest)
  {
    assert forall i :: 0 <= i < |rest| ==> rest[i] in rest;
  }

  lemma OpenInNothing(open: map<OrderId, Request>)
    ensures OpenIn([], open) == []
  {
  }

  lemma OpenInPrefix(ids: seq<OrderId>, m: nat, open: map<OrderId, Request>)
    requires m < |ids|
    ensures OpenIn(ids[..m + 1], open) ==
            (if ids[0] in open then [ids[0]] else []) + OpenIn(ids[1..][..m], open)
  {
    assert ids[..m + 1][1..] == ids[1..][..m];
  }

  /** A try leaves every other order open or not as it was. */
  lemma TryIsLocal(a: Account, id: OrderId, price: Price, now: int, other: OrderId)
    requires id in a.open
    ensures var b := TryFill(a, id, price, now).account;
            && (other in b.open ==> other in a.open && b.open[other] == a.open[other])
            && (other != id ==> (other in a.open <==> other in b.open))
            && (!TryFill(a, id, price, now).outcome.Filled? <==> id in b.open)
  {
    hide TryFill;
    TryKeeps(a, id, price, now);
    if TryFill(a, id, price, now).outcome.Filled? {
      var p := TryFills(a, id, price, now);
    }
  }

  lemma {:induction false} ScanIsLocal(a: Account, ids: seq<OrderId>, prices: Prices, now: int, other: OrderId)
    ensures var b := Scan(a, ids, prices, now).account;
            && (other in b.open ==> other in a.open && b.open[other] == a.open[other])
            && (other !in ids ==> (other in a.open <==> other in b.open))
    decreases |ids|
  {
    hide TryFill;
    if ids != [] {
      var b := a;
      if ids[0] in a.open {
        TryIsLocal(a, ids[0], prices(a.open[ids[0]].pair), now, other);
        b := TryFill(a, ids[0], prices(a.open[ids[0]].pair), now).account;
      }
      assert other in ids <==> other == ids[0] || other in ids[1..];
      ScanIsLocal(b, ids[1..], prices, now, other);
    }
  }

  /** What a scan leaves of a list: some of its ids, in order, among them all that are still open. */
  lemma {:induction false} ScanLeaves(a: Account, ids: seq<OrderId>, prices: Prices, now: int)
    requires InPlacementOrder(ids)
    ensures var s := Scan(a, ids, prices, now);
            && InPlacementOrder(s.left)
            && (forall x :: x in s.left ==> x in ids)
            && (forall x :: x in ids && x in s.account.open ==> x in s.left)
    decreases |ids|
  {
    hide TryFill;
    if ids != [] {
      var s := Scan(a, ids, prices, now);
      OrderTail(ids);
      assert ids == [ids[0]] + ids[1..];
      if ids[0] in a.open {
        var price := prices(a.open[ids[0]].pair);
        var t := TryFill(a, ids[0], price, now);
        TryIsLocal(a, ids[0], price, now, ids[0]);
        if !t.outcome.Threw? {
          ScanLeaves(t.account, ids[1..], prices, now);
          ScanIsLocal(t.account, ids[1..], prices, now, ids[0]);
          OrderCons(ids[0], Scan(t.account, ids[1..], prices, now).left);
        }
      } else {
        ScanLeaves(a, ids[1..], prices, now);
        ScanIsLocal(a, ids[1..], prices, now, ids[0]);
      }
    }
  }

  /** A trade update that does not throw tries each listed open order once, in order of placement, and
      leaves exactly the ids still open, in that order. */
  lemma {:induction false} ScanTriesEach(a: Account, ids: seq<OrderId>, prices: Prices, now: int)
    requires InPlacementOrder(ids) && !Scan(a, ids, prices, now).threw
    ensures var s := Scan(a, ids, prices, now);
            && s.account.attempts == a.attempts + OpenIn(ids, a.open)
            && s.left == OpenIn(ids, s.account.open)
    decreases |ids|
  {
    hide TryFill;
    if ids != [] {
      var s := Scan(a, ids, prices, now);
      OrderTail(ids);
      if ids[0] in a.open {
        var price := prices(a.open[ids[0]].pair);
        var t := TryFill(a, ids[0], price, now);
        TryKeeps(a, ids[0], price, now);
        TryIsLocal(a, ids[0], price, now, ids[0]);
        forall x | x in ids[1..] ensures x in a.open <==> x in t.account.open {
          TryIsLocal(a, ids[0], price, now, x);
        }
        OpenInAgrees(ids[1..], a.open, t.account.open);
        ScanTriesEach(t.account, ids[1..], prices, now);
        ScanIsLocal(t.account, ids[1..], prices, now, ids[0]);
      } else {
        ScanTriesEach(a, ids[1..], prices, now);
        ScanIsLocal(a, ids[1..], prices, now, ids[0]);
      }
    }
  }

  /** The scan throws at the order `k` of the list, still open, after trying the open orders before it; of
      these the ones still open stay listed, and the failed order and all after it stay as they were. */
  ghost predicate StopsAt(a: Account, ids: seq<OrderId>, prices: Prices, now: int, k: nat) {
    var s := Scan(a, ids, prices, now);
    && s.threw && k < |ids| && ids[k] in s.account.open
    && s.account.attempts == a.attempts + OpenIn(ids[..k], a.open) + [ids[k]]
    && s.left == OpenIn(ids[..k], s.account.open) + ids[k..]
  }

  lemma StopsHere(a: Account, ids: seq<OrderId>, prices: Prices, now: int)
    requires ids != [] && ids[0] in a.open
    requires TryFill(a, ids[0], prices(a.open[ids[0]].pair), now).outcome.Threw?
    ensures StopsAt(a, ids, prices, now, 0)
  {
    hide TryFill;
    TryKeeps(a, ids[0], prices(a.open[ids[0]].pair), now);
    assert ids[..0] == [] && ids[0..] == ids;
  }

  lemma StopsOneLater(
    ids: seq<OrderId>, m: nat, before: map<OrderId, Request>, midway: map<OrderId, Request>, after: map<OrderId, Request>)
    requires m < |ids| - 1
    requires OpenIn(ids[1..][..m], before) == OpenIn(ids[1..][..m], midway)
    ensures ids[m + 1] == ids[1..][m] && ids[m + 1..] == ids[1..][m..]
    ensures OpenIn(ids[..m + 1], before) ==
            (if ids[0] in before then [ids[0]] else []) + OpenIn(ids[1..][..m], midway)
    ensures OpenIn(ids[..m + 1], after) ==
            (if ids[0] in after then [ids[0]] else []) + OpenIn(ids[1..][..m], after)
  {
    hide OpenIn;
    OpenInPrefix(ids, m, before);
    OpenInPrefix(ids, m, after);
  }

  lemma StopsAfterClosed(a: Account, ids: seq<OrderId>, prices: Prices, now: int, m: nat)
    requires ids != [] && ids[0] !in a.open && ids[0] !in ids[1..]
    requires StopsAt(a, ids[1..], prices, now, m)
    ensures StopsAt(a, ids, prices, now, m + 1)
  {
    hide Scan, OpenIn;
    ScanClosed(a, ids, prices, now);
    ScanIsLocal(a, ids[1..], prices, now, ids[0]);
    StopsOneLater(ids, m, a.open, a.open, Scan(a, ids[1..], prices, now).account.open);
  }

  lemma PrefixAgrees(ids: seq<OrderId>, m: nat, open: map<OrderId, Request>, other: map<OrderId, Request>)
    requires m < |ids| && forall x :: x in ids[1..] ==> (x in open <==> x in other)
    ensures OpenIn(ids[1..][..m], open) == OpenIn(ids[1..][..m], other)
  {
    assert forall x :: x in ids[1..][..m] ==> x in ids[1..];
    OpenInAgrees(ids[1..][..m], open, other);
  }

  lemma Grouped<T>(x: seq<T>, y: seq<T>, z: seq<T>)
    ensures x + (y + z) == x + y + z
  {
  }

  lemma StopsAfterTry(a: Account, ids: seq<OrderId>, prices: Prices, now: int, m: nat)
    requires ids != [] && ids[0] in a.open && ids[0] !in ids[1..]
    requires !TryFill(a, ids[0], prices(a.open[ids[0]].pair), now).outcome.Threw?
    requires StopsAt(TryFill(a, ids[0], prices(a.open[ids[0]].pair), now).account, ids[1..], prices, now, m)
    ensures StopsAt(a, ids, prices, now, m + 1)
  {
    hide TryFill, OpenIn, Scan;
    var price := prices(a.open[ids[0]].pair);
    var t := TryFill(a, ids[0], price, now);
    TryKeeps(a, ids[0], price, now);
    TryIsLocal(a, ids[0], price, now, ids[0]);
    ScanOpen(a, a.byPair, ids, prices, now);
    assert t.account.(byPair := a.byPair) == t.account;
    forall x | x in ids[1..] ensures x in a.open <==> x in t.account.open {
      TryIsLocal(a, ids[0], price, now, x);
    }
    var s := Scan(t.account, ids[1..], prices, now);
    ScanIsLocal(t.account, ids[1..], prices, now, ids[0]);
    PrefixAgrees(ids, m, a.open, t.account.open);
    StopsOneLater(ids, m, a.open, t.account.open, s.account.open);
    Grouped(a.attempts, [ids[0]], OpenIn(ids[1..][..m], t.account.open));
    Grouped([ids[0]], OpenIn(ids[1..][..m], s.account.open), ids[1..][m..]);
  }

  /** A trade update that throws does so at one open order, as described. */
  lemma {:induction false} ScanStopsAt(a: Account, ids: seq<OrderId>, prices: Prices, now: int) returns (k: nat)
    requires InPlacementOrder(ids) && Scan(a, ids, prices, now).threw
    ensures StopsAt(a, ids, prices, now, k)
    decreases |ids|
  {
    hide TryFill, StopsAt, InPlacementOrder;
    OrderTail(ids);
    if ids[0] !in a.open {
      var m := ScanStopsAt(a, ids[1..], prices, now);
      StopsAfterClosed(a, ids, prices, now, m);
      return m + 1;
    }
    var t := TryFill(a, ids[0], prices(a.open[ids[0]].pair), now);
    if t.outcome.Threw? {
      StopsHere(a, ids, prices, now);
      return 0;
    }
    var m := ScanStopsAt(t.account, ids[1..], prices, now);
    StopsAfterTry(a, ids, prices, now, m);
    return m + 1;
  }

  // ---- The lists stay right ----

  lemma ListFits(a: Account, pair: Pair)
    requires Indexed(a)
    ensures Fits(a, pair, ListOf(a, pair))
  {
  }

  lemma FitsLater(a: Account, b: Account, pair: Pair, ids: seq<OrderId>)
    requires Fits(a, pair, ids) && a.next <= b.next
    requires forall x :: x in b.open ==> (x in a.open && b.open[x] == a.open[x]) || a.next <= x
    ensures Fits(b, pair, ids)
  {
  }

  /** Closing orders, and issuing ids, keeps the lists right. */
  lemma IndexedLater(a: Account, b: Account)
    requires Indexed(a) && a.next <= b.next && a.byPair == b.byPair
    requires forall x :: x in b.open ==> x in a.open && b.open[x] == a.open[x]
    ensures Indexed(b)
  {
    hide Fits;
    forall p | p in b.byPair ensures Fits(b, p, b.byPair[p]) {
      FitsLater(a, b, p, a.byPair[p]);
    }
    forall x | x in b.open ensures Listed(b, x) {
      assert Listed(a, x);
    }
  }

  lemma IndexedByTry(a: Account, id: OrderId, price: Price, now: int)
    requires Indexed(a) && id in a.open
    ensures Indexed(TryFill(a, id, price, now).account)
  {
    hide TryFill, Indexed;
    var b := TryFill(a, id, price, now).account;
    TryKeeps(a, id, price, now);
    forall x | x in b.open ensures x in a.open && b.open[x] == a.open[x] {
      TryIsLocal(a, id, price, now, x);
    }
    IndexedLater(a, b);
  }

  lemma FitsNewest(a: Account, r: Request)
    requires Indexed(a)
    ensures Fits(Placed(a, r), r.pair, ListOf(a, r.pair) + [a.next])
  {
    hide Indexed;
    var ids := ListOf(a, r.pair);
    ListFits(a, r.pair);
    forall i | 0 <= i < |ids| ensures ids[i] < a.next {
      assert ids[i] in ids;
    }
  }

  lemma IndexedByPlacing(a: Account, r: Request)
    requires Indexed(a)
    ensures Indexed(Placed(a, r)) && a.next in Placed(a, r).open
  {
    hide Fits;
    var b := Placed(a, r);
    var ids := ListOf(a, r.pair);
    FitsNewest(a, r);
    forall p | p in b.byPair ensures Fits(b, p, b.byPair[p]) {
      if p != r.pair { FitsLater(a, b, p, a.byPair[p]); }
    }
    forall x | x in b.open ensures Listed(b, x) {
      if x == a.next {
        assert (ids + [x])[|ids|] == x;
      } else {
        assert Listed(a, x);
      }
    }
  }

  lemma FitsPart(a: Account, pair: Pair, ids: seq<OrderId>, part: seq<OrderId>)
    requires Fits(a, pair, ids) && InPlacementOrder(part) && forall x :: x in part ==> x in ids
    ensures Fits(a, pair, part)
  {
  }

  lemma FitsInOrder(a: Account, pair: Pair, ids: seq<OrderId>)
    requires Fits(a, pair, ids)
    ensures InPlacementOrder(ids)
  {
  }

  lemma IndexedByUpdate(a: Account, pair: Pair, prices: Prices, now: int)
    requires Indexed(a)
    ensures Indexed(Updated(a, pair, prices, now).account)
  {
    hide Scan, Fits;
    var ids := ListOf(a, pair);
    var begun := a.(byPair := a.byPair[pair := ids]);
    var s := Scan(begun, ids, prices, now);
    var b := Updated(a, pair, prices, now).account;
    ListFits(a, pair);
    FitsInOrder(a, pair, ids);
    ScanLeaves(begun, ids, prices, now);
    ScanExtends(begun, ids, prices, now);
    forall x ensures x in b.open ==> x in a.open && b.open[x] == a.open[x] {
      ScanIsLocal(begun, ids, prices, now, x);
    }
    forall p | p in b.byPair ensures Fits(b, p, b.byPair[p]) {
      if p == pair {
        FitsLater(a, b, pair, ids);
        FitsPart(b, pair, ids, s.left);
      } else {
        FitsLater(a, b, p, a.byPair[p]);
      }
    }
    forall x | x in b.open ensures Listed(b, x) {
      assert Listed(a, x);
    }
  }

  lemma IndexedByStep(a: Account, c: Command)
    requires Indexed(a)
    ensures Indexed(Step(a, c))
  {
    hide TryFill, Scan, Indexed, Updated, Placed;
    match c
    case AddOrder(r, prices, now) =>
      IndexedByPlacing(a, r);
      IndexedByTry(Placed(a, r), a.next, prices(r.pair), now);
    case CancelOrder(id) =>
      if id in a.open { IndexedLater(a, Cancelled(a, id)); }
    case TradeUpdate(pair, prices, now) =>
      IndexedByUpdate(a, pair, prices, now);
  }

  lemma OpenedIsIndexed(fee: Percent, balances: Balances)
    ensures Indexed(Opened(fee, balances))
  {
  }

  /** In every reachable state each open order is in its own pair's list exactly once, in order of
      placement, and in no other pair's. */
  lemma {:induction false} IndexedByRun(fee: Percent, balances: Balances, commands: seq<Command>)
    ensures Indexed(Run(Opened(fee, balances), commands))
  {
    hide Step, Indexed;
    if commands == [] {
      OpenedIsIndexed(fee, balances);
    } else {
      IndexedByRun(fee, balances, commands[..|commands| - 1]);
      IndexedByStep(Run(Opened(fee, balances), commands[..|commands| - 1]), commands[|commands| - 1]);
    }
  }

  // ---- Updates in reachable states ----

  lemma {:induction false} OpenInMeaning(ids: seq<OrderId>, open: map<OrderId, Request>)
    requires InPlacementOrder(ids)
    ensures var part := OpenIn(ids, open);
            InPlacementOrder(part) && forall x :: x in part <==> x in ids && x in open
  {
    if ids != [] {
      OrderTail(ids);
      assert ids == [ids[0]] + ids[1..];
      OpenInMeaning(ids[1..], open);
      OrderCons(ids[0], OpenIn(ids[1..], open));
    }
  }

  /** `ids` are the open orders of a pair, each once, in order of placement. */
  ghost predicate OpenOf(a: Account, pair: Pair, ids: seq<OrderId>) {
    && InPlacementOrder(ids)
    && forall x :: x in ids <==> x in a.open && a.open[x].pair == pair
  }

  lemma OpenOfIndexed(a: Account, pair: Pair)
    requires Indexed(a)
    ensures OpenOf(a, pair, OpenIn(ListOf(a, pair), a.open))
  {
    hide OpenIn;
    OpenInMeaning(ListOf(a, pair), a.open);
    forall x | x in a.open && a.open[x].pair == pair ensures x in ListOf(a, pair) {
      assert Listed(a, x);
    }
  }

  /** An update either tries all open orders of its pair, each once and in order of placement, and leaves
      exactly those still open on the list, in that order; or it tries them up to the first one that throws,
      and leaves that one and all after it listed as they were. */
  ghost predicate TriesItsPair(a: Account, pair: Pair, prices: Prices, now: int, k: nat) {
    var ids, s := ListOf(a, pair), Updated(a, pair, prices, now);
    && OpenOf(a, pair, OpenIn(ids, a.open))
    && (!s.threw ==>
          && s.account.attempts == a.attempts + OpenIn(ids, a.open)
          && ListOf(s.account, pair) == OpenIn(ids, s.account.open)
          && OpenOf(s.account, pair, ListOf(s.account, pair)))
    && (s.threw ==>
          && k < |ids| && ids[k] in s.account.open
          && s.account.attempts == a.attempts + OpenIn(ids[..k], a.open) + [ids[k]]
          && ListOf(s.account, pair) == OpenIn(ids[..k], s.account.open) + ids[k..])
  }

  lemma IndexedUpdateTries(a: Account, pair: Pair, prices: Prices, now: int) returns (k: nat)
    requires Indexed(a)
    ensures TriesItsPair(a, pair, prices, now, k)
  {
    hide Scan, Indexed, OpenOf, Fits, InPlacementOrder, OpenIn;
    var ids := ListOf(a, pair);
    ListFits(a, pair);
    FitsInOrder(a, pair, ids);
    OpenOfIndexed(a, pair);
    var begun := a.(byPair := a.byPair[pair := ids]);
    if Scan(begun, ids, prices, now).threw {
      k := ScanStopsAt(begun, ids, prices, now);
    } else {
      k := 0;
      ScanTriesEach(begun, ids, prices, now);
      IndexedByUpdate(a, pair, prices, now);
      var after := Updated(a, pair, prices, now).account;
      OpenOfIndexed(after, pair);
      OpenInTwice(ids, after.open, after.open);
    }
  }

  /** So it is for a trade update of any pair in any reachable state. */
  lemma UpdateTries(fee: Percent, balances: Balances, commands: seq<Command>, pair: Pair, prices: Prices, now: int)
    returns (k: nat)
    ensures TriesItsPair(Run(Opened(fee, balances), commands), pair, prices, now, k)
  {
    hide Indexed, Run, TriesItsPair;
    IndexedByRun(fee, balances, commands);
    k := IndexedUpdateTries(Run(Opened(fee, balances), commands), pair, prices, now);
  }
}
