/** Every id issued is open, closed or cancelled, and only one of them. */
module LifeCycle {
  import opened Trading
  import opened Orders
  import opened Tries

  ghost predicate Closed(a: Account, id: OrderId) {
    exists i :: 0 <= i < |a.fills| && a.fills[i].id == id
  }

  ghost predicate DistinctFills(fills: seq<Fill>) {
    forall i, j :: 0 <= i < j < |fills| ==> fills[i].id != fills[j].id
  }

  ghost predicate Issued(a: Account, id: OrderId) {
    0 < id < a.next
  }

  ghost predicate Partition(a: Account) {
    && 0 < a.next
    && DistinctFills(a.fills)
    && (forall id :: Issued(a, id) <==> id in a.open || Closed(a, id) || id in a.cancelled)
    && (forall id :: id in a.open ==> !Closed(a, id) && id !in a.cancelled)
    && (forall id :: Closed(a, id) ==> id !in a.cancelled)
  }

  lemma ClosedGrows(a: Account, b: Account, f: Fill)
    requires b.fills == a.fills + [f]
    ensures forall id :: Closed(b, id) <==> Closed(a, id) || id == f.id
  {
    assert b.fills[|a.fills|] == f;
    forall id ensures Closed(b, id) <==> Closed(a, id) || id == f.id {
      if Closed(a, id) {
        var i :| 0 <= i < |a.fills| && a.fills[i].id == id;
        assert b.fills[i].id == id;
      }
    }
  }

  lemma ClosedSame(a: Account, b: Account)
    requires a.fills == b.fills
    ensures forall id :: Closed(a, id) <==> Closed(b, id)
  {
  }

  lemma PartitionByTry(a: Account, id: OrderId, price: Price, now: int)
    requires Partition(a) && id in a.open
    ensures Partition(TryFill(a, id, price, now).account)
  {
    hide TryFill;
    TryKeeps(a, id, price, now);
    if TryFill(a, id, price, now).outcome.Filled? {
      var p := TryFills(a, id, price, now);
      ClosedGrows(a, TryFill(a, id, price, now).account, Fill(id, a.open[id], p, now, price));
    } else {
      ClosedSame(a, TryFill(a, id, price, now).account);
    }
  }

  lemma {:induction false} PartitionByScan(a: Account, ids: seq<OrderId>, prices: Prices, now: int)
    requires Partition(a)
    ensures Partition(Scan(a, ids, prices, now).account)
    decreases |ids|
  {
    hide TryFill, Partition;
    if ids != [] {
      var b := a;
      if ids[0] in a.open {
        PartitionByTry(a, ids[0], prices(a.open[ids[0]].pair), now);
        b := TryFill(a, ids[0], prices(a.open[ids[0]].pair), now).account;
      }
      PartitionByScan(b, ids[1..], prices, now);
    }
  }

  lemma PartitionIgnoresLists(a: Account, lists: map<Pair, seq<OrderId>>)
    requires Partition(a)
    ensures Partition(a.(byPair := lists))
  {
    ClosedSame(a, a.(byPair := lists));
    assert forall id :: Issued(a, id) <==> Issued(a.(byPair := lists), id);
  }

  lemma PartitionByPlacing(a: Account, r: Request)
    requires Partition(a)
    ensures Partition(Placed(a, r)) && a.next in Placed(a, r).open
  {
    var b := Placed(a, r);
    ClosedSame(a, b);
    assert !Issued(a, a.next);
    forall id ensures Issued(b, id) <==> id in b.open || Closed(b, id) || id in b.cancelled {
      assert Issued(b, id) <==> Issued(a, id) || id == a.next;
    }
  }

  lemma PartitionByCancelling(a: Account, id: OrderId)
    requires Partition(a) && id in a.open
    ensures Partition(Cancelled(a, id))
  {
    var b := Cancelled(a, id);
    ClosedSame(a, b);
    assert forall x :: Issued(a, x) <==> Issued(b, x);
  }

  lemma PartitionByStep(a: Account, c: Command)
    requires Partition(a)
    ensures Partition(Step(a, c))
  {
    hide Partition, TryFill, Scan, Placed, Cancelled;
    match c
    case AddOrder(r, prices, now) =>
      PartitionByPlacing(a, r);
      PartitionByTry(Placed(a, r), a.next, prices(r.pair), now);
    case CancelOrder(id) =>
      if id in a.open { PartitionByCancelling(a, id); }
    case TradeUpdate(pair, prices, now) =>
      var begun := a.(byPair := a.byPair[pair := ListOf(a, pair)]);
      PartitionIgnoresLists(a, begun.byPair);
      PartitionByScan(begun, ListOf(a, pair), prices, now);
      var s := Scan(begun, ListOf(a, pair), prices, now);
      PartitionIgnoresLists(s.account, s.account.byPair[pair := s.left]);
  }

  lemma OpenedIsPartitioned(fee: Percent, balances: Balances)
    ensures Partition(Opened(fee, balances))
  {
  }

  /** In every reachable state each id issued is in exactly one of open, closed and cancelled, and no
      other id is in any of them. */
  lemma {:induction false} PartitionByRun(fee: Percent, balances: Balances, commands: seq<Command>)
    ensures Partition(Run(Opened(fee, balances), commands))
  {
    hide Partition, Step;
    if commands == [] {
      OpenedIsPartitioned(fee, balances);
    } else {
      PartitionByRun(fee, balances, commands[..|commands| - 1]);
      PartitionByStep(Run(Opened(fee, balances), commands[..|commands| - 1]), commands[|commands| - 1]);
    }
  }

  // ---- Nothing comes back ----

  /** Later states only add: executions are appended, cancellations and ids only grow, and an order open
      later was open before or is new. */
  ghost predicate Extends(a: Account, b: Account) {
    && a.fills <= b.fills && a.cancelled <= b.cancelled && a.next <= b.next && a.fee == b.fee
    && (forall id :: id in b.open ==> (id in a.open && b.open[id] == a.open[id]) || a.next <= id)
  }

  lemma TryExtends(a: Account, id: OrderId, price: Price, now: int)
    requires id in a.open
    ensures Extends(a, TryFill(a, id, price, now).account)
  {
    hide TryFill;
    TryKeeps(a, id, price, now);
    if TryFill(a, id, price, now).outcome.Filled? {
      var p := TryFills(a, id, price, now);
    }
  }

  lemma {:induction false} ScanExtends(a: Account, ids: seq<OrderId>, prices: Prices, now: int)
    ensures Extends(a, Scan(a, ids, prices, now).account)
    ensures Scan(a, ids, prices, now).account.next == a.next
    ensures Scan(a, ids, prices, now).account.byPair == a.byPair
    decreases |ids|
  {
    hide TryFill;
    if ids != [] {
      var b := a;
      if ids[0] in a.open {
        var price := prices(a.open[ids[0]].pair);
        TryExtends(a, ids[0], price, now);
        TryKeeps(a, ids[0], price, now);
        b := TryFill(a, ids[0], price, now).account;
      }
      ScanExtends(b, ids[1..], prices, now);
    }
  }

  lemma StepExtends(a: Account, c: Command)
    ensures Extends(a, Step(a, c))
  {
    hide TryFill, Scan;
    match c
    case AddOrder(r, prices, now) =>
      TryExtends(Placed(a, r), a.next, prices(r.pair), now);
    case CancelOrder(id) =>
    case TradeUpdate(pair, prices, now) =>
      ScanExtends(a.(byPair := a.byPair[pair := ListOf(a, pair)]), ListOf(a, pair), prices, now);
  }

  /** Over any run, an id once issued and not open is never open again, closed orders keep their place, and
      an open order keeps its request. */
  lemma {:induction false} RunExtends(a: Account, commands: seq<Command>)
    ensures Extends(a, Run(a, commands))
    ensures forall id :: Issued(a, id) && id !in a.open ==> id !in Run(a, commands).open
  {
    hide Step;
    if commands != [] {
      RunExtends(a, commands[..|commands| - 1]);
      StepExtends(Run(a, commands[..|commands| - 1]), commands[|commands| - 1]);
    }
  }
}
