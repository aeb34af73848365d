/** Orders, and what a paper trading account does with them, step by step. */
module Orders {
  import opened Trading

  // ---- Values ----

  datatype OrderType = Market | Limit | StopLoss | TrailingStopLoss | TakeProfit

  datatype Action = Sell | Buy

  /** An order request; a parameter that is not given reads as 0. */
  datatype OrderRequest = OrderRequest(
    orderType: OrderType, pair: Pair, action: Action,
    assetPrice: real, stopPrice: real, volume: real, trailingDelta: real)

  /** Volumes and prices are not negative: the original converts amounts to an unsigned integer. */
  type Request = r: OrderRequest | r.assetPrice >= 0.0 && r.stopPrice >= 0.0 && r.volume >= 0.0
    witness OrderRequest(Market, Pair("", ""), Buy, 0.0, 0.0, 0.0, 0.0)

  type Price = p: real | p >= 0.0

  type Percent = f: real | 0.0 <= f <= 100.0

  type Prices = Pair -> Price

  type OrderId = nat

  datatype Description = Description(
    time: int, id: OrderId, orderType: OrderType, pairName: string, action: Action, price: Price, volume: real)

  /** An executed order, with the price of the market it was filled in. */
  datatype Fill = Fill(id: OrderId, request: Request, price: Price, time: int, market: Price)

  function Describe(f: Fill): Description {
    var r := f.request;
    Description(f.time, f.id, r.orderType, r.pair.asset + r.pair.priceUnit, r.action, f.price, r.volume)
  }

  // ---- Amounts ----

  const VOLUME_MODIFIER: real := 10000000000.0

  /** Amounts are kept in units of 10^-10, the rest cut off. */
  function ToUnits(value: real): nat
    requires value >= 0.0
  {
    (value * VOLUME_MODIFIER).Floor
  }

  type Balances = map<string, nat>

  datatype Deal = Deal(gained: string, sold: string, gain: nat, cost: nat)

  function Cost(r: Request, price: Price): (c: real)
    ensures c >= 0.0
  {
    price * r.volume
  }

  lemma FeeBounds(cost: real, fee: Percent)
    requires cost >= 0.0
    ensures 0.0 <= cost * fee * 0.01 <= cost
  {
    assert 0.0 <= cost * fee;
    assert cost * fee <= cost * 100.0;
  }

  function FeeOf(cost: real, fee: Percent): (f: real)
    requires cost >= 0.0
    ensures 0.0 <= f <= cost
  {
    FeeBounds(cost, fee);
    cost * fee * 0.01
  }

  /** What an execution moves: a buyer pays the fee on top, a seller has it taken off. */
  function DealOf(fee: Percent, r: Request, price: Price): Deal {
    var cost := Cost(r, price);
    match r.action
    case Buy => Deal(r.pair.asset, r.pair.priceUnit, ToUnits(r.volume), ToUnits(cost + FeeOf(cost, fee)))
    case Sell => Deal(r.pair.priceUnit, r.pair.asset, ToUnits(cost - FeeOf(cost, fee)), ToUnits(r.volume))
  }

  function BalanceOf(b: Balances, asset: string): nat {
    if asset in b then b[asset] else 0
  }

  predicate Covers(b: Balances, asset: string, amount: nat) {
    asset in b && b[asset] >= amount
  }

  function Settle(b: Balances, d: Deal): Balances
    requires Covers(b, d.sold, d.cost)
  {
    var credited := b[d.gained := BalanceOf(b, d.gained) + d.gain];
    credited[d.sold := credited[d.sold] - d.cost]
  }

  // ---- When an order fills ----

  predicate ShouldCloseLimit(r: Request, price: Price) {
    (r.action == Buy && price <= r.assetPrice) || (r.action == Sell && price >= r.assetPrice)
  }

  predicate ShouldCloseStopLoss(r: Request, price: Price) {
    (r.action == Buy && price >= r.stopPrice) || (r.action == Sell && price <= r.stopPrice)
  }

  /** The extreme a trailing order follows: the lowest price for a buy, the highest for a sale. */
  function Follow(action: Action, extreme: real, price: real): real {
    match action case Buy => Min(extreme, price) case Sell => Max(extreme, price)
  }

  predicate ShouldCloseTrailing(r: Request, extreme: real, price: real) {
    match r.action
    case Buy => price >= extreme * (1.0 + r.trailingDelta)
    case Sell => price <= extreme * (1.0 - r.trailingDelta)
  }

  // ---- The account ----

  /** The account with its history: `fills` are the executions behind the closed orders, `cancelled` the
      ids cancelled, `tried` the non-zero prices each open order was tried at since it was placed or last
      failed, and `attempts` every id tried, in order. */
  datatype Account = Account(
    fee: Percent,
    trailing: map<OrderId, real>,
    balances: Balances,
    open: map<OrderId, Request>,
    byPair: map<Pair, seq<OrderId>>,
    fills: seq<Fill>,
    next: OrderId,
    cancelled: set<OrderId>,
    tried: map<OrderId, seq<Price>>,
    attempts: seq<OrderId>)

  function Opened(fee: Percent, balances: Balances): Account {
    Account(fee, map[], balances, map[], map[], [], 1, {}, map[], [])
  }

  function TriedAt(a: Account, id: OrderId): seq<Price> {
    if id in a.tried then a.tried[id] else []
  }

  function ListOf(a: Account, pair: Pair): seq<OrderId> {
    if pair in a.byPair then a.byPair[pair] else []
  }

  /** The extreme of a trailing order once `price` is taken in. */
  function NewExtreme(a: Account, id: OrderId, price: Price): real
    requires id in a.open
  {
    Follow(a.open[id].action, if id in a.trailing then a.trailing[id] else price, price)
  }

  /** The price an order fills at when the market is at `price`, if it fills. */
  function FillPrice(a: Account, id: OrderId, price: Price): Option<Price>
    requires id in a.open
  {
    var r := a.open[id];
    match r.orderType
    case Market => Some(price)
    case Limit => if ShouldCloseLimit(r, price) then Some(r.assetPrice) else None
    case StopLoss => if ShouldCloseStopLoss(r, price) then Some(r.stopPrice) else None
    case TrailingStopLoss => if ShouldCloseTrailing(r, NewExtreme(a, id, price), price) then Some(price) else None
    case TakeProfit => None
  }

  /** The stored extremes after a try: a trailing order that fires loses its entry. */
  function TrailingAfter(a: Account, id: OrderId, price: Price): map<OrderId, real>
    requires id in a.open
  {
    if !a.open[id].orderType.TrailingStopLoss? then a.trailing
    else if FillPrice(a, id, price).Some? then a.trailing - {id}
    else a.trailing[id := NewExtreme(a, id, price)]
  }

  datatype Outcome = Kept | Filled | Threw

  datatype Attempt = Attempt(account: Account, outcome: Outcome)

  function CanExecute(a: Account, id: OrderId, fillPrice: Price): bool
    requires id in a.open
  {
    var d := DealOf(a.fee, a.open[id], fillPrice);
    Covers(a.balances, d.sold, d.cost)
  }

  function Executed(a: Account, id: OrderId, fillPrice: Price, now: int, market: Price): Account
    requires id in a.open && CanExecute(a, id, fillPrice)
  {
    a.(balances := Settle(a.balances, DealOf(a.fee, a.open[id], fillPrice)),
       fills := a.fills + [Fill(id, a.open[id], fillPrice, now, market)],
       open := a.open - {id},
       tried := a.tried - {id})
  }

  lemma ExecutedIs(a: Account, id: OrderId, fillPrice: Price, now: int, market: Price)
    requires id in a.open && CanExecute(a, id, fillPrice)
    ensures Executed(a, id, fillPrice, now, market) ==
            Account(a.fee, a.trailing, Settle(a.balances, DealOf(a.fee, a.open[id], fillPrice)), a.open - {id},
                    a.byPair, a.fills + [Fill(id, a.open[id], fillPrice, now, market)], a.next, a.cancelled,
                    a.tried - {id}, a.attempts)
  {
  }

  /** Trying to fill an open order. A price of 0 stands for no price. An order that fires without funds
      stays open, but its trailing entry is already gone. */
  function TryFill(a: Account, id: OrderId, price: Price, now: int): Attempt
    requires id in a.open
  {
    var tried := a.(attempts := a.attempts + [id]);
    if price == 0.0 then Attempt(tried, Kept) else
      var moved := tried.(trailing := TrailingAfter(a, id, price));
      match FillPrice(a, id, price)
      case None => Attempt(moved.(tried := a.tried[id := TriedAt(a, id) + [price]]), Kept)
      case Some(fillPrice) =>
        if CanExecute(a, id, fillPrice) then Attempt(Executed(moved, id, fillPrice, now, price), Filled)
        else Attempt(moved.(tried := a.tried[id := []]), Threw)
  }

  datatype Scanned = Scanned(account: Account, left: seq<OrderId>, threw: bool)

  /** One pass over a pair's list: ids that are not open are dropped, the others tried in turn, and the
      filled ones dropped; the first failure ends the pass with the rest of the list untouched. */
  function Scan(a: Account, ids: seq<OrderId>, prices: Prices, now: int): Scanned
    decreases |ids|
  {
    if ids == [] then Scanned(a, [], false)
    else if ids[0] !in a.open then Scan(a, ids[1..], prices, now)
    else
      var t := TryFill(a, ids[0], prices(a.open[ids[0]].pair), now);
      match t.outcome
      case Threw => Scanned(t.account, ids, true)
      case Filled => Scan(t.account, ids[1..], prices, now)
      case Kept => var rest := Scan(t.account, ids[1..], prices, now); rest.(left := [ids[0]] + rest.left)
  }

  function Updated(a: Account, pair: Pair, prices: Prices, now: int): Scanned {
    var s := Scan(a.(byPair := a.byPair[pair := ListOf(a, pair)]), ListOf(a, pair), prices, now);
    s.(account := s.account.(byPair := s.account.byPair[pair := s.left]))
  }

  function Placed(a: Account, r: Request): Account {
    a.(open := a.open[a.next := r],
       byPair := a.byPair[r.pair := ListOf(a, r.pair) + [a.next]],
       tried := a.tried[a.next := []],
       next := a.next + 1)
  }

  function Added(a: Account, r: Request, prices: Prices, now: int): Attempt {
    TryFill(Placed(a, r), a.next, prices(r.pair), now)
  }

  function Cancelled(a: Account, id: OrderId): Account
    requires id in a.open
  {
    a.(open := a.open - {id}, cancelled := a.cancelled + {id}, tried := a.tried - {id})
  }

  datatype Command =
    | AddOrder(request: Request, prices: Prices, now: int)
    | CancelOrder(id: OrderId)
    | TradeUpdate(pair: Pair, prices: Prices, now: int)

  /** One call from outside; a call that throws still leaves what it changed before. */
  function Step(a: Account, c: Command): Account {
    match c
    case AddOrder(r, prices, now) => Added(a, r, prices, now).account
    case CancelOrder(id) => if id in a.open then Cancelled(a, id) else a
    case TradeUpdate(pair, prices, now) => Updated(a, pair, prices, now).account
  }

  function Run(a: Account, commands: seq<Command>): Account {
    if commands == [] then a else Step(Run(a, commands[..|commands| - 1]), commands[|commands| - 1])
  }

  // ---- What a try does not look at ----

  lemma DecisionIgnoresLog(a: Account, b: Account, id: OrderId, price: Price)
    requires id in a.open && b == a.(attempts := b.attempts)
    ensures FillPrice(a, id, price) == FillPrice(b, id, price)
    ensures TrailingAfter(a, id, price) == TrailingAfter(b, id, price)
  {
  }

  lemma CanExecuteSame(a: Account, b: Account, id: OrderId, fillPrice: Price)
    requires id in a.open && a.open == b.open && a.balances == b.balances && a.fee == b.fee
    ensures CanExecute(a, id, fillPrice) == CanExecute(b, id, fillPrice)
  {
  }

  lemma DecisionIgnoresLists(a: Account, id: OrderId, price: Price, lists: map<Pair, seq<OrderId>>)
    requires id in a.open
    ensures FillPrice(a, id, price) == FillPrice(a.(byPair := lists), id, price)
    ensures TrailingAfter(a, id, price) == TrailingAfter(a.(byPair := lists), id, price)
  {
  }

  lemma TryFillIgnoresLists(a: Account, id: OrderId, price: Price, now: int, lists: map<Pair, seq<OrderId>>)
    requires id in a.open
    ensures var t, u := TryFill(a, id, price, now), TryFill(a.(byPair := lists), id, price, now);
            u.outcome == t.outcome && u.account == t.account.(byPair := lists)
    ensures TryFill(a, id, price, now).account.byPair == a.byPair
  {
    hide DealOf, FillPrice, TrailingAfter, Settle, CanExecute;
    DecisionIgnoresLists(a, id, price, lists);
    var fillPrice := FillPrice(a, id, price);
    if fillPrice.Some? {
      CanExecuteSame(a, a.(byPair := lists), id, fillPrice.value);
    }
  }

  /** The scan of a list whose first order is open, told by the try of that order. */
  lemma ScanOpen(a: Account, lists: map<Pair, seq<OrderId>>, ids: seq<OrderId>, prices: Prices, now: int)
    requires ids != [] && ids[0] in a.open
    ensures var t := TryFill(a, ids[0], prices(a.open[ids[0]].pair), now);
            var after := t.account.(byPair := lists);
            && t.account.byPair == a.byPair
            && Scan(a.(byPair := lists), ids, prices, now) ==
               match t.outcome
               case Threw => Scanned(after, ids, true)
               case Filled => Scan(after, ids[1..], prices, now)
               case Kept => var rest := Scan(after, ids[1..], prices, now); rest.(left := [ids[0]] + rest.left)
  {
    hide TryFill;
    TryFillIgnoresLists(a, ids[0], prices(a.open[ids[0]].pair), now, lists);
  }

  lemma ScanClosed(a: Account, ids: seq<OrderId>, prices: Prices, now: int)
    requires ids != [] && ids[0] !in a.open
    ensures Scan(a, ids, prices, now) == Scan(a, ids[1..], prices, now)
  {
  }

  lemma ScanNothing(a: Account, prices: Prices, now: int)
    ensures Scan(a, [], prices, now) == Scanned(a, [], false)
  {
  }

  /** A scan of the rest of a list, put behind the orders kept before it. */
  function After(kept: seq<OrderId>, s: Scanned): Scanned {
    s.(left := kept + s.left)
  }

  lemma AfterNothing(s: Scanned)
    ensures After([], s) == s
  {
  }

  lemma AfterOneMore(kept: seq<OrderId>, id: OrderId, s: Scanned)
    ensures After(kept, s.(left := [id] + s.left)) == After(kept + [id], s)
  {
    assert kept + ([id] + s.left) == kept + [id] + s.left;
  }

  lemma LeftAfter(kept: seq<OrderId>, s: Scanned)
    ensures After(kept, s) == Scanned(s.account, kept + s.left, s.threw)
  {
  }

  lemma SetAgain<K, V>(m: map<K, V>, k: K, v: V, w: V)
    ensures m[k := v][k := w] == m[k := w]
  {
  }

  lemma SuffixStep<T>(s: seq<T>, i: nat)
    requires i < |s|
    ensures s[i..][0] == s[i] && s[i..][1..] == s[i + 1..] && s[i..] == [s[i]] + s[i + 1..]
  {
  }

  /** Taking out, or stepping over, the element between a kept part and the rest. */
  lemma Middle<T>(kept: seq<T>, x: T, rest: seq<T>)
    ensures var s := kept + ([x] + rest);
            && s[|kept|] == x && s[..|kept|] + s[|kept| + 1..] == kept + rest
            && s == kept + [x] + rest
  {
  }
}
