/** A whole back test as a run over values: a strategy that trades on the paper account while the clock steps
    over the data. */
module BackTestSession {
  import opened Trading
  import opened Orders
  import opened LifeCycle
  import opened Tries
  import opened OrderIndex
  import opened TrailingStops
  import opened Money
  import opened Outcomes
  import BackTestingData
  import BackTestRunner
  import TestLogger

  type View = BackTestRunner.View

  // ---- The market the account trades in ----

  ghost predicate Priced(rows: seq<Ohlcv>) {
    forall i :: 0 <= i < |rows| ==> rows[i].open >= 0.0 && rows[i].close >= 0.0
  }

  /** Rows in order of time, at prices that are not negative. */
  ghost predicate Usable(view: View) {
    forall p :: BackTestingData.Ascending(view(p)) && Priced(view(p))
  }

  ghost function LastPrice(rows: seq<Ohlcv>, now: int): Price
    requires Priced(rows)
  {
    BackTestingData.TradeAt(rows, now).price
  }

  /** The price of every pair at `now`: that of its last trade, 0 where there is none yet. */
  ghost function MarketAt(view: View, now: int): Prices
    requires Usable(view)
  {
    (p: Pair) => LastPrice(view(p), now)
  }

  // ---- What a strategy does ----

  datatype Act =
    | Ask(query: BackTestingData.Query)
    | Place(request: Request)
    | Cancel(id: OrderId)
    | Look
    | Subscribe(pair: Pair)
    | Unsubscribe(pair: Pair)
  {
    predicate Valid() {
      Ask? ==> query.Valid()
    }
  }

  datatype Reply =
    | Answered(answer: BackTestingData.Answer)
    | Accepted(id: OrderId)
    | Failed
    | Done
    | Seen(balances: Balances, open: map<OrderId, Request>, closed: seq<Description>)

  /** A strategy acts, ends its iteration, or lets an exception out of it. */
  datatype Move = Do(act: Act) | Finish | Raise

  /** What to do next, given the iteration and every reply so far. */
  type Strategy = (nat, seq<Reply>) -> Move

  ghost predicate Proper(strategy: Strategy) {
    forall i, seen :: strategy(i, seen).Do? ==> strategy(i, seen).act.Valid()
  }

  /** The account, the pairs whose trades are subscribed to, those the strategy has unsubscribed from since,
      and what the strategy has been told. */
  datatype Session = Session(account: Account, subscribed: set<Pair>, unsubscribed: set<Pair>, replies: seq<Reply>)

  ghost function Acted(s: Session, view: View, now: int, act: Act): Session
    requires Usable(view) && act.Valid()
  {
    match act
    case Ask(q) => s.(replies := s.replies + [Answered(BackTestingData.Fresh(view(q.pair), now, q))])
    case Place(r) =>
      var t := Added(s.account, r, MarketAt(view, now), now);
      s.(account := t.account, subscribed := s.subscribed + {r.pair}, unsubscribed := s.unsubscribed - {r.pair},
         replies := s.replies + [if t.outcome.Threw? then Failed else Accepted(s.account.next)])
    case Cancel(id) =>
      if id in s.account.open then s.(account := Cancelled(s.account, id), replies := s.replies + [Done])
      else s.(replies := s.replies + [Failed])
    case Look =>
      var a := s.account;
      s.(replies := s.replies + [Seen(a.balances, a.open, TestLogger.Descriptions(a.fills))])
    case Subscribe(pair) =>
      s.(subscribed := s.subscribed + {pair}, unsubscribed := s.unsubscribed - {pair}, replies := s.replies + [Done])
    case Unsubscribe(pair) =>
      s.(subscribed := s.subscribed - {pair}, unsubscribed := s.unsubscribed + {pair}, replies := s.replies + [Done])
  }

  /** What a strategy is told is so: an accepted order is open or executed as it was asked for, a failed one
      stays open without funds; only an open order can be cancelled, and it is gone then; a look shows the
      account, with a row for each execution; an answer is that of a fresh search. */
  lemma ReplyMeaning(s: Session, view: View, now: int, act: Act)
    requires Usable(view) && act.Valid()
    ensures var t := Acted(s, view, now, act);
            && |t.replies| == |s.replies| + 1 && s.replies == t.replies[..|s.replies|]
            && var reply, a, b := t.replies[|s.replies|], s.account, t.account;
               match act
               case Ask(q) => b == a && reply == Answered(BackTestingData.Fresh(view(q.pair), now, q))
               case Place(r) =>
                 && b.next == a.next + 1
                 && (reply == Failed || reply == Accepted(a.next))
                 && (a.next in b.open ==> b.open[a.next] == r)
                 && (a.next !in b.open ==>
                       reply == Accepted(a.next) && |b.fills| == |a.fills| + 1
                       && b.fills[|a.fills|].id == a.next && b.fills[|a.fills|].request == r)
                 && (reply == Failed ==> b.balances == a.balances && b.fills == a.fills)
               case Cancel(id) =>
                 && (reply == Done <==> id in a.open)
                 && (id in a.open ==> id !in b.open && b.cancelled == a.cancelled + {id})
                 && (id !in a.open ==> reply == Failed && b == a)
               case Look =>
                 && b == a && reply.Seen? && reply.balances == a.balances && reply.open == a.open
                 && |reply.closed| == |a.fills|
                 && forall i :: 0 <= i < |a.fills| ==> reply.closed[i] == Describe(a.fills[i])
               case Subscribe(p) => b == a && reply == Done && p in t.subscribed
               case Unsubscribe(p) => b == a && reply == Done && p !in t.subscribed
  {
    hide TryFill, Usable, MarketAt, BackTestingData.Fresh;
    var a := s.account;
    if act.Place? {
      var r, prices := act.request, MarketAt(view, now);
      TryKeeps(Placed(a, r), a.next, prices(r.pair), now);
      PlacedAsAsked(a, r, prices, now);
    }
    if act.Look? {
      forall i | 0 <= i < |a.fills| ensures TestLogger.Descriptions(a.fills)[i] == Describe(a.fills[i]) {
        TestLogger.DescriptionsAt(a.fills, i);
      }
    }
  }

  datatype Turn = Turn(session: Session, raised: bool)

  /** One iteration of the strategy, of at most `limit` acts. */
  ghost function Played(s: Session, view: View, now: int, i: nat, strategy: Strategy, limit: nat): Turn
    requires Usable(view) && Proper(strategy)
    decreases limit
  {
    if limit == 0 then Turn(s, false) else
      match strategy(i, s.replies)
      case Finish => Turn(s, false)
      case Raise => Turn(s, true)
      case Do(act) => Played(Acted(s, view, now, act), view, now, i, strategy, limit - 1)
  }

  /** An iteration goes on as long as the strategy acts, up to `limit` acts; it ends with an exception
      exactly if the strategy then raises one. */
  lemma {:induction false} PlayedEnds(s: Session, view: View, now: int, i: nat, strategy: Strategy, limit: nat)
    requires Usable(view) && Proper(strategy)
    ensures var turn := Played(s, view, now, i, strategy, limit);
            var told := turn.session.replies;
            && |s.replies| <= |told| <= |s.replies| + limit && s.replies == told[..|s.replies|]
            && (forall k :: |s.replies| <= k < |told| ==> strategy(i, told[..k]).Do?)
            && (|told| < |s.replies| + limit ==> !strategy(i, told).Do?)
            && (turn.raised <==> |told| < |s.replies| + limit && strategy(i, told).Raise?)
    decreases limit
  {
    hide Acted, Usable;
    if limit > 0 && strategy(i, s.replies).Do? {
      var act := strategy(i, s.replies).act;
      var next := Acted(s, view, now, act);
      ReplyMeaning(s, view, now, act);
      PlayedEnds(next, view, now, i, strategy, limit - 1);
      var told := Played(s, view, now, i, strategy, limit).session.replies;
      assert told[..|next.replies|][..|s.replies|] == told[..|s.replies|];
    } else {
      assert s.replies[..|s.replies|] == s.replies;
    }
  }

  // ---- Notifying the account ----

  datatype Notified = Notified(account: Account, threw: bool)

  /** The trade updates of the pairs `order`, one after the other, up to one that throws. */
  function NotifiedOf(a: Account, order: seq<Pair>, prices: Prices, now: int): Notified
    decreases |order|
  {
    if order == [] then Notified(a, false) else
      var s := Updated(a, order[0], prices, now);
      if s.threw then Notified(s.account, true) else NotifiedOf(s.account, order[1..], prices, now)
  }

  lemma NothingNotified(a: Account, prices: Prices, now: int)
    ensures NotifiedOf(a, [], prices, now) == Notified(a, false)
  {
  }

  /** An exception ends notifying right where it occurs: the pairs before it are done, the ones after it are
      not notified. */
  lemma {:induction false} NotifiedStopsAt(a: Account, order: seq<Pair>, prices: Prices, now: int) returns (k: nat)
    requires NotifiedOf(a, order, prices, now).threw
    ensures k < |order| && !NotifiedOf(a, order[..k], prices, now).threw
    ensures var s := Updated(NotifiedOf(a, order[..k], prices, now).account, order[k], prices, now);
            s.threw && NotifiedOf(a, order, prices, now).account == s.account
    decreases |order|
  {
    hide Updated;
    var s := Updated(a, order[0], prices, now);
    if s.threw {
      k := 0;
      NothingNotified(a, prices, now);
      assert order[..0] == [];
    } else {
      var j := NotifiedStopsAt(s.account, order[1..], prices, now);
      k := j + 1;
      assert order[..k][1..] == order[1..][..j];
    }
  }

  /** The elements of a set in some order, each once. */
  ghost predicate Lists<T(!new)>(order: seq<T>, all: set<T>) {
    && (forall i, j :: 0 <= i < j < |order| ==> order[i] != order[j])
    && (forall x :: x in order <==> x in all)
  }

  lemma {:induction false} NotifiedSnoc(a: Account, sent: seq<Pair>, pair: Pair, prices: Prices, now: int)
    requires !NotifiedOf(a, sent, prices, now).threw
    ensures var s := Updated(NotifiedOf(a, sent, prices, now).account, pair, prices, now);
            NotifiedOf(a, sent + [pair], prices, now) == Notified(s.account, s.threw)
    decreases |sent|
  {
    hide Updated;
    if sent == [] {
      assert [pair][1..] == [];
    } else {
      assert (sent + [pair])[1..] == sent[1..] + [pair];
      NotifiedSnoc(Updated(a, sent[0], prices, now).account, sent[1..], pair, prices, now);
    }
  }

  /** Once an update has thrown, the pairs after it no longer matter. */
  lemma {:induction false} NotifiedThrew(a: Account, sent: seq<Pair>, rest: seq<Pair>, prices: Prices, now: int)
    requires NotifiedOf(a, sent, prices, now).threw
    ensures NotifiedOf(a, sent + rest, prices, now) == NotifiedOf(a, sent, prices, now)
    decreases |sent|
  {
    hide Updated;
    assert (sent + rest)[1..] == sent[1..] + rest;
    if !Updated(a, sent[0], prices, now).threw {
      NotifiedThrew(Updated(a, sent[0], prices, now).account, sent[1..], rest, prices, now);
    }
  }

  lemma ListsOneMore(sent: seq<Pair>, all: set<Pair>, pair: Pair)
    requires Lists(sent, all) && pair !in all
    ensures Lists(sent + [pair], all + {pair})
  {
  }

  /** A listing of some elements, completed to one of all. */
  lemma {:induction false} ListsCompleted(sent: seq<Pair>, part: set<Pair>, all: set<Pair>) returns (rest: seq<Pair>)
    requires Lists(sent, part) && part <= all
    ensures Lists(sent + rest, all)
    decreases all - part
  {
    rest := [];
    if all - part == {} {
      assert part == all && sent + [] == sent;
    } else {
      var pair :| pair in all - part;
      ListsOneMore(sent, part, pair);
      var more := ListsCompleted(sent + [pair], part + {pair}, all);
      rest := [pair] + more;
      assert sent + rest == sent + [pair] + more;
    }
  }

  // ---- The run ----

  /** How far a test has come: the trades logged so far, and whether an exception has ended it. */
  datatype Progress = Progress(session: Session, logged: seq<Fill>, aborted: bool)

  ghost function Opening(a: Account): Progress {
    Progress(Session(a, {}, {}, []), [], false)
  }

  /** One iteration: notify the subscribed pairs, let the strategy act, log the trades if it did not raise.
      An exception while notifying is not caught, and ends the test. */
  ghost function Iterated(p: Progress, view: View, now: int, i: nat, strategy: Strategy, limit: nat, order: seq<Pair>)
    : Progress
    requires Usable(view) && Proper(strategy)
  {
    if p.aborted then p else
      var n := NotifiedOf(p.session.account, order, MarketAt(view, now), now);
      var s := p.session.(account := n.account);
      if n.threw then p.(session := s, aborted := true) else
        var turn := Played(s, view, now, i, strategy, limit);
        Progress(turn.session, if turn.raised then p.logged else turn.session.account.fills, false)
  }

  datatype Setting = Setting(account: Account, start: int, stepSize: int, strategy: Strategy, limit: nat) {
    function Clock(i: nat): int {
      BackTestRunner.Clock(start, stepSize, i)
    }
  }

  /** The test after as many iterations as `orders` lists orders of notification for. */
  ghost function Tested(t: Setting, view: View, orders: seq<seq<Pair>>): Progress
    requires Usable(view) && Proper(t.strategy)
  {
    if orders == [] then Opening(t.account) else
      var n := |orders| - 1;
      Iterated(Tested(t, view, orders[..n]), view, t.Clock(n), n, t.strategy, t.limit, orders[n])
  }

  // ---- Every test is a run of the account ----

  /** A call made at `now` sees the market of `now`. */
  ghost predicate MadeAt(c: Command, view: View, now: int)
    requires Usable(view)
  {
    c.CancelOrder? || (c.now == now && c.prices == MarketAt(view, now))
  }

  ghost predicate MadeOnTime(commands: seq<Command>, t: Setting, view: View, n: nat)
    requires Usable(view)
  {
    forall k :: 0 <= k < |commands| ==> exists i: nat :: i < n && MadeAt(commands[k], view, t.Clock(i))
  }

  /** The account `a` is what calls made during the first `n` iterations lead to. */
  ghost predicate LeadsTo(t: Setting, view: View, n: nat, commands: seq<Command>, a: Account)
    requires Usable(view)
  {
    a == Run(t.account, commands) && MadeOnTime(commands, t, view, n)
  }

  lemma OneMoreCall(t: Setting, view: View, n: nat, commands: seq<Command>, a: Account, c: Command, i: nat)
    requires Usable(view) && LeadsTo(t, view, n, commands, a) && i < n && MadeAt(c, view, t.Clock(i))
    ensures LeadsTo(t, view, n, commands + [c], Step(a, c))
  {
    hide Step, MadeAt, Usable, Setting.Clock;
    var all := commands + [c];
    assert all[..|commands|] == commands;
    forall k | 0 <= k < |all| ensures exists j: nat :: j < n && MadeAt(all[k], view, t.Clock(j)) {
      if k < |commands| {
        assert all[k] == commands[k];
        var j: nat :| j < n && MadeAt(commands[k], view, t.Clock(j));
        assert MadeAt(all[k], view, t.Clock(j));
      } else {
        assert all[k] == c;
      }
    }
  }

  lemma {:induction false} NotifyingCalls(
    t: Setting, view: View, n: nat, i: nat, commands: seq<Command>, a: Account, order: seq<Pair>)
    returns (all: seq<Command>)
    requires Usable(view) && LeadsTo(t, view, n, commands, a) && i < n
    ensures LeadsTo(t, view, n, all, NotifiedOf(a, order, MarketAt(view, t.Clock(i)), t.Clock(i)).account)
    decreases |order|
  {
    hide Run, MadeOnTime, Usable, MarketAt;
    all := commands;
    if order != [] {
      var now := t.Clock(i);
      var c := TradeUpdate(order[0], MarketAt(view, now), now);
      OneMoreCall(t, view, n, commands, a, c, i);
      all := commands + [c];
      var s := Updated(a, order[0], MarketAt(view, now), now);
      if !s.threw {
        all := NotifyingCalls(t, view, n, i, all, s.account, order[1..]);
      }
    }
  }

  lemma {:induction false} PlayingCalls(
    t: Setting, view: View, n: nat, i: nat, commands: seq<Command>, s: Session, limit: nat)
    returns (all: seq<Command>)
    requires Usable(view) && Proper(t.strategy) && LeadsTo(t, view, n, commands, s.account) && i < n
    ensures LeadsTo(t, view, n, all, Played(s, view, t.Clock(i), i, t.strategy, limit).session.account)
    decreases limit
  {
    hide Run, MadeOnTime, Usable, MarketAt;
    all := commands;
    if limit > 0 && t.strategy(i, s.replies).Do? {
      var act, now := t.strategy(i, s.replies).act, t.Clock(i);
      match act {
        case Place(r) =>
          OneMoreCall(t, view, n, commands, s.account, AddOrder(r, MarketAt(view, now), now), i);
          all := commands + [AddOrder(r, MarketAt(view, now), now)];
        case Cancel(id) =>
          OneMoreCall(t, view, n, commands, s.account, CancelOrder(id), i);
          all := commands + [CancelOrder(id)];
        case _ =>
      }
      all := PlayingCalls(t, view, n, i, all, Acted(s, view, now, act), limit - 1);
    }
  }

  lemma LeadsToLater(t: Setting, view: View, n: nat, commands: seq<Command>, a: Account)
    requires Usable(view) && LeadsTo(t, view, n, commands, a)
    ensures LeadsTo(t, view, n + 1, commands, a)
  {
  }

  /** The account after any test is in a state it reaches by calls, each made at the clock of an iteration and
      at the market of that clock. */
  lemma {:induction false} TestIsRun(t: Setting, view: View, orders: seq<seq<Pair>>) returns (commands: seq<Command>)
    requires Usable(view) && Proper(t.strategy)
    ensures LeadsTo(t, view, |orders|, commands, Tested(t, view, orders).session.account)
  {
    hide Played, NotifiedOf, Usable, Proper;
    commands := [];
    if orders != [] {
      var n := |orders| - 1;
      var p := Tested(t, view, orders[..n]);
      commands := TestIsRun(t, view, orders[..n]);
      LeadsToLater(t, view, n, commands, p.session.account);
      if !p.aborted {
        commands := NotifyingCalls(t, view, n + 1, n, commands, p.session.account, orders[n]);
        var notified := NotifiedOf(p.session.account, orders[n], MarketAt(view, t.Clock(n)), t.Clock(n));
        if !notified.threw {
          commands := PlayingCalls(t, view, n + 1, n, commands, p.session.(account := notified.account), t.limit);
        }
      }
    }
  }

  // ---- What the account trades at ----

  ghost predicate All(fills: seq<Fill>, good: Fill -> bool) {
    forall i :: 0 <= i < |fills| ==> good(fills[i])
  }

  lemma GoodByTry(a: Account, id: OrderId, price: Price, now: int, good: Fill -> bool)
    requires All(a.fills, good) && id in a.open
    requires forall f: Fill :: f.time == now && f.market == price && f.request == a.open[id] ==> good(f)
    ensures All(TryFill(a, id, price, now).account.fills, good)
  {
    hide TryFill;
    TryKeeps(a, id, price, now);
    if TryFill(a, id, price, now).outcome.Filled? {
      var p := TryFills(a, id, price, now);
    }
  }

  ghost predicate GoodAt(prices: Prices, now: int, good: Fill -> bool) {
    forall f: Fill :: f.time == now && f.market == prices(f.request.pair) ==> good(f)
  }

  lemma {:induction false} GoodByScan(a: Account, ids: seq<OrderId>, prices: Prices, now: int, good: Fill -> bool)
    requires All(a.fills, good) && GoodAt(prices, now, good)
    ensures All(Scan(a, ids, prices, now).account.fills, good)
    decreases |ids|
  {
    hide TryFill, All;
    if ids != [] {
      var b := a;
      if ids[0] in a.open {
        GoodByTry(a, ids[0], prices(a.open[ids[0]].pair), now, good);
        b := TryFill(a, ids[0], prices(a.open[ids[0]].pair), now).account;
      }
      GoodByScan(b, ids[1..], prices, now, good);
    }
  }

  lemma GoodByStep(a: Account, c: Command, good: Fill -> bool)
    requires All(a.fills, good) && (!c.CancelOrder? ==> GoodAt(c.prices, c.now, good))
    ensures All(Step(a, c).fills, good)
  {
    hide TryFill, Scan, All;
    match c
    case AddOrder(r, prices, now) =>
      GoodByTry(Placed(a, r), a.next, prices(r.pair), now, good);
    case CancelOrder(id) =>
    case TradeUpdate(pair, prices, now) =>
      GoodByScan(a.(byPair := a.byPair[pair := ListOf(a, pair)]), ListOf(a, pair), prices, now, good);
  }

  lemma {:induction false} GoodByRun(a: Account, commands: seq<Command>, good: Fill -> bool)
    requires All(a.fills, good)
    requires forall k :: 0 <= k < |commands| && !commands[k].CancelOrder? ==>
               GoodAt(commands[k].prices, commands[k].now, good)
    ensures All(Run(a, commands).fills, good)
  {
    hide Step, All, GoodAt;
    if commands != [] {
      var n := |commands| - 1;
      GoodByRun(a, commands[..n], good);
      GoodByStep(Run(a, commands[..n]), commands[n], good);
    }
  }

  /** Executed in one of the first `n` iterations, at its clock, in the market the data show at that clock. */
  ghost predicate FromData(f: Fill, t: Setting, view: View, n: nat) {
    exists i: nat :: i < n && f.time == t.Clock(i) &&
      f.market == BackTestingData.TradeAt(view(f.request.pair), t.Clock(i)).price
  }

  /** Every execution of a test was made at the clock of an iteration, in the market of the data at that clock. */
  lemma ExecutionsFromData(t: Setting, view: View, orders: seq<seq<Pair>>)
    requires Usable(view) && Proper(t.strategy) && t.account.fills == []
    ensures var fills := Tested(t, view, orders).session.account.fills;
            forall i :: 0 <= i < |fills| ==> FromData(fills[i], t, view, |orders|)
  {
    hide Tested, Run;
    var commands := TestIsRun(t, view, orders);
    ghost var n := |orders|;
    ghost var good: Fill -> bool := f => FromData(f, t, view, n);
    forall k | 0 <= k < |commands| && !commands[k].CancelOrder?
      ensures GoodAt(commands[k].prices, commands[k].now, good)
    {
      var i: nat :| i < n && MadeAt(commands[k], view, t.Clock(i));
    }
    GoodByRun(t.account, commands, good);
  }

  // ---- What is logged ----

  lemma ActedExtends(s: Session, view: View, now: int, act: Act)
    requires Usable(view) && act.Valid()
    ensures s.account.fills <= Acted(s, view, now, act).account.fills
  {
    hide TryFill, Usable, MarketAt;
    if act.Place? {
      StepExtends(s.account, AddOrder(act.request, MarketAt(view, now), now));
    }
  }

  lemma {:induction false} PlayedExtends(s: Session, view: View, now: int, i: nat, strategy: Strategy, limit: nat)
    requires Usable(view) && Proper(strategy)
    ensures s.account.fills <= Played(s, view, now, i, strategy, limit).session.account.fills
    decreases limit
  {
    hide Step, Usable, MarketAt;
    if limit > 0 && strategy(i, s.replies).Do? {
      var act := strategy(i, s.replies).act;
      ActedExtends(s, view, now, act);
      PlayedExtends(Acted(s, view, now, act), view, now, i, strategy, limit - 1);
    }
  }

  lemma {:induction false} NotifiedExtends(a: Account, order: seq<Pair>, prices: Prices, now: int)
    ensures a.fills <= NotifiedOf(a, order, prices, now).account.fills
    decreases |order|
  {
    hide Updated;
    if order != [] {
      StepExtends(a, TradeUpdate(order[0], prices, now));
      NotifiedExtends(Updated(a, order[0], prices, now).account, order[1..], prices, now);
    }
  }

  /** The strategy let an exception out of the last iteration. */
  ghost predicate LastRaised(t: Setting, view: View, orders: seq<seq<Pair>>)
    requires Usable(view) && Proper(t.strategy) && orders != []
  {
    var n := |orders| - 1;
    var s := Tested(t, view, orders[..n]).session;
    var notified := NotifiedOf(s.account, orders[n], MarketAt(view, t.Clock(n)), t.Clock(n));
    Played(s.(account := notified.account), view, t.Clock(n), n, t.strategy, t.limit).raised
  }

  /** An iteration in which anything was raised logs nothing, and one in which nothing was logs all. */
  lemma LogByIteration(p: Progress, view: View, now: int, i: nat, strategy: Strategy, limit: nat, order: seq<Pair>)
    requires Usable(view) && Proper(strategy) && !p.aborted
    ensures var q := Iterated(p, view, now, i, strategy, limit, order);
            var n := NotifiedOf(p.session.account, order, MarketAt(view, now), now);
            var told := q.session.replies;
            && (q.aborted <==> n.threw)
            && (n.threw ==> q.logged == p.logged && told == p.session.replies && q.session.account == n.account)
            && (!n.threw && |told| < |p.session.replies| + limit && strategy(i, told).Raise? ==> q.logged == p.logged)
            && (!n.threw && (|told| == |p.session.replies| + limit || strategy(i, told).Finish?) ==>
                  q.logged == q.session.account.fills)
  {
    hide Played, NotifiedOf, Usable, MarketAt;
    var n := NotifiedOf(p.session.account, order, MarketAt(view, now), now);
    if !n.threw {
      PlayedEnds(p.session.(account := n.account), view, now, i, strategy, limit);
    }
  }

  /** What is logged is always a first part of the executions, and all of them when the last iteration ended
      without an exception. */
  lemma {:induction false} LogLags(t: Setting, view: View, orders: seq<seq<Pair>>)
    requires Usable(view) && Proper(t.strategy) && t.account.fills == []
    ensures var p := Tested(t, view, orders);
            && p.logged <= p.session.account.fills
            && (!p.aborted && (orders != [] ==> !LastRaised(t, view, orders)) ==> p.logged == p.session.account.fills)
  {
    hide Played, NotifiedOf, Usable, MarketAt;
    if orders != [] {
      var n := |orders| - 1;
      var p := Tested(t, view, orders[..n]);
      LogLags(t, view, orders[..n]);
      var notified := NotifiedOf(p.session.account, orders[n], MarketAt(view, t.Clock(n)), t.Clock(n));
      NotifiedExtends(p.session.account, orders[n], MarketAt(view, t.Clock(n)), t.Clock(n));
      PlayedExtends(p.session.(account := notified.account), view, t.Clock(n), n, t.strategy, t.limit);
    }
  }

  // ---- What holds after any test ----

  /** After any test the account is consistent: every id issued is open, closed or cancelled, the lists hold
      the open orders, the balances are the initial ones with the executions replayed, trailing orders hold
      their extremes, and every execution was at a price its order allows. */
  lemma TestIsSound(t: Setting, view: View, orders: seq<seq<Pair>>)
    requires Usable(view) && Proper(t.strategy) && t.account == Opened(t.account.fee, t.account.balances)
    ensures var a := Tested(t, view, orders).session.account;
            && Partition(a) && Indexed(a) && Followed(a) && AllPricedRight(a.fills)
            && Replay(t.account.balances, a.fee, a.fills) == Some(a.balances)
  {
    hide Tested, Run, Partition, Indexed, Followed, AllPricedRight, Replay, MadeOnTime;
    var commands := TestIsRun(t, view, orders);
    var fee, balances := t.account.fee, t.account.balances;
    PartitionByRun(fee, balances, commands);
    IndexedByRun(fee, balances, commands);
    FollowedByRun(fee, balances, commands);
    ExecutionsPricedRight(fee, balances, commands);
    BalancesReplay(fee, balances, commands);
  }
}
