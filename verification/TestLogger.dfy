/** The trade log: closed orders are written out as they appear, each once. */
module TestLogger {
  import opened Orders
  import opened PaperTradeApi
  import opened LifeCycle

  /** The rows that came from exchange `i`, in the order they were written. */
  ghost function RowsFrom(file: seq<Description>, origin: seq<nat>, i: nat): seq<Description>
    requires |file| == |origin|
  {
    if file == [] then [] else
      var n := |file| - 1;
      RowsFrom(file[..n], origin[..n], i) + if origin[n] == i then [file[n]] else []
  }

  lemma RowsFromNext(file: seq<Description>, origin: seq<nat>, row: Description, from: nat, i: nat)
    requires |file| == |origin|
    ensures RowsFrom(file + [row], origin + [from], i) ==
            RowsFrom(file, origin, i) + if from == i then [row] else []
  {
    assert (file + [row])[..|file|] == file && (origin + [from])[..|file|] == origin;
  }

  datatype ExchangeData = ExchangeData(tradeApi: PaperTradeApi, closedOrderIndex: nat)

  class TestLogger {
    var exchangeData: seq<ExchangeData>
    var file: seq<Description>

    /** Which exchange each row of the file came from. */
    ghost var origin: seq<nat>

    ghost function Apis(): set<object>
      reads this
    {
      set i | 0 <= i < |exchangeData| :: exchangeData[i].tradeApi
    }

    /** Exchange `i` has been written as far as its index says. */
    ghost predicate Written(i: nat)
      requires i < |exchangeData|
      reads this, Apis()
    {
      var e := exchangeData[i];
      && |file| == |origin|
      && e.closedOrderIndex <= |e.tradeApi.closedOrders|
      && RowsFrom(file, origin, i) == e.tradeApi.closedOrders[..e.closedOrderIndex]
    }

    ghost predicate Valid()
      reads this, Apis()
    {
      |file| == |origin| && forall i :: 0 <= i < |exchangeData| ==> Written(i)
    }

    constructor (tradeApis: seq<PaperTradeApi>)
      ensures Valid() && file == [] && |exchangeData| == |tradeApis|
      ensures forall i :: 0 <= i < |tradeApis| ==> exchangeData[i] == ExchangeData(tradeApis[i], 0)
    {
      exchangeData := seq(|tradeApis|, i requires 0 <= i < |tradeApis| => ExchangeData(tradeApis[i], 0));
      file := [];
      origin := [];
    }

    /** Writes what was closed since the last call: afterwards the rows of every exchange are exactly its
        closed orders, each once and in order. */
    method FlushTrades()
      requires Valid()
      modifies this
      ensures Valid() && old(file) <= file && |exchangeData| == |old(exchangeData)|
      ensures forall i :: 0 <= i < |exchangeData| ==>
                && exchangeData[i].tradeApi == old(exchangeData)[i].tradeApi
                && RowsFrom(file, origin, i) == exchangeData[i].tradeApi.closedOrders
    {
      ghost var before := exchangeData;
      for i := 0 to |exchangeData|
        invariant |exchangeData| == |before| && |file| == |origin| && old(file) <= file
        invariant forall j :: 0 <= j < |before| ==> exchangeData[j].tradeApi == before[j].tradeApi
        invariant forall j :: 0 <= j < |before| ==>
                    before[j].tradeApi.closedOrders == old(before[j].tradeApi.closedOrders)
        invariant forall j :: 0 <= j < |before| ==> Written(j)
        invariant forall j :: 0 <= j < i ==> exchangeData[j].closedOrderIndex == |before[j].tradeApi.closedOrders|
      {
        assert Written(i);
        label Here:
        var closedOrders := exchangeData[i].tradeApi.GetClosedOrders();
        forall j | 0 <= j < |before| ensures Written(j) {
          assert old@Here(Written(j));
        }
        if closedOrders == [] {
          continue;
        }
        var nextTrade := WriteFrom(i, closedOrders);
        exchangeData := exchangeData[i := exchangeData[i].(closedOrderIndex := nextTrade)];
        forall j | 0 <= j < |before| ensures Written(j) {
          assert old@Here(Written(j));
          if j == i { assert closedOrders[..nextTrade] == closedOrders; }
        }
      }
      forall i | 0 <= i < |exchangeData| ensures RowsFrom(file, origin, i) == exchangeData[i].tradeApi.closedOrders {
        assert Written(i);
      }
    }

    /** Writes the closed orders of exchange `i` from its index on. */
    method WriteFrom(i: nat, closedOrders: seq<Description>) returns (nextTrade: nat)
      requires i < |exchangeData| && closedOrders == exchangeData[i].tradeApi.closedOrders
      requires |file| == |origin| && forall j :: 0 <= j < |exchangeData| ==> Written(j)
      modifies `file, `origin
      ensures nextTrade == |closedOrders| && |file| == |origin| && old(file) <= file
      ensures RowsFrom(file, origin, i) == closedOrders
      ensures forall j :: 0 <= j < |exchangeData| && j != i ==>
                RowsFrom(file, origin, j) == old(RowsFrom(file, origin, j))
    {
      assert Written(i);
      nextTrade := exchangeData[i].closedOrderIndex;
      while nextTrade < |closedOrders|
        invariant nextTrade <= |closedOrders| && |file| == |origin| && old(file) <= file
        invariant RowsFrom(file, origin, i) == closedOrders[..nextTrade]
        invariant forall j :: 0 <= j < |exchangeData| && j != i ==>
                    RowsFrom(file, origin, j) == old(RowsFrom(file, origin, j))
      {
        forall j | 0 <= j < |exchangeData| && j != i
          ensures RowsFrom(file + [closedOrders[nextTrade]], origin + [i], j) == RowsFrom(file, origin, j)
        {
          RowsFromNext(file, origin, closedOrders[nextTrade], i, j);
        }
        RowsFromNext(file, origin, closedOrders[nextTrade], i, i);
        file := file + [closedOrders[nextTrade]];
        origin := origin + [i];
        nextTrade := nextTrade + 1;
      }
    }
  }

  /** Trading between flushes only adds closed orders, and so leaves the log valid. */
  twostate lemma TradingKeepsLog(logger: TestLogger)
    requires old(logger.Valid())
    requires logger.exchangeData == old(logger.exchangeData)
    requires logger.file == old(logger.file) && logger.origin == old(logger.origin)
    requires forall i :: 0 <= i < |logger.exchangeData| ==>
               old(logger.exchangeData[i].tradeApi.closedOrders) <= logger.exchangeData[i].tradeApi.closedOrders
    ensures logger.Valid()
  {
    forall i | 0 <= i < |logger.exchangeData| ensures logger.Written(i) {
      assert old(logger.Written(i));
    }
  }

  // ---- Any interleaving of trading and flushing ----

  datatype Event = Call(command: Command) | Flush

  /** An account, how many of its closed orders are written, and the rows written. */
  datatype Logged = Logged(account: Account, index: nat, rows: seq<Description>)

  function Descriptions(fills: seq<Fill>): (ds: seq<Description>)
    ensures |ds| == |fills|
  {
    if fills == [] then [] else Descriptions(fills[..|fills| - 1]) + [Describe(fills[|fills| - 1])]
  }

  /** A row tells when, at what price and how much of what was executed, and under which order. */
  lemma {:induction false} DescriptionsAt(fills: seq<Fill>, i: nat)
    requires i < |fills|
    ensures var f := fills[i];
            Descriptions(fills)[i] ==
            Description(f.time, f.id, f.request.orderType, f.request.pair.asset + f.request.pair.priceUnit,
                        f.request.action, f.price, f.request.volume)
  {
    if i < |fills| - 1 { DescriptionsAt(fills[..|fills| - 1], i); }
  }

  function LogStep(l: Logged, e: Event): Logged {
    match e
    case Call(c) => l.(account := Step(l.account, c))
    case Flush =>
      var closed := Descriptions(l.account.fills);
      if |closed| < l.index then l else Logged(l.account, |closed|, l.rows + closed[l.index..])
  }

  function LogRun(a: Account, events: seq<Event>): Logged {
    if events == [] then Logged(a, 0, []) else LogStep(LogRun(a, events[..|events| - 1]), events[|events| - 1])
  }

  /** The executions up to the last flush. */
  function FlushedFills(a: Account, events: seq<Event>): seq<Fill> {
    if events == [] then [] else
      var n := |events| - 1;
      if events[n].Flush? then LogRun(a, events[..n]).account.fills else FlushedFills(a, events[..n])
  }

  lemma {:induction false} DescriptionsPrefix(fills: seq<Fill>, more: seq<Fill>)
    requires fills <= more
    ensures Descriptions(fills) == Descriptions(more)[..|fills|]
    decreases |more|
  {
    if |fills| == |more| {
      assert fills == more;
    } else {
      DescriptionsPrefix(fills, more[..|more| - 1]);
    }
  }

  /** However trading and flushing are interleaved, the rows written are exactly the closed orders as of the
      last flush, each once and in order. */
  lemma {:induction false} LogIsComplete(a: Account, events: seq<Event>)
    requires a.fills == []
    ensures var l := LogRun(a, events);
            && FlushedFills(a, events) <= l.account.fills
            && l.index == |FlushedFills(a, events)|
            && l.rows == Descriptions(FlushedFills(a, events))
  {
    hide Step, Describe;
    if events != [] {
      var n := |events| - 1;
      var l := LogRun(a, events[..n]);
      LogIsComplete(a, events[..n]);
      match events[n]
      case Call(c) =>
        StepExtends(l.account, c);
      case Flush =>
        DescriptionsPrefix(FlushedFills(a, events[..n]), l.account.fills);
    }
  }

  // ---- The same on the objects, with several exchanges ----

  datatype MarketEvent = CallAt(exchange: nat, command: Command) | FlushAll

  /** The events that concern exchange `i`. */
  function EventsOf(events: seq<MarketEvent>, i: nat): seq<Event> {
    if events == [] then [] else
      var n := |events| - 1;
      EventsOf(events[..n], i) +
      match events[n]
      case CallAt(j, c) => if i == j then [Call(c)] else []
      case FlushAll => [Flush]
  }

  datatype Setup = Setup(fee: Percent, balances: map<string, Price>)

  ghost function StartOf(s: Setup): Account {
    Opened(s.fee, map asset | asset in s.balances :: ToUnits(s.balances[asset]))
  }

  lemma EventsNext(events: seq<MarketEvent>, e: MarketEvent, i: nat)
    ensures EventsOf(events + [e], i) ==
            EventsOf(events, i) +
            match e case CallAt(j, c) => (if i == j then [Call(c)] else []) case FlushAll => [Flush]
  {
    assert (events + [e])[..|events|] == events;
  }

  lemma LogNext(a: Account, events: seq<Event>, e: Event)
    ensures LogRun(a, events + [e]) == LogStep(LogRun(a, events), e)
    ensures FlushedFills(a, events + [e]) ==
            if e.Flush? then LogRun(a, events).account.fills else FlushedFills(a, events)
  {
    assert (events + [e])[..|events|] == events;
  }

  lemma {:induction false} DescribedAre(closed: seq<Description>, fills: seq<Fill>)
    requires Described(closed, fills)
    ensures closed == Descriptions(fills)
  {
    if fills != [] {
      var n := |fills| - 1;
      DescribedAre(closed[..n], fills[..n]);
      assert closed == closed[..n] + [closed[n]];
    }
  }

  /** Exchange `i` is in the state its own calls lead to, and its rows are its closed orders as of the last
      flush. */
  ghost predicate InStep(logger: TestLogger, api: PaperTradeApi, i: nat, start: Account, events: seq<Event>)
    reads logger, api
  {
    && api.Valid() && api.State() == LogRun(start, events).account
    && |logger.file| == |logger.origin|
    && RowsFrom(logger.file, logger.origin, i) == Descriptions(FlushedFills(start, events))
  }

  /** The logger watches these exchanges, each an object of its own. */
  ghost predicate Wired(logger: TestLogger, apis: seq<PaperTradeApi>)
    reads logger, logger.Apis()
  {
    && logger.Valid() && |logger.exchangeData| == |apis|
    && (forall i :: 0 <= i < |apis| ==> logger.exchangeData[i].tradeApi == apis[i])
    && (forall i, j :: 0 <= i < j < |apis| ==> apis[i] != apis[j])
  }

  method OpenAll(setups: seq<Setup>) returns (apis: seq<PaperTradeApi>)
    ensures |apis| == |setups|
    ensures forall i :: 0 <= i < |apis| ==>
              fresh(apis[i]) && apis[i].Valid() && apis[i].State() == StartOf(setups[i])
    ensures forall i, j :: 0 <= i < j < |apis| ==> apis[i] != apis[j]
  {
    apis := [];
    for i := 0 to |setups|
      invariant |apis| == i
      invariant forall j :: 0 <= j < i ==>
                  fresh(apis[j]) && apis[j].Valid() && apis[j].State() == StartOf(setups[j])
      invariant forall j, k :: 0 <= j < k < i ==> apis[j] != apis[k]
    {
      var api := new PaperTradeApi(setups[i].fee, setups[i].balances);
      apis := apis + [api];
    }
  }

  /** A call to one exchange moves that one on and leaves the rows of all. */
  method CallOne(logger: TestLogger, apis: seq<PaperTradeApi>, j: nat, c: Command,
                 ghost starts: seq<Account>, ghost done: seq<MarketEvent>)
    requires Wired(logger, apis) && j < |apis| == |starts|
    requires forall i :: 0 <= i < |apis| ==> InStep(logger, apis[i], i, starts[i], EventsOf(done, i))
    modifies apis[j]
    ensures Wired(logger, apis)
    ensures forall i :: 0 <= i < |apis| ==>
              InStep(logger, apis[i], i, starts[i], EventsOf(done + [CallAt(j, c)], i))
  {
    hide Step;
    assert InStep(logger, apis[j], j, starts[j], EventsOf(done, j));
    label Before:
    Perform(apis[j], c);
    forall i | 0 <= i < |apis| ensures InStep(logger, apis[i], i, starts[i], EventsOf(done + [CallAt(j, c)], i)) {
      assert old@Before(InStep(logger, apis[i], i, starts[i], EventsOf(done, i)));
      EventsNext(done, CallAt(j, c), i);
      if i == j {
        LogNext(starts[i], EventsOf(done, i), Call(c));
        assert EventsOf(done + [CallAt(j, c)], i) == EventsOf(done, i) + [Call(c)];
      } else {
        assert if i < j then apis[i] != apis[j] else apis[j] != apis[i];
        assert EventsOf(done + [CallAt(j, c)], i) == EventsOf(done, i);
      }
    }
    forall i | 0 <= i < |logger.exchangeData|
      ensures old@Before(logger.exchangeData[i].tradeApi.closedOrders) <= logger.exchangeData[i].tradeApi.closedOrders
    {
      assert logger.exchangeData[i].tradeApi == apis[i];
    }
    TradingKeepsLog@Before(logger);
  }

  /** A flush brings the rows of every exchange up to date. */
  method FlushOnce(logger: TestLogger, apis: seq<PaperTradeApi>, ghost starts: seq<Account>, ghost done: seq<MarketEvent>)
    requires Wired(logger, apis) && |apis| == |starts|
    requires forall i :: 0 <= i < |apis| ==> InStep(logger, apis[i], i, starts[i], EventsOf(done, i))
    modifies logger
    ensures Wired(logger, apis)
    ensures forall i :: 0 <= i < |apis| ==> InStep(logger, apis[i], i, starts[i], EventsOf(done + [FlushAll], i))
  {
    label Before:
    logger.FlushTrades();
    forall i | 0 <= i < |apis| ensures InStep(logger, apis[i], i, starts[i], EventsOf(done + [FlushAll], i)) {
      assert old@Before(InStep(logger, apis[i], i, starts[i], EventsOf(done, i)));
      EventsNext(done, FlushAll, i);
      LogNext(starts[i], EventsOf(done, i), Flush);
      DescribedAre(apis[i].closedOrders, apis[i].fills);
      assert logger.exchangeData[i].tradeApi == apis[i];
    }
  }

  lemma NothingLogged(start: Account)
    ensures LogRun(start, []) == Logged(start, 0, []) && FlushedFills(start, []) == [] && Descriptions([]) == []
  {
  }

  lemma StartHasNoFills(s: Setup)
    ensures StartOf(s).fills == []
  {
  }

  /** Any sequence of calls to any of several exchanges, and flushes of all of them: at the end each
      exchange is where its own calls lead, and the rows written for it are exactly its closed orders as of
      the last flush. */
  method DriveLogged(setups: seq<Setup>, events: seq<MarketEvent>)
    returns (logger: TestLogger, apis: seq<PaperTradeApi>)
    requires forall k :: 0 <= k < |events| && events[k].CallAt? ==> events[k].exchange < |setups|
    ensures fresh(logger) && |apis| == |setups|
    ensures forall i :: 0 <= i < |apis| ==>
              && InStep(logger, apis[i], i, StartOf(setups[i]), EventsOf(events, i))
              && RowsFrom(logger.file, logger.origin, i) == LogRun(StartOf(setups[i]), EventsOf(events, i)).rows
  {
    hide LogRun, StartOf;
    apis := OpenAll(setups);
    logger := new TestLogger(apis);
    ghost var starts := seq(|setups|, i requires 0 <= i < |setups| => StartOf(setups[i]));
    forall i | 0 <= i < |apis| ensures InStep(logger, apis[i], i, starts[i], EventsOf(events[..0], i)) {
      NothingLogged(starts[i]);
    }
    for k := 0 to |events|
      invariant fresh(logger) && Wired(logger, apis) && |apis| == |starts|
      invariant forall i :: 0 <= i < |apis| ==> fresh(apis[i])
      invariant forall i :: 0 <= i < |apis| ==> InStep(logger, apis[i], i, starts[i], EventsOf(events[..k], i))
    {
      assert events[..k + 1] == events[..k] + [events[k]];
      match events[k] {
        case CallAt(j, c) => CallOne(logger, apis, j, c, starts, events[..k]);
        case FlushAll => FlushOnce(logger, apis, starts, events[..k]);
      }
    }
    assert events[..|events|] == events;
    forall i | 0 <= i < |apis|
      ensures RowsFrom(logger.file, logger.origin, i) == LogRun(StartOf(setups[i]), EventsOf(events, i)).rows
    {
      StartHasNoFills(setups[i]);
      LogIsComplete(starts[i], EventsOf(events, i));
    }
  }
}
