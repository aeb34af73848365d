/** Order books kept from a stream of numbered update messages, one book per symbol. */
module BinanceStream {
  import opened Trading
  import opened DoubleCompare
  import opened OrderBook

  datatype Message = Message(symbol: string, finalId: int, asks: seq<(real, real)>, bids: seq<(real, real)>)

  /** The market's own order book for a symbol, fetched when the symbol is first heard of. */
  type Market = string -> BookState

  // ---- What delivering a message does ----

  datatype Feed = Feed(ids: map<string, int>, books: map<string, BookState>)

  function WithEntry(books: map<string, BookState>, symbol: string, id: int, entry: Entry): map<string, BookState> {
    var book := if symbol in books then books[symbol] else BookState(0, [], []);
    books[symbol := Updated(book, id, entry)]
  }

  function WithEntries(books: map<string, BookState>, symbol: string, id: int, side: Side, levels: seq<(real, real)>)
    : map<string, BookState>
  {
    if levels == [] then books else
      var n := |levels| - 1;
      WithEntry(WithEntries(books, symbol, id, side, levels[..n]), symbol, id, Entry(levels[n].0, levels[n].1, side))
  }

  function Deliver(feed: Feed, m: Message, market: Market): Feed {
    if m.symbol !in feed.ids then
      var snapshot := market(m.symbol);
      Feed(feed.ids[m.symbol := snapshot.time], feed.books[m.symbol := BookOf(snapshot)])
    else if m.finalId <= feed.ids[m.symbol] then feed
    else
      var withAsks := WithEntries(feed.books, m.symbol, m.finalId, Ask, m.asks);
      Feed(feed.ids[m.symbol := m.finalId], WithEntries(withAsks, m.symbol, m.finalId, Bid, m.bids))
  }

  // ---- The stream ----

  class ExchangeWebsocketStream {
    var orderBooks: map<string, OrderBookCache>

    ghost predicate Valid()
      reads this
    {
      forall s, t :: s in orderBooks && t in orderBooks && s != t ==> orderBooks[s] != orderBooks[t]
    }

    ghost function Repr(): set<object>
      reads this
    {
      set s | s in orderBooks :: orderBooks[s]
    }

    ghost function Books(): map<string, BookState>
      reads this, Repr()
    {
      map s | s in orderBooks :: orderBooks[s].State()
    }

    constructor ()
      ensures Valid() && Books() == map[] && Repr() == {}
    {
      orderBooks := map[];
    }

    method InitialiseOrderBook(pairName: string, cache: OrderBookCache)
      requires Valid() && cache !in Repr()
      modifies `orderBooks
      ensures Valid() && Books() == old(Books())[pairName := cache.State()]
      ensures Repr() <= old(Repr()) + {cache}
    {
      orderBooks := orderBooks[pairName := cache];
    }

    /** Starts an empty book for a pair that has none. */
    method EnsureBook(pairName: string)
      requires Valid()
      modifies `orderBooks
      ensures Valid() && fresh(Repr() - old(Repr())) && pairName in orderBooks
      ensures Books() == if pairName in old(Books()) then old(Books()) else old(Books())[pairName := BookState(0, [], [])]
    {
      if pairName !in orderBooks {
        var empty := new OrderBookCache(0, [], []);
        orderBooks := orderBooks[pairName := empty];
      }
    }

    /** Updates the book of a pair that has one; no other pair shares it. */
    method UpdateBook(pairName: string, timeStamp: int, entry: Entry)
      requires Valid() && pairName in orderBooks
      modifies orderBooks[pairName]
      ensures Books() == old(Books())[pairName := OrderBook.Updated(old(Books())[pairName], timeStamp, entry)]
    {
      hide OrderBook.Updated;
      var cache := orderBooks[pairName];
      ghost var before := Books();
      label Before:
      cache.UpdateCache(timeStamp, entry);
      forall s | s in orderBooks && s != pairName ensures Books()[s] == before[s] {
        assert orderBooks[s] != cache;
        assert unchanged@Before(orderBooks[s]);
      }
    }

    method UpdateOrderBook(pairName: string, timeStamp: int, entry: Entry)
      requires Valid()
      modifies this, Repr()
      ensures Valid() && fresh(Repr() - old(Repr()))
      ensures Books() == WithEntry(old(Books()), pairName, timeStamp, entry)
    {
      hide OrderBook.Updated;
      EnsureBook(pairName);
      UpdateBook(pairName, timeStamp, entry);
    }

    method GetOrderBook(pairName: string, depth: nat) returns (book: BookState)
      requires Valid()
      ensures book == if pairName in Books() then SnapshotOf(Books()[pairName], depth) else BookState(0, [], [])
    {
      if pairName in orderBooks {
        book := orderBooks[pairName].Snapshot(depth);
      } else {
        book := BookState(0, [], []);
      }
    }
  }

  class BinanceWebsocketStream {
    const stream: ExchangeWebsocketStream
    var orderBookIds: map<string, int>

    ghost predicate Valid()
      reads this, stream
    {
      stream.Valid()
    }

    ghost function State(): Feed
      reads this, stream, stream.Repr()
    {
      Feed(orderBookIds, stream.Books())
    }

    constructor ()
      ensures Valid() && fresh(stream) && State() == Feed(map[], map[])
    {
      stream := new ExchangeWebsocketStream();
      orderBookIds := map[];
    }

    /** Starts the book of a symbol heard of for the first time from the market's own. */
    method StartOrderBook(symbol: string, snapshot: BookState)
      requires Valid()
      modifies `orderBookIds, stream
      ensures Valid() && fresh(stream.Repr() - old(stream.Repr()))
      ensures orderBookIds == old(orderBookIds)[symbol := snapshot.time]
      ensures stream.Books() == old(stream.Books())[symbol := BookOf(snapshot)]
    {
      hide BookOf;
      orderBookIds := orderBookIds[symbol := snapshot.time];
      var cache := FromSnapshot(snapshot);
      stream.InitialiseOrderBook(symbol, cache);
    }

    method ProcessOrderBookMessage(m: Message, market: Market)
      requires Valid()
      modifies this, stream, stream.Repr()
      ensures Valid() && fresh(stream.Repr() - old(stream.Repr()))
      ensures State() == Deliver(old(State()), m, market)
    {
      hide WithEntries, BookOf;
      if m.symbol !in orderBookIds {
        var snapshot := market(m.symbol);
        StartOrderBook(m.symbol, snapshot);
        return;
      }
      var lastUpdate := orderBookIds[m.symbol];
      if m.finalId <= lastUpdate {
        return;
      }
      ProcessOrderBookElement(Ask, m.symbol, m.finalId, m.asks);
      ProcessOrderBookElement(Bid, m.symbol, m.finalId, m.bids);
      orderBookIds := orderBookIds[m.symbol := m.finalId];
    }

    method ProcessOrderBookElement(side: Side, symbol: string, id: int, levels: seq<(real, real)>)
      requires Valid()
      modifies stream, stream.Repr()
      ensures Valid() && fresh(stream.Repr() - old(stream.Repr()))
      ensures stream.Books() == WithEntries(old(stream.Books()), symbol, id, side, levels)
    {
      ghost var before := stream.Books();
      for i := 0 to |levels|
        invariant Valid() && fresh(stream.Repr() - old(stream.Repr()))
        invariant stream.Books() == WithEntries(before, symbol, id, side, levels[..i])
      {
        assert levels[..i + 1][..i] == levels[..i];
        stream.UpdateOrderBook(symbol, id, Entry(levels[i].0, levels[i].1, side));
      }
      assert levels[..|levels|] == levels;
    }
  }

  // ---- Repeated messages ----

  function Deliveries(feed: Feed, messages: seq<Message>, market: Market): Feed {
    if messages == [] then feed else
      Deliver(Deliveries(feed, messages[..|messages| - 1], market), messages[|messages| - 1], market)
  }

  lemma {:induction false} EntriesAreLocal(
    books: map<string, BookState>, symbol: string, id: int, side: Side, levels: seq<(real, real)>, other: string)
    requires other != symbol
    ensures var after := WithEntries(books, symbol, id, side, levels);
            (other in after <==> other in books) && (other in books ==> after[other] == books[other])
  {
    if levels != [] { EntriesAreLocal(books, symbol, id, side, levels[..|levels| - 1], other); }
  }

  /** A message touches only its own symbol, and never lowers its stored id once there is one. */
  lemma DeliverIsLocal(feed: Feed, m: Message, market: Market, other: string)
    ensures var after := Deliver(feed, m, market);
            && m.symbol in after.ids
            && (other in feed.ids ==> other in after.ids && feed.ids[other] <= after.ids[other])
            && (m.symbol in feed.ids ==> m.finalId <= after.ids[m.symbol])
            && (other != m.symbol ==>
                  && (other in after.ids <==> other in feed.ids)
                  && (other in after.books <==> other in feed.books)
                  && (other in feed.books ==> after.books[other] == feed.books[other]))
  {
    if other != m.symbol {
      EntriesAreLocal(feed.books, m.symbol, m.finalId, Ask, m.asks, other);
      EntriesAreLocal(WithEntries(feed.books, m.symbol, m.finalId, Ask, m.asks), m.symbol, m.finalId, Bid, m.bids, other);
    }
  }

  /** The stored id of a known symbol is at least that of every message delivered for it. */
  lemma {:induction false} IdsCover(feed: Feed, messages: seq<Message>, market: Market, symbol: string, k: nat)
    requires symbol in feed.ids
    ensures var after := Deliveries(feed, messages, market);
            && symbol in after.ids && feed.ids[symbol] <= after.ids[symbol]
            && (k < |messages| && messages[k].symbol == symbol ==> messages[k].finalId <= after.ids[symbol])
  {
    hide Deliver;
    if messages != [] {
      var n := |messages| - 1;
      IdsCover(feed, messages[..n], market, symbol, k);
      DeliverIsLocal(Deliveries(feed, messages[..n], market), messages[n], market, symbol);
    }
  }

  /** `again` is the stream `once` with messages already in it repeated, any number of times. */
  ghost predicate Repeats(once: seq<Message>, again: seq<Message>) {
    if again == [] then once == [] else
      var n, last := |again| - 1, again[|again| - 1];
      (once != [] && once[|once| - 1] == last && Repeats(once[..|once| - 1], again[..n]))
      || (last in again[..n] && Repeats(once, again[..n]))
  }

  /** Message `i` is the first of its symbol, and starts that symbol's book. */
  ghost predicate Starts(feed: Feed, messages: seq<Message>, i: nat)
    requires i < |messages|
  {
    && messages[i].symbol !in feed.ids
    && forall j :: 0 <= j < i ==> messages[j].symbol != messages[i].symbol
  }

  /** Every message that starts a book is no newer than the snapshot it causes to be fetched. */
  ghost predicate StartsCovered(feed: Feed, messages: seq<Message>, market: Market) {
    forall i: nat :: i < |messages| && Starts(feed, messages, i) ==>
      messages[i].finalId <= market(messages[i].symbol).time
  }

  /** The symbols with a stored id are those that had one and those of the messages. */
  lemma {:induction false} IdsAfter(feed: Feed, messages: seq<Message>, market: Market, symbol: string)
    ensures symbol in Deliveries(feed, messages, market).ids <==>
            symbol in feed.ids || exists j :: 0 <= j < |messages| && messages[j].symbol == symbol
  {
    hide Deliver;
    if messages != [] {
      var n := |messages| - 1;
      var before := Deliveries(feed, messages[..n], market);
      IdsAfter(feed, messages[..n], market, symbol);
      DeliverIsLocal(before, messages[n], market, symbol);
      assert (exists j :: 0 <= j < n && messages[j].symbol == symbol) ==>
             exists j :: 0 <= j < n && messages[..n][j].symbol == symbol;
    }
  }

  /** What the last message adds: it starts a book exactly if its symbol has no stored id before it. */
  lemma StartsCoveredSnoc(feed: Feed, messages: seq<Message>, market: Market)
    requires messages != []
    ensures var n, m := |messages| - 1, messages[|messages| - 1];
            StartsCovered(feed, messages, market) <==>
            && StartsCovered(feed, messages[..n], market)
            && (m.symbol in Deliveries(feed, messages[..n], market).ids || m.finalId <= market(m.symbol).time)
  {
    hide Deliveries;
    var n := |messages| - 1;
    IdsAfter(feed, messages[..n], market, messages[n].symbol);
    assert Starts(feed, messages, n) <==> messages[n].symbol !in Deliveries(feed, messages[..n], market).ids;
    assert forall i: nat :: i < n ==> (Starts(feed, messages, i) <==> Starts(feed, messages[..n], i));
  }

  /** The message is of a known symbol and not newer than its book. */
  predicate Covered(feed: Feed, m: Message) {
    m.symbol in feed.ids && m.finalId <= feed.ids[m.symbol]
  }

  lemma CoveredIsIgnored(feed: Feed, m: Message, market: Market)
    requires Covered(feed, m)
    ensures Deliver(feed, m, market) == feed
  {
  }

  lemma CoveredStays(feed: Feed, m: Message, next: Message, market: Market)
    requires Covered(feed, m)
    ensures Covered(Deliver(feed, next, market), m)
  {
    DeliverIsLocal(feed, next, market, m.symbol);
  }

  lemma CoveredByDelivery(feed: Feed, m: Message, market: Market)
    requires m.symbol in feed.ids || m.finalId <= market(m.symbol).time
    ensures Covered(Deliver(feed, m, market), m)
  {
  }

  /** From any feed, the empty one included: when every starting message is covered by its snapshot, a
      stream with messages repeated leaves the same ids and books as the stream without the repeats. */
  lemma {:induction false} RepeatsChangeNothing(feed: Feed, once: seq<Message>, again: seq<Message>, market: Market)
    requires StartsCovered(feed, once, market) && Repeats(once, again)
    ensures Deliveries(feed, again, market) == Deliveries(feed, once, market)
    ensures forall m :: m in again ==> Covered(Deliveries(feed, again, market), m)
    decreases |again|
  {
    hide Deliver, Covered;
    if again != [] {
      var n, last := |again| - 1, again[|again| - 1];
      var before := Deliveries(feed, again[..n], market);
      assert forall m :: m in again ==> m in again[..n] || m == last;
      if once != [] && once[|once| - 1] == last && Repeats(once[..|once| - 1], again[..n]) {
        StartsCoveredSnoc(feed, once, market);
        RepeatsChangeNothing(feed, once[..|once| - 1], again[..n], market);
        CoveredByDelivery(before, last, market);
        forall m | m in again[..n] ensures Covered(Deliver(before, last, market), m) {
          CoveredStays(before, m, last, market);
        }
      } else {
        RepeatsChangeNothing(feed, once, again[..n], market);
        CoveredIsIgnored(before, last, market);
      }
    }
  }

  lemma {:induction false} RepeatsItself(messages: seq<Message>)
    ensures Repeats(messages, messages)
  {
    if messages != [] { RepeatsItself(messages[..|messages| - 1]); }
  }

  /** Repeating messages is harmless at every point of the stream. */
  ghost predicate RepeatsHarmless(feed: Feed, messages: seq<Message>, market: Market) {
    forall k: nat, again :: k <= |messages| && Repeats(messages[..k], again) ==>
      Deliveries(feed, again, market) == Deliveries(feed, messages[..k], market)
  }

  lemma StartsCoveredBefore(feed: Feed, messages: seq<Message>, market: Market, k: nat)
    requires StartsCovered(feed, messages, market) && k <= |messages|
    ensures StartsCovered(feed, messages[..k], market)
  {
    assert forall i: nat :: i < k ==> (Starts(feed, messages, i) <==> Starts(feed, messages[..k], i));
  }

  /** The message that starts a book is not applied to it, so repeating that one can change the book: it
      changes the feed exactly when it is newer than the snapshot it caused to be fetched. */
  lemma FirstMessageRepeated(feed: Feed, m: Message, market: Market)
    requires m.symbol !in feed.ids
    ensures var started := Deliver(feed, m, market);
            Deliver(started, m, market) == started <==> m.finalId <= market(m.symbol).time
  {
    var started := Deliver(feed, m, market);
    if m.finalId > market(m.symbol).time {
      assert Deliver(started, m, market).ids[m.symbol] == m.finalId != started.ids[m.symbol];
    }
  }

  /** Right after a starting message newer than its snapshot, repeating it changes the feed. */
  lemma StartHarms(feed: Feed, before: seq<Message>, m: Message, market: Market)
    requires m.symbol !in Deliveries(feed, before, market).ids && m.finalId > market(m.symbol).time
    ensures var messages := before + [m];
            Repeats(messages, messages + [m]) &&
            Deliveries(feed, messages + [m], market) != Deliveries(feed, messages, market)
  {
    hide Deliver;
    var messages := before + [m];
    var again := messages + [m];
    RepeatsItself(messages);
    assert again[..|messages|] == messages && messages[|before|] == m && messages[..|before|] == before;
    FirstMessageRepeated(Deliveries(feed, before, market), m, market);
  }

  /** A stream with a starting message newer than its snapshot is harmed by repeating that one. */
  lemma {:induction false} UncoveredStartHarms(feed: Feed, messages: seq<Message>, market: Market)
    requires !StartsCovered(feed, messages, market)
    ensures !RepeatsHarmless(feed, messages, market)
  {
    hide Deliveries, Repeats;
    var n := |messages| - 1;
    var before, m := messages[..n], messages[n];
    StartsCoveredSnoc(feed, messages, market);
    if !StartsCovered(feed, before, market) {
      UncoveredStartHarms(feed, before, market);
      var k: nat, again :| k <= n && Repeats(before[..k], again) &&
                           Deliveries(feed, again, market) != Deliveries(feed, before[..k], market);
      assert before[..k] == messages[..k];
    } else {
      StartHarms(feed, before, m, market);
      assert messages == before + [m] && messages[..n + 1] == messages;
      assert Repeats(messages[..n + 1], messages + [m]);
    }
  }

  /** Exactly when repeats are harmless throughout a stream: the first message of each symbol without a
      stored id is no newer than the snapshot fetched for it. */
  lemma RepeatsHarmlessExactly(feed: Feed, messages: seq<Message>, market: Market)
    ensures RepeatsHarmless(feed, messages, market) <==> StartsCovered(feed, messages, market)
  {
    hide Deliveries, Repeats;
    if StartsCovered(feed, messages, market) {
      forall k: nat, again | k <= |messages| && Repeats(messages[..k], again)
        ensures Deliveries(feed, again, market) == Deliveries(feed, messages[..k], market)
      {
        StartsCoveredBefore(feed, messages, market, k);
        RepeatsChangeNothing(feed, messages[..k], again, market);
      }
    } else {
      UncoveredStartHarms(feed, messages, market);
    }
  }

  // ---- What a message does to its own book ----

  /** The book of a symbol, empty if there is none. */
  function BookIn(books: map<string, BookState>, symbol: string): BookState {
    if symbol in books then books[symbol] else BookState(0, [], [])
  }

  /** The volume at a price after the levels of a message, pairs of a price and a volume: the last pair at
      that price decides, and no volume means no level. */
  function LastLevel(before: Option<real>, levels: seq<(real, real)>, price: real): Option<real> {
    if levels == [] then before else
      var n := |levels| - 1;
      if levels[n].0 == price then if levels[n].1 > 0.0 then Some(levels[n].1) else None
      else LastLevel(before, levels[..n], price)
  }

  ghost predicate LevelsOnGrid(g: Grid, levels: seq<(real, real)>) {
    forall i :: 0 <= i < |levels| ==> g.Has(levels[i].0)
  }

  lemma EntryRefinesMap(
    g: Grid, books: map<string, BookState>, symbol: string, id: int, entry: Entry, side: Side, price: real)
    requires Proper(g, BookIn(books, symbol)) && g.Has(entry.price)
    ensures var book := BookIn(WithEntry(books, symbol, id, entry), symbol);
            && Proper(g, book) && book.time == id
            && VolumeAt(SideOf(book, side), price) ==
               if entry.side == side && entry.price == price then if entry.volume > 0.0 then Some(entry.volume) else None
               else VolumeAt(SideOf(BookIn(books, symbol), side), price)
  {
    hide OnGrid, Sorted, UpdateLevels, VolumeAt;
    var before := BookIn(books, symbol);
    UpdatedIsProper(g, before, id, entry);
    assert OnGrid(g, SideOf(before, side)) && Sorted(side, SideOf(before, side));
    if entry.side == side {
      UpdateRefinesMap(g, side, SideOf(before, side), entry, price);
    } else {
      assert SideOf(OrderBook.Updated(before, id, entry), side) == SideOf(before, side);
    }
  }

  /** The levels of one side of a message set the volumes of that side, price by price, and leave the other. */
  lemma {:induction false} EntriesRefineMap(
    g: Grid, books: map<string, BookState>, symbol: string, id: int, of: Side, levels: seq<(real, real)>,
    side: Side, price: real)
    requires Proper(g, BookIn(books, symbol)) && LevelsOnGrid(g, levels)
    ensures var book := BookIn(WithEntries(books, symbol, id, of, levels), symbol);
            && Proper(g, book)
            && book.time == (if levels == [] then BookIn(books, symbol).time else id)
            && VolumeAt(SideOf(book, side), price) ==
               var before := VolumeAt(SideOf(BookIn(books, symbol), side), price);
               if side == of then LastLevel(before, levels, price) else before
  {
    hide Proper, VolumeAt, WithEntry, BookIn, SideOf;
    if levels != [] {
      var n := |levels| - 1;
      EntriesRefineMap(g, books, symbol, id, of, levels[..n], side, price);
      EntryRefinesMap(g, WithEntries(books, symbol, id, of, levels[..n]), symbol, id,
                      Entry(levels[n].0, levels[n].1, of), side, price);
    }
  }

  function LevelsOf(m: Message, side: Side): seq<(real, real)> {
    match side case Ask => m.asks case Bid => m.bids
  }

  /** A message newer than its symbol's stored id sets the volumes of both sides, price by price, to what its
      last level at the price says, and stamps the book with its id if it has any level. */
  lemma DeliverRefinesMap(g: Grid, feed: Feed, m: Message, market: Market, side: Side, price: real)
    requires m.symbol in feed.ids && feed.ids[m.symbol] < m.finalId
    requires Proper(g, BookIn(feed.books, m.symbol)) && LevelsOnGrid(g, m.asks) && LevelsOnGrid(g, m.bids)
    ensures var before, after := BookIn(feed.books, m.symbol), BookIn(Deliver(feed, m, market).books, m.symbol);
            && Deliver(feed, m, market).ids[m.symbol] == m.finalId
            && Proper(g, after)
            && after.time == (if m.asks == [] && m.bids == [] then before.time else m.finalId)
            && VolumeAt(SideOf(after, side), price) ==
               LastLevel(VolumeAt(SideOf(before, side), price), LevelsOf(m, side), price)
  {
    hide Proper, VolumeAt, WithEntries, BookIn, SideOf, LastLevel;
    EntriesRefineMap(g, feed.books, m.symbol, m.finalId, Ask, m.asks, side, price);
    EntriesRefineMap(g, WithEntries(feed.books, m.symbol, m.finalId, Ask, m.asks), m.symbol, m.finalId, Bid, m.bids,
                     side, price);
  }

  /** The message that starts a book makes it the market's own: sorted, with the first volume the snapshot
      lists at each price, and stored under the snapshot's time. */
  lemma StartRefinesMap(g: Grid, feed: Feed, m: Message, market: Market, side: Side, price: real)
    requires m.symbol !in feed.ids
    requires OnGrid(g, market(m.symbol).asks) && OnGrid(g, market(m.symbol).bids)
    ensures var after := BookIn(Deliver(feed, m, market).books, m.symbol);
            && Deliver(feed, m, market).ids[m.symbol] == market(m.symbol).time
            && Proper(g, after) && after.time == market(m.symbol).time
            && VolumeAt(SideOf(after, side), price) == VolumeAt(SideOf(market(m.symbol), side), price)
  {
    hide OnGrid, Sorted, VolumeAt, SetOf;
    var snapshot := market(m.symbol);
    SetOfRefinesMap(g, Ask, snapshot.asks, price);
    SetOfRefinesMap(g, Bid, snapshot.bids, price);
    forall s ensures OnGrid(g, SideOf(BookOf(snapshot), s)) && Sorted(s, SideOf(BookOf(snapshot), s)) {}
  }

  /** What is known of one price on one side of a symbol's book: the stored id and the volume. */
  datatype Quote = Quote(id: Option<int>, volume: Option<real>)

  function QuoteIn(feed: Feed, symbol: string, side: Side, price: real): Quote {
    Quote(if symbol in feed.ids then Some(feed.ids[symbol]) else None,
          VolumeAt(SideOf(BookIn(feed.books, symbol), side), price))
  }

  /** What a message of the symbol tells about the price: the first one brings the snapshot's volume, one not
      newer than the stored id nothing, any other that of its last level there. */
  function Heard(q: Quote, m: Message, snapshot: BookState, side: Side, price: real): Quote {
    match q.id
    case None => Quote(Some(snapshot.time), VolumeAt(SideOf(snapshot, side), price))
    case Some(id) =>
      if m.finalId <= id then q else Quote(Some(m.finalId), LastLevel(q.volume, LevelsOf(m, side), price))
  }

  function HeardAll(q: Quote, messages: seq<Message>, symbol: string, snapshot: BookState, side: Side, price: real)
    : Quote
  {
    if messages == [] then q else
      var n := |messages| - 1;
      var before := HeardAll(q, messages[..n], symbol, snapshot, side, price);
      if messages[n].symbol == symbol then Heard(before, messages[n], snapshot, side, price) else before
  }

  /** All prices of a symbol lie on a grid: those of its messages, and those of its snapshot if it is yet to
      be fetched. */
  ghost predicate StreamOnGrid(g: Grid, feed: Feed, messages: seq<Message>, market: Market, symbol: string) {
    && Proper(g, BookIn(feed.books, symbol))
    && (symbol !in feed.ids ==> OnGrid(g, market(symbol).asks) && OnGrid(g, market(symbol).bids))
    && forall i :: 0 <= i < |messages| && messages[i].symbol == symbol ==>
         LevelsOnGrid(g, messages[i].asks) && LevelsOnGrid(g, messages[i].bids)
  }

  lemma HeardByDelivery(g: Grid, feed: Feed, m: Message, market: Market, symbol: string, side: Side, price: real)
    requires Proper(g, BookIn(feed.books, symbol))
    requires symbol !in feed.ids ==> OnGrid(g, market(symbol).asks) && OnGrid(g, market(symbol).bids)
    requires m.symbol == symbol ==> LevelsOnGrid(g, m.asks) && LevelsOnGrid(g, m.bids)
    ensures var after, q := Deliver(feed, m, market), QuoteIn(feed, symbol, side, price);
            && Proper(g, BookIn(after.books, symbol))
            && QuoteIn(after, symbol, side, price) ==
               if m.symbol == symbol then Heard(q, m, market(symbol), side, price) else q
  {
    hide Proper, VolumeAt, OnGrid, LevelsOnGrid, LastLevel, WithEntries, BookOf;
    if m.symbol != symbol {
      DeliverIsLocal(feed, m, market, symbol);
    } else if symbol !in feed.ids {
      StartRefinesMap(g, feed, m, market, side, price);
    } else if feed.ids[symbol] < m.finalId {
      DeliverRefinesMap(g, feed, m, market, side, price);
    }
  }

  /** After any stream of messages the feed holds, at every price of every symbol, what was heard of it: the
      book stays sorted, and a volume is that of the last message that was not too old and had a level there. */
  lemma {:induction false} DeliveriesRefineQuotes(
    g: Grid, feed: Feed, messages: seq<Message>, market: Market, symbol: string, side: Side, price: real)
    requires StreamOnGrid(g, feed, messages, market, symbol)
    ensures Proper(g, BookIn(Deliveries(feed, messages, market).books, symbol))
    ensures QuoteIn(Deliveries(feed, messages, market), symbol, side, price) ==
            HeardAll(QuoteIn(feed, symbol, side, price), messages, symbol, market(symbol), side, price)
  {
    hide Proper, OnGrid, LevelsOnGrid, Deliver, QuoteIn, Heard, BookIn;
    if messages != [] {
      var n := |messages| - 1;
      DeliveriesRefineQuotes(g, feed, messages[..n], market, symbol, side, price);
      var before := Deliveries(feed, messages[..n], market);
      IdsAfter(feed, messages[..n], market, symbol);
      HeardByDelivery(g, before, messages[n], market, symbol, side, price);
    }
  }
}
