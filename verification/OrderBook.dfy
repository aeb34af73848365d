/** The cached order book: two sorted sides, updated level by level. */
module OrderBook {
  import opened Trading
  import opened DoubleCompare

  /** The order of a side: asks from the lowest price, bids from the highest. */
  predicate Before(side: Side, p: real, q: real) {
    match side case Ask => DoubleLessThan(p, q) case Bid => DoubleGreaterThan(p, q)
  }

  /** One side of a book: an ordered set of entries, held in its order. */
  type Levels = seq<Entry>

  ghost predicate Sorted(side: Side, levels: Levels) {
    forall i, j :: 0 <= i < j < |levels| ==> Before(side, levels[i].price, levels[j].price)
  }

  ghost predicate OnGrid(g: Grid, levels: Levels) {
    g.Valid() && forall i :: 0 <= i < |levels| ==> g.Has(levels[i].price)
  }

  /** Where a price belongs: after the levels ordered before it. */
  function LowerBound(side: Side, levels: Levels, price: real): (k: nat)
    ensures k <= |levels|
  {
    if levels == [] || !Before(side, levels[0].price, price) then 0
    else 1 + LowerBound(side, levels[1..], price)
  }

  /** Whether the set has an entry that the order does not tell apart from this price. */
  predicate Contains(side: Side, levels: Levels, price: real) {
    var k := LowerBound(side, levels, price);
    k < |levels| && !Before(side, price, levels[k].price)
  }

  function Erase(side: Side, levels: Levels, price: real): Levels
    requires Contains(side, levels, price)
  {
    var k := LowerBound(side, levels, price);
    levels[..k] + levels[k + 1..]
  }

  /** Inserting into an ordered set leaves it alone when an equivalent entry is there. */
  function Insert(side: Side, levels: Levels, entry: Entry): Levels {
    var k := LowerBound(side, levels, entry.price);
    if Contains(side, levels, entry.price) then levels else levels[..k] + [entry] + levels[k..]
  }

  function UpdateLevels(side: Side, levels: Levels, entry: Entry): Levels {
    var rest := if Contains(side, levels, entry.price) then Erase(side, levels, entry.price) else levels;
    if entry.volume > 0.0 then Insert(side, rest, entry) else rest
  }

  function Updated(book: BookState, time: int, entry: Entry): BookState {
    match entry.side
    case Ask => BookState(time, UpdateLevels(Ask, book.asks, entry), book.bids)
    case Bid => BookState(time, book.asks, UpdateLevels(Bid, book.bids, entry))
  }

  function Least(a: nat, b: nat): nat {
    if a < b then a else b
  }

  function SnapshotOf(book: BookState, depth: nat): BookState {
    var d := if depth != 0 then depth else if |book.asks| < |book.bids| then |book.bids| else |book.asks|;
    BookState(book.time, book.asks[..Least(|book.asks|, d)], book.bids[..Least(|book.bids|, d)])
  }

  /** The ordered set of a list of entries: the first of equivalent entries stays. */
  function SetOf(side: Side, entries: seq<Entry>): Levels {
    if entries == [] then [] else Insert(side, SetOf(side, entries[..|entries| - 1]), entries[|entries| - 1])
  }

  function BookOf(snapshot: BookState): BookState {
    BookState(snapshot.time, SetOf(Ask, snapshot.asks), SetOf(Bid, snapshot.bids))
  }

  class OrderBookCache {
    var lastUpdate: int
    var asks: Levels
    var bids: Levels

    ghost function State(): BookState
      reads this
    {
      BookState(lastUpdate, asks, bids)
    }

    constructor (timeStamp: int, asks: Levels, bids: Levels)
      ensures State() == BookState(timeStamp, asks, bids)
    {
      lastUpdate := timeStamp;
      this.asks := asks;
      this.bids := bids;
    }

    method UpdateCache(timeStamp: int, entry: Entry)
      modifies this
      ensures State() == Updated(old(State()), timeStamp, entry)
    {
      lastUpdate := timeStamp;
      if entry.side == Ask {
        asks := UpdateSide(Ask, asks, entry);
      } else {
        bids := UpdateSide(Bid, bids, entry);
      }
    }

    static method UpdateSide(side: Side, levels: Levels, entry: Entry) returns (updated: Levels)
      ensures updated == UpdateLevels(side, levels, entry)
    {
      updated := levels;
      if Contains(side, updated, entry.price) {
        updated := Erase(side, updated, entry.price);
      }
      if entry.volume > 0.0 {
        updated := Insert(side, updated, entry);
      }
    }

    method Snapshot(depth: nat) returns (snapshot: BookState)
      ensures snapshot == SnapshotOf(State(), depth)
    {
      var levels := depth;
      if levels == 0 {
        levels := if |asks| < |bids| then |bids| else |asks|;
      }
      var askDepth := Least(|asks|, levels);
      var bidDepth := Least(|bids|, levels);
      snapshot := BookState(lastUpdate, asks[..askDepth], bids[..bidDepth]);
    }
  }

  method FromSnapshot(snapshot: BookState) returns (cache: OrderBookCache)
    ensures fresh(cache) && cache.State() == BookOf(snapshot)
  {
    cache := new OrderBookCache(snapshot.time, SetOf(Ask, snapshot.asks), SetOf(Bid, snapshot.bids));
  }

  // ---- A side refines a map from price to volume ----

  /** The volume at a price, if the side has that level. */
  function VolumeAt(levels: Levels, price: real): Option<real> {
    if levels == [] then None
    else if levels[0].price == price then Some(levels[0].volume)
    else VolumeAt(levels[1..], price)
  }

  /** The volume at a price after some updates: the last update there decides, otherwise nothing changes. */
  function LastVolume(before: Option<real>, side: Side, updates: seq<Entry>, price: real): Option<real> {
    if updates == [] then before else
      var n := |updates| - 1;
      if updates[n].side == side && updates[n].price == price then
        if updates[n].volume > 0.0 then Some(updates[n].volume) else None
      else LastVolume(before, side, updates[..n], price)
  }

  lemma {:induction false} VolumeAtJoin(a: Levels, b: Levels, price: real)
    ensures VolumeAt(a + b, price) == if VolumeAt(a, price).Some? then VolumeAt(a, price) else VolumeAt(b, price)
  {
    if a == [] {
      assert a + b == b;
    } else {
      assert (a + b)[1..] == a[1..] + b;
      VolumeAtJoin(a[1..], b, price);
    }
  }

  lemma {:induction false} NoVolumeAt(levels: Levels, price: real)
    requires forall i :: 0 <= i < |levels| ==> levels[i].price != price
    ensures VolumeAt(levels, price).None?
  {
    if levels != [] { NoVolumeAt(levels[1..], price); }
  }

  lemma {:induction false} LowerBoundMeaning(side: Side, levels: Levels, price: real)
    ensures var k := LowerBound(side, levels, price);
            && (forall i :: 0 <= i < k ==> Before(side, levels[i].price, price))
            && (k < |levels| ==> !Before(side, levels[k].price, price))
  {
    if levels != [] && Before(side, levels[0].price, price) {
      LowerBoundMeaning(side, levels[1..], price);
      var k := LowerBound(side, levels, price);
      forall i | 0 <= i < k ensures Before(side, levels[i].price, price) {
        if i > 0 { assert levels[i] == levels[1..][i - 1]; }
      }
    }
  }

  /** On a grid a side's order is exact. */
  lemma GridOrder(g: Grid, side: Side, p: real, q: real)
    requires g.Valid() && g.Has(p) && g.Has(q)
    ensures Before(side, p, q) <==> (if side == Ask then p < q else p > q)
    ensures Before(side, q, p) <==> (if side == Ask then q < p else q > p)
  {
    GridIsExact(g, p, q);
    GridIsExact(g, q, p);
  }

  /** How the levels lie around a price: those before it, perhaps one at it, and those after it. */
  lemma Around(g: Grid, side: Side, levels: Levels, price: real)
    requires OnGrid(g, levels) && g.Has(price) && Sorted(side, levels)
    ensures var k := LowerBound(side, levels, price);
            && (forall i :: 0 <= i < k ==> Before(side, levels[i].price, price))
            && (Contains(side, levels, price) ==> levels[k].price == price)
            && (forall i :: k <= i < |levels| && !(i == k && Contains(side, levels, price)) ==>
                  Before(side, price, levels[i].price))
  {
    var k := LowerBound(side, levels, price);
    LowerBoundMeaning(side, levels, price);
    if k < |levels| {
      GridOrder(g, side, levels[k].price, price);
      forall i | k < i < |levels| ensures Before(side, price, levels[i].price) {
        GridOrder(g, side, levels[k].price, levels[i].price);
        GridOrder(g, side, price, levels[i].price);
        assert Before(side, levels[k].price, levels[i].price);
      }
    }
  }

  lemma {:induction false} LowerBoundIs(side: Side, levels: Levels, price: real, k: nat)
    requires k <= |levels|
    requires forall i :: 0 <= i < k ==> Before(side, levels[i].price, price)
    requires k < |levels| ==> !Before(side, levels[k].price, price)
    ensures LowerBound(side, levels, price) == k
  {
    if k > 0 { LowerBoundIs(side, levels[1..], price, k - 1); }
  }

  lemma BeforeIsStrict(side: Side, p: real, q: real)
    requires Before(side, p, q)
    ensures p != q && !Before(side, q, p)
  {
  }

  /** The levels before a price and those after it. */
  function Better(side: Side, levels: Levels, price: real): Levels {
    levels[..LowerBound(side, levels, price)]
  }

  function Worse(side: Side, levels: Levels, price: real): Levels {
    var k := LowerBound(side, levels, price);
    if Contains(side, levels, price) then levels[k + 1..] else levels[k..]
  }

  lemma Pieces<T>(s: seq<T>, k: nat)
    requires k <= |s|
    ensures s == s[..k] + s[k..]
    ensures k < |s| ==> s == s[..k] + [s[k]] + s[k + 1..]
  {
  }

  /** Better levels come before the price, worse ones after it, and nothing but a level exactly at the
      price lies between them. */
  lemma Parts(g: Grid, side: Side, levels: Levels, price: real)
    requires OnGrid(g, levels) && g.Has(price) && Sorted(side, levels)
    ensures var better, worse := Better(side, levels, price), Worse(side, levels, price);
            && (forall i :: 0 <= i < |better| ==> Before(side, better[i].price, price))
            && (forall i :: 0 <= i < |worse| ==> Before(side, price, worse[i].price))
            && (Contains(side, levels, price) ==>
                  var at := levels[|better|]; at.price == price && levels == better + [at] + worse)
            && (!Contains(side, levels, price) ==> levels == better + worse)
  {
    hide Before, OnGrid, Sorted, LowerBound;
    Around(g, side, levels, price);
    Pieces(levels, LowerBound(side, levels, price));
  }

  /** What an update does: the level at the entry's price, if any, gives way to the entry, if it has volume. */
  lemma UpdateShape(g: Grid, side: Side, levels: Levels, entry: Entry)
    requires OnGrid(g, levels) && g.Has(entry.price) && Sorted(side, levels)
    ensures UpdateLevels(side, levels, entry) ==
            Better(side, levels, entry.price) + (if entry.volume > 0.0 then [entry] else [])
            + Worse(side, levels, entry.price)
  {
    hide Before, Sorted;
    var better, worse := Better(side, levels, entry.price), Worse(side, levels, entry.price);
    Parts(g, side, levels, entry.price);
    var rest := better + worse;
    if worse != [] {
      BeforeIsStrict(side, entry.price, worse[0].price);
      assert rest[|better|] == worse[0];
    }
    assert forall i :: 0 <= i < |better| ==> rest[i] == better[i];
    LowerBoundIs(side, rest, entry.price, |better|);
    assert rest[..|better|] == better && rest[|better|..] == worse;
    assert if Contains(side, levels, entry.price) then Erase(side, levels, entry.price) == rest else levels == rest;
  }

  lemma NoneIn(side: Side, part: Levels, price: real, first: bool)
    requires forall i :: 0 <= i < |part| ==>
               if first then Before(side, part[i].price, price) else Before(side, price, part[i].price)
    ensures VolumeAt(part, price).None?
  {
    forall i | 0 <= i < |part| ensures part[i].price != price {
      if first { BeforeIsStrict(side, part[i].price, price); } else { BeforeIsStrict(side, price, part[i].price); }
    }
    NoVolumeAt(part, price);
  }

  lemma VolumeOfOne(e: Entry, price: real)
    ensures VolumeAt([e], price) == if e.price == price then Some(e.volume) else None
  {
    assert [e][1..] == [];
  }

  /** One update changes the volume at its own price, to its volume if positive and to nothing otherwise,
      and at no other price. */
  lemma UpdateRefinesMap(g: Grid, side: Side, levels: Levels, entry: Entry, price: real)
    requires OnGrid(g, levels) && g.Has(entry.price) && Sorted(side, levels)
    ensures VolumeAt(UpdateLevels(side, levels, entry), price) ==
            if price != entry.price then VolumeAt(levels, price)
            else if entry.volume > 0.0 then Some(entry.volume) else None
  {
    hide Before, Sorted, VolumeAt, UpdateLevels;
    var better, worse := Better(side, levels, entry.price), Worse(side, levels, entry.price);
    Parts(g, side, levels, entry.price);
    UpdateShape(g, side, levels, entry);
    NoneIn(side, better, entry.price, true);
    NoneIn(side, worse, entry.price, false);
    var mid := if entry.volume > 0.0 then [entry] else [];
    VolumeAtJoin(better + mid, worse, price);
    VolumeAtJoin(better, mid, price);
    VolumeOfOne(entry, price);
    NoVolumeAt([], price);
    if Contains(side, levels, entry.price) {
      var at := levels[|better|];
      VolumeAtJoin(better + [at], worse, price);
      VolumeAtJoin(better, [at], price);
      VolumeOfOne(at, price);
    } else {
      VolumeAtJoin(better, worse, price);
    }
  }

  lemma JoinSorted(side: Side, a: Levels, price: real, b: Levels, g: Grid)
    requires Sorted(side, a) && Sorted(side, b) && g.Has(price) && OnGrid(g, a) && OnGrid(g, b)
    requires forall i :: 0 <= i < |a| ==> Before(side, a[i].price, price)
    requires forall i :: 0 <= i < |b| ==> Before(side, price, b[i].price)
    ensures Sorted(side, a + b)
  {
    forall i, j | 0 <= i < j < |a + b| ensures Before(side, (a + b)[i].price, (a + b)[j].price) {
      if i < |a| <= j {
        GridOrder(g, side, a[i].price, price);
        GridOrder(g, side, price, b[j - |a|].price);
        GridOrder(g, side, a[i].price, b[j - |a|].price);
      }
    }
  }

  lemma PushSorted(side: Side, a: Levels, entry: Entry)
    requires Sorted(side, a)
    requires forall i :: 0 <= i < |a| ==> Before(side, a[i].price, entry.price)
    ensures Sorted(side, a + [entry])
  {
  }

  lemma EntryBetween(side: Side, a: Levels, entry: Entry, b: Levels, g: Grid)
    requires Sorted(side, a) && Sorted(side, b) && g.Has(entry.price) && OnGrid(g, a) && OnGrid(g, b)
    requires forall i :: 0 <= i < |a| ==> Before(side, a[i].price, entry.price)
    requires forall i :: 0 <= i < |b| ==> Before(side, entry.price, b[i].price)
    ensures Sorted(side, a + [entry] + b)
  {
    hide Before;
    JoinSorted(side, a, entry.price, b, g);
    var all := a + [entry] + b;
    forall i, j | 0 <= i < j < |all| ensures Before(side, all[i].price, all[j].price) {
      var i', j' := if i < |a| then i else i - 1, if j < |a| then j else j - 1;
      if i != |a| && j != |a| {
        assert all[i] == (a + b)[i'] && all[j] == (a + b)[j'];
      }
    }
  }

  /** An update keeps a side sorted and on its grid. */
  lemma UpdateKeepsSorted(g: Grid, side: Side, levels: Levels, entry: Entry)
    requires OnGrid(g, levels) && g.Has(entry.price) && Sorted(side, levels)
    ensures OnGrid(g, UpdateLevels(side, levels, entry)) && Sorted(side, UpdateLevels(side, levels, entry))
  {
    hide Before, UpdateLevels;
    var better, worse := Better(side, levels, entry.price), Worse(side, levels, entry.price);
    Parts(g, side, levels, entry.price);
    UpdateShape(g, side, levels, entry);
    if entry.volume > 0.0 {
      PushSorted(side, better, entry);
      EntryBetween(side, better, entry, worse, g);
    } else {
      JoinSorted(side, better, entry.price, worse, g);
      assert better + [] == better;
    }
  }

  // ---- Whole books ----

  datatype Update = Update(time: int, entry: Entry)

  function SideOf(book: BookState, side: Side): Levels {
    match side case Ask => book.asks case Bid => book.bids
  }

  ghost predicate Proper(g: Grid, book: BookState) {
    forall side :: OnGrid(g, SideOf(book, side)) && Sorted(side, SideOf(book, side))
  }

  function Applied(book: BookState, updates: seq<Update>): BookState {
    if updates == [] then book else
      var n := |updates| - 1;
      Updated(Applied(book, updates[..n]), updates[n].time, updates[n].entry)
  }

  function EntriesOf(updates: seq<Update>): seq<Entry> {
    if updates == [] then [] else EntriesOf(updates[..|updates| - 1]) + [updates[|updates| - 1].entry]
  }

  lemma UpdatedIsProper(g: Grid, book: BookState, time: int, entry: Entry)
    requires Proper(g, book) && g.Has(entry.price)
    ensures Proper(g, Updated(book, time, entry))
  {
    hide OnGrid, Sorted, UpdateLevels;
    UpdateKeepsSorted(g, entry.side, SideOf(book, entry.side), entry);
    forall side ensures OnGrid(g, SideOf(Updated(book, time, entry), side)) &&
                        Sorted(side, SideOf(Updated(book, time, entry), side))
    {
      assert OnGrid(g, SideOf(book, side)) && Sorted(side, SideOf(book, side));
      if side != entry.side {
        assert SideOf(Updated(book, time, entry), side) == SideOf(book, side);
      }
    }
  }

  lemma {:induction updates} EntryCount(updates: seq<Update>)
    ensures |EntriesOf(updates)| == |updates|
  {
  }

  /** After any updates each side holds, at each price, what the last update there says, or what it held
      before if there was none; and it stays sorted. */
  lemma {:induction false} BookRefinesMap(g: Grid, book: BookState, updates: seq<Update>, side: Side, price: real)
    requires Proper(g, book) && forall i :: 0 <= i < |updates| ==> g.Has(updates[i].entry.price)
    ensures Proper(g, Applied(book, updates))
    ensures VolumeAt(SideOf(Applied(book, updates), side), price) ==
            LastVolume(VolumeAt(SideOf(book, side), price), side, EntriesOf(updates), price)
    ensures updates != [] ==> Applied(book, updates).time == updates[|updates| - 1].time
  {
    hide OnGrid, Sorted, UpdateLevels, VolumeAt;
    if updates != [] {
      var n := |updates| - 1;
      var before, entry := Applied(book, updates[..n]), updates[n].entry;
      BookRefinesMap(g, book, updates[..n], side, price);
      UpdatedIsProper(g, before, updates[n].time, entry);
      assert EntriesOf(updates)[..n] == EntriesOf(updates[..n]) by { EntryCount(updates[..n]); }
      EntryCount(updates);
      assert OnGrid(g, SideOf(before, side)) && Sorted(side, SideOf(before, side));
      if entry.side == side {
        UpdateRefinesMap(g, side, SideOf(before, side), entry, price);
      } else {
        assert SideOf(Applied(book, updates), side) == SideOf(before, side);
      }
    }
  }

  /** A snapshot is as deep as asked, or as deep as the book: the levels it leaves out all come after the
      ones it holds. */
  lemma SnapshotIsBest(g: Grid, book: BookState, depth: nat, side: Side, i: nat, j: nat)
    requires Proper(g, book)
    ensures var all, best := SideOf(book, side), SideOf(SnapshotOf(book, depth), side);
            && SnapshotOf(book, depth).time == book.time
            && |best| == (if depth == 0 || |all| < depth then |all| else depth)
            && best <= all
            && Sorted(side, best)
            && (i < |best| <= j < |all| ==> Before(side, best[i].price, all[j].price))
  {
    assert OnGrid(g, SideOf(book, side)) && Sorted(side, SideOf(book, side));
  }

  lemma {:induction false} SetOfSorted(side: Side, levels: Levels)
    requires Sorted(side, levels)
    ensures SetOf(side, levels) == levels
  {
    hide Before;
    if levels != [] {
      var n := |levels| - 1;
      SetOfSorted(side, levels[..n]);
      LowerBoundIs(side, levels[..n], levels[n].price, n);
    }
  }

  /** A full snapshot rebuilds the same book. */
  lemma SnapshotRoundTrip(g: Grid, book: BookState)
    requires Proper(g, book)
    ensures BookOf(SnapshotOf(book, 0)) == book
  {
    hide OnGrid, Sorted;
    assert Sorted(Ask, SideOf(book, Ask)) && Sorted(Bid, SideOf(book, Bid));
    assert SnapshotOf(book, 0) == book;
    SetOfSorted(Ask, book.asks);
    SetOfSorted(Bid, book.bids);
  }

  lemma BetweenOnGrid(g: Grid, a: Levels, entry: Entry, b: Levels)
    requires OnGrid(g, a) && OnGrid(g, b) && g.Has(entry.price)
    ensures OnGrid(g, a + [entry] + b)
  {
  }

  lemma PartsProper(g: Grid, side: Side, levels: Levels, price: real)
    requires OnGrid(g, levels) && Sorted(side, levels)
    ensures OnGrid(g, Better(side, levels, price)) && Sorted(side, Better(side, levels, price))
    ensures OnGrid(g, Worse(side, levels, price)) && Sorted(side, Worse(side, levels, price))
  {
  }

  lemma InsertRefinesMap(g: Grid, side: Side, levels: Levels, entry: Entry, price: real)
    requires OnGrid(g, levels) && Sorted(side, levels) && g.Has(entry.price)
    ensures OnGrid(g, Insert(side, levels, entry)) && Sorted(side, Insert(side, levels, entry))
    ensures VolumeAt(Insert(side, levels, entry), price) ==
            if VolumeAt(levels, price).Some? then VolumeAt(levels, price)
            else if price == entry.price then Some(entry.volume) else None
  {
    hide Before, VolumeAt, Sorted, OnGrid;
    var better, worse := Better(side, levels, entry.price), Worse(side, levels, entry.price);
    Parts(g, side, levels, entry.price);
    NoneIn(side, better, entry.price, true);
    NoneIn(side, worse, entry.price, false);
    VolumeOfOne(entry, price);
    if Contains(side, levels, entry.price) {
      var at := levels[|better|];
      VolumeAtJoin(better + [at], worse, price);
      VolumeAtJoin(better, [at], price);
      VolumeOfOne(at, price);
    } else {
      VolumeAtJoin(better, worse, price);
      VolumeAtJoin(better + [entry], worse, price);
      VolumeAtJoin(better, [entry], price);
      PartsProper(g, side, levels, entry.price);
      EntryBetween(side, better, entry, worse, g);
      BetweenOnGrid(g, better, entry, worse);
    }
  }

  /** A book built from any snapshot on the grid is sorted and holds, at each price, the first volume the
      snapshot lists there. */
  lemma {:induction false} SetOfRefinesMap(g: Grid, side: Side, entries: seq<Entry>, price: real)
    requires OnGrid(g, entries)
    ensures OnGrid(g, SetOf(side, entries)) && Sorted(side, SetOf(side, entries))
    ensures VolumeAt(SetOf(side, entries), price) == VolumeAt(entries, price)
  {
    hide Before, VolumeAt;
    if entries != [] {
      var n := |entries| - 1;
      SetOfRefinesMap(g, side, entries[..n], price);
      SetOfRefinesMap(g, side, entries[..n], entries[n].price);
      InsertRefinesMap(g, side, SetOf(side, entries[..n]), entries[n], price);
      InsertRefinesMap(g, side, SetOf(side, entries[..n]), entries[n], entries[n].price);
      assert entries == entries[..n] + [entries[n]];
      VolumeAtJoin(entries[..n], [entries[n]], price);
      VolumeOfOne(entries[n], price);
    }
  }
}
