/** The sliding candle: a deque of the trades inside the last interval, trimmed as time moves on. */
module MovingCandle {
  import opened Trading
  import CandleHistory
  import opened Search
  import opened Sums

  // ---- What the window should hold, from the whole history ----

  ghost predicate Ordered(h: seq<Trade>) {
    forall i, j :: 0 <= i < j < |h| ==> h[i].time <= h[j].time
  }

  /** The latest time heard of pushes the start of the window along, never back. */
  function WindowStart(firstTime: int, latest: int, span: int): int {
    Later(firstTime, latest - span)
  }

  /** One boundary entry at `start`, priced by the last trade at or before it and carrying that trade's
      volume only if it fell exactly on `start`; then every later trade. */
  ghost function Window(h: seq<Trade>, start: int): (w: seq<Trade>)
    requires h != [] && h[0].time <= start && Ordered(h)
    ensures w != [] && w[0].time == start
  {
    var k := CountUpTo(h, TradeTime, start);
    CountPositive(h, TradeTime, start);
    var last := h[k - 1];
    [Trade(start, last.price, if last.time == start then last.volume else 0.0)] + h[k..]
  }

  /** What trimming keeps while it runs: some suffix of the history, its head perhaps already moved up
      to an earlier start of the window. */
  ghost predicate Tail(trades: seq<Trade>, h: seq<Trade>, from: int) {
    && 0 < |trades| <= |h|
    && var k := |h| - |trades|;
       && trades[1..] == h[k + 1..]
       && trades[0].price == h[k].price
       && (trades[0] == h[k] || (h[k].time < trades[0].time == from && trades[0].volume == 0.0))
  }

  lemma TailOfWindow(h: seq<Trade>, start: int)
    requires h != [] && h[0].time <= start && Ordered(h)
    ensures Tail(Window(h, start), h, start)
  {
    CountPositive(h, TradeTime, start);
    CountMeaning(h, TradeTime, start);
  }

  /** Pushing a trade on a tail makes a tail of the longer history. */
  lemma TailGrows(trades: seq<Trade>, h: seq<Trade>, from: int, t: Trade)
    requires Tail(trades, h, from)
    ensures Tail(trades + [t], h + [t], from)
  {
    assert (trades + [t])[1..] == trades[1..] + [t];
    assert (h + [t])[|h| - |trades| + 1..] == h[|h| - |trades| + 1..] + [t];
  }

  lemma OrderedShrinks(h: seq<Trade>, t: Trade)
    requires Ordered(h + [t])
    ensures Ordered(h) && (h != [] ==> h[|h| - 1].time <= t.time)
  {
    assert forall i :: 0 <= i < |h| ==> h[i] == (h + [t])[i];
    assert (h + [t])[|h|] == t;
  }

  /** Dropping the head keeps a tail a tail. */
  lemma TailDrops(trades: seq<Trade>, h: seq<Trade>, from: int)
    requires Tail(trades, h, from) && |trades| > 1
    ensures Tail(trades[1..], h, from)
  {
    var k := |h| - |trades|;
    assert trades[1..][0] == h[k + 1..][0] == h[k + 1];
    assert trades[1..][1..] == h[k + 1..][1..] == h[k + 2..];
  }

  /** A fully trimmed tail is the window. */
  lemma TrimmedTail(trades: seq<Trade>, h: seq<Trade>, from: int, start: int)
    requires Ordered(h) && Tail(trades, h, from) && from <= start
    requires trades[0].time <= start && (|trades| > 1 ==> start < trades[1].time)
    ensures h[0].time <= start
    ensures Window(h, start) ==
            [if trades[0].time < start then Trade(start, trades[0].price, 0.0) else trades[0]] + trades[1..]
  {
    var k := |h| - |trades|;
    assert h[k].time <= start;
    assert |trades| > 1 ==> trades[1] == trades[1..][0] == h[k + 1..][0] == h[k + 1];
    CountIs(h, TradeTime, start, k + 1);
  }

  /** What the deque holds after trimming it to `start`. */
  function Trim(trades: seq<Trade>, start: int): (r: seq<Trade>)
    requires trades != []
    ensures r != []
  {
    if |trades| > 1 && trades[1].time <= start then Trim(trades[1..], start)
    else if trades[0].time < start then [Trade(start, trades[0].price, 0.0)] + trades[1..]
    else trades
  }

  /** Whatever the order of the entries, the head after trimming stands for the last of the leading entries
      that are at or before `start` (the front one in any case); all after it is untouched. */
  lemma {:induction false} TrimMeaning(trades: seq<Trade>, start: int) returns (k: nat)
    requires trades != []
    ensures k < |trades| && (forall i :: 0 < i <= k ==> trades[i].time <= start)
    ensures k + 1 < |trades| ==> start < trades[k + 1].time
    ensures var r := Trim(trades, start);
            && r[1..] == trades[k + 1..] && r[0].time == Later(trades[k].time, start)
            && r[0].price == trades[k].price
            && r[0].volume == (if trades[k].time < start then 0.0 else trades[k].volume)
  {
    k := 0;
    if |trades| > 1 && trades[1].time <= start {
      var j := TrimMeaning(trades[1..], start);
      k := j + 1;
      assert trades[1..][j + 1..] == trades[k + 1..];
      assert forall i :: 1 < i <= k ==> trades[i] == trades[1..][i - 1];
    }
  }

  /** Trimming a tail to a later start leaves the window, however far the start has moved. */
  lemma {:induction false} TrimIsWindow(trades: seq<Trade>, h: seq<Trade>, from: int, start: int)
    requires Ordered(h) && Tail(trades, h, from) && from <= start && trades[0].time <= start
    ensures h[0].time <= start && Trim(trades, start) == Window(h, start)
    decreases |trades|
  {
    assert trades == [trades[0]] + trades[1..];
    hide Window, CountUpTo, Ordered, Tail;
    if |trades| > 1 && trades[1].time <= start {
      TailDrops(trades, h, from);
      TrimIsWindow(trades[1..], h, from, start);
    } else {
      TrimmedTail(trades, h, from, start);
    }
  }

  /** A trade no earlier than the real trades before it, with the start set to its time, is all that stays. */
  lemma {:induction false} OnlyLastStays(trades: seq<Trade>, t: Trade)
    requires forall i :: 1 <= i < |trades| ==> trades[i].time <= t.time
    ensures Trim(trades + [t], t.time) == [t]
  {
    if trades != [] {
      assert (trades + [t])[1..] == trades[1..] + [t];
      OnlyLastStays(trades[1..], t);
    }
  }

  lemma WindowBefore(h: seq<Trade>, start: int, t: Trade)
    requires h != [] && h[0].time <= start && Ordered(h) && h[|h| - 1].time <= t.time
    ensures forall i :: 1 <= i < |Window(h, start)| ==> Window(h, start)[i].time <= t.time
  {
    var k := CountUpTo(h, TradeTime, start);
    CountPositive(h, TradeTime, start);
    assert Window(h, start)[1..] == h[k..];
    assert forall i :: 0 <= i < |h| ==> h[i].time <= t.time;
    assert forall i :: 1 <= i < |Window(h, start)| ==> Window(h, start)[i] == h[k + i - 1];
  }

  /** The window from the time of the last trade is that trade alone. */
  lemma WindowAtLast(h: seq<Trade>)
    requires Ordered(h) && h != []
    ensures Window(h, h[|h| - 1].time) == [h[|h| - 1]]
  {
    CountIs(h, TradeTime, h[|h| - 1].time, |h|);
  }

  lemma WindowOfOne(t: Trade)
    ensures Window([t], t.time) == [t]
  {
    TrimmedTail([t], [t], t.time, t.time);
  }

  /** The trades a new one is added to. A trade that finds the start at 0 is taken for the first one:
      the start becomes its time, and in an ordered history nothing before it matters any more. */
  ghost function Remembered(h: seq<Trade>, start: int, t: Trade): seq<Trade> {
    if start == 0 && Ordered(h + [t]) then [] else h
  }

  function Heard(h: seq<Trade>, latest: int, time: int): int {
    if h == [] then time else Later(latest, time)
  }

  lemma StartMoves(firstTime: int, latest: int, time: int, span: int)
    ensures Later(WindowStart(firstTime, latest, span), time - span) ==
            WindowStart(firstTime, Later(latest, time), span)
  {
  }

  lemma WindowOrdered(h: seq<Trade>, start: int)
    requires h != [] && h[0].time <= start && Ordered(h)
    ensures var w := Window(h, start);
            forall i, j :: 0 <= i < j < |w| ==> w[i].time <= w[j].time
  {
    CountPositive(h, TradeTime, start);
    CountMeaning(h, TradeTime, start);
  }

  /** The entries a query may use: those at or before `limit`. */
  function Visible(w: seq<Trade>, limit: int): seq<Trade> {
    w[..CountUpTo(w, TradeTime, limit)]
  }

  /** The candle of the entries `w`, first to last. */
  function CandleOf(w: seq<Trade>, stamp: int): Ohlcv
    requires w != []
  {
    var open := w[0].price;
    Ohlcv(stamp, open, CandleHistory.Highest(open, w), CandleHistory.Lowest(open, w),
          w[|w| - 1].price, CandleHistory.Total(0.0, w))
  }

  function QuoteVolume(w: seq<Trade>): real {
    if w == [] then 0.0 else
      QuoteVolume(w[..|w| - 1]) + w[|w| - 1].price * w[|w| - 1].volume
  }

  /** With no offset a query uses the whole window. */
  lemma NothingHidden(h: seq<Trade>, start: int, latest: int, interval: int)
    requires h != [] && h[0].time <= start && Ordered(h)
    requires h[|h| - 1].time <= latest && start == WindowStart(h[0].time, latest, interval)
    requires interval >= 0
    ensures Visible(Window(h, start), start + interval) == Window(h, start)
  {
    var w := Window(h, start);
    CountPositive(h, TradeTime, start);
    assert w[|w| - 1].time <= start + interval;
  }

  /** The entries before the first one after `limit`. */
  function Leading(w: seq<Trade>, limit: int): seq<Trade> {
    if w == [] || limit < w[0].time then [] else [w[0]] + Leading(w[1..], limit)
  }

  /** In an ordered deque the entries before the first late one are all the entries in time. */
  lemma {:induction false} LeadingIsVisible(w: seq<Trade>, limit: int)
    requires forall i, j :: 0 <= i < j < |w| ==> w[i].time <= w[j].time
    ensures Leading(w, limit) == Visible(w, limit)
  {
    if w == [] || limit < w[0].time {
      CountIs(w, TradeTime, limit, 0);
    } else {
      LeadingIsVisible(w[1..], limit);
      var k := CountUpTo(w[1..], TradeTime, limit);
      CountMeaning(w[1..], TradeTime, limit);
      CountIs(w, TradeTime, limit, k + 1);
      assert [w[0]] + w[1..][..k] == w[..k + 1];
    }
  }

  // ---- What a query shows, told by the history alone ----

  function TradeCost(t: Trade): real {
    t.price * t.volume
  }

  lemma {:induction false} QuoteVolumeIsSum(w: seq<Trade>)
    ensures QuoteVolume(w) == SumOf(w, TradeCost)
  {
    if w != [] { QuoteVolumeIsSum(w[..|w| - 1]); }
  }

  /** Trade `i` is the last at or before `t`. */
  predicate LastAt(h: seq<Trade>, t: int, i: nat) {
    i < |h| && h[i].time <= t && (i + 1 < |h| ==> t < h[i + 1].time)
  }

  /** What the boundary entry at `start` counts for: the trade `f`, if it fell exactly there. */
  function AtStart(h: seq<Trade>, start: int, f: nat, value: Trade -> real): real
    requires f < |h|
  {
    if h[f].time == start then value(h[f]) else 0.0
  }

  /** The candle from `start` to `limit`: it opens at the last trade at or before `start` and closes at the
      last one at or before `limit`, ranges over these and all between, and counts the trades after `start`
      and the opening one if it fell exactly there. */
  ghost predicate Shows(h: seq<Trade>, start: int, limit: int, f: nat, l: nat, c: Ohlcv) {
    && LastAt(h, start, f) && LastAt(h, limit, l) && f <= l
    && c.open == h[f].price && c.close == h[l].price
    && (forall i :: f <= i <= l ==> c.low <= h[i].price <= c.high)
    && (exists i :: f <= i <= l && h[i].price == c.low) && (exists i :: f <= i <= l && h[i].price == c.high)
    && c.volume == AtStart(h, start, f, TradeVolume) + SumOf(h[f + 1..l + 1], TradeVolume)
  }

  /** In an ordered history there is a last trade at or before any time that is not before the first. */
  lemma LastExists(h: seq<Trade>, t: int) returns (i: nat)
    requires Ordered(h) && h != [] && h[0].time <= t
    ensures LastAt(h, t, i) && i == CountUpTo(h, TradeTime, t) - 1
  {
    CountPositive(h, TradeTime, t);
    CountMeaning(h, TradeTime, t);
    i := CountUpTo(h, TradeTime, t) - 1;
  }

  lemma LastIsLater(h: seq<Trade>, s: int, i: nat, t: int, j: nat)
    requires Ordered(h) && LastAt(h, s, i) && LastAt(h, t, j) && s <= t
    ensures i <= j
  {
  }

  lemma WindowRange(h: seq<Trade>, start: int) returns (f: nat)
    requires Ordered(h) && h != [] && h[0].time <= start
    ensures LastAt(h, start, f)
    ensures Window(h, start) == [Trade(start, h[f].price, AtStart(h, start, f, TradeVolume))] + h[f + 1..]
  {
    f := LastExists(h, start);
  }

  lemma LeadingPart(h: seq<Trade>, entry: Trade, limit: int, f: nat, l: nat)
    requires Ordered(h) && LastAt(h, limit, l) && f <= l && entry.time <= limit
    ensures CountUpTo([entry] + h[f + 1..], TradeTime, limit) == l - f + 1
  {
    var w := [entry] + h[f + 1..];
    assert forall i :: 0 < i < |w| ==> w[i] == h[f + i];
    CountIs(w, TradeTime, limit, l - f + 1);
  }

  lemma VisibleRange(h: seq<Trade>, start: int, limit: int) returns (f: nat, l: nat)
    requires Ordered(h) && h != [] && h[0].time <= start <= limit
    ensures LastAt(h, start, f) && LastAt(h, limit, l) && f <= l
    ensures Visible(Window(h, start), limit) ==
            [Trade(start, h[f].price, AtStart(h, start, f, TradeVolume))] + h[f + 1..l + 1]
  {
    hide Window, CountUpTo;
    f := WindowRange(h, start);
    l := LastExists(h, limit);
    LastIsLater(h, start, f, limit, l);
    var entry := Trade(start, h[f].price, AtStart(h, start, f, TradeVolume));
    LeadingPart(h, entry, limit, f, l);
    assert ([entry] + h[f + 1..])[..l - f + 1] == [entry] + h[f + 1..l + 1];
  }

  lemma RangeOf(h: seq<Trade>, entry: Trade, f: nat, l: nat)
    requires f <= l < |h| && entry.price == h[f].price
    ensures var w := [entry] + h[f + 1..l + 1];
            var low, high := CandleHistory.Lowest(entry.price, w), CandleHistory.Highest(entry.price, w);
            && (forall i :: f <= i <= l ==> low <= h[i].price <= high)
            && (exists i :: f <= i <= l && h[i].price == low) && (exists i :: f <= i <= l && h[i].price == high)
            && w[|w| - 1].price == h[l].price
  {
    var w := [entry] + h[f + 1..l + 1];
    CandleHistory.RangeMeaning(entry.price, w);
    assert forall i :: 0 <= i < |w| ==> w[i].price == h[f + i].price;
    forall i | f <= i <= l
      ensures CandleHistory.Lowest(entry.price, w) <= h[i].price <= CandleHistory.Highest(entry.price, w)
    {
      assert w[i - f].price == h[i].price;
    }
    assert h[f].price == entry.price;
  }

  lemma LastInside(h: seq<Trade>, t: int, i: nat)
    requires LastAt(h, t, i)
    ensures i < |h|
  {
  }

  /** The candle of the visible window, told by the whole history. */
  lemma CandleMeaning(h: seq<Trade>, start: int, limit: int, stamp: int) returns (f: nat, l: nat)
    requires Ordered(h) && h != [] && h[0].time <= start <= limit
    ensures Visible(Window(h, start), limit) != []
    ensures CandleOf(Visible(Window(h, start), limit), stamp).time == stamp
    ensures Shows(h, start, limit, f, l, CandleOf(Visible(Window(h, start), limit), stamp))
  {
    hide Window, Visible, Ordered, LastAt, CandleHistory.Highest, CandleHistory.Lowest, CandleHistory.Total, SumOf;
    f, l := VisibleRange(h, start, limit);
    assert f <= l < |h| by { LastInside(h, start, f); LastInside(h, limit, l); }
    var entry, rest := Trade(start, h[f].price, AtStart(h, start, f, TradeVolume)), h[f + 1..l + 1];
    RangeOf(h, entry, f, l);
    CandleHistory.TotalIsSum(0.0, [entry] + rest);
    SumOfJoin([entry], rest, TradeVolume);
    SumOfOne(entry, TradeVolume);
  }

  /** The quote volume from `start` to `limit`: each trade in between at its own price, the opening one if it
      fell exactly on the start. */
  ghost predicate AddsUp(h: seq<Trade>, start: int, limit: int, f: nat, l: nat, quoteVolume: real) {
    && LastAt(h, start, f) && LastAt(h, limit, l) && f <= l
    && quoteVolume == AtStart(h, start, f, TradeCost) + SumOf(h[f + 1..l + 1], TradeCost)
  }

  /** The quote volume of the visible window, told by the whole history. */
  lemma QuoteVolumeMeaning(h: seq<Trade>, start: int, limit: int) returns (f: nat, l: nat)
    requires Ordered(h) && h != [] && h[0].time <= start <= limit
    ensures AddsUp(h, start, limit, f, l, QuoteVolume(Visible(Window(h, start), limit)))
  {
    hide Window, Visible, Ordered, SumOf, QuoteVolume;
    f, l := VisibleRange(h, start, limit);
    var entry, rest := Trade(start, h[f].price, AtStart(h, start, f, TradeVolume)), h[f + 1..l + 1];
    QuoteVolumeIsSum([entry] + rest);
    SumOfJoin([entry], rest, TradeCost);
    SumOfOne(entry, TradeCost);
  }

  lemma LastOfAll(h: seq<Trade>, t: int, i: nat)
    requires Ordered(h) && LastAt(h, t, i) && h[|h| - 1].time <= t
    ensures i == |h| - 1
  {
  }

  // ---- The moving candle ----

  class MovingCandle {
    const interval: int
    const offset: int
    var startTime: int
    var trades: seq<Trade>

    /** The trades pushed since the last reset, or since one that found the start at 0 if that came later
        (`Remembered`), and the latest time of any push or query since. */
    ghost var history: seq<Trade>
    ghost var latest: int

    /** The window claim is for trades pushed in order of time; the deque itself takes any. */
    ghost predicate Valid()
      reads this
    {
      && 0 <= offset <= interval
      && (history == [] <==> trades == [])
      && (history == [] ==> startTime == 0)
      && (history != [] && Ordered(history) ==>
            && history[|history| - 1].time <= latest
            && startTime == WindowStart(history[0].time, latest, interval + offset)
            && trades == Window(history, startTime))
    }

    /** The entries a query uses. */
    ghost function OffsetTrades(): seq<Trade>
      reads this
    {
      if offset == 0 then trades else Leading(trades, startTime + interval - offset)
    }

    /** A candle needs an entry to start from. */
    ghost predicate Answers(time: int)
      requires trades != []
      reads this
    {
      var start := Later(startTime, time - (interval + offset));
      offset == 0 || Trim(trades, start)[0].time <= start + interval - offset
    }

    lemma OffsetTradesShown()
      requires Valid() && history != [] && Ordered(history)
      ensures OffsetTrades() == Visible(Window(history, startTime), startTime + interval - offset)
    {
      hide Window, CountUpTo, Ordered, Visible, Leading;
      WindowOrdered(history, startTime);
      LeadingIsVisible(trades, startTime + interval - offset);
      if offset == 0 { NothingHidden(history, startTime, latest, interval); }
    }

    lemma WindowSlides(start: int)
      requires Valid() && history != [] && Ordered(history) && startTime <= start
      ensures history[0].time <= start && Trim(trades, start) == Window(history, start)
    {
      hide CountUpTo, Ordered, Tail;
      TailOfWindow(history, startTime);
      TrimIsWindow(trades, history, startTime, start);
    }

    /** What a query at the present start shows of the history: with no offset, up to its last trade. */
    lemma QueryShows() returns (f: nat, l: nat)
      requires Valid() && history != [] && Ordered(history)
      ensures OffsetTrades() != []
      ensures Shows(history, startTime, startTime + interval - offset, f, l, CandleOf(OffsetTrades(), startTime - offset))
      ensures offset == 0 ==> l == |history| - 1
    {
      hide Window, CountUpTo, Ordered, Visible;
      OffsetTradesShown();
      f, l := CandleMeaning(history, startTime, startTime + interval - offset, startTime - offset);
      if offset == 0 { LastOfAll(history, startTime + interval, l); }
    }

    lemma QueryAddsUp() returns (f: nat, l: nat)
      requires Valid() && history != [] && Ordered(history)
      ensures AddsUp(history, startTime, startTime + interval - offset, f, l, QuoteVolume(OffsetTrades()))
    {
      hide Window, CountUpTo, Ordered, Visible, AddsUp;
      OffsetTradesShown();
      f, l := QuoteVolumeMeaning(history, startTime, startTime + interval - offset);
    }

    /** After trades in order every query can be answered. */
    lemma OrderedAnswers(time: int)
      requires Valid() && history != [] && Ordered(history)
      ensures Answers(time)
    {
      WindowSlides(Later(startTime, time - (interval + offset)));
    }

    constructor (interval: int, offset: int)
      requires 0 <= offset <= interval
      ensures Valid() && this.interval == interval && this.offset == offset
      ensures history == []
    {
      this.interval := interval;
      this.offset := offset;
      startTime := 0;
      trades := [];
      history := [];
      latest := 0;
    }

    method UpdateValues(currentTime: int)
      requires trades != []
      modifies `startTime, `trades
      ensures startTime == Later(old(startTime), currentTime - (interval + offset))
      ensures trades == Trim(old(trades), startTime)
    {
      if currentTime - offset >= startTime + interval {
        startTime := currentTime - interval - offset;
      }
      while |trades| > 1 && trades[1].time <= startTime
        invariant startTime == Later(old(startTime), currentTime - (interval + offset))
        invariant trades != [] && Trim(trades, startTime) == Trim(old(trades), startTime)
        decreases |trades|
      {
        trades := trades[1..];
      }
      if trades[0].time < startTime {
        var fillTrade := Trade(startTime, trades[0].price, 0.0);
        trades := trades[1..];
        trades := [fillTrade] + trades;
      }
    }

    /** Any trade is taken, in any order: the start is never set back, unless it was 0, which stands for
        "no trade yet". Trades at positive times, in order, are all remembered. */
    method PushTrade(trade: Trade)
      requires Valid()
      modifies this
      ensures Valid()
      ensures startTime == Later(if old(startTime) == 0 then trade.time else old(startTime),
                                 trade.time - (interval + offset))
      ensures trades == Trim(old(trades) + [trade], startTime)
      ensures history == Remembered(old(history), old(startTime), trade) + [trade]
      ensures latest == Heard(Remembered(old(history), old(startTime), trade), old(latest), trade.time)
      ensures old(history) != [] && Ordered(old(history)) && 0 < old(history)[0].time ==>
                history == old(history) + [trade]
    {
      hide Window, CountUpTo, Ordered, Tail, Trim;
      ghost var h := Remembered(history, startTime, trade);
      ghost var now := Heard(h, latest, trade.time);
      PushKeepsWindow(trade);
      if startTime == 0 {
        startTime := trade.time;
      }
      trades := trades + [trade];
      latest := now;
      history := h + [trade];
      UpdateValues(trade.time);
    }

    /** What a push makes of the window, told before it happens. */
    lemma PushKeepsWindow(trade: Trade)
      requires Valid()
      ensures var h := Remembered(history, startTime, trade);
              var start := Later(if startTime == 0 then trade.time else startTime, trade.time - (interval + offset));
              var now := Heard(h, latest, trade.time);
              Ordered(h + [trade]) ==>
                && (h + [trade])[0].time <= start
                && trade.time <= now
                && start == WindowStart((h + [trade])[0].time, now, interval + offset)
                && Trim(trades + [trade], start) == Window(h + [trade], start)
    {
      hide CountUpTo, Trim;
      var h := Remembered(history, startTime, trade);
      if Ordered(h + [trade]) {
        OrderedShrinks(h, trade);
        if history == [] || startTime == 0 {
          PushStartsAnew(trade);
        } else {
          var start := Later(startTime, trade.time - (interval + offset));
          TailOfWindow(h, startTime);
          TailGrows(trades, h, startTime, trade);
          hide Window, Tail, Ordered;
          TrimIsWindow(trades + [trade], h + [trade], startTime, start);
          StartMoves(h[0].time, latest, trade.time, interval + offset);
        }
      }
    }

    lemma PushStartsAnew(trade: Trade)
      requires Valid() && startTime == 0 && Ordered(history + [trade])
      ensures Trim(trades + [trade], trade.time) == Window([trade], trade.time) == [trade]
    {
      hide Window, CountUpTo, Ordered, Trim;
      OrderedShrinks(history, trade);
      WindowOfOne(trade);
      if history != [] { WindowBefore(history, startTime, trade); }
      OnlyLastStays(trades, trade);
    }

    /** Exactly when a trade, in order, that finds the start at 0 still leaves the window of all trades
        before it and itself: if it is at time 0, or after that with a span of 0. */
    lemma StartAtZeroExactly(trade: Trade)
      requires Valid() && history != [] && startTime == 0 && Ordered(history + [trade])
      ensures var full := history + [trade];
              var start := WindowStart(full[0].time, Later(latest, trade.time), interval + offset);
              && full[0].time <= start
              && (trade.time == start && Trim(trades + [trade], trade.time) == Window(full, start) <==>
                    trade.time == 0 || (trade.time > 0 && interval + offset == 0))
    {
      hide Trim, Window, CountUpTo;
      var full := history + [trade];
      OrderedShrinks(history, trade);
      PushStartsAnew(trade);
      assert full[|full| - 1] == trade;
      if trade.time == WindowStart(full[0].time, Later(latest, trade.time), interval + offset) {
        WindowAtLast(full);
      }
    }

    method GetOffsetTrades() returns (visible: seq<Trade>)
      ensures visible == OffsetTrades()
    {
      if offset == 0 {
        return trades;
      }
      visible := [];
      ghost var limit := startTime + interval - offset;
      var i := 0;
      while i < |trades| && trades[i].time <= startTime + interval - offset
        invariant 0 <= i <= |trades|
        invariant visible + Leading(trades[i..], limit) == OffsetTrades()
      {
        assert trades[i..][1..] == trades[i + 1..];
        visible := visible + [trades[i]];
        i := i + 1;
      }
    }

    /** Time moves on to `time`: the window slides, the history stays. */
    method Advance(time: int)
      requires Valid() && history != []
      modifies `startTime, `trades, `latest
      ensures Valid() && latest == Later(old(latest), time)
      ensures startTime == Later(old(startTime), time - (interval + offset))
      ensures trades == Trim(old(trades), startTime)
    {
      hide Tail, Window, CountUpTo, Ordered, Trim;
      if Ordered(history) {
        WindowSlides(Later(startTime, time - (interval + offset)));
        StartMoves(history[0].time, latest, time, interval + offset);
      }
      UpdateValues(time);
      latest := Later(latest, time);
    }

    /** The candle of the window at `time`, from the trades pushed before. A query before the first
        trade is outside the original's domain: it reads the front of an empty deque. So is one whose
        first entry lies after the offset limit, which trades in order never cause (`OrderedAnswers`).
        After trades in order, `f` and `l` are the trades it opens and closes with. */
    method GetOhlcv(time: int) returns (candle: Ohlcv, ghost f: nat, ghost l: nat)
      requires Valid() && history != [] && Answers(time)
      modifies `startTime, `trades, `latest
      ensures Valid() && latest == Later(old(latest), time)
      ensures startTime == Later(old(startTime), time - (interval + offset))
      ensures trades == Trim(old(trades), startTime)
      ensures OffsetTrades() != [] && candle == CandleOf(OffsetTrades(), startTime - offset)
      ensures Ordered(history) ==>
                && startTime == Later(history[0].time, latest - (interval + offset))
                && candle.time == startTime - offset
                && Shows(history, startTime, startTime + interval - offset, f, l, candle)
                && (offset == 0 ==> l == |history| - 1)
    {
      hide Window, CountUpTo, Ordered, Trim, Shows, CandleOf;
      Advance(time);
      f, l := 0, 0;
      if Ordered(history) { f, l := QueryShows(); }
      var offsetTrades := GetOffsetTrades();
      candle := CandleFrom(offsetTrades, startTime - offset);
    }

    static method CandleFrom(offsetTrades: seq<Trade>, stamp: int) returns (candle: Ohlcv)
      requires offsetTrades != []
      ensures candle == CandleOf(offsetTrades, stamp) && candle.time == stamp
    {
      var open, close := offsetTrades[0].price, offsetTrades[|offsetTrades| - 1].price;
      var high, low, volume := open, open, 0.0;
      for i := 0 to |offsetTrades|
        invariant high == CandleHistory.Highest(open, offsetTrades[..i])
        invariant low == CandleHistory.Lowest(open, offsetTrades[..i])
        invariant volume == CandleHistory.Total(0.0, offsetTrades[..i])
      {
        var trade := offsetTrades[i];
        assert offsetTrades[..i + 1][..i] == offsetTrades[..i];
        high := Max(high, trade.price);
        low := Min(low, trade.price);
        volume := volume + trade.volume;
      }
      assert offsetTrades[..|offsetTrades|] == offsetTrades;
      candle := Ohlcv(stamp, open, high, low, close, volume);
    }

    method GetQuoteVolume(time: int) returns (quoteVolume: real, ghost f: nat, ghost l: nat)
      requires Valid() && history != []
      modifies `startTime, `trades, `latest
      ensures Valid() && latest == Later(old(latest), time)
      ensures startTime == Later(old(startTime), time - (interval + offset))
      ensures trades == Trim(old(trades), startTime)
      ensures quoteVolume == QuoteVolume(OffsetTrades())
      ensures Ordered(history) ==>
                && startTime == Later(history[0].time, latest - (interval + offset))
                && AddsUp(history, startTime, startTime + interval - offset, f, l, quoteVolume)
    {
      hide Window, CountUpTo, Ordered, Trim, Leading, QuoteVolume, AddsUp;
      Advance(time);
      f, l := 0, 0;
      if Ordered(history) { f, l := QueryAddsUp(); }
      var offsetTrades := GetOffsetTrades();
      quoteVolume := QuoteVolumeFrom(offsetTrades);
    }

    static method QuoteVolumeFrom(offsetTrades: seq<Trade>) returns (quoteVolume: real)
      ensures quoteVolume == QuoteVolume(offsetTrades)
    {
      quoteVolume := 0.0;
      for i := 0 to |offsetTrades|
        invariant quoteVolume == QuoteVolume(offsetTrades[..i])
      {
        assert offsetTrades[..i + 1][..i] == offsetTrades[..i];
        quoteVolume := quoteVolume + offsetTrades[i].price * offsetTrades[i].volume;
      }
      assert offsetTrades[..|offsetTrades|] == offsetTrades;
    }

    method Reset()
      requires Valid()
      modifies this
      ensures Valid() && history == []
    {
      trades := [];
      startTime := 0;
      history := [];
      latest := 0;
    }
  }

  /** Trades at times 0 and 5 in a candle of a minute: the deque loses the first, though both lie in the
      window of the last minute. */
  method StartAtZeroWitness() returns (start: int, trades: seq<Trade>)
    ensures var first, second := Trade(0, 1.0, 1.0), Trade(5, 2.0, 1.0);
            && start == 5 && trades == [second]
            && WindowStart(0, 5, 60) == 0 && Window([first, second], 0) == [first, second]
  {
    var candle := new MovingCandle(60, 0);
    var first, second := Trade(0, 1.0, 1.0), Trade(5, 2.0, 1.0);
    candle.PushTrade(first);
    assert Trim([first], 0) == [first];
    candle.PushTrade(second);
    OnlyLastStays([first], second);
    CountIs([first, second], TradeTime, 0, 1);
    start, trades := candle.startTime, candle.trades;
  }

  /** What the window is, trade by trade: every trade after its start is there in its place from the end,
      and the last trade at or before the start prices the entry before them, and gives it its volume only
      if it fell exactly on the start. */
  lemma WindowMeaning(h: seq<Trade>, start: int, i: nat)
    requires h != [] && h[0].time <= start && Ordered(h) && i < |h|
    ensures var w := Window(h, start);
            && |w| <= |h|
            && (start < h[i].time ==> |h| - i < |w| && w[|w| - (|h| - i)] == h[i])
            && (h[i].time <= start && (i == |h| - 1 || start < h[i + 1].time) ==>
                  && |w| == |h| - i && w[0].price == h[i].price
                  && w[0].volume == (if h[i].time == start then h[i].volume else 0.0))
  {
    CountPositive(h, TradeTime, start);
    CountMeaning(h, TradeTime, start);
    var k := CountUpTo(h, TradeTime, start);
    assert start < h[i].time ==> k <= i;
  }
}
