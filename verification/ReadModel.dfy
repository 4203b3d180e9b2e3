/**
 The two consumers of published events: the core's read-model (crates/core/src/state.rs) and the
 terminal's feed (crates/terminal/src/feed.rs), with what their charts hold.
 */
module ReadModel {
  import opened Base
  import opened Ids
  import opened Market
  import opened Replica
  import opened Candles

  const HISTORY: nat := 600
  const CANDLE_DEPTH: nat := 900

  // Replace the matching bar, ignore an older one, or append and keep the newest `depth`.
  function FoldBar(series: seq<Candle>, c: Candle, depth: nat): seq<Candle> {
    if series != [] && Last(series).openTime == c.openTime then SetLast(series, c)
    else if series != [] && Last(series).openTime > c.openTime then series
    else LastN(series + [c], depth)
  }

  function FoldBars(series: seq<Candle>, cs: seq<Candle>, depth: nat): seq<Candle> {
    if cs == [] then series else FoldBar(FoldBars(series, cs[..|cs| - 1], depth), Last(cs), depth)
  }

  function Chart(charts: map<Symbol, seq<Candle>>, k: Symbol): seq<Candle> {
    if k in charts then charts[k] else []
  }

  function FoldCharts(charts: map<Symbol, seq<Candle>>, e: Event, depth: nat): map<Symbol, seq<Candle>> {
    if e.CandleBar? then charts[e.candle.symbol := FoldBar(Chart(charts, e.candle.symbol), e.candle, depth)] else charts
  }

  method FoldCandle(charts: map<Symbol, seq<Candle>>, c: Candle, depth: nat) returns (charts': map<Symbol, seq<Candle>>)
    ensures charts' == FoldCharts(charts, CandleBar(c), depth)
  {
    var series := if c.symbol in charts then charts[c.symbol] else [];
    var n := |series|;
    if n > 0 && series[n - 1].openTime == c.openTime {
      series := series[n - 1 := c];
    } else if n > 0 && series[n - 1].openTime > c.openTime {
    } else {
      series := series + [c];
      series := Truncate(series, depth);
    }
    charts' := charts[c.symbol := series];
  }

  method FoldBook(books: map<Symbol, Book>, e: Event) returns (books': map<Symbol, Book>)
    ensures books' == FoldBooks(books, e)
  {
    books' := books;
    match e {
      case BookSnapshot(snapshot) =>
        if snapshot.symbol.Some? {
          books' := books'[snapshot.symbol.value := snapshot];
        }
      case BookDelta(delta) =>
        if delta.symbol in books' {
          var book := new OrderBook(books'[delta.symbol]);
          var outcome := book.Apply(delta);
          books' := if outcome.Gap? then books' - {delta.symbol} else books'[delta.symbol := book.View()];
        }
      case CandleBar(_) =>
      case Resyncing(_) =>
    }
  }

  class MarketState {
    var books: map<Symbol, Book>
    var candles: map<Symbol, seq<Candle>>

    constructor ()
      ensures books == map[] && candles == map[]
    {
      books, candles := map[], map[];
    }

    method Apply(e: Event)
      modifies this
      ensures books == FoldBooks(old(books), e)
      ensures candles == FoldCharts(old(candles), e, HISTORY)
    {
      if e.CandleBar? {
        candles := FoldCandle(candles, e.candle, HISTORY);
        return;
      }
      books := FoldBook(books, e);
    }
  }

  class Feed {
    var books: map<Symbol, Book>
    var candles: map<Symbol, seq<Candle>>

    constructor ()
      ensures books == map[] && candles == map[]
    {
      books, candles := map[], map[];
    }

    method Apply(e: Event)
      modifies this
      ensures books == FoldBooks(old(books), e)
      ensures candles == FoldCharts(old(candles), e, CANDLE_DEPTH)
    {
      books := FoldBook(books, e);
      if e.CandleBar? {
        candles := FoldCandle(candles, e.candle, CANDLE_DEPTH);
      }
    }

    // After a lost connection the books start over; charts are kept.
    method Disconnected()
      modifies this
      ensures books == map[] && candles == old(candles)
    {
      books := map[];
    }
  }

  // ---------------------------------------------------------------- the chart follows the series

  // What the connector publishes for one update: at a boundary the finished bar, then the new one.
  function Emitted(u: Update): seq<Candle> {
    match u
    case Formed(c) => [c]
    case Closed(closed, started) => [closed, started]
    case Ignored => []
  }

  // Everything published about one symbol, by a connector that keeps `capacity` bars of it.
  function Published(ts: seq<Trade>, b: Bucketing, capacity: nat): seq<Candle>
    requires Sane(b)
  {
    if ts == [] then []
    else
      var before := ts[..|ts| - 1];
      Published(before, b, capacity) + Emitted(Folded(Series(before, b, capacity), Last(ts), b, capacity).1)
  }

  lemma SeriesOneMore(ts: seq<Trade>, t: Trade, b: Bucketing, capacity: nat)
    requires Sane(b)
    ensures Series(ts + [t], b, capacity) == Folded(Series(ts, b, capacity), t, b, capacity).0
    ensures Published(ts + [t], b, capacity) ==
            Published(ts, b, capacity) + Emitted(Folded(Series(ts, b, capacity), t, b, capacity).1)
  {
    assert (ts + [t])[..|ts|] == ts;
  }

  lemma {:induction false} FoldBarsConcat(series: seq<Candle>, x: seq<Candle>, y: seq<Candle>, depth: nat)
    ensures FoldBars(series, x + y, depth) == FoldBars(FoldBars(series, x, depth), y, depth)
    decreases |y|
  {
    if y == [] {
      assert x + y == x;
    } else {
      FoldBarsConcat(series, x, y[..|y| - 1], depth);
      assert (x + y)[..|x + y| - 1] == x + y[..|y| - 1];
    }
  }

  lemma FoldOne(series: seq<Candle>, c: Candle, depth: nat)
    ensures FoldBars(series, [c], depth) == FoldBar(series, c, depth)
  {
    assert [c][..0] == [];
  }

  lemma FoldTwo(series: seq<Candle>, c: Candle, d: Candle, depth: nat)
    ensures FoldBars(series, [c, d], depth) == FoldBar(FoldBar(series, c, depth), d, depth)
  {
    assert [c, d][..1] == [c];
    FoldOne(series, c, depth);
  }

  // What one print does to the full series: the newest bar changes in place, or is closed and a
  // bar is started after it, or nothing happens.
  lemma FoldedShape(full: seq<Candle>, t: Trade, b: Bucketing)
    requires Sane(b)
    ensures var (all, u) := Folded(full, t, b, |full| + 1); Shape(full, u, all)
  {
  }

  ghost predicate Shape(full: seq<Candle>, u: Update, all: seq<Candle>) {
    match u
    case Formed(c) =>
      if full == [] then all == [c] else all == SetLast(full, c) && c.openTime == Last(full).openTime
    case Closed(closed, started) =>
      full != [] && closed.openTime == Last(full).openTime && all == SetLast(full, closed) + [started]
    case Ignored => all == full
  }

  // Redrawing the newest bar.
  lemma RedrawFollows(full: seq<Candle>, c: Candle, depth: nat)
    requires 1 <= depth && full != [] && c.openTime == Last(full).openTime
    ensures FoldBar(LastN(full, depth), c, depth) == LastN(SetLast(full, c), depth)
  {
    LastNReplace(full, c, depth);
  }

  // Starting a later one.
  lemma StartFollows(full: seq<Candle>, c: Candle, depth: nat)
    requires 1 <= depth && (full != [] ==> Last(full).openTime < c.openTime)
    ensures FoldBar(LastN(full, depth), c, depth) == LastN(full + [c], depth)
  {
    if full != [] {
      LastNReplace(full, c, depth);
    }
    LastNPush(full, c, depth);
  }

  lemma UpdateFollows(full: seq<Candle>, u: Update, all: seq<Candle>, depth: nat)
    requires 1 <= depth && Shape(full, u, all) && (u.Closed? ==> u.closed.openTime < u.started.openTime)
    ensures FoldBars(LastN(full, depth), Emitted(u), depth) == LastN(all, depth)
  {
    var s := LastN(full, depth);
    match u {
      case Formed(c) =>
        FoldOne(s, c, depth);
        if full == [] {
          StartFollows(full, c, depth);
        } else {
          RedrawFollows(full, c, depth);
        }
      case Closed(closed, started) =>
        FoldTwo(s, closed, started, depth);
        RedrawFollows(full, closed, depth);
        StartFollows(SetLast(full, closed), started, depth);
      case Ignored =>
    }
  }

  lemma SameOpensRise(a: seq<Candle>, b: seq<Candle>)
    requires RisingOpens(a) && |b| <= |a| && (forall i :: 0 <= i < |b| ==> b[i].openTime == a[i].openTime)
    ensures RisingOpens(b)
  {
  }

  // Rising open times carry over to every earlier moment of the series.
  lemma RisingBefore(full: seq<Candle>, u: Update, all: seq<Candle>)
    requires Shape(full, u, all) && RisingOpens(all)
    ensures RisingOpens(full) && (u.Closed? ==> u.closed.openTime < u.started.openTime)
  {
    SameOpensRise(all, full);
    if u.Closed? {
      assert all[|full| - 1] == u.closed && all[|full|] == u.started;
    }
  }

  // What is published does not depend on how many bars are kept.
  lemma SameUpdate(ts: seq<Trade>, t: Trade, b: Bucketing, capacity: nat)
    requires Sane(b) && 1 <= capacity
    ensures Folded(Series(ts, b, capacity), t, b, capacity).1 == Folded(Full(ts, b), t, b, |Full(ts, b)| + 1).1
  {
    SeriesIsTruncated(ts, b, capacity);
    SameUpdateOf(Full(ts, b), Series(ts, b, capacity), t, b, capacity);
  }

  lemma SameUpdateOf(full: seq<Candle>, kept: seq<Candle>, t: Trade, b: Bucketing, capacity: nat)
    requires Sane(b) && 1 <= capacity && kept == LastN(full, capacity)
    ensures Folded(kept, t, b, capacity).1 == Folded(full, t, b, |full| + 1).1
  {
    FoldedTruncates(full, t, b, capacity);
  }

  lemma FullOneMore(ts: seq<Trade>, t: Trade, b: Bucketing)
    requires Sane(b)
    ensures Full(ts + [t], b) == Folded(Full(ts, b), t, b, |Full(ts, b)| + 1).0
  {
    assert (ts + [t])[..|ts|] == ts;
  }

  // One print more: what it publishes, and what it does to the full series.
  lemma OnePrint(ts: seq<Trade>, t: Trade, b: Bucketing, capacity: nat) returns (u: Update)
    requires Sane(b) && 1 <= capacity
    ensures Published(ts + [t], b, capacity) == Published(ts, b, capacity) + Emitted(u)
    ensures Shape(Full(ts, b), u, Full(ts + [t], b))
  {
    u := Folded(Full(ts, b), t, b, |Full(ts, b)| + 1).1;
    SeriesOneMore(ts, t, b, capacity);
    SameUpdate(ts, t, b, capacity);
    FullOneMore(ts, t, b);
    FoldedShape(Full(ts, b), t, b);
  }

  lemma {:induction false} ChartFollows(ts: seq<Trade>, b: Bucketing, capacity: nat, depth: nat)
    requires Sane(b) && 1 <= capacity && 1 <= depth && RisingOpens(Full(ts, b))
    ensures FoldBars([], Published(ts, b, capacity), depth) == LastN(Full(ts, b), depth)
  {
    if ts != [] {
      var before, t := ts[..|ts| - 1], Last(ts);
      assert ts == before + [t];
      var u := OnePrint(before, t, b, capacity);
      RisingBefore(Full(before, b), u, Full(ts, b));
      ChartFollows(before, b, capacity, depth);
      UpdateFollows(Full(before, b), u, Full(ts, b), depth);
      FoldBarsConcat([], Published(before, b, capacity), Emitted(u), depth);
    }
  }

  // The core's chart is the newest part of the connector's own bounded series.
  lemma ChartShowsSeries(ts: seq<Trade>, b: Bucketing)
    requires Sane(b) && RisingOpens(Full(ts, b))
    ensures FoldBars([], Published(ts, b, DEFAULT_CAPACITY), HISTORY) == LastN(Series(ts, b, DEFAULT_CAPACITY), HISTORY)
  {
    ChartFollows(ts, b, DEFAULT_CAPACITY, HISTORY);
    SeriesIsTruncated(ts, b, DEFAULT_CAPACITY);
    LastNTwice(Full(ts, b), HISTORY, DEFAULT_CAPACITY);
  }

  // For time bars no hypothesis is needed.
  lemma TimeChartFollows(ts: seq<Trade>, ms: int, capacity: nat, depth: nat)
    requires 1 <= ms && 1 <= capacity && 1 <= depth
    ensures FoldBars([], Published(ts, Time(ms), capacity), depth) == LastN(Full(ts, Time(ms)), depth)
  {
    var bars, groups := TimesAreBuckets(ts, ms);
    ChartFollows(ts, Time(ms), capacity, depth);
  }

  // Only starting a bar no later than the newest can break the order.
  lemma StaysRising(full: seq<Candle>, u: Update, all: seq<Candle>)
    requires RisingOpens(full) && Shape(full, u, all) && (u.Closed? ==> u.closed.openTime < u.started.openTime)
    ensures RisingOpens(all)
  {
    match u {
      case Formed(c) => if full != [] { SameOpensRise(full, all); }
      case Closed(closed, started) =>
        SameOpensRise(full, SetLast(full, closed));
        RisingAppends(SetLast(full, closed), started);
      case Ignored =>
    }
  }

  // Such a bar is ignored or overwrites the one before it, and the chart is short of a bar.
  lemma CollisionDiffers(bars: seq<Candle>, c: Candle, depth: nat)
    requires 2 <= depth && RisingOpens(bars) && bars != [] && c.openTime <= Last(bars).openTime
    ensures FoldBar(LastN(bars, depth), c, depth) != LastN(bars + [c], depth)
  {
    var n, s := |bars|, LastN(bars, depth);
    LastNReplace(bars, c, depth);
    var shown := if Last(bars).openTime == c.openTime then SetLast(s, c) else s;
    assert shown == FoldBar(s, c, depth);
    if n >= depth {
      assert shown[depth - 2] == s[depth - 2] == bars[n - 2];
      assert bars[n - 2].openTime < bars[n - 1].openTime;
      SecondNewest(bars, c, depth);
    }
  }

  lemma SecondNewest(bars: seq<Candle>, c: Candle, depth: nat)
    requires 2 <= depth <= |bars|
    ensures |LastN(bars + [c], depth)| == depth && LastN(bars + [c], depth)[depth - 2] == Last(bars)
  {
  }

  lemma CollisionShows(full: seq<Candle>, u: Update, all: seq<Candle>, depth: nat)
    requires 2 <= depth && RisingOpens(full) && Shape(full, u, all) && !RisingOpens(all)
    ensures FoldBars(LastN(full, depth), Emitted(u), depth) != LastN(all, depth)
  {
    if !u.Closed? || u.closed.openTime < u.started.openTime {
      StaysRising(full, u, all);
      assert false;
    } else {
      FoldTwo(LastN(full, depth), u.closed, u.started, depth);
      RedrawFollows(full, u.closed, depth);
      SameOpensRise(full, SetLast(full, u.closed));
      CollisionDiffers(SetLast(full, u.closed), u.started, depth);
    }
  }

  // The chart shows the newest bars of the series after each of the prints.
  ghost predicate ShowsNewest(ts: seq<Trade>, b: Bucketing, capacity: nat, depth: nat)
    requires Sane(b)
  {
    FoldBars([], Published(ts, b, capacity), depth) == LastN(Full(ts, b), depth)
  }

  ghost predicate AlwaysShowsNewest(ts: seq<Trade>, b: Bucketing, capacity: nat, depth: nat)
    requires Sane(b)
  {
    forall m :: 0 <= m <= |ts| ==> ShowsNewest(ts[..m], b, capacity, depth)
  }

  // The chart shows the newest bars of the series at every moment if and only if bars open at
  // strictly increasing times.
  lemma ChartFollowsExactlyWhenRising(ts: seq<Trade>, b: Bucketing, capacity: nat, depth: nat)
    requires Sane(b) && 1 <= capacity && 2 <= depth
    ensures AlwaysShowsNewest(ts, b, capacity, depth) <==> RisingOpens(Full(ts, b))
  {
    if RisingOpens(Full(ts, b)) {
      RisingShows(ts, b, capacity, depth);
    } else {
      var m := CollisionShowsOnce(ts, b, capacity, depth);
    }
  }

  lemma CollisionShowsOnce(ts: seq<Trade>, b: Bucketing, capacity: nat, depth: nat) returns (m: nat)
    requires Sane(b) && 1 <= capacity && 2 <= depth && !RisingOpens(Full(ts, b))
    ensures m <= |ts| && !ShowsNewest(ts[..m], b, capacity, depth)
  {
    var before, t := FirstCollision(ts, b);
    FirstCollisionShows(before, t, b, capacity, depth);
    m := |before| + 1;
    assert ts[..m] == before + [t];
  }

  lemma RisingShows(ts: seq<Trade>, b: Bucketing, capacity: nat, depth: nat)
    requires Sane(b) && 1 <= capacity && 1 <= depth && RisingOpens(Full(ts, b))
    ensures AlwaysShowsNewest(ts, b, capacity, depth)
  {
    forall m | 0 <= m <= |ts|
      ensures ShowsNewest(ts[..m], b, capacity, depth)
    {
      RisingThroughout(ts, b, m);
      ChartFollows(ts[..m], b, capacity, depth);
    }
  }

  lemma FirstCollisionShows(ts: seq<Trade>, t: Trade, b: Bucketing, capacity: nat, depth: nat)
    requires Sane(b) && 1 <= capacity && 2 <= depth
    requires RisingOpens(Full(ts, b)) && !RisingOpens(Full(ts + [t], b))
    ensures !ShowsNewest(ts + [t], b, capacity, depth)
  {
    var u := OnePrint(ts, t, b, capacity);
    ChartFollows(ts, b, capacity, depth);
    CollisionShows(Full(ts, b), u, Full(ts + [t], b), depth);
    FoldBarsConcat([], Published(ts, b, capacity), Emitted(u), depth);
  }

  // For the connector's tick bars that is a condition on the tape: the prints that start the bars,
  // one in every `count`, come at strictly increasing times.
  lemma TickChartFollowsExactlyWhen(ts: seq<Trade>, count: u32, capacity: nat, depth: nat)
    requires 1 <= count && 1 <= capacity && 2 <= depth
    ensures AlwaysShowsNewest(ts, Ticks(count), capacity, depth) <==> OpenersRise(ts, count)
  {
    ChartFollowsExactlyWhenRising(ts, Ticks(count), capacity, depth);
    TickOpensRise(ts, count);
  }

  // `count + 1` prints in one millisecond make two bars, of which the chart shows one.
  lemma SameMillisecondLosesABar(t: Trade, count: u32, capacity: nat, depth: nat)
    requires 1 <= count && 1 <= capacity && 1 <= depth
    ensures var ts := seq(count, _ => t) + [t];
            |Full(ts, Ticks(count))| == 2 && |FoldBars([], Published(ts, Ticks(count), capacity), depth)| == 1
  {
    var b, before := Ticks(count), seq(count, _ => t);
    var full, all := Full(before, b), Full(before + [t], b);
    TickOpens(before, count, 0);
    TickOpens(before, count, 1);
    TickOpens(before + [t], count, 0);
    TickOpens(before + [t], count, 1);
    TickOpens(before + [t], count, 2);
    ChartFollows(before, b, capacity, depth);
    var u := OnePrint(before, t, b, capacity);
    FoldBarsConcat([], Published(before, b, capacity), Emitted(u), depth);
    TwoBecomeOne(full, u, all, depth);
  }

  lemma TwoBecomeOne(full: seq<Candle>, u: Update, all: seq<Candle>, depth: nat)
    requires |full| == 1 && |all| == 2 && Shape(full, u, all) && all[1].openTime == full[0].openTime && 1 <= depth
    ensures |FoldBars(LastN(full, depth), Emitted(u), depth)| == 1
  {
    FoldTwo(full, u.closed, u.started, depth);
  }

  lemma {:induction false} RisingThroughout(ts: seq<Trade>, b: Bucketing, m: nat)
    requires Sane(b) && m <= |ts| && RisingOpens(Full(ts, b))
    ensures RisingOpens(Full(ts[..m], b))
  {
    if m == |ts| {
      assert ts[..m] == ts;
    } else {
      var n := |ts| - 1;
      assert ts == ts[..n] + [ts[n]];
      var u := OnePrint(ts[..n], ts[n], b, 1);
      RisingBefore(Full(ts[..n], b), u, Full(ts, b));
      RisingThroughout(ts[..n], b, m);
      PrefixOfPrefix(ts, n, m);
    }
  }

  lemma {:induction false} FirstCollision(ts: seq<Trade>, b: Bucketing) returns (before: seq<Trade>, t: Trade)
    requires Sane(b) && !RisingOpens(Full(ts, b))
    ensures before + [t] <= ts && RisingOpens(Full(before, b)) && !RisingOpens(Full(before + [t], b))
  {
    if RisingOpens(Full(ts[..|ts| - 1], b)) {
      before, t := ts[..|ts| - 1], Last(ts);
      assert ts == before + [t];
    } else {
      before, t := FirstCollision(ts[..|ts| - 1], b);
    }
  }

  lemma PrefixOfPrefix(ts: seq<Trade>, n: nat, m: nat)
    requires m <= n <= |ts|
    ensures ts[..n][..m] == ts[..m]
  {
  }

  // ---------------------------------------------------------------- all symbols at once

  function FoldAllCharts(charts: map<Symbol, seq<Candle>>, events: seq<Event>, depth: nat): map<Symbol, seq<Candle>> {
    if events == [] then charts
    else FoldCharts(FoldAllCharts(charts, events[..|events| - 1], depth), Last(events), depth)
  }

  // The bars of one symbol among the events.
  function BarsOf(events: seq<Event>, k: Symbol): seq<Candle> {
    if events == [] then []
    else
      var e := Last(events);
      BarsOf(events[..|events| - 1], k) + if e.CandleBar? && e.candle.symbol == k then [e.candle] else []
  }

  // Folding everything keeps, for each symbol, the fold of its own bars.
  lemma {:induction false} ChartsByKey(charts: map<Symbol, seq<Candle>>, events: seq<Event>, depth: nat, k: Symbol)
    ensures Chart(FoldAllCharts(charts, events, depth), k) == FoldBars(Chart(charts, k), BarsOf(events, k), depth)
  {
    if events != [] {
      var rest, e := events[..|events| - 1], Last(events);
      ChartsByKey(charts, rest, depth, k);
      var bars := BarsOf(rest, k);
      if e.CandleBar? && e.candle.symbol == k {
        assert (bars + [e.candle])[..|bars|] == bars;
      } else {
        assert bars + [] == bars;
      }
    }
  }

  // The connector's series of all symbols, and everything it has published about them.
  datatype Tape = Tape(series: map<Symbol, seq<Candle>>, sent: seq<Event>)

  function BarEvents(cs: seq<Candle>): seq<Event> {
    if cs == [] then [] else BarEvents(cs[..|cs| - 1]) + [CandleBar(Last(cs))]
  }

  lemma OneBarEvent(c: Candle)
    ensures BarEvents([c]) == [CandleBar(c)]
  {
    assert [c][..0] == [];
  }

  lemma TwoBarEvents(c: Candle, d: Candle)
    ensures BarEvents([c, d]) == [CandleBar(c), CandleBar(d)]
  {
    assert [c, d][..1] == [c];
    OneBarEvent(c);
  }

  function Printed(tape: Tape, t: Trade, b: Bucketing, capacity: nat): Tape
    requires Sane(b)
  {
    var (bars, u) := Folded(Chart(tape.series, t.symbol), t, b, capacity);
    Tape(tape.series[t.symbol := bars], tape.sent + BarEvents(Emitted(u)))
  }

  function Play(ts: seq<Trade>, b: Bucketing, capacity: nat): Tape
    requires Sane(b)
  {
    if ts == [] then Tape(map[], []) else Printed(Play(ts[..|ts| - 1], b, capacity), Last(ts), b, capacity)
  }

  class Printer {
    const candles: CandleSet
    var sent: seq<Event>

    function View(): Tape
      reads this, candles
    {
      Tape(candles.series, sent)
    }

    constructor (candles: CandleSet)
      ensures this.candles == candles && sent == []
    {
      this.candles, sent := candles, [];
    }

    // At a boundary the closed bar goes out before the one just started.
    method OnPrint(t: Trade)
      requires Sane(candles.bucketing)
      modifies this, candles
      ensures View() == Printed(old(View()), t, candles.bucketing, candles.capacity)
    {
      var update := candles.OnTrade(t);
      match update {
        case Formed(candle) =>
          OneBarEvent(candle);
          sent := sent + [CandleBar(candle)];
        case Closed(closed, started) =>
          TwoBarEvents(closed, started);
          sent := sent + [CandleBar(closed), CandleBar(started)];
        case Ignored =>
      }
    }
  }

  function TradesOf(ts: seq<Trade>, k: Symbol): seq<Trade> {
    if ts == [] then []
    else TradesOf(ts[..|ts| - 1], k) + if Last(ts).symbol == k then [Last(ts)] else []
  }

  ghost predicate AllOf(bars: seq<Candle>, k: Symbol) {
    forall i :: 0 <= i < |bars| ==> bars[i].symbol == k
  }

  // A print of `k` touches bars of `k` only.
  lemma PrintStaysWithin(bars: seq<Candle>, t: Trade, b: Bucketing, capacity: nat)
    requires Sane(b) && AllOf(bars, t.symbol)
    ensures AllOf(Folded(bars, t, b, capacity).0, t.symbol)
    ensures AllOf(Emitted(Folded(bars, t, b, capacity).1), t.symbol)
  {
    match b {
      case Time(ms) => RollStaysWithin(bars, t, Bucket(t.ts, ms), b, capacity);
      case Ticks(count) => RollStaysWithin(bars, t, t.ts, b, capacity);
    }
  }

  lemma RollStaysWithin(bars: seq<Candle>, t: Trade, openTime: int, b: Bucketing, capacity: nat)
    requires AllOf(bars, t.symbol)
    ensures AllOf(Rolled(bars, t, openTime, b, capacity).0, t.symbol)
    ensures AllOf(Emitted(Rolled(bars, t, openTime, b, capacity).1), t.symbol)
  {
    var started := Started(t, openTime, b);
    if bars == [] {
      NewestStayWithin([started], t.symbol, capacity);
    } else {
      NewestStayWithin(SetLast(bars, Last(bars).(closed := true)) + [started], t.symbol, capacity);
    }
  }

  lemma NewestStayWithin(bars: seq<Candle>, k: Symbol, n: nat)
    requires AllOf(bars, k)
    ensures AllOf(LastN(bars, n), k)
  {
  }

  lemma {:induction false} SeriesStaysWithin(ts: seq<Trade>, b: Bucketing, capacity: nat, k: Symbol)
    requires Sane(b)
    ensures AllOf(Series(TradesOf(ts, k), b, capacity), k)
  {
    if ts != [] {
      var rest := ts[..|ts| - 1];
      SeriesStaysWithin(rest, b, capacity, k);
      if Last(ts).symbol == k {
        SeriesOneMore(TradesOf(rest, k), Last(ts), b, capacity);
        PrintStaysWithin(Series(TradesOf(rest, k), b, capacity), Last(ts), b, capacity);
      } else {
        assert TradesOf(rest, k) + [] == TradesOf(rest, k);
      }
    }
  }

  lemma BarsOneMore(events: seq<Event>, e: Event, k: Symbol)
    ensures BarsOf(events + [e], k) ==
            BarsOf(events, k) + if e.CandleBar? && e.candle.symbol == k then [e.candle] else []
  {
    assert (events + [e])[..|events|] == events;
  }

  lemma {:induction false} OwnBarEvents(sent: seq<Event>, cs: seq<Candle>, k: Symbol)
    requires AllOf(cs, k)
    ensures BarsOf(sent + BarEvents(cs), k) == BarsOf(sent, k) + cs
  {
    if cs == [] {
      assert sent + BarEvents(cs) == sent && BarsOf(sent, k) + [] == BarsOf(sent, k);
    } else {
      var rest, c := cs[..|cs| - 1], Last(cs);
      OwnBarEvents(sent, rest, k);
      BarsOneMore(sent + BarEvents(rest), CandleBar(c), k);
      assert sent + BarEvents(cs) == (sent + BarEvents(rest)) + [CandleBar(c)];
      assert BarsOf(sent, k) + cs == (BarsOf(sent, k) + rest) + [c];
    }
  }

  lemma {:induction false} OtherBarEvents(sent: seq<Event>, cs: seq<Candle>, s: Symbol, k: Symbol)
    requires AllOf(cs, s) && s != k
    ensures BarsOf(sent + BarEvents(cs), k) == BarsOf(sent, k)
  {
    if cs == [] {
      assert sent + BarEvents(cs) == sent;
    } else {
      var rest, c := cs[..|cs| - 1], Last(cs);
      OtherBarEvents(sent, rest, s, k);
      BarsOneMore(sent + BarEvents(rest), CandleBar(c), k);
      assert sent + BarEvents(cs) == (sent + BarEvents(rest)) + [CandleBar(c)];
      assert BarsOf(sent, k) + [] == BarsOf(sent, k);
    }
  }

  // What a symbol sees of the whole tape is its own prints.
  lemma {:induction false} TapeByKey(ts: seq<Trade>, b: Bucketing, capacity: nat, k: Symbol)
    requires Sane(b)
    ensures Chart(Play(ts, b, capacity).series, k) == Series(TradesOf(ts, k), b, capacity)
    ensures BarsOf(Play(ts, b, capacity).sent, k) == Published(TradesOf(ts, k), b, capacity)
  {
    if ts != [] {
      var rest, t := ts[..|ts| - 1], Last(ts);
      var tape := Play(rest, b, capacity);
      TapeByKey(rest, b, capacity, k);
      TapeByKey(rest, b, capacity, t.symbol);
      SeriesStaysWithin(rest, b, capacity, t.symbol);
      var (bars, u) := Folded(Chart(tape.series, t.symbol), t, b, capacity);
      PrintStaysWithin(Chart(tape.series, t.symbol), t, b, capacity);
      if t.symbol == k {
        OwnBarEvents(tape.sent, Emitted(u), k);
        SeriesOneMore(TradesOf(rest, k), t, b, capacity);
      } else {
        OtherBarEvents(tape.sent, Emitted(u), t.symbol, k);
        assert TradesOf(rest, k) + [] == TradesOf(rest, k);
      }
    }
  }

  // End to end: a core that folds everything the connector publishes about all symbols shows, for
  // each symbol whose bars open at strictly increasing times, the newest 600 bars of the connector's
  // own series.
  lemma CoreShowsConnector(ts: seq<Trade>, b: Bucketing, k: Symbol)
    requires Sane(b) && RisingOpens(Full(TradesOf(ts, k), b))
    ensures var tape := Play(ts, b, DEFAULT_CAPACITY);
            Chart(FoldAllCharts(map[], tape.sent, HISTORY), k) == LastN(Chart(tape.series, k), HISTORY)
  {
    var tape := Play(ts, b, DEFAULT_CAPACITY);
    TapeByKey(ts, b, DEFAULT_CAPACITY, k);
    ChartsByKey(map[], tape.sent, HISTORY, k);
    ChartShowsSeries(TradesOf(ts, k), b);
  }

  // ---------------------------------------------------------------- late charts

  // The last of `cs` that opens at `openTime`.
  ghost function LastAt(cs: seq<Candle>, openTime: int): (r: Option<Candle>)
    ensures r.Some? ==> r.value.openTime == openTime && r.value in cs
  {
    if cs == [] then None
    else if Last(cs).openTime == openTime then Some(Last(cs))
    else LastAt(cs[..|cs| - 1], openTime)
  }

  ghost predicate NoneLater(cs: seq<Candle>, openTime: int) {
    forall i :: 0 <= i < |cs| ==> cs[i].openTime <= openTime
  }

  // After a fold the newest bar opens no earlier than anything folded, and is the last word on its
  // open time.
  lemma {:induction false} NewestAfterFold(series: seq<Candle>, cs: seq<Candle>, depth: nat)
    requires 1 <= depth && cs != []
    ensures var s := FoldBars(series, cs, depth);
            && s != [] && NoneLater(cs, Last(s).openTime)
            && (LastAt(cs, Last(s).openTime).Some? ==> LastAt(cs, Last(s).openTime) == Some(Last(s)))
  {
    var n := |cs| - 1;
    var c := cs[n];
    var s := FoldBars(series, cs, depth);
    if n > 0 {
      NewestAfterFold(series, cs[..n], depth);
      var before := FoldBars(series, cs[..n], depth);
      assert forall i :: 0 <= i < n ==> cs[i] == cs[..n][i];
      if Last(before).openTime < c.openTime {
        NotThere(cs[..n], Last(before).openTime, c.openTime);
      }
    } else {
      assert cs[..0] == [];
    }
  }

  lemma {:induction false} NotThere(cs: seq<Candle>, bound: int, openTime: int)
    requires NoneLater(cs, bound) && bound < openTime
    ensures LastAt(cs, openTime) == None
  {
    if cs != [] {
      NotThere(cs[..|cs| - 1], bound, openTime);
    }
  }

  // Folding bars none of which opens later than the newest only rewrites the newest.
  lemma {:induction false} RefoldRewritesNewest(series: seq<Candle>, cs: seq<Candle>, depth: nat)
    requires series != [] && NoneLater(cs, Last(series).openTime)
    ensures FoldBars(series, cs, depth) ==
            match LastAt(cs, Last(series).openTime) case None => series case Some(c) => SetLast(series, c)
  {
    if cs != [] {
      RefoldRewritesNewest(series, cs[..|cs| - 1], depth);
    }
  }

  // Replaying any stretch of candle events over the series they led to changes nothing, whatever
  // the events, the series before them and the two depths.
  lemma ChartReplayIsIdempotent(series: seq<Candle>, cs: seq<Candle>, depth: nat, depth': nat)
    requires 1 <= depth
    ensures FoldBars(FoldBars(series, cs, depth), cs, depth') == FoldBars(series, cs, depth)
  {
    if cs != [] {
      var s := FoldBars(series, cs, depth);
      NewestAfterFold(series, cs, depth);
      RefoldRewritesNewest(s, cs, depth');
      if LastAt(cs, Last(s).openTime).Some? {
        assert SetLast(s, Last(s)) == s;
      }
    }
  }

  lemma {:induction false} FoldedRises(cs: seq<Candle>, depth: nat)
    requires 1 <= depth
    ensures RisingOpens(FoldBars([], cs, depth)) && |FoldBars([], cs, depth)| <= depth
  {
    if cs != [] {
      FoldedRises(cs[..|cs| - 1], depth);
      var s := FoldBars([], cs[..|cs| - 1], depth);
      if s == [] || Last(s).openTime < Last(cs).openTime {
        RisingAppends(s, Last(cs));
      }
    }
  }

  // A deeper chart keeps agreeing with a shallower one.
  lemma DeeperStep(d: seq<Candle>, c: Candle, depth: nat, deeper: nat)
    requires 1 <= depth <= deeper
    ensures LastN(FoldBar(d, c, deeper), depth) == FoldBar(LastN(d, depth), c, depth)
  {
    if d != [] && Last(d).openTime == c.openTime {
      RedrawFollows(d, c, depth);
    } else if d != [] && Last(d).openTime > c.openTime {
      LastNReplace(d, c, depth);
    } else {
      StartFollows(d, c, depth);
      LastNTwice(d + [c], depth, deeper);
    }
  }

  lemma {:induction false} DeeperAgrees(t: seq<Candle>, cs: seq<Candle>, depth: nat, deeper: nat)
    requires 1 <= depth <= deeper
    ensures LastN(FoldBars(t, cs, deeper), depth) == FoldBars(LastN(t, depth), cs, depth)
  {
    if cs != [] {
      var n := |cs| - 1;
      DeeperAgrees(t, cs[..n], depth, deeper);
      DeeperStep(FoldBars(t, cs[..n], deeper), cs[n], depth, deeper);
    }
  }

  lemma LastNTwice(s: seq<Candle>, n: nat, m: nat)
    requires n <= m
    ensures LastN(LastN(s, m), n) == LastN(s, n)
  {
  }

  // Bars that all open later than a chart's newest are appended as they come.
  lemma {:induction false} LaterAreAppended(h: seq<Candle>, w: seq<Candle>, depth: nat)
    requires 1 <= depth && |h| <= depth && RisingOpens(w)
    requires h != [] && w != [] ==> Last(h).openTime < w[0].openTime
    ensures FoldBars(h, w, depth) == LastN(h + w, depth)
  {
    if w == [] {
      assert h + w == h;
    } else {
      var rest, c := w[..|w| - 1], Last(w);
      SplitLast(h, w, rest, c);
      FrontRises(w);
      LaterAreAppended(h, rest, depth);
      LaterThanAll(h, w);
      OneMoreAppended(h, rest, c, depth);
    }
  }

  lemma SplitLast(h: seq<Candle>, w: seq<Candle>, rest: seq<Candle>, c: Candle)
    requires w != [] && rest == w[..|w| - 1] && c == Last(w)
    ensures w == rest + [c] && h + w == (h + rest) + [c]
    ensures rest != [] ==> rest[0] == w[0]
  {
  }

  lemma FrontRises(w: seq<Candle>)
    requires RisingOpens(w) && w != []
    ensures RisingOpens(w[..|w| - 1])
  {
  }

  lemma LaterThanAll(h: seq<Candle>, w: seq<Candle>)
    requires RisingOpens(w) && w != [] && (h != [] ==> Last(h).openTime < w[0].openTime)
    ensures var before := h + w[..|w| - 1]; before != [] ==> Last(before).openTime < Last(w).openTime
  {
    var n := |w| - 1;
    if n > 0 {
      assert Last(h + w[..n]) == w[n - 1] && w[n - 1].openTime < w[n].openTime;
    } else {
      assert h + w[..n] == h;
    }
  }

  lemma OneMoreAppended(h: seq<Candle>, rest: seq<Candle>, c: Candle, depth: nat)
    requires 1 <= depth && (h + rest != [] ==> Last(h + rest).openTime < c.openTime)
    requires FoldBars(h, rest, depth) == LastN(h + rest, depth)
    ensures FoldBars(h, rest + [c], depth) == LastN((h + rest) + [c], depth)
  {
    FoldBarsConcat(h, rest, [c], depth);
    FoldOne(LastN(h + rest, depth), c, depth);
    StartFollows(h + rest, c, depth);
  }

  // As many later bars as the chart has room for leave nothing else in it.
  lemma LaterFillUp(h: seq<Candle>, w: seq<Candle>, depth: nat)
    requires 1 <= depth == |w| && |h| <= depth && RisingOpens(w) && (h != [] ==> Last(h).openTime < w[0].openTime)
    ensures FoldBars(h, w, depth) == w
  {
    LaterAreAppended(h, w, depth);
    assert LastN(h + w, depth) == w;
  }

  // Of one bar more than the chart has room for, the oldest makes no difference.
  lemma OldestDoesNotMatter(h: seq<Candle>, z: Candle, w: seq<Candle>, depth: nat)
    requires 1 <= depth == |w| && |h| <= depth && RisingOpens([z] + w)
    ensures FoldBars(h, [z] + w, depth) == FoldBars(h, w, depth)
  {
    TailRises(z, w);
    FoldBarsConcat(h, [z], w, depth);
    FoldOne(h, z, depth);
    if h == [] || Last(h).openTime <= z.openTime {
      FoldedBarIsLast(h, z, depth);
      LaterFillUp(h, w, depth);
      LaterFillUp(FoldBar(h, z, depth), w, depth);
    }
  }

  lemma TailRises(z: Candle, w: seq<Candle>)
    requires RisingOpens([z] + w)
    ensures RisingOpens(w) && (w != [] ==> z.openTime < w[0].openTime)
  {
    var all := [z] + w;
    assert forall i :: 0 <= i < |w| ==> w[i] == all[i + 1];
    assert w != [] ==> all[0].openTime < all[1].openTime;
  }

  lemma FoldedBarIsLast(h: seq<Candle>, z: Candle, depth: nat)
    requires 1 <= depth && |h| <= depth && (h == [] || Last(h).openTime <= z.openTime)
    ensures var s := FoldBar(h, z, depth); s != [] && |s| <= depth && Last(s) == z
  {
  }

  lemma {:induction false} FoldStaysRising(h: seq<Candle>, cs: seq<Candle>, depth: nat)
    requires 1 <= depth && RisingOpens(h) && |h| <= depth
    ensures RisingOpens(FoldBars(h, cs, depth)) && |FoldBars(h, cs, depth)| <= depth
  {
    if cs != [] {
      FoldStaysRising(h, cs[..|cs| - 1], depth);
      var s := FoldBars(h, cs[..|cs| - 1], depth);
      if s == [] || Last(s).openTime < Last(cs).openTime {
        RisingAppends(s, Last(cs));
      }
    }
  }

  // A history folded over itself is itself.
  lemma FoldedOverItself(h: seq<Candle>, depth: nat)
    requires RisingOpens(h)
    ensures FoldBars(h, h, depth) == h
  {
    if h != [] {
      RefoldRewritesNewest(h, h, depth);
      assert LastAt(h, Last(h).openTime) == Some(Last(h));
      assert SetLast(h, Last(h)) == h;
    }
  }

  // One bar more, on a later history whose refolding over the earlier one gives it back.
  lemma RefoldStep(h: seq<Candle>, x: seq<Candle>, c: Candle, depth: nat)
    requires 1 <= depth && |h| <= depth && RisingOpens(x) && |x| <= depth && (x == [] ==> h == [])
    requires FoldBars(h, x, depth) == x
    ensures FoldBars(h, FoldBar(x, c, depth), depth) == FoldBar(x, c, depth)
  {
    if x != [] && Last(x).openTime == c.openTime {
      var rest := x[..|x| - 1];
      assert SetLast(x, c)[..|x| - 1] == rest;
      RefoldRedraws(FoldBars(h, rest, depth), x, c, depth);
    } else if x == [] || Last(x).openTime < c.openTime {
      RefoldAppends(h, x, c, depth);
    }
  }

  lemma RefoldAppends(h: seq<Candle>, x: seq<Candle>, c: Candle, depth: nat)
    requires 1 <= depth && |h| <= depth && RisingOpens(x) && |x| <= depth
    requires FoldBars(h, x, depth) == x && (x != [] ==> Last(x).openTime < c.openTime)
    ensures FoldBars(h, LastN(x + [c], depth), depth) == LastN(x + [c], depth)
  {
    RisingAppends(x, c);
    FoldBarsConcat(h, x, [c], depth);
    FoldOne(x, c, depth);
    if |x| == depth {
      WithoutOldest(x, c);
      OldestDoesNotMatter(h, x[0], x[1..] + [c], depth);
    }
  }

  lemma WithoutOldest(x: seq<Candle>, c: Candle)
    requires x != []
    ensures x + [c] == [x[0]] + (x[1..] + [c]) && LastN(x + [c], |x|) == x[1..] + [c]
  {
  }

  lemma RefoldRedraws(y: seq<Candle>, x: seq<Candle>, c: Candle, depth: nat)
    requires 1 <= depth && x != [] && Last(x).openTime == c.openTime && FoldBar(y, Last(x), depth) == x
    ensures FoldBar(y, c, depth) == SetLast(x, c)
  {
    if y == [] || Last(y).openTime < Last(x).openTime {
      LastNReplace(y + [Last(x)], c, depth);
      assert SetLast(y + [Last(x)], c) == y + [c];
    }
  }

  // Folding a later history over an earlier one gives the later one.
  lemma {:induction false} LaterHistoryWins(h: seq<Candle>, cs: seq<Candle>, depth: nat)
    requires 1 <= depth && RisingOpens(h) && |h| <= depth
    ensures FoldBars(h, FoldBars(h, cs, depth), depth) == FoldBars(h, cs, depth)
    ensures FoldBars(h, cs, depth) == [] ==> h == []
  {
    if cs == [] {
      FoldedOverItself(h, depth);
    } else {
      var rest := cs[..|cs| - 1];
      LaterHistoryWins(h, rest, depth);
      FoldStaysRising(h, rest, depth);
      RefoldStep(h, FoldBars(h, rest, depth), Last(cs), depth);
    }
  }

  // A terminal that joins late, or comes back: with a chart `d` that was up to date after event `m`
  // (empty, if it is new), served the core's history after event `j`, then sent everything from some
  // earlier event `i` on, it holds the core's history at the end of its chart.
  lemma LateChart(d: seq<Candle>, log: seq<Candle>, m: nat, i: nat, j: nat)
    requires m <= j <= |log| && i <= j && LastN(d, HISTORY) == FoldBars([], log[..m], HISTORY)
    ensures var served := FoldBars([], log[..j], HISTORY);
            var terminal := FoldBars(FoldBars(d, served, CANDLE_DEPTH), log[i..], CANDLE_DEPTH);
            LastN(terminal, HISTORY) == FoldBars([], log, HISTORY)
  {
    var h, served := FoldBars([], log[..m], HISTORY), FoldBars([], log[..j], HISTORY);
    DeeperAgrees(FoldBars(d, served, CANDLE_DEPTH), log[i..], HISTORY, CANDLE_DEPTH);
    DeeperAgrees(d, served, HISTORY, CANDLE_DEPTH);
    assert log[..j] == log[..m] + log[m..j];
    FoldBarsConcat([], log[..m], log[m..j], HISTORY);
    FoldedRises(log[..m], HISTORY);
    LaterHistoryWins(h, log[m..j], HISTORY);
    ServedThenSent(log, i, j);
  }

  // The history after event `j` takes everything from `i` on to the history at the end.
  lemma ServedThenSent(log: seq<Candle>, i: nat, j: nat)
    requires i <= j <= |log|
    ensures FoldBars(FoldBars([], log[..j], HISTORY), log[i..], HISTORY) == FoldBars([], log, HISTORY)
  {
    var served := FoldBars([], log[..j], HISTORY);
    Slices(log, i, j);
    FoldBarsConcat([], log[..i], log[i..j], HISTORY);
    ChartReplayIsIdempotent(FoldBars([], log[..i], HISTORY), log[i..j], HISTORY, HISTORY);
    FoldBarsConcat(served, log[i..j], log[j..], HISTORY);
    FoldBarsConcat([], log[..j], log[j..], HISTORY);
  }

  lemma Slices(log: seq<Candle>, i: nat, j: nat)
    requires i <= j <= |log|
    ensures log[..i] + log[i..j] == log[..j]
    ensures log[i..j] + log[j..] == log[i..]
    ensures log[..j] + log[j..] == log
  {
  }
}
