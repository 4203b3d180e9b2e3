/** Candle series: how prints become bars, by time and by count (crates/marketdata/src/candles.rs). */
module Candles {
  import opened Base
  import opened Ids
  import opened Market

  const DEFAULT_CAPACITY: nat := 1_200

  datatype Update = Formed(candle: Candle) | Closed(closed: Candle, started: Candle) | Ignored

  function Last<T>(s: seq<T>): T
    requires s != []
  {
    s[|s| - 1]
  }

  function SetLast<T>(s: seq<T>, x: T): seq<T>
    requires s != []
  {
    s[|s| - 1 := x]
  }

  function Extended(c: Candle, t: Trade): Candle {
    c.(high := Max(c.high, t.price), low := Min(c.low, t.price), close := t.price,
       volume := c.volume + t.qty, trades := (c.trades + 1) % U32)
  }

  function Started(t: Trade, openTime: int, b: Bucketing): Candle {
    Candle(t.symbol, openTime, b, 1, t.price, t.price, t.price, t.price, t.qty, b.Ticks? && 1 >= b.count)
  }

  // Euclidean remainder: buckets before the epoch are aligned as well.
  function Bucket(ts: int, intervalMs: int): int
    requires 0 < intervalMs
  {
    ts - ts % intervalMs
  }

  // `roll`: close whatever was forming, open a bar on this print, keep the newest `capacity`.
  function Rolled(series: seq<Candle>, t: Trade, openTime: int, b: Bucketing, capacity: nat): (seq<Candle>, Update) {
    var started := Started(t, openTime, b);
    if series == [] then (LastN([started], capacity), Formed(started))
    else
      var closed := Last(series).(closed := true);
      (LastN(SetLast(series, closed) + [started], capacity), Closed(closed, started))
  }

  predicate Sane(b: Bucketing) {
    match b
    case Time(ms) => 1 <= ms
    case Ticks(count) => 1 <= count
  }

  function Folded(series: seq<Candle>, t: Trade, b: Bucketing, capacity: nat): (seq<Candle>, Update)
    requires Sane(b)
  {
    match b
    case Time(ms) =>
      var openTime := Bucket(t.ts, ms);
      if series != [] && openTime < Last(series).openTime then (series, Ignored)
      else if series != [] && openTime == Last(series).openTime then
        var candle := Extended(Last(series), t);
        (SetLast(series, candle), Formed(candle))
      else Rolled(series, t, openTime, b, capacity)
    case Ticks(count) =>
      if series != [] && !Last(series).closed && Last(series).trades < count then
        var extended := Extended(Last(series), t);
        var candle := if extended.trades >= count then extended.(closed := true) else extended;
        (SetLast(series, candle), Formed(candle))
      else Rolled(series, t, t.ts, b, capacity)
  }

  class CandleSet {
    const bucketing: Bucketing
    const capacity: nat
    var series: map<Symbol, seq<Candle>>

    constructor (bucketing: Bucketing, capacity: nat)
      ensures Sane(this.bucketing) && 1 <= this.capacity && series == map[]
      ensures Sane(bucketing) ==> this.bucketing == bucketing
      ensures 1 <= capacity ==> this.capacity == capacity
    {
      this.bucketing := match bucketing
        case Time(ms) => Time(Max(ms, 1))
        case Ticks(count) => Ticks(Max(count, 1));
      this.capacity := Max(capacity, 1);
      series := map[];
    }

    method OnTrade(t: Trade) returns (update: Update)
      requires Sane(bucketing)
      modifies this
      ensures var was := if t.symbol in old(series) then old(series)[t.symbol] else [];
              var (bars, u) := Folded(was, t, bucketing, capacity);
              series == old(series)[t.symbol := bars] && update == u
    {
      var bars := if t.symbol in series then series[t.symbol] else [];
      match bucketing {
        case Time(ms) => bars, update := FoldTime(bars, t, ms);
        case Ticks(count) => bars, update := FoldTicks(bars, t, count);
      }
      series := series[t.symbol := bars];
    }

    method FoldTime(was: seq<Candle>, t: Trade, ms: int) returns (bars: seq<Candle>, update: Update)
      requires 1 <= ms && bucketing == Time(ms)
      ensures (bars, update) == Folded(was, t, bucketing, capacity)
    {
      bars := was;
      var openTime := t.ts - t.ts % ms;
      if bars != [] && openTime < bars[|bars| - 1].openTime {
        update := Ignored;
      } else if bars != [] && openTime == bars[|bars| - 1].openTime {
        bars := ExtendBack(bars, t);
        update := Formed(bars[|bars| - 1]);
      } else {
        bars, update := Roll(bars, t, openTime);
      }
    }

    method FoldTicks(was: seq<Candle>, t: Trade, count: u32) returns (bars: seq<Candle>, update: Update)
      requires 1 <= count && bucketing == Ticks(count)
      ensures (bars, update) == Folded(was, t, bucketing, capacity)
    {
      bars := was;
      if bars != [] && !bars[|bars| - 1].closed && bars[|bars| - 1].trades < count {
        bars := ExtendBack(bars, t);
        var n := |bars| - 1;
        if bars[n].trades >= count {
          bars := bars[n := bars[n].(closed := true)];
          assert bars == SetLast(was, Extended(Last(was), t).(closed := true));
        }
        update := Formed(bars[n]);
      } else {
        bars, update := Roll(bars, t, t.ts);
      }
    }

    method Roll(was: seq<Candle>, t: Trade, openTime: int) returns (bars: seq<Candle>, update: Update)
      ensures (bars, update) == Rolled(was, t, openTime, bucketing, capacity)
    {
      bars := was;
      var closed: Option<Candle> := None;
      if bars != [] {
        var n := |bars| - 1;
        if !bars[n].closed {
          bars := bars[n := bars[n].(closed := true)];
        }
        closed := Some(bars[n]);
        assert bars == SetLast(was, Last(was).(closed := true));
      }
      var started := Candle(t.symbol, openTime, bucketing, 1, t.price, t.price, t.price, t.price, t.qty, false);
      if bucketing.Ticks? {
        started := started.(closed := started.trades >= bucketing.count);
      }
      bars := bars + [started];
      assert was == [] ==> bars == [started];
      bars := Truncate(bars, capacity);
      update := if closed.Some? then Closed(closed.value, started) else Formed(started);
    }

    method ExtendBack(was: seq<Candle>, t: Trade) returns (bars: seq<Candle>)
      requires was != []
      ensures bars == SetLast(was, Extended(Last(was), t))
    {
      var n := |was| - 1;
      var c := was[n];
      c := c.(high := Max(c.high, t.price));
      c := c.(low := Min(c.low, t.price));
      c := c.(close := t.price);
      c := c.(volume := c.volume + t.qty);
      c := c.(trades := (c.trades + 1) % U32);
      bars := was[n := c];
    }
  }

  // ---------------------------------------------------------------- the whole series

  function Series(ts: seq<Trade>, b: Bucketing, capacity: nat): seq<Candle>
    requires Sane(b)
  {
    if ts == [] then [] else Folded(Series(ts[..|ts| - 1], b, capacity), Last(ts), b, capacity).0
  }

  // A closed tick bar is never reopened: the next print starts a bar of its own.
  lemma ClosedBarStays(series: seq<Candle>, t: Trade, count: u32, capacity: nat)
    requires 1 <= count && series != [] && Last(series).closed
    ensures var (series', update) := Folded(series, t, Ticks(count), capacity);
            && update.Closed? && update.closed == Last(series) && update.started.openTime == t.ts
            && series' == LastN(series + [update.started], capacity)
  {
    assert SetLast(series, Last(series)) == series;
  }

  // The series nothing was ever dropped from.
  function Full(ts: seq<Trade>, b: Bucketing): seq<Candle>
    requires Sane(b)
  {
    if ts == [] then []
    else
      var full := Full(ts[..|ts| - 1], b);
      Folded(full, Last(ts), b, |full| + 1).0
  }

  lemma FoldedTruncates(full: seq<Candle>, t: Trade, b: Bucketing, capacity: nat)
    requires Sane(b) && 1 <= capacity
    ensures Folded(LastN(full, capacity), t, b, capacity).0 == LastN(Folded(full, t, b, |full| + 1).0, capacity)
    ensures Folded(LastN(full, capacity), t, b, capacity).1 == Folded(full, t, b, |full| + 1).1
  {
    if full != [] {
      var s := LastN(full, capacity);
      assert s != [] && Last(s) == Last(full);
      forall x
        ensures SetLast(s, x) == LastN(SetLast(full, x), capacity)
      {
        LastNReplace(full, x, capacity);
      }
      forall x, y
        ensures LastN(SetLast(s, x) + [y], capacity) == LastN(SetLast(full, x) + [y], capacity)
      {
        LastNPush(SetLast(full, x), y, capacity);
      }
    }
  }

  // The ring keeps the newest bars of the full series, exactly.
  lemma {:induction false} SeriesIsTruncated(ts: seq<Trade>, b: Bucketing, capacity: nat)
    requires Sane(b) && 1 <= capacity
    ensures Series(ts, b, capacity) == LastN(Full(ts, b), capacity)
  {
    if ts != [] {
      SeriesIsTruncated(ts[..|ts| - 1], b, capacity);
      FoldedTruncates(Full(ts[..|ts| - 1], b), Last(ts), b, capacity);
    }
  }

  // ---------------------------------------------------------------- what a bar says

  // A bar is the fold of its prints.
  ghost predicate IsBar(c: Candle, ts: seq<Trade>, openTime: int, b: Bucketing, closed: bool) {
    && ts != []
    && c.symbol == ts[0].symbol && c.openTime == openTime && c.bucketing == b && c.closed == closed
    && c.trades == |ts| % U32 && c.open == ts[0].price && c.close == Last(ts).price
    && (forall t :: t in ts ==> c.low <= t.price <= c.high)
    && (exists t :: t in ts && t.price == c.high) && (exists t :: t in ts && t.price == c.low)
    && c.volume == Volume(ts)
  }

  function Volume(ts: seq<Trade>): int {
    if ts == [] then 0 else Volume(ts[..|ts| - 1]) + Last(ts).qty
  }

  lemma StartedIsBar(t: Trade, openTime: int, b: Bucketing)
    ensures IsBar(Started(t, openTime, b), [t], openTime, b, b.Ticks? && 1 >= b.count)
  {
    assert [t][0] == t;
    assert Volume([t]) == Volume([]) + t.qty by { assert [t][..0] == []; }
  }

  lemma CountWraps(n: nat)
    ensures (n % U32 + 1) % U32 == (n + 1) % U32
  {
  }

  lemma ExtendedIsBar(c: Candle, ts: seq<Trade>, t: Trade, b: Bucketing, closed: bool)
    requires IsBar(c, ts, c.openTime, b, c.closed)
    ensures IsBar(Extended(c, t).(closed := closed), ts + [t], c.openTime, b, closed)
  {
    var c', ts' := Extended(c, t), ts + [t];
    CountWraps(|ts|);
    assert ts'[..|ts|] == ts && ts'[|ts|] == t;
    var hi :| hi in ts && hi.price == c.high;
    var lo :| lo in ts && lo.price == c.low;
    assert hi in ts' && lo in ts' && t in ts';
    assert forall u :: u in ts' ==> u in ts || u == t;
  }

  function Flatten(groups: seq<seq<Trade>>): seq<Trade> {
    if groups == [] then [] else Flatten(groups[..|groups| - 1]) + Last(groups)
  }

  lemma FlattenGrows(groups: seq<seq<Trade>>, t: Trade)
    ensures Flatten(groups + [[t]]) == Flatten(groups) + [t]
    ensures groups != [] ==> Flatten(SetLast(groups, Last(groups) + [t])) == Flatten(groups) + [t]
  {
    assert (groups + [[t]])[..|groups|] == groups;
    if groups != [] {
      var n := |groups| - 1;
      assert SetLast(groups, Last(groups) + [t])[..n] == groups[..n];
      assert Flatten(groups[..n]) + (groups[n] + [t]) == (Flatten(groups[..n]) + groups[n]) + [t];
    }
  }

  // Consecutive chunks of `count` prints, the last one possibly partial; each bar is the fold of
  // its chunk and is closed exactly if the chunk is full.
  ghost predicate TickBars(bars: seq<Candle>, groups: seq<seq<Trade>>, ts: seq<Trade>, count: u32) {
    && Flatten(groups) == ts && |bars| == |groups|
    && (forall i :: 0 <= i < |groups| ==> ChunkSize(groups[i], count, i == |groups| - 1))
    && (forall i :: 0 <= i < |bars| ==> TickBar(bars[i], groups[i], count))
  }

  // Only the last chunk may be short.
  predicate ChunkSize(g: seq<Trade>, count: u32, last: bool) {
    if last then 1 <= |g| <= count else |g| == count
  }

  ghost predicate TickBar(c: Candle, g: seq<Trade>, count: u32) {
    g != [] && IsBar(c, g, g[0].ts, Ticks(count), |g| == count)
  }

  // The newest bar takes one more print.
  lemma TickExtends(bars: seq<Candle>, groups: seq<seq<Trade>>, ts: seq<Trade>, count: u32, t: Trade, c: Candle)
    requires TickBars(bars, groups, ts, count) && bars != [] && |Last(groups)| < count
    requires c == Extended(Last(bars), t).(closed := |Last(groups)| + 1 == count)
    ensures TickBars(SetLast(bars, c), SetLast(groups, Last(groups) + [t]), ts + [t], count)
  {
    var n := |groups| - 1;
    var g := groups[n] + [t];
    assert TickBar(bars[n], groups[n], count);
    ExtendedIsBar(bars[n], groups[n], t, Ticks(count), |g| == count);
    assert g[0] == groups[n][0];
    FlattenGrows(groups, t);
    assert TickBar(c, g, count);
  }

  // Every bar so far is full, and the print starts a new one.
  lemma TickRolls(bars: seq<Candle>, groups: seq<seq<Trade>>, ts: seq<Trade>, count: u32, t: Trade)
    requires 1 <= count && TickBars(bars, groups, ts, count) && (bars != [] ==> |Last(groups)| == count)
    ensures TickBars(bars + [Started(t, t.ts, Ticks(count))], groups + [[t]], ts + [t], count)
  {
    var bars', groups' := bars + [Started(t, t.ts, Ticks(count))], groups + [[t]];
    StartedIsBar(t, t.ts, Ticks(count));
    FlattenGrows(groups, t);
    assert TickBar(Started(t, t.ts, Ticks(count)), [t], count);
  }

  // What the newest tick bar tells about its chunk.
  lemma NewestChunk(bars: seq<Candle>, groups: seq<seq<Trade>>, ts: seq<Trade>, count: u32)
    requires TickBars(bars, groups, ts, count) && bars != []
    ensures Last(bars).trades == |Last(groups)| <= count && (Last(bars).closed <==> |Last(groups)| == count)
  {
    assert TickBar(bars[|bars| - 1], groups[|bars| - 1], count);
  }

  lemma TickFolds(bars: seq<Candle>, t: Trade, count: u32)
    requires 1 <= count
    requires bars != [] ==> Last(bars).trades <= count && (Last(bars).closed <==> Last(bars).trades == count)
    ensures Folded(bars, t, Ticks(count), |bars| + 1).0 ==
            if bars != [] && Last(bars).trades < count
            then SetLast(bars, Extended(Last(bars), t).(closed := Last(bars).trades + 1 == count))
            else bars + [Started(t, t.ts, Ticks(count))]
  {
    if bars != [] && Last(bars).closed {
      assert SetLast(bars, Last(bars).(closed := true)) == bars;
    }
  }

  lemma TickStep(bars: seq<Candle>, groups: seq<seq<Trade>>, ts: seq<Trade>, count: u32, t: Trade)
    returns (bars': seq<Candle>, groups': seq<seq<Trade>>)
    requires 1 <= count && TickBars(bars, groups, ts, count)
    ensures bars' == Folded(bars, t, Ticks(count), |bars| + 1).0
    ensures TickBars(bars', groups', ts + [t], count)
  {
    if bars != [] {
      NewestChunk(bars, groups, ts, count);
    }
    TickFolds(bars, t, count);
    if bars != [] && |Last(groups)| < count {
      var c := Extended(Last(bars), t).(closed := |Last(groups)| + 1 == count);
      bars', groups' := SetLast(bars, c), SetLast(groups, Last(groups) + [t]);
      TickExtends(bars, groups, ts, count, t, c);
    } else {
      bars', groups' := bars + [Started(t, t.ts, Ticks(count))], groups + [[t]];
      TickRolls(bars, groups, ts, count, t);
    }
  }

  lemma {:induction false} TicksAreChunks(ts: seq<Trade>, count: u32)
    returns (bars: seq<Candle>, groups: seq<seq<Trade>>)
    requires 1 <= count
    ensures bars == Full(ts, Ticks(count))
    ensures TickBars(bars, groups, ts, count)
  {
    if ts == [] {
      bars, groups := [], [];
    } else {
      var n := |ts| - 1;
      var before, chunks := TicksAreChunks(ts[..n], count);
      bars, groups := TickStep(before, chunks, ts[..n], count, ts[n]);
      assert ts == ts[..n] + [ts[n]];
    }
  }

  // The time of the print that starts the `i`th chunk.
  function OpensAt(ts: seq<Trade>, count: u32, i: nat): int {
    if i * count < |ts| then ts[i * count].ts else 0
  }

  // Prints 0, count, 2 count, and so on, come at strictly increasing times.
  ghost predicate OpenersRise(ts: seq<Trade>, count: u32) {
    forall i, j :: 0 <= i < j && j * count < |ts| ==> OpensAt(ts, count, i) < OpensAt(ts, count, j)
  }

  // Where chunk `i` starts in the whole, when all before it are full.
  lemma {:induction false} ChunkStarts(groups: seq<seq<Trade>>, count: nat, i: nat)
    requires i < |groups| && groups[i] != [] && forall k :: 0 <= k < |groups| - 1 ==> |groups[k]| == count
    ensures i * count < |Flatten(groups)| && Flatten(groups)[i * count] == groups[i][0]
  {
    var n := |groups| - 1;
    if i < n {
      ChunkStarts(groups[..n], count, i);
    } else {
      LengthOfFull(groups[..n], count);
    }
  }

  lemma {:induction false} LengthOfFull(groups: seq<seq<Trade>>, count: nat)
    requires forall k :: 0 <= k < |groups| ==> |groups[k]| == count
    ensures |Flatten(groups)| == |groups| * count
  {
    if groups != [] {
      LengthOfFull(groups[..|groups| - 1], count);
      OneMoreTimes(|groups| - 1, count);
    }
  }

  lemma OneMoreTimes(n: nat, count: nat)
    ensures (n + 1) * count == n * count + count
  {
  }

  lemma AtLeastTimes(i: nat, n: nat, count: nat)
    requires n <= i
    ensures n * count <= i * count
  {
    assert i * count == n * count + (i - n) * count;
  }

  // A tick series has a bar for every chunk begun, and the bar opens when its chunk did.
  lemma TickOpens(ts: seq<Trade>, count: u32, i: nat)
    requires 1 <= count
    ensures i < |Full(ts, Ticks(count))| <==> i * count < |ts|
    ensures i < |Full(ts, Ticks(count))| ==> Full(ts, Ticks(count))[i].openTime == OpensAt(ts, count, i)
  {
    var bars, groups := TicksAreChunks(ts, count);
    if i < |bars| {
      assert TickBar(bars[i], groups[i], count);
      forall k | 0 <= k < |groups| - 1
        ensures |groups[k]| == count
      {
        assert ChunkSize(groups[k], count, false);
      }
      ChunkStarts(groups, count, i);
    } else if bars != [] {
      var n := |bars| - 1;
      forall k | 0 <= k < |groups|
        ensures ChunkSize(groups[k], count, k == n)
      {
      }
      LengthOfFull(groups[..n], count);
      OneMoreTimes(n, count);
      AtLeastTimes(i, n + 1, count);
    } else {
      AtLeastTimes(i, 0, count);
    }
  }

  // Tick bars open at strictly increasing times if and only if the prints that start them do.
  lemma TickOpensRise(ts: seq<Trade>, count: u32)
    requires 1 <= count
    ensures RisingOpens(Full(ts, Ticks(count))) <==> OpenersRise(ts, count)
  {
    var bars := Full(ts, Ticks(count));
    forall i: nat, j: nat | i < j && OpenersRise(ts, count) && j < |bars|
      ensures bars[i].openTime < bars[j].openTime
    {
      TickOpens(ts, count, i);
      TickOpens(ts, count, j);
      assert OpensAt(ts, count, i) < OpensAt(ts, count, j);
    }
    forall i: nat, j: nat | i < j && RisingOpens(bars) && j * count < |ts|
      ensures OpensAt(ts, count, i) < OpensAt(ts, count, j)
    {
      TickOpens(ts, count, i);
      TickOpens(ts, count, j);
      assert bars[i].openTime < bars[j].openTime;
    }
  }

  // The prints a time series takes: those not older than the bucket already reached.
  function Accepted(ts: seq<Trade>, ms: int): seq<Trade>
    requires 1 <= ms
  {
    if ts == [] then []
    else
      var before := Accepted(ts[..|ts| - 1], ms);
      if before != [] && Bucket(Last(ts).ts, ms) < Bucket(Last(before).ts, ms) then before else before + [Last(ts)]
  }

  // The bucket groups of the accepted prints, with strictly increasing aligned open times; each bar
  // is the fold of its group, and every bar but the newest is closed.
  ghost predicate TimeBars(bars: seq<Candle>, groups: seq<seq<Trade>>, ts: seq<Trade>, ms: int)
    requires 1 <= ms
  {
    && Flatten(groups) == Accepted(ts, ms) && |bars| == |groups|
    && (forall i :: 0 <= i < |bars| ==> TimeBar(bars[i], groups[i], ms, i < |bars| - 1))
    && RisingOpens(bars)
  }

  ghost predicate TimeBar(c: Candle, g: seq<Trade>, ms: int, closed: bool)
    requires 1 <= ms
  {
    && IsBar(c, g, c.openTime, Time(ms), closed) && c.openTime % ms == 0
    && (forall t :: t in g ==> Bucket(t.ts, ms) == c.openTime)
  }

  ghost predicate RisingOpens(bars: seq<Candle>) {
    forall i, j :: 0 <= i < j < |bars| ==> bars[i].openTime < bars[j].openTime
  }

  lemma BucketAligned(ts: int, ms: int)
    requires 1 <= ms
    ensures Bucket(ts, ms) % ms == 0 && Bucket(ts, ms) <= ts < Bucket(ts, ms) + ms
  {
    var q, r := ts / ms, ts % ms;
    assert ts == ms * q + r;
    assert Bucket(ts, ms) == ms * q;
    ModOfMultiple(q, ms);
  }

  lemma ModOfMultiple(q: int, ms: int)
    requires 1 <= ms
    ensures (ms * q) % ms == 0
  {
    var x := (ms * q) / ms;
    assert ms * q == ms * x + (ms * q) % ms;
    assert ms * (q - x) == ms * q - ms * x;
    assert q - x >= 1 ==> ms * (q - x) >= ms;
    assert q - x <= -1 ==> ms * (q - x) <= -ms;
  }

  // Closing a bar changes nothing else about it.
  lemma ClosedIsBar(c: Candle, g: seq<Trade>, ms: int)
    requires 1 <= ms && TimeBar(c, g, ms, false)
    ensures TimeBar(c.(closed := true), g, ms, true)
  {
  }

  lemma {:induction false} LastOfFlatten(groups: seq<seq<Trade>>)
    requires groups != [] && Last(groups) != []
    ensures Flatten(groups) != [] && Last(Flatten(groups)) == Last(Last(groups))
  {
  }

  // The bucket the series has reached is the last accepted print's.
  lemma ReachedBucket(bars: seq<Candle>, groups: seq<seq<Trade>>, ts: seq<Trade>, ms: int)
    requires 1 <= ms && TimeBars(bars, groups, ts, ms)
    ensures bars == [] <==> Accepted(ts, ms) == []
    ensures bars != [] ==> Bucket(Last(Accepted(ts, ms)).ts, ms) == Last(bars).openTime
  {
    if bars != [] {
      var n := |bars| - 1;
      assert TimeBar(bars[n], groups[n], ms, false);
      LastOfFlatten(groups);
      assert Last(groups[n]) in groups[n];
    }
  }

  lemma AcceptedGrows(ts: seq<Trade>, ms: int, t: Trade)
    requires 1 <= ms
    ensures Accepted(ts + [t], ms) ==
            var before := Accepted(ts, ms);
            if before != [] && Bucket(t.ts, ms) < Bucket(Last(before).ts, ms) then before else before + [t]
  {
    assert (ts + [t])[..|ts|] == ts;
  }

  lemma TimeExtends(bars: seq<Candle>, groups: seq<seq<Trade>>, ts: seq<Trade>, ms: int, t: Trade)
    requires 1 <= ms && TimeBars(bars, groups, ts, ms) && bars != [] && Bucket(t.ts, ms) == Last(bars).openTime
    ensures TimeBars(SetLast(bars, Extended(Last(bars), t)), SetLast(groups, Last(groups) + [t]), ts + [t], ms)
  {
    var n := |bars| - 1;
    var c, g := Extended(bars[n], t), groups[n] + [t];
    assert TimeBar(bars[n], groups[n], ms, false);
    ExtendedIsBar(bars[n], groups[n], t, Time(ms), false);
    ReachedBucket(bars, groups, ts, ms);
    AcceptedGrows(ts, ms, t);
    FlattenGrows(groups, t);
    assert TimeBar(c, g, ms, false);
  }

  lemma TimeRolls(bars: seq<Candle>, groups: seq<seq<Trade>>, ts: seq<Trade>, ms: int, t: Trade)
    requires 1 <= ms && TimeBars(bars, groups, ts, ms) && (bars != [] ==> Last(bars).openTime < Bucket(t.ts, ms))
    ensures var started := Started(t, Bucket(t.ts, ms), Time(ms));
            TimeBars(ClosedNewest(bars) + [started], groups + [[t]], ts + [t], ms)
  {
    ReachedBucket(bars, groups, ts, ms);
    AcceptedGrows(ts, ms, t);
    FlattenGrows(groups, t);
    StartsBar(t, ms);
    ClosesNewest(bars, groups, ts, ms);
    ClosedStillRises(bars);
    OneMoreBar(ClosedNewest(bars), groups, ts + [t], ms, Started(t, Bucket(t.ts, ms), Time(ms)), [t]);
  }

  function ClosedNewest(bars: seq<Candle>): (r: seq<Candle>)
    ensures |r| == |bars|
  {
    if bars == [] then bars else SetLast(bars, Last(bars).(closed := true))
  }

  lemma ClosedStillRises(bars: seq<Candle>)
    requires RisingOpens(bars)
    ensures RisingOpens(ClosedNewest(bars))
  {
    var closed := ClosedNewest(bars);
    assert forall i :: 0 <= i < |bars| ==> closed[i].openTime == bars[i].openTime;
  }

  ghost predicate AllClosed(bars: seq<Candle>, groups: seq<seq<Trade>>, ms: int)
    requires 1 <= ms && |bars| == |groups|
  {
    forall i :: 0 <= i < |bars| ==> TimeBar(bars[i], groups[i], ms, true)
  }

  lemma ClosesNewest(bars: seq<Candle>, groups: seq<seq<Trade>>, ts: seq<Trade>, ms: int)
    requires 1 <= ms && TimeBars(bars, groups, ts, ms)
    ensures AllClosed(ClosedNewest(bars), groups, ms)
  {
    if bars != [] {
      ClosedIsBar(bars[|bars| - 1], groups[|bars| - 1], ms);
    }
  }

  lemma OneMoreBar(bars: seq<Candle>, groups: seq<seq<Trade>>, ts: seq<Trade>, ms: int, c: Candle, g: seq<Trade>)
    requires 1 <= ms && |bars| == |groups| && Flatten(groups + [g]) == Accepted(ts, ms) && TimeBar(c, g, ms, false)
    requires RisingOpens(bars) && (bars != [] ==> Last(bars).openTime < c.openTime)
    requires AllClosed(bars, groups, ms)
    ensures TimeBars(bars + [c], groups + [g], ts, ms)
  {
    RisingAppends(bars, c);
  }

  lemma StartsBar(t: Trade, ms: int)
    requires 1 <= ms
    ensures TimeBar(Started(t, Bucket(t.ts, ms), Time(ms)), [t], ms, false)
  {
    StartedIsBar(t, Bucket(t.ts, ms), Time(ms));
    BucketAligned(t.ts, ms);
  }

  lemma RisingAppends(bars: seq<Candle>, c: Candle)
    requires RisingOpens(bars) && (bars != [] ==> Last(bars).openTime < c.openTime)
    ensures RisingOpens(bars + [c])
  {
    forall i | 0 <= i < |bars|
      ensures bars[i].openTime < c.openTime
    {
      assert i < |bars| - 1 ==> bars[i].openTime < bars[|bars| - 1].openTime;
    }
  }

  // A print older than the bucket reached is not taken.
  lemma TimeIgnores(bars: seq<Candle>, groups: seq<seq<Trade>>, ts: seq<Trade>, ms: int, t: Trade)
    requires 1 <= ms && TimeBars(bars, groups, ts, ms) && bars != [] && Bucket(t.ts, ms) < Last(bars).openTime
    ensures TimeBars(bars, groups, ts + [t], ms)
  {
    ReachedBucket(bars, groups, ts, ms);
    AcceptedGrows(ts, ms, t);
  }

  lemma TimeFolds(bars: seq<Candle>, t: Trade, ms: int)
    requires 1 <= ms
    ensures Folded(bars, t, Time(ms), |bars| + 1).0 ==
            if bars != [] && Bucket(t.ts, ms) < Last(bars).openTime then bars
            else if bars != [] && Bucket(t.ts, ms) == Last(bars).openTime then SetLast(bars, Extended(Last(bars), t))
            else ClosedNewest(bars) + [Started(t, Bucket(t.ts, ms), Time(ms))]
  {
  }

  lemma TimeStep(bars: seq<Candle>, groups: seq<seq<Trade>>, ts: seq<Trade>, ms: int, t: Trade)
    returns (bars': seq<Candle>, groups': seq<seq<Trade>>)
    requires 1 <= ms && TimeBars(bars, groups, ts, ms)
    ensures bars' == Folded(bars, t, Time(ms), |bars| + 1).0
    ensures TimeBars(bars', groups', ts + [t], ms)
  {
    TimeFolds(bars, t, ms);
    if bars != [] && Bucket(t.ts, ms) < Last(bars).openTime {
      bars', groups' := bars, groups;
      TimeIgnores(bars, groups, ts, ms, t);
    } else if bars != [] && Bucket(t.ts, ms) == Last(bars).openTime {
      bars', groups' := SetLast(bars, Extended(Last(bars), t)), SetLast(groups, Last(groups) + [t]);
      TimeExtends(bars, groups, ts, ms, t);
    } else {
      bars', groups' := ClosedNewest(bars) + [Started(t, Bucket(t.ts, ms), Time(ms))], groups + [[t]];
      TimeRolls(bars, groups, ts, ms, t);
    }
  }

  lemma NoTimeBars(ms: int)
    requires 1 <= ms
    ensures TimeBars([], [], [], ms)
  {
  }

  lemma {:induction false} TimesAreBuckets(ts: seq<Trade>, ms: int) returns (bars: seq<Candle>, groups: seq<seq<Trade>>)
    requires 1 <= ms
    ensures bars == Full(ts, Time(ms))
    ensures TimeBars(bars, groups, ts, ms)
  {
    if ts == [] {
      bars, groups := [], [];
      NoTimeBars(ms);
    } else {
      var n := |ts| - 1;
      assert ts == ts[..n] + [ts[n]];
      var before, chunks := TimesAreBuckets(ts[..n], ms);
      bars, groups := TimeStep(before, chunks, ts[..n], ms, ts[n]);
    }
  }
}
