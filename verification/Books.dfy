/**
 The connector's books, one entry per symbol, with what each entry waits for
 (crates/marketdata/src/books.rs). Each operation on one symbol's entry is a function; `BookSet`
 is the mutable set of entries, whose methods are proved against those functions.
 */
module Books {
  import opened Base
  import opened Ids
  import opened Market

  const DEFAULT_RESYNC_COOLDOWN_MS: int := 1_000
  const MAX_BUFFERED: nat := 4_096
  const REQUEST_DEADLINE_MS: int := 10_000

  datatype Need = Nothing | Snapshot(symbol: Symbol)

  datatype Outcome = Outcome(need: Need, forward: bool, attached: bool)

  datatype Entry = Entry(symbol: Symbol, book: Option<Book>, buffered: seq<Delta>, awaiting: bool,
                         requestedAt: Option<int>, updatedAt: int)

  function NewEntry(symbol: Symbol): Entry {
    Entry(symbol, None, [], false, None, 0)
  }

  function Buffer(e: Entry, delta: Delta): Entry {
    if |e.buffered| >= MAX_BUFFERED then e.(buffered := [delta], awaiting := false, requestedAt := None)
    else e.(buffered := e.buffered + [delta])
  }

  function RequestSnapshot(e: Entry, now: int, cooldownMs: int): (Entry, Need) {
    if e.awaiting && e.requestedAt.Some? && now - e.requestedAt.value < REQUEST_DEADLINE_MS then (e, Nothing)
    else if !e.awaiting && e.requestedAt.Some? && now - e.requestedAt.value < cooldownMs then (e, Nothing)
    else (e.(awaiting := true, requestedAt := Some(now)), Snapshot(e.symbol))
  }

  // One incremental update of one symbol.
  function Feed(e: Entry, delta: Delta, now: int, cooldownMs: int): (Entry, Outcome) {
    if e.book.None? then Hold(e, delta, now, cooldownMs)
    else
      var (book, outcome) := ApplyDelta(e.book.value, delta);
      match outcome
      case Applied =>
        (e.(book := Some(book), updatedAt := now), Outcome(Nothing, e.book.value.synced, !e.book.value.synced))
      case Stale => (e, Outcome(Nothing, false, false))
      case Gap(_, _) => Hold(e.(book := None), delta, now, cooldownMs)
  }

  function Hold(e: Entry, delta: Delta, now: int, cooldownMs: int): (Entry, Outcome) {
    var (e', need) := RequestSnapshot(Buffer(e, delta), now, cooldownMs);
    (e', Outcome(need, false, false))
  }

  // The buffered updates replayed onto a snapshot; `None` when one of them exposes a gap.
  function Replay(book: Book, deltas: seq<Delta>): Option<Book>
    decreases |deltas|
  {
    if deltas == [] then Some(book)
    else
      var (book', outcome) := ApplyDelta(book, deltas[0]);
      if outcome.Gap? then None else Replay(book', deltas[1..])
  }

  // A rejected snapshot takes the buffer with it: the source's comment there says the remaining
  // updates are kept, but its buffer has already been emptied.
  function Install(e: Entry, snapshot: Book, now: int): (Entry, Option<Book>) {
    match Replay(snapshot, e.buffered)
    case None => (e.(book := None, buffered := [], awaiting := false), None)
    case Some(book) =>
      (e.(book := Some(book), buffered := [], awaiting := false, updatedAt := now),
       if book.synced then Some(book) else None)
  }

  function EntryFor(entries: map<Symbol, Entry>, symbol: Symbol): Entry {
    if symbol in entries then entries[symbol] else NewEntry(symbol)
  }

  // The book a consumer may be shown.
  function LiveBook(entries: map<Symbol, Entry>, symbol: Symbol): Option<Book> {
    if symbol in entries && entries[symbol].book.Some? && entries[symbol].book.value.synced
    then entries[symbol].book else None
  }

  // The symbols reported as frozen: they have a book, and it last moved more than `maxAgeMs` ago.
  function StaleSymbols(entries: map<Symbol, Entry>, now: int, maxAgeMs: int): set<Symbol> {
    set k | k in entries && entries[k].book.Some? && now - entries[k].updatedAt > maxAgeMs
  }

  class BookSet {
    var entries: map<Symbol, Entry>
    const cooldownMs: int

    constructor (cooldownMs: int)
      ensures entries == map[] && this.cooldownMs == cooldownMs
    {
      this.entries := map[];
      this.cooldownMs := cooldownMs;
    }

    method OnDelta(delta: Delta, now: int) returns (outcome: Outcome)
      modifies this
      ensures var (e, o) := Feed(EntryFor(old(entries), delta.symbol), delta, now, cooldownMs);
              entries == old(entries)[delta.symbol := e] && outcome == o
    {
      var entry := EntryFor(entries, delta.symbol);
      if entry.book.None? {
        entry := Buffer(entry, delta);
        var (asked, need) := RequestSnapshot(entry, now, cooldownMs);
        entries := entries[delta.symbol := asked];
        return Outcome(need, false, false);
      }
      var book := new OrderBook(entry.book.value);
      var wasSynced := book.synced;
      var applied := book.Apply(delta);
      match applied {
        case Applied =>
          entries := entries[delta.symbol := entry.(book := Some(book.View()), updatedAt := now)];
          var attached := !wasSynced;
          return Outcome(Nothing, !attached, attached);
        case Stale =>
          entries := entries[delta.symbol := entry];
          return Outcome(Nothing, false, false);
        case Gap(_, _) =>
          entry := entry.(book := None);
          entry := Buffer(entry, delta);
          var (asked, need) := RequestSnapshot(entry, now, cooldownMs);
          entries := entries[delta.symbol := asked];
          return Outcome(need, false, false);
      }
    }

    method InstallSnapshot(snapshot: Book, now: int) returns (joined: Option<Book>)
      modifies this
      ensures if snapshot.symbol.None? || snapshot.symbol.value !in old(entries)
              then entries == old(entries) && joined == None
              else var (e, j) := Install(old(entries)[snapshot.symbol.value], snapshot, now);
                   entries == old(entries)[snapshot.symbol.value := e] && joined == j
    {
      if snapshot.symbol.None? || snapshot.symbol.value !in entries {
        return None;
      }
      var key := snapshot.symbol.value;
      var entry := entries[key].(awaiting := false);
      var buffered := entry.buffered;
      entry := entry.(buffered := []);
      var book := new OrderBook(snapshot);
      for i := 0 to |buffered|
        invariant entries == old(entries)
        invariant Replay(snapshot, buffered) == Replay(book.View(), buffered[i..])
      {
        var outcome := book.Apply(buffered[i]);
        if outcome.Gap? {
          entries := entries[key := entry.(book := None)];
          return None;
        }
        assert buffered[i..][1..] == buffered[i + 1..];
      }
      entry := entry.(updatedAt := now, book := Some(book.View()));
      entries := entries[key := entry];
      joined := if book.synced then Some(book.View()) else None;
    }

    method SnapshotFailed(symbol: Symbol)
      modifies this
      ensures entries == if symbol in old(entries)
                         then old(entries)[symbol := old(entries)[symbol].(awaiting := false)]
                         else old(entries)
    {
      if symbol in entries {
        entries := entries[symbol := entries[symbol].(awaiting := false)];
      }
    }

    method Reset()
      modifies this
      ensures entries == map[]
    {
      entries := map[];
    }
  }

  // A book that was just advanced or installed is not stale, and one that an update did not touch
  // is as stale as it was before.
  lemma StaleMeansUnmoved(entries: map<Symbol, Entry>, delta: Delta, now: int, cooldownMs: int, maxAgeMs: int)
    requires 0 <= maxAgeMs
    ensures var k := delta.symbol;
            var (e, outcome) := Feed(EntryFor(entries, k), delta, now, cooldownMs);
            var entries' := entries[k := e];
            && (outcome.forward || outcome.attached ==> k !in StaleSymbols(entries', now, maxAgeMs))
            && (!outcome.forward && !outcome.attached && e.book.Some? ==>
                  (k in StaleSymbols(entries', now, maxAgeMs) <==> k in StaleSymbols(entries, now, maxAgeMs)))
  {
  }

  lemma InstalledIsNotStale(k: Symbol, e: Entry, snapshot: Book, now: int, maxAgeMs: int)
    requires 0 <= maxAgeMs
    ensures k !in StaleSymbols(map[k := Install(e, snapshot, now).0], now, maxAgeMs)
  {
  }

  // Exactly what is reported as frozen: a book that was installed or advanced, and that only updates
  // it did not take have reached since, for longer than allowed.
  lemma FrozenIsReported(entries: map<Symbol, Entry>, k: Symbol, now: int, maxAgeMs: int)
    ensures k in entries && entries[k].book.Some? ==>
              (k in StaleSymbols(entries, now, maxAgeMs) <==> entries[k].updatedAt + maxAgeMs < now)
    ensures k !in entries || entries[k].book.None? ==> k !in StaleSymbols(entries, now, maxAgeMs)
  {
  }

  // ---------------------------------------------------------------- what one update does

  // An update that a book takes: the book moves on, and is announced whole if it had not joined the
  // stream before; nothing else about the entry changes but the time it last moved.
  lemma TakenUpdate(e: Entry, d: Delta, now: int, cooldownMs: int)
    requires e.book.Some? && e.book.value.lastUpdateId < d.lastUpdateId
    requires if e.book.value.synced then d.prevUpdateId == e.book.value.lastUpdateId
             else d.prevUpdateId <= e.book.value.lastUpdateId
    ensures var (e', outcome) := Feed(e, d, now, cooldownMs);
            && e'.book.Some? && e'.book.value.synced && e'.book.value.lastUpdateId == d.lastUpdateId
            && e' == e.(book := Some(ApplyDelta(e.book.value, d).0), updatedAt := now)
            && outcome.need == Nothing
            && (outcome.attached <==> !e.book.value.synced) && (outcome.forward <==> e.book.value.synced)
  {
  }

  // An update the book is already past.
  lemma StaleUpdate(e: Entry, d: Delta, now: int, cooldownMs: int)
    requires e.book.Some? && d.lastUpdateId <= e.book.value.lastUpdateId
    ensures Feed(e, d, now, cooldownMs) == (e, Outcome(Nothing, false, false))
  {
  }

  // A gap, by the chain rule on a live book and by the join rule on one that has not joined: the book
  // is dropped, the update that shows the gap is all that is buffered, nothing is published, and a
  // snapshot is asked for unless the last request is too recent.
  lemma GapRebuilds(k: Symbol, e: Entry, d: Delta, now: int, cooldownMs: int)
    requires EntryOk(k, e) && e.book.Some? && e.book.value.lastUpdateId < d.lastUpdateId
    requires if e.book.value.synced then d.prevUpdateId != e.book.value.lastUpdateId
             else e.book.value.lastUpdateId < d.prevUpdateId
    ensures var (e', outcome) := Feed(e, d, now, cooldownMs);
            && e'.book.None? && e'.buffered == [d] && !outcome.forward && !outcome.attached
            && (outcome.need == Snapshot(k) <==>
                  || e.requestedAt.None?
                  || now - e.requestedAt.value >= (if e.awaiting then REQUEST_DEADLINE_MS else cooldownMs))
            && (if outcome.need == Snapshot(k) then e'.awaiting && e'.requestedAt == Some(now)
                else outcome.need == Nothing && e'.awaiting == e.awaiting && e'.requestedAt == e.requestedAt)
  {
    assert [] + [d] == [d];
  }

  // An update without a book: it joins what is buffered, or starts the buffer over when that is full;
  // nothing is published; a request that is made is outstanding from then on.
  lemma BooklessHolds(k: Symbol, e: Entry, d: Delta, now: int, cooldownMs: int)
    requires EntryOk(k, e) && e.book.None?
    ensures var (e', outcome) := Feed(e, d, now, cooldownMs);
            && e'.book.None? && !outcome.forward && !outcome.attached
            && e'.buffered == (if |e.buffered| < MAX_BUFFERED then e.buffered + [d] else [d])
            && (outcome.need == Snapshot(k) ==> e'.awaiting && e'.requestedAt == Some(now))
            && (outcome.need != Snapshot(k) ==>
                  outcome.need == Nothing && e'.awaiting == e.awaiting && e'.requestedAt == e.requestedAt)
  {
  }

  // An outstanding request holds back every other one until its deadline, whatever the cooldown, as
  // long as the buffer does not overflow.
  lemma OutstandingBlocks(k: Symbol, e: Entry, d: Delta, at: int, d': Delta, now: int, cooldownMs: int)
    requires EntryOk(k, e) && e.book.None? && Feed(e, d, at, cooldownMs).1.need == Snapshot(k)
    requires |e.buffered| + 1 < MAX_BUFFERED
    ensures Feed(Feed(e, d, at, cooldownMs).0, d', now, cooldownMs).1.need == Snapshot(k) <==>
            now - at >= REQUEST_DEADLINE_MS
  {
    BooklessHolds(k, e, d, at, cooldownMs);
  }

  // ---------------------------------------------------------------- what every operation keeps

  // A symbol with a book holds no buffered update; the buffer is bounded; an outstanding request
  // has a time; an entry's book carries the entry's symbol.
  ghost predicate EntryOk(symbol: Symbol, e: Entry) {
    && e.symbol == symbol
    && |e.buffered| <= MAX_BUFFERED
    && (e.awaiting ==> e.requestedAt.Some?)
    && (e.book.Some? ==> e.buffered == [] && e.book.value.symbol == Some(symbol))
  }

  lemma {:induction false} ReplayKeepsSymbol(book: Book, deltas: seq<Delta>)
    ensures Replay(book, deltas).Some? ==> Replay(book, deltas).value.symbol == book.symbol
    decreases |deltas|
  {
    if deltas != [] {
      ReplayKeepsSymbol(ApplyDelta(book, deltas[0]).0, deltas[1..]);
    }
  }

  lemma {:induction false} ReplayConcat(book: Book, x: seq<Delta>, y: seq<Delta>)
    ensures Replay(book, x + y) == match Replay(book, x) case None => None case Some(b) => Replay(b, y)
    decreases |x|
  {
    if x == [] {
      assert x + y == y;
    } else {
      ReplayConcat(ApplyDelta(book, x[0]).0, x[1..], y);
      assert (x + y)[1..] == x[1..] + y;
    }
  }

  lemma EntryOkKept(symbol: Symbol, e: Entry, delta: Delta, snapshot: Book, now: int, cooldownMs: int)
    requires EntryOk(symbol, e)
    ensures EntryOk(symbol, NewEntry(symbol))
    ensures EntryOk(symbol, Feed(e, delta, now, cooldownMs).0)
    ensures snapshot.symbol == Some(symbol) ==> EntryOk(symbol, Install(e, snapshot, now).0)
    ensures EntryOk(symbol, e.(awaiting := false))
  {
    ReplayKeepsSymbol(snapshot, e.buffered);
  }
}
