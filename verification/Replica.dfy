/**
 What the connector publishes (crates/binance/src/lib.rs), how a consumer folds it (the core's
 read-model in crates/core/src/state.rs and the terminal's feed in crates/terminal/src/feed.rs keep
 their books in the same way), and why the copies agree.
 */
module Replica {
  import opened Base
  import opened Ids
  import opened Market
  import opened Books

  datatype Event =
    | BookSnapshot(book: Book)
    | BookDelta(delta: Delta)
    | CandleBar(candle: Candle)
    | Resyncing(symbol: Symbol)

  // ---------------------------------------------------------------- folding one event

  // A consumer's books after one event. A gap drops the torn copy.
  function FoldBooks(books: map<Symbol, Book>, e: Event): map<Symbol, Book> {
    match e
    case BookSnapshot(book) =>
      if book.symbol.Some? then books[book.symbol.value := book] else books
    case BookDelta(delta) =>
      if delta.symbol in books then
        var (book, outcome) := ApplyDelta(books[delta.symbol], delta);
        if outcome.Gap? then books - {delta.symbol} else books[delta.symbol := book]
      else books
    case CandleBar(_) => books
    case Resyncing(_) => books
  }

  function FoldAll(books: map<Symbol, Book>, events: seq<Event>): map<Symbol, Book> {
    if events == [] then books
    else FoldBooks(FoldAll(books, events[..|events| - 1]), events[|events| - 1])
  }

  function Lookup(books: map<Symbol, Book>, k: Symbol): Option<Book> {
    if k in books then Some(books[k]) else None
  }

  // The same fold seen by a single symbol.
  ghost function FoldKey(b: Option<Book>, e: Event, k: Symbol): Option<Book> {
    match e
    case BookSnapshot(book) => if book.symbol == Some(k) then Some(book) else b
    case BookDelta(delta) =>
      if delta.symbol == k && b.Some? then
        var (book, outcome) := ApplyDelta(b.value, delta);
        if outcome.Gap? then None else Some(book)
      else b
    case CandleBar(_) => b
    case Resyncing(_) => b
  }

  ghost function FoldKeyAll(b: Option<Book>, events: seq<Event>, k: Symbol): Option<Book> {
    if events == [] then b
    else FoldKey(FoldKeyAll(b, events[..|events| - 1], k), events[|events| - 1], k)
  }

  lemma {:induction false} FoldAllByKey(books: map<Symbol, Book>, events: seq<Event>, k: Symbol)
    ensures Lookup(FoldAll(books, events), k) == FoldKeyAll(Lookup(books, k), events, k)
  {
    if events != [] {
      FoldAllByKey(books, events[..|events| - 1], k);
    }
  }

  lemma {:induction false} FoldKeyConcat(b: Option<Book>, x: seq<Event>, y: seq<Event>, k: Symbol)
    ensures FoldKeyAll(b, x + y, k) == FoldKeyAll(FoldKeyAll(b, x, k), y, k)
    decreases |y|
  {
    if y == [] {
      assert x + y == x;
    } else {
      FoldKeyConcat(b, x, y[..|y| - 1], k);
      assert (x + y)[..|x + y| - 1] == x + y[..|y| - 1];
    }
  }

  // ---------------------------------------------------------------- the connector

  datatype Op =
    | DeltaIn(delta: Delta, now: int)
    | Fetched(snapshot: Book, now: int)
    | FetchFailed(symbol: Symbol)
    | Reconnect

  datatype Conn = Conn(entries: map<Symbol, Entry>, sent: seq<Event>)

  function Step(c: Conn, op: Op, cooldownMs: int): Conn {
    match op
    case DeltaIn(delta, now) =>
      var (e, outcome) := Feed(EntryFor(c.entries, delta.symbol), delta, now, cooldownMs);
      var entries := c.entries[delta.symbol := e];
      Conn(entries, c.sent + Published(entries, delta, outcome) + Announced(outcome.need))
    case Fetched(snapshot, now) =>
      if snapshot.symbol.None? || snapshot.symbol.value !in c.entries then c
      else
        var (e, joined) := Install(c.entries[snapshot.symbol.value], snapshot, now);
        Conn(c.entries[snapshot.symbol.value := e], c.sent + if joined.Some? then [BookSnapshot(joined.value)] else [])
    case FetchFailed(symbol) =>
      if symbol in c.entries then c.(entries := c.entries[symbol := c.entries[symbol].(awaiting := false)]) else c
    case Reconnect => c.(entries := map[])
  }

  function Published(entries: map<Symbol, Entry>, delta: Delta, outcome: Outcome): seq<Event> {
    if outcome.attached then
      var live := LiveBook(entries, delta.symbol);
      if live.Some? then [BookSnapshot(live.value)] else []
    else if outcome.forward then [BookDelta(delta)]
    else []
  }

  function Announced(need: Need): seq<Event> {
    if need.Snapshot? then [Resyncing(need.symbol)] else []
  }

  // A run of the connector from a cold start.
  function Run(ops: seq<Op>, cooldownMs: int): Conn {
    if ops == [] then Conn(map[], [])
    else Step(Run(ops[..|ops| - 1], cooldownMs), ops[|ops| - 1], cooldownMs)
  }

  class Connector {
    const books: BookSet
    var sent: seq<Event>

    function View(): Conn
      reads this, books
    {
      Conn(books.entries, sent)
    }

    constructor (cooldownMs: int)
      ensures View() == Conn(map[], []) && books.cooldownMs == cooldownMs && fresh(books)
    {
      books := new BookSet(cooldownMs);
      sent := [];
    }

    method OnDelta(delta: Delta, now: int)
      modifies this, books
      ensures View() == Step(old(View()), DeltaIn(delta, now), books.cooldownMs)
    {
      var outcome := books.OnDelta(delta, now);
      if outcome.attached {
        var live := LiveBook(books.entries, delta.symbol);
        if live.Some? {
          sent := sent + [BookSnapshot(live.value)];
        }
      } else if outcome.forward {
        sent := sent + [BookDelta(delta)];
      }
      if outcome.need.Snapshot? {
        sent := sent + [Resyncing(outcome.need.symbol)];
      }
    }

    method OnFetched(snapshot: Book, now: int)
      modifies this, books
      ensures View() == Step(old(View()), Fetched(snapshot, now), books.cooldownMs)
    {
      var joined := books.InstallSnapshot(snapshot, now);
      if joined.Some? {
        sent := sent + [BookSnapshot(joined.value)];
      }
    }

    method OnFetchFailed(symbol: Symbol)
      modifies books
      ensures View() == Step(old(View()), FetchFailed(symbol), books.cooldownMs)
    {
      books.SnapshotFailed(symbol);
    }

    method OnReconnect()
      modifies books
      ensures View() == Step(old(View()), Reconnect, books.cooldownMs)
    {
      books.Reset();
    }
  }

  // ---------------------------------------------------------------- replica agreement

  // Every live book equals the fold of everything sent, for its symbol.
  ghost predicate Agrees(c: Conn) {
    forall k :: AgreesAt(c, k)
  }

  ghost predicate AgreesAt(c: Conn, k: Symbol) {
    && (k in c.entries ==> EntryOk(k, c.entries[k]))
    && (LiveBook(c.entries, k).Some? ==> FoldKeyAll(None, c.sent, k) == LiveBook(c.entries, k))
  }

  // Every forwarded update chains onto the copy a consumer holds at that point, and every
  // published snapshot is synced.
  ghost predicate NeverTorn(sent: seq<Event>) {
    forall i :: 0 <= i < |sent| ==> Chains(sent[..i], sent[i])
  }

  ghost predicate Chains(before: seq<Event>, e: Event) {
    match e
    case BookDelta(delta) =>
      var copy := FoldKeyAll(None, before, delta.symbol);
      copy.Some? && ApplyDelta(copy.value, delta).1 == Applied
    case BookSnapshot(book) => book.synced && book.symbol.Some?
    case CandleBar(_) => true
    case Resyncing(_) => true
  }

  lemma NeverTornExtends(sent: seq<Event>, e: Event)
    requires NeverTorn(sent) && Chains(sent, e)
    ensures NeverTorn(sent + [e])
  {
    forall i | 0 <= i < |sent + [e]|
      ensures Chains((sent + [e])[..i], (sent + [e])[i])
    {
      assert (sent + [e])[..i] == sent[..i];
      assert sent[..|sent|] == sent;
    }
  }

  lemma FoldKeySnoc(b: Option<Book>, sent: seq<Event>, e: Event, k: Symbol)
    ensures FoldKeyAll(b, sent + [e], k) == FoldKey(FoldKeyAll(b, sent, k), e, k)
  {
    assert (sent + [e])[..|sent + [e]| - 1] == sent;
  }

  // The fold of both logs is the same for `k`.
  ghost predicate SameCopy(sent: seq<Event>, sent': seq<Event>, k: Symbol) {
    FoldKeyAll(None, sent, k) == FoldKeyAll(None, sent', k)
  }

  ghost predicate OthersSame(sent: seq<Event>, sent': seq<Event>, k: Symbol) {
    forall j :: j != k ==> SameCopy(sent, sent', j)
  }

  // No copy but that of `k` can be moved by the event.
  predicate Concerns(e: Event, k: Symbol) {
    match e
    case BookSnapshot(book) => book.symbol == Some(k)
    case BookDelta(delta) => delta.symbol == k
    case _ => true
  }

  lemma SendOne(sent: seq<Event>, e: Event, k: Symbol)
    requires NeverTorn(sent) && Chains(sent, e) && Concerns(e, k)
    ensures NeverTorn(sent + [e]) && OthersSame(sent, sent + [e], k)
    ensures FoldKeyAll(None, sent + [e], k) == FoldKey(FoldKeyAll(None, sent, k), e, k)
  {
    NeverTornExtends(sent, e);
    forall j | j != k
      ensures SameCopy(sent, sent + [e], j)
    {
      FoldKeySnoc(None, sent, e, j);
    }
    FoldKeySnoc(None, sent, e, k);
  }

  // One entry changes, and with it no copy but its own symbol's.
  lemma OneSymbol(c: Conn, k: Symbol, e: Entry, sent: seq<Event>)
    requires Agrees(c) && EntryOk(k, e) && OthersSame(c.sent, sent, k)
    requires e.book.Some? && e.book.value.synced ==> FoldKeyAll(None, sent, k) == e.book
    ensures Agrees(Conn(c.entries[k := e], sent))
  {
    var c' := Conn(c.entries[k := e], sent);
    forall j
      ensures AgreesAt(c', j)
    {
      if j != k {
        assert AgreesAt(c, j) && SameCopy(c.sent, sent, j);
        assert LiveBook(c.entries, j) == LiveBook(c'.entries, j);
      }
    }
  }

  // A book has joined the stream, and is published whole.
  lemma AttachedKeeps(c: Conn, k: Symbol, e: Entry)
    requires Agrees(c) && NeverTorn(c.sent) && EntryOk(k, e) && e.book.Some? && e.book.value.synced
    ensures var sent := c.sent + [BookSnapshot(e.book.value)]; Agrees(Conn(c.entries[k := e], sent)) && NeverTorn(sent)
  {
    var event := BookSnapshot(e.book.value);
    SendOne(c.sent, event, k);
    OneSymbol(c, k, e, c.sent + [event]);
  }

  // A live book has taken an update, and the update is passed on.
  lemma ForwardedKeeps(c: Conn, k: Symbol, delta: Delta, e: Entry)
    requires Agrees(c) && NeverTorn(c.sent) && EntryOk(k, e) && delta.symbol == k
    requires LiveBook(c.entries, k).Some? && e.book.Some?
    requires ApplyDelta(LiveBook(c.entries, k).value, delta) == (e.book.value, Applied)
    ensures var sent := c.sent + [BookDelta(delta)]; Agrees(Conn(c.entries[k := e], sent)) && NeverTorn(sent)
  {
    assert AgreesAt(c, k);
    SendOne(c.sent, BookDelta(delta), k);
    OneSymbol(c, k, e, c.sent + [BookDelta(delta)]);
  }

  // Nothing is published: the entry has no live book, or still has the one it had.
  lemma HeldKeeps(c: Conn, k: Symbol, e: Entry)
    requires Agrees(c) && EntryOk(k, e)
    requires e.book.Some? && e.book.value.synced ==> LiveBook(c.entries, k) == e.book
    ensures Agrees(Conn(c.entries[k := e], c.sent))
  {
    assert AgreesAt(c, k);
    OneSymbol(c, k, e, c.sent);
  }

  lemma AnnouncedKeeps(c: Conn, symbol: Symbol)
    requires Agrees(c) && NeverTorn(c.sent)
    ensures var sent := c.sent + [Resyncing(symbol)]; Agrees(Conn(c.entries, sent)) && NeverTorn(sent)
  {
    var c' := Conn(c.entries, c.sent + [Resyncing(symbol)]);
    NeverTornExtends(c.sent, Resyncing(symbol));
    forall k
      ensures AgreesAt(c', k)
    {
      assert AgreesAt(c, k);
      FoldKeySnoc(None, c.sent, Resyncing(symbol), k);
    }
  }

  // What the outcome of an update says about the book before and after it.
  lemma FeedOutcomes(e: Entry, delta: Delta, now: int, cooldownMs: int)
    ensures var (e', outcome) := Feed(e, delta, now, cooldownMs);
            && (outcome.attached ==> !outcome.forward && e'.book.Some? && e'.book.value.synced)
            && (outcome.forward ==>
                  && e.book.Some? && e.book.value.synced && e'.book.Some?
                  && ApplyDelta(e.book.value, delta) == (e'.book.value, Applied))
            && (!outcome.attached && !outcome.forward && e'.book.Some? ==> e'.book == e.book)
            && (outcome.need.Snapshot? ==> !outcome.attached && !outcome.forward)
  {
  }

  lemma PublishedKeeps(c: Conn, delta: Delta, now: int, cooldownMs: int)
    requires Agrees(c) && NeverTorn(c.sent)
    ensures var (e, outcome) := Feed(EntryFor(c.entries, delta.symbol), delta, now, cooldownMs);
            var entries := c.entries[delta.symbol := e];
            var sent := c.sent + Published(entries, delta, outcome);
            Agrees(Conn(entries, sent)) && NeverTorn(sent)
  {
    var k := delta.symbol;
    var was := EntryFor(c.entries, k);
    var (e, outcome) := Feed(was, delta, now, cooldownMs);
    assert AgreesAt(c, k);
    EntryOkKept(k, was, delta, Book(None, [], [], 0, 0, false), now, cooldownMs);
    FeedOutcomes(was, delta, now, cooldownMs);
    if outcome.attached {
      AttachedKeeps(c, k, e);
      assert Published(c.entries[k := e], delta, outcome) == [BookSnapshot(e.book.value)];
    } else if outcome.forward {
      ForwardedKeeps(c, k, delta, e);
    } else {
      HeldKeeps(c, k, e);
      assert c.sent + [] == c.sent;
    }
  }

  lemma DeltaKeeps(c: Conn, delta: Delta, now: int, cooldownMs: int)
    requires Agrees(c) && NeverTorn(c.sent)
    ensures var c' := Step(c, DeltaIn(delta, now), cooldownMs); Agrees(c') && NeverTorn(c'.sent)
  {
    var (e, outcome) := Feed(EntryFor(c.entries, delta.symbol), delta, now, cooldownMs);
    var entries := c.entries[delta.symbol := e];
    var mid := Conn(entries, c.sent + Published(entries, delta, outcome));
    PublishedKeeps(c, delta, now, cooldownMs);
    if outcome.need.Snapshot? {
      AnnouncedKeeps(mid, outcome.need.symbol);
    } else {
      assert mid.sent + Announced(outcome.need) == mid.sent;
    }
  }

  lemma FetchedKeeps(c: Conn, snapshot: Book, now: int, cooldownMs: int)
    requires Agrees(c) && NeverTorn(c.sent)
    ensures var c' := Step(c, Fetched(snapshot, now), cooldownMs); Agrees(c') && NeverTorn(c'.sent)
  {
    if snapshot.symbol.Some? && snapshot.symbol.value in c.entries {
      var k := snapshot.symbol.value;
      var (e, joined) := Install(c.entries[k], snapshot, now);
      assert AgreesAt(c, k);
      EntryOkKept(k, c.entries[k], Delta(k, 0, 0, [], [], 0), snapshot, now, cooldownMs);
      if joined.Some? {
        AttachedKeeps(c, k, e);
      } else {
        HeldKeeps(c, k, e);
        assert c.sent + [] == c.sent;
      }
    }
  }

  lemma FailedKeeps(c: Conn, symbol: Symbol, cooldownMs: int)
    requires Agrees(c)
    ensures Agrees(Step(c, FetchFailed(symbol), cooldownMs))
  {
    if symbol in c.entries {
      assert AgreesAt(c, symbol);
      HeldKeeps(c, symbol, c.entries[symbol].(awaiting := false));
    }
  }

  lemma StepKeeps(c: Conn, op: Op, cooldownMs: int)
    requires Agrees(c) && NeverTorn(c.sent)
    ensures Agrees(Step(c, op, cooldownMs)) && NeverTorn(Step(c, op, cooldownMs).sent)
  {
    match op {
      case DeltaIn(delta, now) => DeltaKeeps(c, delta, now, cooldownMs);
      case Fetched(snapshot, now) => FetchedKeeps(c, snapshot, now, cooldownMs);
      case FetchFailed(symbol) => FailedKeeps(c, symbol, cooldownMs);
      case Reconnect =>
    }
  }

  lemma {:induction false} RunKeeps(ops: seq<Op>, cooldownMs: int)
    ensures Agrees(Run(ops, cooldownMs)) && NeverTorn(Run(ops, cooldownMs).sent)
  {
    if ops != [] {
      RunKeeps(ops[..|ops| - 1], cooldownMs);
      StepKeeps(Run(ops[..|ops| - 1], cooldownMs), ops[|ops| - 1], cooldownMs);
    }
  }

  // Over every run of updates, snapshot arrivals (late ones included), fetch failures and
  // reconnects: a consumer that folds all published events in order never meets a gap, never
  // holds an unsynced book, and has an identical copy of every book the connector calls live.
  lemma ReplicaAgreement(ops: seq<Op>, cooldownMs: int, k: Symbol)
    ensures var c := Run(ops, cooldownMs);
            && NeverTorn(c.sent)
            && (LiveBook(c.entries, k).Some? ==> Lookup(FoldAll(map[], c.sent), k) == LiveBook(c.entries, k))
  {
    RunKeeps(ops, cooldownMs);
    assert AgreesAt(Run(ops, cooldownMs), k);
    FoldAllByKey(map[], Run(ops, cooldownMs).sent, k);
  }

  // What one connector publishes is what another does, after something earlier.
  ghost predicate Follows(c: Conn, d: Conn, earlier: seq<Event>) {
    c.entries == d.entries && c.sent == earlier + d.sent
  }

  lemma FollowsOn(c: Conn, d: Conn, earlier: seq<Event>, op: Op, cooldownMs: int)
    requires Follows(c, d, earlier)
    ensures Follows(Step(c, op, cooldownMs), Step(d, op, cooldownMs), earlier)
  {
  }

  lemma OneMoreOp(ops: seq<Op>, op: Op, cooldownMs: int)
    ensures Run(ops + [op], cooldownMs) == Step(Run(ops, cooldownMs), op, cooldownMs)
  {
    assert (ops + [op])[..|ops|] == ops;
  }

  lemma LastOp(ops: seq<Op>, cooldownMs: int)
    requires ops != []
    ensures Run(ops, cooldownMs) == Step(Run(ops[..|ops| - 1], cooldownMs), ops[|ops| - 1], cooldownMs)
  {
  }

  lemma ReconnectForgets(before: seq<Op>, cooldownMs: int)
    ensures var c := Run(before + [Reconnect], cooldownMs);
            Follows(c, Run([], cooldownMs), Run(before, cooldownMs).sent) && forall k :: LiveBook(c.entries, k).None?
  {
    OneMoreOp(before, Reconnect, cooldownMs);
  }

  lemma {:induction false} FollowsThrough(ops: seq<Op>, after: seq<Op>, earlier: seq<Event>, cooldownMs: int)
    requires Follows(Run(ops, cooldownMs), Run([], cooldownMs), earlier)
    ensures Follows(Run(ops + after, cooldownMs), Run(after, cooldownMs), earlier)
    decreases |after|
  {
    if after == [] {
      assert ops + after == ops;
    } else {
      var most, last := after[..|after| - 1], after[|after| - 1];
      FollowsThrough(ops, most, earlier, cooldownMs);
      FollowsOn(Run(ops + most, cooldownMs), Run(most, cooldownMs), earlier, last, cooldownMs);
      LastOp(after, cooldownMs);
      OneMoreOp(ops + most, last, cooldownMs);
      assert ops + after == ops + most + [last];
    }
  }

  // A reconnect starts the connector over: no book is live, and whatever it was fed before, it then
  // publishes what a new connector would, after what it had published already.
  lemma ReconnectStartsOver(before: seq<Op>, after: seq<Op>, cooldownMs: int)
    ensures forall k :: LiveBook(Run(before + [Reconnect], cooldownMs).entries, k).None?
    ensures Follows(Run(before + [Reconnect] + after, cooldownMs), Run(after, cooldownMs), Run(before, cooldownMs).sent)
  {
    ReconnectForgets(before, cooldownMs);
    FollowsThrough(before + [Reconnect], after, Run(before, cooldownMs).sent, cooldownMs);
  }

  // ---------------------------------------------------------------- late joiners

  ghost predicate NoSnapshotOf(events: seq<Event>, k: Symbol) {
    forall e :: e in events && e.BookSnapshot? ==> e.book.symbol != Some(k)
  }

  // A snapshot makes the starting point irrelevant.
  lemma {:induction false} SnapshotForgets(a: Option<Book>, b: Option<Book>, events: seq<Event>, k: Symbol)
    requires !NoSnapshotOf(events, k)
    ensures FoldKeyAll(a, events, k) == FoldKeyAll(b, events, k)
  {
    var n := |events| - 1;
    if NoSnapshotOf(events[..n], k) {
      assert events == events[..n] + [events[n]];
    } else {
      SnapshotForgets(a, b, events[..n], k);
    }
  }

  lemma {:induction false} NothingStaysNothing(events: seq<Event>, k: Symbol)
    requires NoSnapshotOf(events, k)
    ensures FoldKeyAll(None, events, k) == None
  {
    if events != [] {
      NothingStaysNothing(events[..|events| - 1], k);
    }
  }

  // Without a snapshot, whatever survives is at or past every update it was offered.
  lemma {:induction false} PastEverything(b: Option<Book>, events: seq<Event>, k: Symbol)
    requires NoSnapshotOf(events, k) && FoldKeyAll(b, events, k).Some?
    ensures forall e :: e in events && e.BookDelta? && e.delta.symbol == k ==>
              e.delta.lastUpdateId <= FoldKeyAll(b, events, k).value.lastUpdateId
  {
    if events != [] {
      var n := |events| - 1;
      PastEverything(b, events[..n], k);
      assert events == events[..n] + [events[n]];
    }
  }

  lemma {:induction false} AllStale(book: Book, events: seq<Event>, k: Symbol)
    requires NoSnapshotOf(events, k)
    requires forall e :: e in events && e.BookDelta? && e.delta.symbol == k ==>
               e.delta.lastUpdateId <= book.lastUpdateId
    ensures FoldKeyAll(Some(book), events, k) == Some(book)
  {
    if events != [] {
      AllStale(book, events[..|events| - 1], k);
    }
  }

  // Replaying events over the state they led to changes nothing, for any events and any start.
  lemma FoldIdempotent(b: Option<Book>, events: seq<Event>, k: Symbol)
    ensures FoldKeyAll(FoldKeyAll(b, events, k), events, k) == FoldKeyAll(b, events, k)
  {
    var s := FoldKeyAll(b, events, k);
    if !NoSnapshotOf(events, k) {
      SnapshotForgets(s, b, events, k);
    } else if s.None? {
      NothingStaysNothing(events, k);
    } else {
      PastEverything(b, events, k);
      AllStale(s.value, events, k);
    }
  }

  // Serving the read-model's state after event `j` and then replaying events `i..j` leaves the
  // served book as it was, whatever the log.
  lemma LateJoin(log: seq<Event>, i: nat, j: nat, k: Symbol)
    requires i <= j <= |log|
    ensures var served := FoldAll(map[], log[..j]);
            Lookup(FoldAll(served, log[i..j]), k) == Lookup(served, k)
  {
    FoldAllByKey(map[], log[..j], k);
    FoldAllByKey(FoldAll(map[], log[..j]), log[i..j], k);
    assert log[..j] == log[..i] + log[i..j];
    FoldKeyConcat(None, log[..i], log[i..j], k);
    FoldIdempotent(FoldKeyAll(None, log[..i], k), log[i..j], k);
  }
}
