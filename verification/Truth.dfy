/**
 What the copies say about the venue. The venue's book moves through numbered states; updates and
 snapshots are faithful to those states but may be lost, repeated or reordered at every hop.
 */
module Truth {
  import opened Base
  import opened Ids
  import opened Market
  import opened Books
  import opened Replica
  import opened Wire

  // Depth asked of the venue when a book is rebuilt.
  const SNAPSHOT_DEPTH: nat := 100

  datatype Sides = Sides(bids: map<int, int>, asks: map<int, int>)

  // The venue's own book for a symbol after each of its updates.
  type Venue = (Symbol, nat) -> Sides

  ghost function SideAt(v: Venue, k: Symbol, n: nat, bid: bool): map<int, int> {
    if bid then v(k, n).bids else v(k, n).asks
  }

  ghost function SideOf(book: Book, bid: bool): seq<Level> {
    if bid then book.bids else book.asks
  }

  ghost function UpdatesOf(delta: Delta, bid: bool): seq<Level> {
    if bid then delta.bids else delta.asks
  }

  ghost predicate RealVenue(v: Venue) {
    forall k, n, bid, p :: p in SideAt(v, k, n, bid) ==> SideAt(v, k, n, bid)[p] != 0
  }

  // An update covering `(prev, last]`: it gives the final quantity at each price it mentions, and
  // nothing happened in between at the prices it does not.
  ghost predicate FaithfulDelta(v: Venue, d: Delta) {
    forall bid, p :: FaithfulAt(v, d, bid, p)
  }

  ghost predicate FaithfulAt(v: Venue, d: Delta, bid: bool, p: int) {
    match LastWord(UpdatesOf(d, bid), p)
    case Some(qty) => qty == QtyAt(SideAt(v, d.symbol, d.lastUpdateId, bid), p)
    case None => forall n :: d.prevUpdateId <= n <= d.lastUpdateId ==>
      QtyAt(SideAt(v, d.symbol, n, bid), p) == QtyAt(SideAt(v, d.symbol, d.lastUpdateId, bid), p)
  }

  // A snapshot lists the best levels of one venue state, in order; it leaves out only what lies
  // beyond a full page.
  ghost predicate FaithfulSnapshot(v: Venue, k: Symbol, s: Book) {
    && s.symbol == Some(k) && !s.synced
    && FaithfulPage(SideAt(v, k, s.lastUpdateId, true), s.bids, true)
    && FaithfulPage(SideAt(v, k, s.lastUpdateId, false), s.asks, false)
  }

  ghost predicate FaithfulPage(m: map<int, int>, side: seq<Level>, descending: bool) {
    && SortedSide(side, descending)
    && (forall p :: p in Levels(side) ==> p in m && Levels(side)[p] == m[p])
    && (forall p :: p in m && p !in Levels(side) ==>
          |side| >= SNAPSHOT_DEPTH && Better(side[|side| - 1].price, p, descending))
  }

  // The prices a snapshot speaks for: all of them if it is short, else down to its last level.
  ghost predicate Covers(s: Book, bid: bool, p: int) {
    var side := SideOf(s, bid);
    |side| < SNAPSHOT_DEPTH || !Better(side[|side| - 1].price, p, bid)
  }

  // Exact wherever the snapshot spoke, and no false level anywhere.
  ghost predicate TrueTo(v: Venue, k: Symbol, book: Book, s: Book) {
    && book.symbol == Some(k) && s.lastUpdateId <= book.lastUpdateId
    && (forall bid :: SideTrueTo(v, k, book, s, bid))
  }

  ghost predicate SideTrueTo(v: Venue, k: Symbol, book: Book, s: Book, bid: bool) {
    var m, shown := SideAt(v, k, book.lastUpdateId, bid), Levels(SideOf(book, bid));
    && SortedSide(SideOf(book, bid), bid)
    && (forall p :: Covers(s, bid, p) ==> QtyAt(shown, p) == QtyAt(m, p))
    && (forall p :: p in shown ==> p in m && shown[p] == m[p])
  }

  lemma FaithfulIsTrue(v: Venue, k: Symbol, s: Book)
    requires FaithfulSnapshot(v, k, s)
    ensures TrueTo(v, k, s, s)
  {
    assert SideTrueTo(v, k, s, s, true);
    assert SideTrueTo(v, k, s, s, false);
  }

  // What the venue answers to a depth request: the best levels of both sides at the id it states.
  ghost predicate ServedPage(v: Venue, k: Symbol, s: DepthSnapshot) {
    && FaithfulPage(SideAt(v, k, s.lastUpdateId, true), s.bids, true)
    && FaithfulPage(SideAt(v, k, s.lastUpdateId, false), s.asks, false)
  }

  // Translated, such an answer is a faithful snapshot, and true as it stands.
  lemma SnapshotIsTrue(v: Venue, k: Symbol, s: DepthSnapshot, ts: int)
    requires ServedPage(v, k, s)
    ensures var book := SnapshotIntoDomain(s, k, ts);
            FaithfulSnapshot(v, k, book) && TrueTo(v, k, book, book) && book.ts == ts
  {
    FaithfulIsTrue(v, k, SnapshotIntoDomain(s, k, ts));
  }

  // The states an event on the wire speaks about, up to the one it leads to: from the one it names as
  // its predecessor's, or from just before its first id.
  predicate Spans(u: DepthUpdate, n: nat) {
    n <= u.final && match u.prevFinal case Some(pu) => pu <= n case None => u.first <= n + 1
  }

  // It gives the final quantity at each price it mentions; the others rest throughout.
  ghost predicate ServedUpdate(v: Venue, k: Symbol, u: DepthUpdate) {
    forall bid, p :: ServedAt(v, k, u, bid, p)
  }

  ghost predicate ServedAt(v: Venue, k: Symbol, u: DepthUpdate, bid: bool, p: int) {
    match LastWord(if bid then u.bids else u.asks, p)
    case Some(qty) => qty == QtyAt(SideAt(v, k, u.final, bid), p)
    case None => forall n :: Spans(u, n) ==>
      QtyAt(SideAt(v, k, n, bid), p) == QtyAt(SideAt(v, k, u.final, bid), p)
  }

  // Translated, an event of either scheme is a faithful update.
  lemma UpdateIsFaithful(v: Venue, k: Symbol, u: DepthUpdate)
    requires ServedUpdate(v, k, u)
    ensures var d := UpdateIntoDomain(u, k); FaithfulDelta(v, d) && d.symbol == k && d.ts == u.eventTime
  {
    var d := UpdateIntoDomain(u, k);
    forall bid, p
      ensures FaithfulAt(v, d, bid, p)
    {
      assert ServedAt(v, k, u, bid, p);
      forall n | d.prevUpdateId <= n <= d.lastUpdateId
        ensures Spans(u, n)
      {
      }
    }
  }

  // Every outcome of `apply` on a true copy leaves a true copy, under the join rule and under the
  // strict chain rule alike.
  lemma ApplyKeepsTruth(v: Venue, k: Symbol, book: Book, s: Book, d: Delta)
    requires RealVenue(v) && TrueTo(v, k, book, s) && FaithfulDelta(v, d) && d.symbol == k
    ensures TrueTo(v, k, ApplyDelta(book, d).0, s)
  {
    var (book', outcome) := ApplyDelta(book, d);
    if outcome == Applied {
      forall bid
        ensures SideTrueTo(v, k, book', s, bid)
      {
        assert SideTrueTo(v, k, book, s, bid);
        SideKeepsTruth(v, k, book, s, d, bid);
      }
    }
  }

  lemma SideKeepsTruth(v: Venue, k: Symbol, book: Book, s: Book, d: Delta, bid: bool)
    requires RealVenue(v) && SideTrueTo(v, k, book, s, bid) && FaithfulDelta(v, d) && d.symbol == k
    requires ApplyDelta(book, d).1 == Applied
    ensures SideTrueTo(v, k, ApplyDelta(book, d).0, s, bid)
  {
    var book' := ApplyDelta(book, d).0;
    var updates := UpdatesOf(d, bid);
    var before, after := Levels(SideOf(book, bid)), Levels(SideOf(book', bid));
    var m, m' := SideAt(v, k, book.lastUpdateId, bid), SideAt(v, k, d.lastUpdateId, bid);
    SideRefinesMap(SideOf(book, bid), updates, bid);
    assert after == SetLevels(before, updates);
    forall p
      ensures Covers(s, bid, p) ==> QtyAt(after, p) == QtyAt(m', p)
      ensures p in after ==> p in m' && after[p] == m'[p]
    {
      assert FaithfulAt(v, d, bid, p);
      if p in before { LevelsNotEmpty(SideOf(book, bid), bid, p); }
      assert d.prevUpdateId <= book.lastUpdateId <= d.lastUpdateId;
      PriceKeepsTruth(m, m', before, updates, p, Covers(s, bid, p));
    }
  }

  // One price: the update either states its new quantity, or the venue left it alone.
  lemma PriceKeepsTruth(m: map<int, int>, m': map<int, int>, before: map<int, int>, updates: seq<Level>, p: int,
                        covered: bool)
    requires p in before ==> p in m && before[p] == m[p] && before[p] != 0
    requires covered ==> QtyAt(before, p) == QtyAt(m, p)
    requires p in m' ==> m'[p] != 0
    requires match LastWord(updates, p)
             case Some(qty) => qty == QtyAt(m', p)
             case None => QtyAt(m, p) == QtyAt(m', p)
    ensures var after := SetLevels(before, updates);
            && (covered ==> QtyAt(after, p) == QtyAt(m', p))
            && (p in after ==> p in m' && after[p] == m'[p])
  {
    SetLevelsAt(before, updates, p);
  }

  // ---------------------------------------------------------------- the whole delivery system

  // `published` is what the connector ever sent to the core, `relayed` what the core ever sent to
  // the terminal. Nothing is removed from either: any of it may arrive at any time, again or never.
  datatype World = World(entries: map<Symbol, Entry>, core: map<Symbol, Book>, terminal: map<Symbol, Book>,
                         fetched: set<Book>, published: set<Event>, relayed: set<Event>)

  datatype Move =
    | Update(delta: Delta, now: int)
    | SnapshotArrives(snapshot: Book, now: int)
    | FetchFails(symbol: Symbol)
    | ConnectorResets
    | CoreHears(event: Event)
    | CoreServes(symbol: Symbol)
    | TerminalHears(event: Event)
    | TerminalClears

  ghost predicate Allowed(v: Venue, w: World, move: Move) {
    match move
    case Update(delta, _) => FaithfulDelta(v, delta)
    case SnapshotArrives(snapshot, _) => snapshot.symbol.Some? && FaithfulSnapshot(v, snapshot.symbol.value, snapshot)
    case CoreHears(e) => e in w.published
    case TerminalHears(e) => e in w.relayed
    case _ => true
  }

  ghost function Moved(w: World, move: Move, cooldownMs: int): World {
    match move
    case Update(delta, now) => FromConnector(w, DeltaIn(delta, now), cooldownMs)
    case SnapshotArrives(snapshot, now) =>
      FromConnector(w, Fetched(snapshot, now), cooldownMs).(fetched := w.fetched + {snapshot})
    case FetchFails(symbol) => FromConnector(w, FetchFailed(symbol), cooldownMs)
    case ConnectorResets => FromConnector(w, Reconnect, cooldownMs)
    case CoreHears(e) => w.(core := FoldBooks(w.core, e), relayed := w.relayed + {e})
    case CoreServes(symbol) =>
      if symbol in w.core && w.core[symbol].synced then w.(relayed := w.relayed + {BookSnapshot(w.core[symbol])}) else w
    case TerminalHears(e) => w.(terminal := FoldBooks(w.terminal, e))
    case TerminalClears => w.(terminal := map[])
  }

  ghost function FromConnector(w: World, op: Op, cooldownMs: int): World {
    var c := Step(Conn(w.entries, []), op, cooldownMs);
    w.(entries := c.entries, published := w.published + set e | e in c.sent)
  }

  // The copy grew out of a snapshot the venue really served, and is true to it.
  ghost predicate Grounded(v: Venue, fetched: set<Book>, k: Symbol, book: Book) {
    exists s :: s in fetched && RootOf(v, k, book, s)
  }

  ghost predicate RootOf(v: Venue, k: Symbol, book: Book, s: Book) {
    FaithfulSnapshot(v, k, s) && TrueTo(v, k, book, s) && GrewFrom(book, s)
  }

  ghost predicate GrewFrom(book: Book, s: Book) {
    exists deltas :: Replay(s, deltas) == Some(book)
  }

  lemma ApplyGrows(book: Book, s: Book, d: Delta)
    requires GrewFrom(book, s)
    ensures GrewFrom(ApplyDelta(book, d).0, s)
  {
    var deltas :| Replay(s, deltas) == Some(book);
    if ApplyDelta(book, d).1 == Applied {
      ReplayConcat(s, deltas, [d]);
      assert Replay(s, deltas + [d]) == Replay(ApplyDelta(book, d).0, []);
    }
  }

  ghost predicate GroundedCopies(v: Venue, fetched: set<Book>, books: map<Symbol, Book>) {
    forall k :: k in books ==> Grounded(v, fetched, k, books[k])
  }

  ghost predicate GroundedEvent(v: Venue, fetched: set<Book>, e: Event) {
    match e
    case BookSnapshot(book) => book.symbol.Some? && Grounded(v, fetched, book.symbol.value, book)
    case BookDelta(delta) => FaithfulDelta(v, delta)
    case _ => true
  }

  ghost predicate GroundedEntry(v: Venue, fetched: set<Book>, k: Symbol, e: Entry) {
    && (e.book.Some? ==> Grounded(v, fetched, k, e.book.value))
    && (forall d :: d in e.buffered ==> FaithfulDelta(v, d) && d.symbol == k)
  }

  ghost predicate NoLies(v: Venue, w: World) {
    && (forall k :: k in w.entries ==> GroundedEntry(v, w.fetched, k, w.entries[k]))
    && GroundedCopies(v, w.fetched, w.core) && GroundedCopies(v, w.fetched, w.terminal)
    && (forall e :: e in w.published ==> GroundedEvent(v, w.fetched, e))
    && (forall e :: e in w.relayed ==> GroundedEvent(v, w.fetched, e))
  }

  lemma GroundedApply(v: Venue, fetched: set<Book>, k: Symbol, book: Book, d: Delta)
    requires RealVenue(v) && Grounded(v, fetched, k, book) && FaithfulDelta(v, d) && d.symbol == k
    ensures Grounded(v, fetched, k, ApplyDelta(book, d).0)
  {
    var s :| s in fetched && RootOf(v, k, book, s);
    ApplyKeepsTruth(v, k, book, s, d);
    ApplyGrows(book, s, d);
  }

  lemma {:induction false} GroundedReplay(v: Venue, fetched: set<Book>, k: Symbol, book: Book, deltas: seq<Delta>)
    requires RealVenue(v) && Grounded(v, fetched, k, book)
    requires forall d :: d in deltas ==> FaithfulDelta(v, d) && d.symbol == k
    ensures Replay(book, deltas).Some? ==> Grounded(v, fetched, k, Replay(book, deltas).value)
    decreases |deltas|
  {
    if deltas != [] {
      GroundedApply(v, fetched, k, book, deltas[0]);
      GroundedReplay(v, fetched, k, ApplyDelta(book, deltas[0]).0, deltas[1..]);
    }
  }

  lemma FoldKeepsTruth(v: Venue, fetched: set<Book>, books: map<Symbol, Book>, e: Event)
    requires RealVenue(v) && GroundedCopies(v, fetched, books) && GroundedEvent(v, fetched, e)
    ensures GroundedCopies(v, fetched, FoldBooks(books, e))
  {
    if e.BookDelta? && e.delta.symbol in books {
      GroundedApply(v, fetched, e.delta.symbol, books[e.delta.symbol], e.delta);
    }
  }

  lemma FeedKeepsTruth(v: Venue, fetched: set<Book>, e: Entry, d: Delta, now: int, cooldownMs: int)
    requires RealVenue(v) && GroundedEntry(v, fetched, d.symbol, e) && FaithfulDelta(v, d)
    ensures GroundedEntry(v, fetched, d.symbol, Feed(e, d, now, cooldownMs).0)
  {
    HoldKeepsTruth(v, fetched, e, d, now, cooldownMs);
    HoldKeepsTruth(v, fetched, e.(book := None), d, now, cooldownMs);
    if e.book.Some? {
      GroundedApply(v, fetched, d.symbol, e.book.value, d);
    }
  }

  lemma HoldKeepsTruth(v: Venue, fetched: set<Book>, e: Entry, d: Delta, now: int, cooldownMs: int)
    requires GroundedEntry(v, fetched, d.symbol, e) && FaithfulDelta(v, d)
    ensures GroundedEntry(v, fetched, d.symbol, Hold(e, d, now, cooldownMs).0)
  {
  }

  lemma UpdateKeepsTruth(v: Venue, w: World, d: Delta, now: int, cooldownMs: int)
    requires RealVenue(v) && NoLies(v, w) && FaithfulDelta(v, d)
    ensures NoLies(v, Moved(w, Update(d, now), cooldownMs))
  {
    var k := d.symbol;
    var e := EntryFor(w.entries, k);
    FeedKeepsTruth(v, w.fetched, e, d, now, cooldownMs);
    var (e', outcome) := Feed(e, d, now, cooldownMs);
    var sent := Step(Conn(w.entries, []), DeltaIn(d, now), cooldownMs).sent;
    forall x | x in sent
      ensures GroundedEvent(v, w.fetched, x)
    {
      assert x.BookSnapshot? ==> Some(x.book) == e'.book;
      if x.BookSnapshot? {
        var s :| s in w.fetched && RootOf(v, k, x.book, s);
      }
    }
  }

  lemma Widened(v: Venue, w: World, fetched: set<Book>)
    requires NoLies(v, w) && w.fetched <= fetched
    ensures NoLies(v, w.(fetched := fetched))
  {
    forall k, book | Grounded(v, w.fetched, k, book)
      ensures Grounded(v, fetched, k, book)
    {
      var s :| s in w.fetched && RootOf(v, k, book, s);
    }
  }

  lemma SnapshotKeepsTruth(v: Venue, w: World, snapshot: Book, now: int, cooldownMs: int)
    requires RealVenue(v) && NoLies(v, w)
    requires snapshot.symbol.Some? && FaithfulSnapshot(v, snapshot.symbol.value, snapshot)
    ensures NoLies(v, Moved(w, SnapshotArrives(snapshot, now), cooldownMs))
  {
    var k, fetched := snapshot.symbol.value, w.fetched + {snapshot};
    Widened(v, w, fetched);
    FaithfulIsTrue(v, k, snapshot);
    assert Replay(snapshot, []) == Some(snapshot);
    assert RootOf(v, k, snapshot, snapshot);
    assert Grounded(v, fetched, k, snapshot);
    if k in w.entries {
      InstallKeepsTruth(v, fetched, k, w.entries[k], snapshot, now);
      InstalledWorld(v, w.(fetched := fetched), k, snapshot, now, cooldownMs);
    }
  }

  lemma InstallKeepsTruth(v: Venue, fetched: set<Book>, k: Symbol, e: Entry, snapshot: Book, now: int)
    requires RealVenue(v) && GroundedEntry(v, fetched, k, e) && Grounded(v, fetched, k, snapshot)
    ensures var (e', joined) := Install(e, snapshot, now);
            GroundedEntry(v, fetched, k, e') && (joined.Some? ==> Grounded(v, fetched, k, joined.value))
  {
    GroundedReplay(v, fetched, k, snapshot, e.buffered);
  }

  lemma InstalledWorld(v: Venue, w: World, k: Symbol, snapshot: Book, now: int, cooldownMs: int)
    requires NoLies(v, w) && k in w.entries && snapshot.symbol == Some(k)
    requires var (e', joined) := Install(w.entries[k], snapshot, now);
             GroundedEntry(v, w.fetched, k, e') && (joined.Some? ==> Grounded(v, w.fetched, k, joined.value))
    ensures NoLies(v, FromConnector(w, Fetched(snapshot, now), cooldownMs))
  {
    ReplayKeepsSymbol(snapshot, w.entries[k].buffered);
    var (e', joined) := Install(w.entries[k], snapshot, now);
    var sent := Step(Conn(w.entries, []), Fetched(snapshot, now), cooldownMs).sent;
    assert sent == if joined.Some? then [BookSnapshot(joined.value)] else [];
    forall e | e in sent
      ensures GroundedEvent(v, w.fetched, e)
    {
      assert e == BookSnapshot(joined.value);
    }
  }

  lemma GroundedSymbol(v: Venue, fetched: set<Book>, k: Symbol, book: Book)
    requires Grounded(v, fetched, k, book)
    ensures book.symbol == Some(k)
  {
    var s :| s in fetched && RootOf(v, k, book, s);
  }

  lemma ServingKeepsTruth(v: Venue, w: World, symbol: Symbol, cooldownMs: int)
    requires NoLies(v, w)
    ensures NoLies(v, Moved(w, CoreServes(symbol), cooldownMs))
  {
    if symbol in w.core {
      var book := w.core[symbol];
      assert Grounded(v, w.fetched, symbol, book);
      GroundedSymbol(v, w.fetched, symbol, book);
      assert GroundedEvent(v, w.fetched, BookSnapshot(book));
    }
  }

  lemma MoveKeepsTruth(v: Venue, w: World, move: Move, cooldownMs: int)
    requires RealVenue(v) && NoLies(v, w) && Allowed(v, w, move)
    ensures NoLies(v, Moved(w, move, cooldownMs))
  {
    match move {
      case Update(delta, now) => UpdateKeepsTruth(v, w, delta, now, cooldownMs);
      case SnapshotArrives(snapshot, now) => SnapshotKeepsTruth(v, w, snapshot, now, cooldownMs);
      case FetchFails(symbol) =>
      case ConnectorResets =>
      case CoreHears(e) => FoldKeepsTruth(v, w.fetched, w.core, e);
      case CoreServes(symbol) => ServingKeepsTruth(v, w, symbol, cooldownMs);
      case TerminalHears(e) => FoldKeepsTruth(v, w.fetched, w.terminal, e);
      case TerminalClears =>
    }
  }

  ghost function After(moves: seq<Move>, cooldownMs: int): World {
    if moves == [] then World(map[], map[], map[], {}, {}, {})
    else Moved(After(moves[..|moves| - 1], cooldownMs), moves[|moves| - 1], cooldownMs)
  }

  ghost predicate Happens(v: Venue, moves: seq<Move>, cooldownMs: int) {
    moves == [] ||
    (var n := |moves| - 1;
     Happens(v, moves[..n], cooldownMs) && Allowed(v, After(moves[..n], cooldownMs), moves[n]))
  }

  lemma {:induction false} RunKeepsTruth(v: Venue, moves: seq<Move>, cooldownMs: int)
    requires RealVenue(v) && Happens(v, moves, cooldownMs)
    ensures NoLies(v, After(moves, cooldownMs))
  {
    if moves != [] {
      var n := |moves| - 1;
      RunKeepsTruth(v, moves[..n], cooldownMs);
      MoveKeepsTruth(v, After(moves[..n], cooldownMs), moves[n], cooldownMs);
    }
  }

  // However updates and events are lost, repeated and reordered on the way, any book held by the
  // connector, the core or the terminal grew from a snapshot the venue served and is the venue's
  // book at its own update id: exactly so on every price that snapshot covered, and without a
  // false level elsewhere.
  lemma TruthUnderAnyDelivery(v: Venue, moves: seq<Move>, cooldownMs: int, k: Symbol, book: Book)
    returns (s: Book, deltas: seq<Delta>)
    requires RealVenue(v) && Happens(v, moves, cooldownMs)
    requires var w := After(moves, cooldownMs);
             || LiveBook(w.entries, k) == Some(book)
             || Lookup(w.core, k) == Some(book)
             || Lookup(w.terminal, k) == Some(book)
    ensures s in After(moves, cooldownMs).fetched && FaithfulSnapshot(v, k, s)
    ensures Replay(s, deltas) == Some(book)
    ensures forall bid, p :: Covers(s, bid, p) ==>
              QtyAt(Levels(SideOf(book, bid)), p) == QtyAt(SideAt(v, k, book.lastUpdateId, bid), p)
    ensures forall bid, p :: p in Levels(SideOf(book, bid)) ==>
              QtyAt(Levels(SideOf(book, bid)), p) == QtyAt(SideAt(v, k, book.lastUpdateId, bid), p)
    ensures SortedSide(book.bids, true) && SortedSide(book.asks, false)
  {
    RunKeepsTruth(v, moves, cooldownMs);
    s :| s in After(moves, cooldownMs).fetched && RootOf(v, k, book, s);
    deltas :| Replay(s, deltas) == Some(book);
    assert SideTrueTo(v, k, book, s, true) && SideTrueTo(v, k, book, s, false);
  }
}
