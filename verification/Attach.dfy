/**
 How one symbol's entry behaves over a run (crates/marketdata/src/books.rs): attachment of a
 snapshot to a gapless stream, and how often snapshots are asked for.
 */
module Attach {
  import opened Base
  import opened Ids
  import opened Market
  import opened Books
  import opened Wire
  import opened Replica

  // ---------------------------------------------------------------- attachment converges

  function FeedAll(e: Entry, ds: seq<Delta>, nows: seq<int>, cooldownMs: int): Entry
    requires |ds| == |nows|
  {
    if ds == [] then e
    else
      var n := |ds| - 1;
      Feed(FeedAll(e, ds[..n], nows[..n], cooldownMs), ds[n], nows[n], cooldownMs).0
  }

  // A bookless entry keeps everything it is fed while the buffer has room.
  lemma {:induction false} AllBuffered(e: Entry, ds: seq<Delta>, nows: seq<int>, cooldownMs: int)
    requires |ds| == |nows| && e.book.None? && |e.buffered| + |ds| <= MAX_BUFFERED
    ensures var f := FeedAll(e, ds, nows, cooldownMs); f.book.None? && f.buffered == e.buffered + ds
  {
    if ds != [] {
      var n := |ds| - 1;
      AllBuffered(e, ds[..n], nows[..n], cooldownMs);
      assert ds == ds[..n] + [ds[n]];
    }
  }

  // Where a snapshot stands after a gapless stream it is not behind of has been replayed onto it.
  ghost predicate Joined(snapshot: Book, ds: seq<Delta>, book: Book) {
    if ds == [] || ds[|ds| - 1].lastUpdateId <= snapshot.lastUpdateId then book == snapshot
    else book.synced && book.lastUpdateId == ds[|ds| - 1].lastUpdateId
  }

  lemma GaplessPrefix(ds: seq<Delta>, n: nat)
    requires Gapless(ds) && n <= |ds|
    ensures Gapless(ds[..n])
  {
  }

  // On a stream without holes, replay meets a gap exactly when the snapshot is older than its start.
  lemma {:induction false} ReplayJoins(snapshot: Book, ds: seq<Delta>)
    requires Gapless(ds) && !snapshot.synced
    ensures Replay(snapshot, ds).Some? <==> ds == [] || ds[0].prevUpdateId <= snapshot.lastUpdateId
    ensures Replay(snapshot, ds).Some? ==> Joined(snapshot, ds, Replay(snapshot, ds).value)
  {
    var n := |ds| - 1;
    if n == 0 {
      ReplayOne(snapshot, ds[0]);
      assert ds == [ds[0]];
    } else if n > 0 {
      GaplessPrefix(ds, n);
      ReplayJoins(snapshot, ds[..n]);
      assert ds[..n][0] == ds[0];
      ReplayConcat(snapshot, ds[..n], [ds[n]]);
      assert ds == ds[..n] + [ds[n]];
      if Replay(snapshot, ds[..n]).Some? {
        JoinsOneMore(snapshot, ds, Replay(snapshot, ds[..n]).value);
      }
    }
  }

  lemma ReplayOne(book: Book, d: Delta)
    ensures Replay(book, [d]) == var (b, o) := ApplyDelta(book, d); if o.Gap? then None else Some(b)
  {
    assert [d][1..] == [];
  }

  // The stream's last update, on what the snapshot has become before it.
  lemma JoinsOneMore(snapshot: Book, ds: seq<Delta>, book: Book)
    requires Gapless(ds) && !snapshot.synced && ds != []
    requires Joined(snapshot, ds[..|ds| - 1], book)
    requires ds[0].prevUpdateId <= snapshot.lastUpdateId
    ensures Replay(book, [ds[|ds| - 1]]).Some?
    ensures Joined(snapshot, ds, Replay(book, [ds[|ds| - 1]]).value)
  {
    var n := |ds| - 1;
    ReplayOne(book, ds[n]);
    if n > 0 {
      assert ds[..n][n - 1] == ds[n - 1] && ds[n].prevUpdateId == ds[n - 1].lastUpdateId;
    }
  }

  // Once a book is in place, feeding it the rest of the stream is replaying it.
  lemma {:induction false} FeedIsReplay(e: Entry, ds: seq<Delta>, nows: seq<int>, cooldownMs: int)
    requires |ds| == |nows| && e.book.Some? && Replay(e.book.value, ds).Some?
    ensures var f := FeedAll(e, ds, nows, cooldownMs);
            f.book == Replay(e.book.value, ds) && f.requestedAt == e.requestedAt && f.awaiting == e.awaiting
  {
    if ds != [] {
      var n := |ds| - 1;
      assert ds == ds[..n] + [ds[n]];
      ReplayConcat(e.book.value, ds[..n], [ds[n]]);
      FeedIsReplay(e, ds[..n], nows[..n], cooldownMs);
      var b := Replay(e.book.value, ds[..n]).value;
      ReplayOne(b, ds[n]);
    }
  }

  // The outcome of the next update of the stream.
  lemma NextUpdate(snapshot: Book, ds: seq<Delta>, j: nat, f: Entry, now: int, cooldownMs: int)
    requires Gapless(ds) && 0 < j < |ds| && !snapshot.synced
    requires f.book.Some? && Joined(snapshot, ds[..j], f.book.value)
    requires ds[0].prevUpdateId <= snapshot.lastUpdateId
    ensures var outcome := Feed(f, ds[j], now, cooldownMs).1;
            && outcome.need == Nothing
            && (outcome.forward <==> snapshot.lastUpdateId < ds[j - 1].lastUpdateId)
            && (outcome.attached <==> ds[j - 1].lastUpdateId <= snapshot.lastUpdateId < ds[j].lastUpdateId)
  {
    assert ds[..j][|ds[..j]| - 1] == ds[j - 1];
    assert ds[j].prevUpdateId == ds[j - 1].lastUpdateId;
  }

  // What becomes of an entry in which `m` updates of the stream `ds` wait when the snapshot comes
  // in, after `j` of its updates in all. The snapshot is taken if and only if it is not older than
  // the stream's start. From then on the book is there, is synced exactly when the latest update is
  // past the snapshot, and no further snapshot is asked for; the update that makes the difference,
  // and no other, is announced as the attachment, and each one after it is forwarded.
  ghost predicate Attaches(waiting: Entry, ds: seq<Delta>, nows: seq<int>, m: nat, j: nat, snapshot: Book, now: int,
                           cooldownMs: int)
    requires |nows| == |ds| && 0 < m <= j <= |ds|
  {
    var (e, joined) := Install(waiting, snapshot, now);
    if snapshot.lastUpdateId < ds[0].prevUpdateId then e.book.None? && e.buffered == [] && joined.None?
    else
      var f := FeedAll(e, ds[m..j], nows[m..j], cooldownMs);
      && (joined.Some? <==> snapshot.lastUpdateId < ds[m - 1].lastUpdateId)
      && f.book.Some? && f.book == Replay(snapshot, ds[..j])
      && (f.book.value.synced <==> snapshot.lastUpdateId < ds[j - 1].lastUpdateId)
      && f.requestedAt == waiting.requestedAt && !f.awaiting
      && (j < |ds| ==>
            var outcome := Feed(f, ds[j], nows[j], cooldownMs).1;
            && outcome.need == Nothing
            && (outcome.forward <==> snapshot.lastUpdateId < ds[j - 1].lastUpdateId)
            && (outcome.attached <==> ds[j - 1].lastUpdateId <= snapshot.lastUpdateId < ds[j].lastUpdateId))
  }

  lemma WaitingAttaches(waiting: Entry, ds: seq<Delta>, nows: seq<int>, m: nat, j: nat, snapshot: Book, now: int,
                        cooldownMs: int)
    requires Gapless(ds) && |nows| == |ds| && 0 < m <= j <= |ds| && !snapshot.synced
    requires waiting.book.None? && waiting.buffered == ds[..m]
    ensures Attaches(waiting, ds, nows, m, j, snapshot, now, cooldownMs)
  {
    JoinsAt(snapshot, ds, m);
    if ds[0].prevUpdateId <= snapshot.lastUpdateId {
      var e := Install(waiting, snapshot, now).0;
      ReplayConcat(snapshot, ds[..m], ds[m..j]);
      assert ds[..j] == ds[..m] + ds[m..j];
      JoinsAt(snapshot, ds, j);
      FeedIsReplay(e, ds[m..j], nows[m..j], cooldownMs);
      if j < |ds| {
        NextUpdate(snapshot, ds, j, FeedAll(e, ds[m..j], nows[m..j], cooldownMs), nows[j], cooldownMs);
      }
    }
  }

  // Attachment converges: on a gapless stream, with no overflow and no second snapshot.
  lemma AttachmentConverges(k: Symbol, ds: seq<Delta>, nows: seq<int>, m: nat, j: nat, snapshot: Book, now: int,
                            cooldownMs: int)
    requires Gapless(ds) && |nows| == |ds| && 0 < m <= j <= |ds| && m <= MAX_BUFFERED && !snapshot.synced
    ensures Attaches(FeedAll(NewEntry(k), ds[..m], nows[..m], cooldownMs), ds, nows, m, j, snapshot, now, cooldownMs)
  {
    var waiting := FeedAll(NewEntry(k), ds[..m], nows[..m], cooldownMs);
    AllBuffered(NewEntry(k), ds[..m], nows[..m], cooldownMs);
    assert waiting.buffered == ds[..m] by { assert [] + ds[..m] == ds[..m]; }
    WaitingAttaches(waiting, ds, nows, m, j, snapshot, now, cooldownMs);
  }

  // A stretch of a gapless stream is dropped. A live book that had taken update `i` is gone with the
  // next update that arrives, `j`; no consumer is shown it any more; and with the rest of the stream
  // and a snapshot that is not older than update `j`'s start the book is there again, as it is for a
  // symbol that never had one.
  lemma DroppedStretchRebuilds(entries: map<Symbol, Entry>, k: Symbol, ds: seq<Delta>, i: nat, j: nat, at: int,
                               cooldownMs: int)
    requires Gapless(ds) && i + 1 < j < |ds| && ds[j].symbol == k
    requires k in entries && EntryOk(k, entries[k]) && LiveBook(entries, k).Some?
    requires LiveBook(entries, k).value.lastUpdateId == ds[i].lastUpdateId
    ensures var (e, outcome) := Feed(EntryFor(entries, k), ds[j], at, cooldownMs);
            && LiveBook(entries[k := e], k).None? && e.book.None? && e.buffered == [ds[j]]
            && !outcome.forward && !outcome.attached
  {
    GaplessRises(ds, i, j - 1);
    GaplessRises(ds, i, j);
    GapRebuilds(k, entries[k], ds[j], at, cooldownMs);
  }

  lemma RebuiltAfterDrop(k: Symbol, e: Entry, ds: seq<Delta>, nows: seq<int>, m: nat, j: nat, snapshot: Book, now: int,
                         cooldownMs: int)
    requires EntryOk(k, e) && e.book.Some? && e.book.value.synced
    requires Gapless(ds) && |nows| == |ds| && 0 < m <= j <= |ds| && m <= MAX_BUFFERED && !snapshot.synced
    requires e.book.value.lastUpdateId < ds[0].prevUpdateId
    ensures var gapped := Feed(e, ds[0], nows[0], cooldownMs).0;
            Attaches(FeedAll(gapped, ds[1..m], nows[1..m], cooldownMs), ds, nows, m, j, snapshot, now, cooldownMs)
  {
    GapRebuilds(k, e, ds[0], nows[0], cooldownMs);
    var gapped := Feed(e, ds[0], nows[0], cooldownMs).0;
    AllBuffered(gapped, ds[1..m], nows[1..m], cooldownMs);
    assert [ds[0]] + ds[1..m] == ds[..m];
    WaitingAttaches(FeedAll(gapped, ds[1..m], nows[1..m], cooldownMs), ds, nows, m, j, snapshot, now, cooldownMs);
  }

  lemma JoinsAt(snapshot: Book, ds: seq<Delta>, n: nat)
    requires Gapless(ds) && !snapshot.synced && 0 < n <= |ds|
    ensures Replay(snapshot, ds[..n]).Some? <==> ds[0].prevUpdateId <= snapshot.lastUpdateId
    ensures Replay(snapshot, ds[..n]).Some? ==>
              var book := Replay(snapshot, ds[..n]).value;
              Joined(snapshot, ds[..n], book) && (book.synced <==> snapshot.lastUpdateId < ds[n - 1].lastUpdateId)
  {
    GaplessPrefix(ds, n);
    ReplayJoins(snapshot, ds[..n]);
    assert ds[..n][|ds[..n]| - 1] == ds[n - 1] && ds[..n][0] == ds[0];
  }

  // ---------------------------------------------------------------- rejected snapshots

  // The id reached by taking whatever in `ds` is newer than what came before it.
  function Reach(id: nat, ds: seq<Delta>): (r: nat)
    ensures id <= r
  {
    if ds == [] then id else Max(Reach(id, ds[..|ds| - 1]), ds[|ds| - 1].lastUpdateId)
  }

  // Update `i` is new to a book that started as `snapshot`, and does not continue it: by the join
  // rule while nothing has been applied, by the chain rule afterwards.
  predicate BreaksAt(snapshot: Book, ds: seq<Delta>, i: nat)
    requires i < |ds|
  {
    var at := Reach(snapshot.lastUpdateId, ds[..i]);
    && at < ds[i].lastUpdateId
    && if !snapshot.synced && at == snapshot.lastUpdateId then at < ds[i].prevUpdateId else at != ds[i].prevUpdateId
  }

  predicate Breaks(snapshot: Book, ds: seq<Delta>) {
    exists i :: 0 <= i < |ds| && BreaksAt(snapshot, ds, i)
  }

  lemma BreaksOneMore(snapshot: Book, ds: seq<Delta>, d: Delta)
    ensures Breaks(snapshot, ds + [d]) <==> Breaks(snapshot, ds) || BreaksAt(snapshot, ds + [d], |ds|)
  {
    forall i | 0 <= i < |ds|
      ensures BreaksAt(snapshot, ds + [d], i) <==> BreaksAt(snapshot, ds, i)
    {
      assert (ds + [d])[..i] == ds[..i];
    }
  }

  lemma ReachOneMore(id: nat, ds: seq<Delta>, d: Delta)
    ensures Reach(id, ds + [d]) == Max(Reach(id, ds), d.lastUpdateId)
    ensures (ds + [d])[..|ds|] == ds
  {
    assert (ds + [d])[..|ds|] == ds;
  }

  // Whatever is in the buffer, holes, repetitions and disorder included: replay stops exactly if
  // some update breaks the chain, and otherwise ends at the newest id it saw.
  lemma {:induction false} ReplayBreaks(snapshot: Book, ds: seq<Delta>)
    ensures Replay(snapshot, ds).None? <==> Breaks(snapshot, ds)
    ensures Replay(snapshot, ds).Some? ==>
              var book := Replay(snapshot, ds).value;
              && book.lastUpdateId == Reach(snapshot.lastUpdateId, ds)
              && (book.synced <==> snapshot.synced || snapshot.lastUpdateId < book.lastUpdateId)
  {
    if ds != [] {
      var n := |ds| - 1;
      var before, d := ds[..n], ds[n];
      ReplayBreaks(snapshot, before);
      assert ds == before + [d];
      BreaksOneMore(snapshot, before, d);
      ReachOneMore(snapshot.lastUpdateId, before, d);
      ReplayConcat(snapshot, before, [d]);
      if Replay(snapshot, before).Some? {
        BreaksNext(snapshot, ds, Replay(snapshot, before).value);
      }
    }
  }

  // One update more, on a book that stands where `ReplayBreaks` says.
  lemma BreaksNext(snapshot: Book, ds: seq<Delta>, book: Book)
    requires ds != []
    requires book.lastUpdateId == Reach(snapshot.lastUpdateId, ds[..|ds| - 1])
    requires book.synced <==> snapshot.synced || snapshot.lastUpdateId < book.lastUpdateId
    ensures Replay(book, [ds[|ds| - 1]]).None? <==> BreaksAt(snapshot, ds, |ds| - 1)
    ensures Replay(book, [ds[|ds| - 1]]).Some? ==>
              var book' := Replay(book, [ds[|ds| - 1]]).value;
              && book'.lastUpdateId == Max(book.lastUpdateId, ds[|ds| - 1].lastUpdateId)
              && (book'.synced <==> snapshot.synced || snapshot.lastUpdateId < book'.lastUpdateId)
  {
    ReplayOne(book, ds[|ds| - 1]);
  }

  predicate RisingIds(ds: seq<Delta>) {
    forall i :: 0 < i < |ds| ==> ds[i - 1].lastUpdateId < ds[i].lastUpdateId
  }

  // The same on a buffer whose last ids rise, as they do on one connection: the first update past the
  // snapshot must reach back to it, and every later one to the update before it.
  predicate HoleAt(id: nat, ds: seq<Delta>, i: nat)
    requires i < |ds|
  {
    && id < ds[i].lastUpdateId
    && if i == 0 || ds[i - 1].lastUpdateId <= id then id < ds[i].prevUpdateId
       else ds[i].prevUpdateId != ds[i - 1].lastUpdateId
  }

  lemma {:induction false} RisingReach(id: nat, ds: seq<Delta>)
    requires RisingIds(ds)
    ensures Reach(id, ds) == if ds == [] then id else Max(id, ds[|ds| - 1].lastUpdateId)
  {
    if ds != [] {
      RisingReach(id, ds[..|ds| - 1]);
    }
  }

  lemma RisingBreaks(snapshot: Book, ds: seq<Delta>)
    requires RisingIds(ds) && !snapshot.synced
    ensures Breaks(snapshot, ds) <==> exists i :: 0 <= i < |ds| && HoleAt(snapshot.lastUpdateId, ds, i)
  {
    forall i | 0 <= i < |ds|
      ensures BreaksAt(snapshot, ds, i) <==> HoleAt(snapshot.lastUpdateId, ds, i)
    {
      RisingReach(snapshot.lastUpdateId, ds[..i]);
    }
  }

  // Exactly when a snapshot is rejected. A rejected one leaves neither book nor buffer behind,
  // although the comment there says the remaining updates are kept.
  lemma RejectedExactlyWhen(e: Entry, snapshot: Book, now: int)
    ensures var (e', joined) := Install(e, snapshot, now);
            && (e'.book.None? <==> Breaks(snapshot, e.buffered))
            && e'.buffered == [] && !e'.awaiting && e'.requestedAt == e.requestedAt
            && (joined.Some? <==>
                  && !Breaks(snapshot, e.buffered)
                  && (snapshot.synced || snapshot.lastUpdateId < Reach(snapshot.lastUpdateId, e.buffered)))
  {
    ReplayBreaks(snapshot, e.buffered);
  }

  // What decides after a rejection: only what was received since. The next snapshot is taken unless an
  // update received since the rejection breaks the chain from it; on a gapless stream, if and only if
  // it is not older than the first of them.
  lemma AfterRejection(e: Entry, rejected: Book, more: seq<Delta>, nows: seq<int>, next: Book, now: int, later: int,
                       cooldownMs: int)
    requires Breaks(rejected, e.buffered) && |nows| == |more| <= MAX_BUFFERED
    ensures var waiting := FeedAll(Install(e, rejected, now).0, more, nows, cooldownMs);
            && (Install(waiting, next, later).0.book.None? <==> Breaks(next, more))
            && (Gapless(more) && !next.synced ==>
                  (Install(waiting, next, later).0.book.Some? <==>
                     more == [] || more[0].prevUpdateId <= next.lastUpdateId))
  {
    RejectedExactlyWhen(e, rejected, now);
    var after := Install(e, rejected, now).0;
    AllBuffered(after, more, nows, cooldownMs);
    assert [] + more == more;
    ReplayBreaks(next, more);
    if Gapless(more) && !next.synced {
      ReplayJoins(next, more);
    }
  }

  // What the lost buffer costs. A gapless stream is buffered, a snapshot is rejected, the stream goes
  // on, and another snapshot comes in. Had the updates been kept, that one would be taken if and only
  // if it were not older than the stream's start; as it is, it must not be older than the first update
  // received since the rejection. The snapshots in between are refused for no other reason.
  lemma LostBufferCosts(e: Entry, rejected: Book, more: seq<Delta>, nows: seq<int>, next: Book, now: int, later: int,
                        cooldownMs: int)
    requires e.book.None? && e.buffered != [] && Gapless(e.buffered + more)
    requires |nows| == |more| && |e.buffered| + |more| <= MAX_BUFFERED
    requires !rejected.synced && rejected.lastUpdateId < e.buffered[0].prevUpdateId && !next.synced
    ensures var after := Install(e, rejected, now).0;
            && after.book.None?
            && (Install(FeedAll(after, more, nows, cooldownMs), next, later).0.book.Some? <==>
                  more == [] || more[0].prevUpdateId <= next.lastUpdateId)
            && (Install(FeedAll(e, more, nows, cooldownMs), next, later).0.book.Some? <==>
                  e.buffered[0].prevUpdateId <= next.lastUpdateId)
  {
    var all := e.buffered + more;
    GaplessPrefix(all, |e.buffered|);
    GaplessSuffix(all, |e.buffered|);
    assert all[..|e.buffered|] == e.buffered && all[|e.buffered|..] == more && all[0] == e.buffered[0];
    ReplayJoins(rejected, e.buffered);
    ReplayBreaks(rejected, e.buffered);
    AfterRejection(e, rejected, more, nows, next, now, later, cooldownMs);
    AllBuffered(e, more, nows, cooldownMs);
    ReplayJoins(next, all);
  }

  lemma GaplessSuffix(ds: seq<Delta>, n: nat)
    requires Gapless(ds) && n <= |ds|
    ensures Gapless(ds[n..])
  {
    forall i | 0 < i < |ds[n..]|
      ensures ds[n..][i].prevUpdateId == ds[n..][i - 1].lastUpdateId
    {
      assert ds[n + i].prevUpdateId == ds[n + i - 1].lastUpdateId;
    }
  }

  // A run that shows it, from a symbol's first update on: (5, 6], a snapshot of 4, (6, 9], a snapshot
  // of 5. The second snapshot is refused too, although both updates would join it.
  lemma RefusedTwice(k: Symbol, cooldownMs: int)
    ensures var first, second := Delta(k, 5, 6, [], [], 0), Delta(k, 6, 9, [], [], 0);
            var four, five := Book(Some(k), [], [], 4, 0, false), Book(Some(k), [], [], 5, 0, false);
            var e0 := Feed(NewEntry(k), first, 0, cooldownMs).0;
            var e1 := Install(e0, four, 1).0;
            var e2 := Feed(e1, second, 2, cooldownMs).0;
            && Install(e2, five, 3).0.book.None?
            && Replay(five, [first, second]).Some? && Replay(five, [first, second]).value.synced
  {
    var first, second := Delta(k, 5, 6, [], [], 0), Delta(k, 6, 9, [], [], 0);
    var four, five := Book(Some(k), [], [], 4, 0, false), Book(Some(k), [], [], 5, 0, false);
    var e0 := Feed(NewEntry(k), first, 0, cooldownMs).0;
    assert e0.buffered == [first];
    ReplayOne(four, first);
    var e2 := Feed(Install(e0, four, 1).0, second, 2, cooldownMs).0;
    assert e2.buffered == [second];
    ReplayOne(five, second);
    assert Gapless([first, second]);
    ReplayJoins(five, [first, second]);
  }

  // ---------------------------------------------------------------- the request rate

  datatype Input = Fed(delta: Delta, now: int) | Arrived(snapshot: Book, now: int) | Failed

  function EntryStep(e: Entry, x: Input, cooldownMs: int): Entry {
    match x
    case Fed(delta, now) => Feed(e, delta, now, cooldownMs).0
    case Arrived(snapshot, now) => Install(e, snapshot, now).0
    case Failed => e.(awaiting := false)
  }

  // One symbol's entry since the last reset, with the number of snapshots asked for.
  datatype Tally = Tally(entry: Entry, requests: nat, deltas: nat)

  function Count(k: Symbol, xs: seq<Input>, cooldownMs: int): Tally {
    if xs == [] then Tally(NewEntry(k), 0, 0)
    else Counted(Count(k, xs[..|xs| - 1], cooldownMs), xs[|xs| - 1], cooldownMs)
  }

  function Counted(t: Tally, x: Input, cooldownMs: int): Tally {
    var asks := x.Fed? && Feed(t.entry, x.delta, x.now, cooldownMs).1.need.Snapshot?;
    Tally(EntryStep(t.entry, x, cooldownMs), if asks then t.requests + 1 else t.requests,
          if x.Fed? then t.deltas + 1 else t.deltas)
  }

  // The time of the latest update, on a clock that starts at `first`.
  ghost function Clock(xs: seq<Input>, first: int): int {
    if xs == [] then first
    else if xs[|xs| - 1].Fed? then xs[|xs| - 1].now
    else Clock(xs[..|xs| - 1], first)
  }

  // The inputs concern `k`, and the clock they are stamped with does not run backwards.
  ghost predicate Orderly(k: Symbol, xs: seq<Input>, first: int) {
    xs == [] ||
    (var n := |xs| - 1;
     && Orderly(k, xs[..n], first)
     && match xs[n]
        case Fed(delta, now) => delta.symbol == k && Clock(xs[..n], first) <= now
        case Arrived(snapshot, _) => snapshot.symbol == Some(k)
        case Failed => true)
  }

  // How often the buffer was thrown away.
  ghost function Overflows(k: Symbol, xs: seq<Input>, cooldownMs: int): nat {
    if xs == [] then 0
    else
      var n := |xs| - 1;
      Overflows(k, xs[..n], cooldownMs) + if Overflowing(Count(k, xs[..n], cooldownMs).entry, xs[n]) then 1 else 0
  }

  predicate Overflowing(e: Entry, x: Input) {
    x.Fed? && e.book.None? && |e.buffered| >= MAX_BUFFERED
  }

  // Every request but the first is paid for by `gap` of clock or by one overflow.
  ghost predicate Paid(t: Tally, overflows: nat, first: int, gap: int) {
    && EntryOk(t.entry.symbol, t.entry)
    && (t.entry.requestedAt.None? <==> t.requests == 0)
    && (t.requests == 0 ==> overflows == 0)
    && (t.requests > 0 ==> gap * (t.requests - 1 - overflows) <= t.entry.requestedAt.value - first)
    && MAX_BUFFERED * overflows + |t.entry.buffered| <= t.deltas
  }

  lemma PaidFeed(t: Tally, overflows: nat, first: int, gap: int, delta: Delta, now: int, cooldownMs: int)
    requires gap == Min(cooldownMs, REQUEST_DEADLINE_MS) && 0 < gap
    requires Paid(t, overflows, first, gap) && first <= now
    requires t.entry.requestedAt.Some? ==> t.entry.requestedAt.value <= now
    requires t.entry.book.Some? ==> t.entry.book.value.symbol == Some(delta.symbol) && delta.symbol == t.entry.symbol
    ensures var (e, outcome) := Feed(t.entry, delta, now, cooldownMs);
            var over := t.entry.book.None? && |t.entry.buffered| >= MAX_BUFFERED;
            && Paid(Tally(e, t.requests + (if outcome.need.Snapshot? then 1 else 0), t.deltas + 1),
                    overflows + (if over then 1 else 0), first, gap)
            && e.symbol == t.entry.symbol
            && (e.requestedAt.Some? ==> e.requestedAt.value <= now)
  {
    var (e, outcome) := Feed(t.entry, delta, now, cooldownMs);
    var over := t.entry.book.None? && |t.entry.buffered| >= MAX_BUFFERED;
    EntryOkKept(t.entry.symbol, t.entry, delta, Book(None, [], [], 0, 0, false), now, cooldownMs);
    if outcome.need.Snapshot? && t.requests > 0 {
      assert e.requestedAt == Some(now);
      if over {
        assert t.requests + 1 - 1 - (overflows + 1) == t.requests - 1 - overflows;
      } else {
        assert now - t.entry.requestedAt.value >= gap;
        assert gap * (t.requests - overflows) == gap * (t.requests - 1 - overflows) + gap;
      }
    }
  }

  // Paid up, at a clock no request is ahead of.
  ghost predicate Settled(k: Symbol, t: Tally, overflows: nat, first: int, clock: int, gap: int) {
    && Paid(t, overflows, first, gap) && t.entry.symbol == k && first <= clock
    && (t.entry.requestedAt.Some? ==> t.entry.requestedAt.value <= clock)
  }

  lemma InputKeepsSettled(k: Symbol, t: Tally, o: nat, first: int, clock: int, x: Input, cooldownMs: int)
    requires 0 < cooldownMs && Settled(k, t, o, first, clock, Min(cooldownMs, REQUEST_DEADLINE_MS))
    requires match x
             case Fed(delta, now) => delta.symbol == k && clock <= now
             case Arrived(snapshot, _) => snapshot.symbol == Some(k)
             case Failed => true
    ensures Settled(k, Counted(t, x, cooldownMs), o + (if Overflowing(t.entry, x) then 1 else 0), first,
                    if x.Fed? then x.now else clock, Min(cooldownMs, REQUEST_DEADLINE_MS))
  {
    match x {
      case Fed(delta, now) => PaidFeed(t, o, first, Min(cooldownMs, REQUEST_DEADLINE_MS), delta, now, cooldownMs);
      case Arrived(snapshot, now) => PaidInstall(t, o, first, Min(cooldownMs, REQUEST_DEADLINE_MS), snapshot, now);
      case Failed =>
    }
  }

  lemma {:induction false} RunIsPaid(k: Symbol, xs: seq<Input>, first: int, cooldownMs: int)
    requires 0 < cooldownMs && Orderly(k, xs, first)
    ensures Settled(k, Count(k, xs, cooldownMs), Overflows(k, xs, cooldownMs), first, Clock(xs, first),
                    Min(cooldownMs, REQUEST_DEADLINE_MS))
  {
    if xs != [] {
      var n := |xs| - 1;
      RunIsPaid(k, xs[..n], first, cooldownMs);
      InputKeepsSettled(k, Count(k, xs[..n], cooldownMs), Overflows(k, xs[..n], cooldownMs), first,
                        Clock(xs[..n], first),
                        xs[n], cooldownMs);
    }
  }

  // A snapshot arriving asks for nothing and frees the buffer.
  lemma PaidInstall(t: Tally, overflows: nat, first: int, gap: int, snapshot: Book, now: int)
    requires Paid(t, overflows, first, gap) && snapshot.symbol == Some(t.entry.symbol)
    ensures var e := Install(t.entry, snapshot, now).0;
            && Paid(t.(entry := e), overflows, first, gap)
            && e.symbol == t.entry.symbol && e.requestedAt == t.entry.requestedAt
  {
    EntryOkKept(t.entry.symbol, t.entry, Delta(t.entry.symbol, 0, 0, [], [], 0), snapshot, now, 1);
  }

  // Between resets, with a clock that does not run backwards, one symbol asks for at most one
  // snapshot, plus one for each `min(cooldown, deadline)` elapsed, plus one for each full buffer.
  lemma RequestsAreBounded(k: Symbol, xs: seq<Input>, first: int, cooldownMs: int)
    requires 0 < cooldownMs && Orderly(k, xs, first)
    ensures var t := Count(k, xs, cooldownMs);
            t.requests <=
            1 + (Clock(xs, first) - first) / Min(cooldownMs, REQUEST_DEADLINE_MS) + t.deltas / MAX_BUFFERED
  {
    var t, o, gap := Count(k, xs, cooldownMs), Overflows(k, xs, cooldownMs), Min(cooldownMs, REQUEST_DEADLINE_MS);
    RunIsPaid(k, xs, first, cooldownMs);
    PaidInTotal(t, o, first, Clock(xs, first), gap);
  }

  lemma PaidInTotal(t: Tally, o: nat, first: int, last: int, gap: int)
    requires 0 < gap && Paid(t, o, first, gap) && first <= last
    requires t.entry.requestedAt.Some? ==> t.entry.requestedAt.value <= last
    ensures t.requests <= 1 + (last - first) / gap + t.deltas / MAX_BUFFERED
  {
    AtMostQuotient(gap, if t.requests == 0 then 0 else t.requests - 1 - o, last - first);
    AtMostQuotient(MAX_BUFFERED, o, t.deltas);
  }

  lemma AtMostQuotient(d: int, q: int, n: int)
    requires 0 < d && d * q <= n && 0 <= n
    ensures q <= n / d
  {
    var x := q - n / d;
    assert d * x == d * q - d * (n / d) < d;
    assert x >= 1 ==> d * x >= d;
  }

  // Exactly when an update reaching a symbol without a book asks for a snapshot; in particular no
  // symbol is wedged, whatever became of the last request.
  lemma BooklessAsks(k: Symbol, e: Entry, delta: Delta, now: int, cooldownMs: int)
    requires EntryOk(k, e) && e.book.None?
    ensures Feed(e, delta, now, cooldownMs).1.need == Snapshot(k) <==>
            || |e.buffered| == MAX_BUFFERED
            || e.requestedAt.None?
            || now - e.requestedAt.value >= (if e.awaiting then REQUEST_DEADLINE_MS else cooldownMs)
    ensures e.requestedAt.None? || now - e.requestedAt.value >= Max(cooldownMs, REQUEST_DEADLINE_MS) ==>
              Feed(e, delta, now, cooldownMs).1.need == Snapshot(k)
    ensures Feed(e, delta, now, cooldownMs).1.need == Snapshot(k) ==>
              Feed(e, delta, now, cooldownMs).0.requestedAt == Some(now)
  {
  }

  // A failed fetch frees the request at once, and only the cooldown since it was made holds the next
  // one back.
  lemma FailureFreesRequest(k: Symbol, e: Entry, delta: Delta, now: int, cooldownMs: int)
    requires EntryOk(k, e) && e.book.None? && e.requestedAt.Some? && |e.buffered| < MAX_BUFFERED
    ensures Feed(EntryStep(e, Failed, cooldownMs), delta, now, cooldownMs).1.need == Snapshot(k) <==>
            now - e.requestedAt.value >= cooldownMs
  {
    BooklessAsks(k, EntryStep(e, Failed, cooldownMs), delta, now, cooldownMs);
  }

  // ---------------------------------------------------------------- the connector's own requests

  // What a run of the connector does to one symbol's entry. Until the symbol's first update there is
  // no entry, and what arrives for it is ignored.
  function Inputs(ops: seq<Op>, k: Symbol): seq<Input> {
    if ops == [] then []
    else
      var before := Inputs(ops[..|ops| - 1], k);
      match ops[|ops| - 1]
      case DeltaIn(delta, now) => if delta.symbol == k then before + [Fed(delta, now)] else before
      case Fetched(snapshot, now) =>
        if snapshot.symbol == Some(k) && before != [] then before + [Arrived(snapshot, now)] else before
      case FetchFailed(symbol) => if symbol == k && before != [] then before + [Failed] else before
      case Reconnect => before
  }

  // How often the connector announced that it is rebuilding `k`.
  function Announcements(sent: seq<Event>, k: Symbol): nat {
    if sent == [] then 0
    else Announcements(sent[..|sent| - 1], k) + if sent[|sent| - 1] == Resyncing(k) then 1 else 0
  }

  lemma AnnouncedMore(sent: seq<Event>, e: Event, k: Symbol)
    ensures Announcements(sent + [e], k) == Announcements(sent, k) + if e == Resyncing(k) then 1 else 0
  {
    assert (sent + [e])[..|sent|] == sent;
  }

  lemma CountOneMore(k: Symbol, xs: seq<Input>, x: Input, cooldownMs: int)
    ensures Count(k, xs + [x], cooldownMs) == Counted(Count(k, xs, cooldownMs), x, cooldownMs)
  {
    assert (xs + [x])[..|xs|] == xs;
  }

  ghost predicate Mirrors(c: Conn, k: Symbol, xs: seq<Input>, cooldownMs: int) {
    && (k in c.entries <==> xs != [])
    && EntryFor(c.entries, k) == Count(k, xs, cooldownMs).entry
    && Announcements(c.sent, k) == Count(k, xs, cooldownMs).requests
    && EntriesOk(c.entries)
  }

  ghost predicate EntriesOk(entries: map<Symbol, Entry>) {
    forall j :: EntryOkAt(entries, j)
  }

  ghost predicate EntryOkAt(entries: map<Symbol, Entry>, j: Symbol) {
    j in entries ==> EntryOk(j, entries[j])
  }

  lemma OneEntryOk(entries: map<Symbol, Entry>, k: Symbol, e: Entry)
    requires EntriesOk(entries) && EntryOk(k, e)
    ensures EntriesOk(entries[k := e])
  {
    var entries' := entries[k := e];
    forall j
      ensures EntryOkAt(entries', j)
    {
      assert EntryOkAt(entries, j);
    }
  }

  // One update at the connector, seen by `k`: at most one book event, and an announcement exactly
  // if its entry asks.
  lemma DeltaAnnounces(c: Conn, delta: Delta, now: int, cooldownMs: int, k: Symbol)
    ensures Announcements(Step(c, DeltaIn(delta, now), cooldownMs).sent, k) == Announcements(c.sent, k) +
              (if Feed(EntryFor(c.entries, delta.symbol), delta, now, cooldownMs).1.need == Snapshot(k) then 1 else 0)
  {
    var (e, outcome) := Feed(EntryFor(c.entries, delta.symbol), delta, now, cooldownMs);
    var published := Published(c.entries[delta.symbol := e], delta, outcome);
    BookEventsAnnounceNothing(c.sent, published, k);
    if outcome.need.Snapshot? {
      AnnouncedMore(c.sent + published, Resyncing(outcome.need.symbol), k);
    } else {
      assert c.sent + published + Announced(outcome.need) == c.sent + published;
    }
  }

  lemma BookEventsAnnounceNothing(sent: seq<Event>, more: seq<Event>, k: Symbol)
    requires more == [] || (|more| == 1 && !more[0].Resyncing?)
    ensures Announcements(sent + more, k) == Announcements(sent, k)
  {
    if more == [] {
      assert sent + more == sent;
    } else {
      AnnouncedMore(sent, more[0], k);
      assert more == [more[0]];
    }
  }

  // An entry asks for a snapshot of its own symbol.
  lemma AsksForItself(k: Symbol, e: Entry, delta: Delta, now: int, cooldownMs: int)
    requires e.symbol == k
    ensures var need := Feed(e, delta, now, cooldownMs).1.need; need.Snapshot? ==> need == Snapshot(k)
  {
  }

  lemma {:induction false} ConnectorMirrors(ops: seq<Op>, cooldownMs: int, k: Symbol)
    requires Reconnect !in ops
    ensures Mirrors(Run(ops, cooldownMs), k, Inputs(ops, k), cooldownMs)
  {
    if ops != [] {
      var n := |ops| - 1;
      var c, xs := Run(ops[..n], cooldownMs), Inputs(ops[..n], k);
      ConnectorMirrors(ops[..n], cooldownMs, k);
      assert ops[n] in ops;
      match ops[n] {
        case DeltaIn(delta, now) => DeltaMirrors(c, delta, now, cooldownMs, k, xs);
        case Fetched(snapshot, now) => FetchedMirrors(c, snapshot, now, cooldownMs, k, xs);
        case FetchFailed(symbol) => FailureMirrors(c, symbol, cooldownMs, k, xs);
      }
    }
  }

  lemma DeltaMirrors(c: Conn, delta: Delta, now: int, cooldownMs: int, k: Symbol, xs: seq<Input>)
    requires Mirrors(c, k, xs, cooldownMs)
    ensures Mirrors(Step(c, DeltaIn(delta, now), cooldownMs), k,
                    if delta.symbol == k then xs + [Fed(delta, now)] else xs, cooldownMs)
  {
    var s := delta.symbol;
    var e := EntryFor(c.entries, s);
    var e' := Feed(e, delta, now, cooldownMs).0;
    assert EntryOkAt(c.entries, s);
    EntryOkKept(s, e, delta, Book(None, [], [], 0, 0, false), now, cooldownMs);
    OneEntryOk(c.entries, s, e');
    AsksForItself(s, e, delta, now, cooldownMs);
    DeltaAnnounces(c, delta, now, cooldownMs, k);
    var sent := Step(c, DeltaIn(delta, now), cooldownMs).sent;
    if s == k {
      OwnUpdateMirrors(c, delta, now, cooldownMs, k, xs, e', sent);
    } else {
      OtherUpdateMirrors(c, s, k, xs, cooldownMs, e', sent);
    }
  }

  lemma OwnUpdateMirrors(c: Conn, delta: Delta, now: int, cooldownMs: int, k: Symbol, xs: seq<Input>, e: Entry,
                         sent: seq<Event>)
    requires Mirrors(c, k, xs, cooldownMs) && EntriesOk(c.entries[k := e])
    requires e == Feed(EntryFor(c.entries, k), delta, now, cooldownMs).0
    requires Announcements(sent, k) == Announcements(c.sent, k) +
               if Feed(EntryFor(c.entries, k), delta, now, cooldownMs).1.need.Snapshot? then 1 else 0
    ensures Mirrors(Conn(c.entries[k := e], sent), k, xs + [Fed(delta, now)], cooldownMs)
  {
    CountOneMore(k, xs, Fed(delta, now), cooldownMs);
  }

  lemma OtherUpdateMirrors(c: Conn, s: Symbol, k: Symbol, xs: seq<Input>, cooldownMs: int, e: Entry, sent: seq<Event>)
    requires Mirrors(c, k, xs, cooldownMs) && EntriesOk(c.entries[s := e]) && s != k
    requires Announcements(sent, k) == Announcements(c.sent, k)
    ensures Mirrors(Conn(c.entries[s := e], sent), k, xs, cooldownMs)
  {
  }

  lemma FailureMirrors(c: Conn, symbol: Symbol, cooldownMs: int, k: Symbol, xs: seq<Input>)
    requires Mirrors(c, k, xs, cooldownMs)
    ensures Mirrors(Step(c, FetchFailed(symbol), cooldownMs), k,
                    if symbol == k && xs != [] then xs + [Failed] else xs, cooldownMs)
  {
    if symbol in c.entries {
      assert EntryOkAt(c.entries, symbol);
      OneEntryOk(c.entries, symbol, c.entries[symbol].(awaiting := false));
    }
    CountOneMore(k, xs, Failed, cooldownMs);
  }

  lemma FetchedAnnounces(sent: seq<Event>, joined: Option<Book>, k: Symbol)
    ensures var more := if joined.Some? then [BookSnapshot(joined.value)] else [];
            Announcements(sent + more, k) == Announcements(sent, k)
  {
    BookEventsAnnounceNothing(sent, if joined.Some? then [BookSnapshot(joined.value)] else [], k);
  }

  lemma FetchedMirrors(c: Conn, snapshot: Book, now: int, cooldownMs: int, k: Symbol, xs: seq<Input>)
    requires Mirrors(c, k, xs, cooldownMs)
    ensures Mirrors(Step(c, Fetched(snapshot, now), cooldownMs), k,
                    if snapshot.symbol == Some(k) && xs != [] then xs + [Arrived(snapshot, now)] else xs, cooldownMs)
  {
    CountOneMore(k, xs, Arrived(snapshot, now), cooldownMs);
    if snapshot.symbol.Some? && snapshot.symbol.value in c.entries {
      var s := snapshot.symbol.value;
      var (e, joined) := Install(c.entries[s], snapshot, now);
      assert EntryOkAt(c.entries, s);
      EntryOkKept(s, c.entries[s], Delta(s, 0, 0, [], [], 0), snapshot, now, cooldownMs);
      OneEntryOk(c.entries, s, e);
      FetchedAnnounces(c.sent, joined, k);
    }
  }

  // On every run of the connector between two reconnects the announced rebuilds of a symbol are
  // bounded by the time its updates span and by their number.
  lemma ConnectorRequestsAreBounded(ops: seq<Op>, cooldownMs: int, k: Symbol, first: int)
    requires Reconnect !in ops && 0 < cooldownMs && Orderly(k, Inputs(ops, k), first)
    ensures var xs := Inputs(ops, k);
            Announcements(Run(ops, cooldownMs).sent, k) <=
            1 + (Clock(xs, first) - first) / Min(cooldownMs, REQUEST_DEADLINE_MS)
              + Count(k, xs, cooldownMs).deltas / MAX_BUFFERED
  {
    ConnectorMirrors(ops, cooldownMs, k);
    RequestsAreBounded(k, Inputs(ops, k), first, cooldownMs);
  }
}
