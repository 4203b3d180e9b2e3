/**
 One terminal session of the core (crates/core/src/server.rs, crates/core/src/main.rs and
 crates/wire/src/session.rs): the pump folds each event into the read-model and then broadcasts it;
 the session is served the current state on every client message and otherwise relays what it wants
 of the broadcast, of which it loses the oldest part when it falls too far behind.
 */
module Session {
  import opened Base
  import opened Ids
  import opened Market
  import opened Books
  import opened Replica

  const FANOUT_CAPACITY: nat := 8_192

  datatype Subscription = Trades(symbol: Symbol) | Depth(symbol: Symbol)

  // What a client may say, once it is let in, that does not end the session.
  datatype ClientMsg = Subscribe(added: set<Subscription>) | Unsubscribe(dropped: set<Subscription>) | Other

  datatype Act =
    | Fold(event: Event)     // the pump folds the next event into the read-model
    | Broadcast              // and then sends it to every session
    | Message(msg: ClientMsg) // a client message: the whole current state is served after it
    | Receive                // the session takes the next event off its broadcast queue
    | Lag                    // the queue has overflowed: the session resumes at the oldest event left

  // `folded` is everything the read-model has seen, `broadcast` how much of it has been sent on,
  // `pos` how far in it this session has got, `books` the terminal's copies.
  datatype State = State(folded: seq<Event>, broadcast: nat, pos: nat,
                         subs: set<Subscription>, books: map<Symbol, Book>)

  predicate Enabled(s: State, act: Act) {
    match act
    case Fold(_) => s.broadcast == |s.folded|
    case Broadcast => s.broadcast < |s.folded|
    case Message(_) => true
    case Receive => s.pos < s.broadcast <= s.pos + FANOUT_CAPACITY && s.broadcast <= |s.folded|
    case Lag => s.pos + FANOUT_CAPACITY < s.broadcast <= |s.folded|
  }

  function Symbols(subs: set<Subscription>): set<Symbol> {
    set s | s in subs :: s.symbol
  }

  function Handled(subs: set<Subscription>, msg: ClientMsg): set<Subscription> {
    match msg
    case Subscribe(added) => subs + added
    case Unsubscribe(dropped) => subs - dropped
    case Other => subs
  }

  predicate Wanted(subs: set<Subscription>, e: Event) {
    match e
    case BookSnapshot(book) => book.symbol.Some? && book.symbol.value in Symbols(subs)
    case BookDelta(delta) => delta.symbol in Symbols(subs)
    case CandleBar(candle) => candle.symbol in Symbols(subs)
    case Resyncing(_) => true
  }

  // `snapshots_for`: only synced books are handed over.
  function Served(core: map<Symbol, Book>, subs: set<Subscription>): map<Symbol, Book> {
    map k | k in core && k in Symbols(subs) && core[k].synced :: core[k]
  }

  function Next(s: State, act: Act): State
    requires Enabled(s, act)
  {
    match act
    case Fold(e) => s.(folded := s.folded + [e])
    case Broadcast => s.(broadcast := s.broadcast + 1)
    case Message(msg) =>
      var subs := Handled(s.subs, msg);
      s.(subs := subs, books := s.books + Served(FoldAll(map[], s.folded), subs))
    case Receive =>
      var e := s.folded[s.pos];
      s.(pos := s.pos + 1, books := if Wanted(s.subs, e) then FoldBooks(s.books, e) else s.books)
    case Lag => s.(pos := s.broadcast - FANOUT_CAPACITY)
  }

  // The instrument an event is about; a notice is about none.
  function Subject(e: Event): Option<Symbol> {
    match e
    case BookSnapshot(book) => book.symbol
    case BookDelta(delta) => Some(delta.symbol)
    case CandleBar(candle) => Some(candle.symbol)
    case Resyncing(_) => None
  }

  // Exactly what is relayed: notices, and whatever is about a symbol that some subscription names. A
  // book without a symbol moves no copy either way.
  lemma RelayedExactly(subs: set<Subscription>, e: Event)
    ensures e.Resyncing? ==> Wanted(subs, e)
    ensures Subject(e).Some? ==> (Wanted(subs, e) <==> exists s :: s in subs && s.symbol == Subject(e).value)
  {
    if Subject(e).Some? && Wanted(subs, e) {
      assert Subject(e).value in Symbols(subs);
    }
  }

  // What a message makes of the subscriptions.
  lemma SubscribedExactly(subs: set<Subscription>, msg: ClientMsg, x: Subscription)
    ensures x in Handled(subs, msg) <==>
            (x in subs && !(msg.Unsubscribe? && x in msg.dropped)) || (msg.Subscribe? && x in msg.added)
  {
  }

  // Exactly which books are handed over, and that they are the read-model's own.
  lemma ServedExactly(core: map<Symbol, Book>, subs: set<Subscription>, k: Symbol)
    ensures k in Served(core, subs) <==> k in core && core[k].synced && exists s :: s in subs && s.symbol == k
    ensures k in Served(core, subs) ==> Served(core, subs)[k] == core[k]
  {
    if k in core && core[k].synced && exists s :: s in subs && s.symbol == k {
      assert k in Symbols(subs);
    }
  }

  // A copy whose symbol has no subscription left stands still.
  lemma UnsubscribedStandsStill(s: State, k: Symbol)
    requires Enabled(s, Receive) && k !in Symbols(s.subs)
    ensures Lookup(Next(s, Receive).books, k) == Lookup(s.books, k)
  {
  }

  // An overflow leaves a full queue, all of it still to be taken.
  lemma LagResumes(s: State)
    requires Enabled(s, Lag)
    ensures var t := Next(s, Lag);
            && t == s.(pos := t.pos) && s.pos < t.pos && t.broadcast - t.pos == FANOUT_CAPACITY && Enabled(t, Receive)
  {
  }

  // ---------------------------------------------------------------- which copies are in step

  // Replaying what the session has yet to take gives it the read-model's copy.
  ghost predicate InStep(s: State, k: Symbol)
    requires s.pos <= |s.folded|
  {
    FoldKeyAll(Lookup(s.books, k), s.folded[s.pos..], k) == FoldKeyAll(None, s.folded, k)
  }

  // The event can move the copy of `k`.
  predicate Moves(e: Event, k: Symbol) {
    match e
    case BookSnapshot(book) => book.symbol == Some(k)
    case BookDelta(delta) => delta.symbol == k
    case _ => false
  }

  ghost predicate NoneMoves(events: seq<Event>, k: Symbol) {
    forall i :: 0 <= i < |events| ==> !Moves(events[i], k)
  }

  // The subscribed symbols whose copies follow the core's: a symbol joins when its book is served or
  // relayed whole, or when there is no copy of it that could be out of date; it leaves when its
  // subscription does, or when an event about it is lost.
  ghost function Tracked(s: State, tracked: set<Symbol>, act: Act): set<Symbol>
    requires Enabled(s, act)
  {
    match act
    case Fold(_) => tracked
    case Broadcast => tracked
    case Message(msg) =>
      var subs := Handled(s.subs, msg);
      set k | k in Symbols(subs) && (k in tracked || k !in s.books || k in Served(FoldAll(map[], s.folded), subs))
    case Receive =>
      set k | k in Symbols(s.subs) && (k in tracked || IsSnapshotOf(s.folded[s.pos], k))
    case Lag =>
      set k | k in tracked && NoneMoves(s.folded[s.pos..s.broadcast - FANOUT_CAPACITY], k)
  }

  predicate IsSnapshotOf(e: Event, k: Symbol) {
    e.BookSnapshot? && e.book.symbol == Some(k)
  }

  ghost predicate AllSynced(events: seq<Event>) {
    forall i :: 0 <= i < |events| ==> (events[i].BookSnapshot? ==> events[i].book.synced)
  }

  // The positions are in order, every tracked symbol is subscribed, and its copy is in step.
  ghost predicate Converging(s: State, tracked: set<Symbol>) {
    && s.pos <= s.broadcast <= |s.folded| && AllSynced(s.folded) && tracked <= Symbols(s.subs)
    && (forall k :: k in tracked ==> InStep(s, k))
  }

  lemma {:induction false} StaysSynced(b: Option<Book>, events: seq<Event>, k: Symbol)
    requires AllSynced(events) && (b.Some? ==> b.value.synced)
    ensures FoldKeyAll(b, events, k).Some? ==> FoldKeyAll(b, events, k).value.synced
  {
    if events != [] {
      StaysSynced(b, events[..|events| - 1], k);
    }
  }

  lemma {:induction false} NothingMoves(b: Option<Book>, events: seq<Event>, k: Symbol)
    requires NoneMoves(events, k)
    ensures FoldKeyAll(b, events, k) == b
  {
    if events != [] {
      NothingMoves(b, events[..|events| - 1], k);
    }
  }

  lemma FoldOneKey(b: Option<Book>, e: Event, k: Symbol)
    ensures FoldKeyAll(b, [e], k) == FoldKey(b, e, k)
  {
    assert [e][..0] == [];
  }

  lemma FoldStaysInStep(s: State, e: Event, k: Symbol)
    requires s.pos <= |s.folded| && InStep(s, k)
    ensures InStep(s.(folded := s.folded + [e]), k)
  {
    assert (s.folded + [e])[s.pos..] == s.folded[s.pos..] + [e];
    FoldKeySnoc(Lookup(s.books, k), s.folded[s.pos..], e, k);
    FoldKeySnoc(None, s.folded, e, k);
  }

  // The books after one event, seen by one symbol.
  lemma ReceivedByKey(books: map<Symbol, Book>, subs: set<Subscription>, e: Event, k: Symbol)
    requires k in Symbols(subs)
    ensures Lookup(if Wanted(subs, e) then FoldBooks(books, e) else books, k) == FoldKey(Lookup(books, k), e, k)
  {
  }

  lemma ReceiveStaysInStep(s: State, k: Symbol)
    requires Enabled(s, Receive) && k in Symbols(s.subs)
    requires InStep(s, k) || (IsSnapshotOf(s.folded[s.pos], k))
    ensures InStep(Next(s, Receive), k)
  {
    var e, rest := s.folded[s.pos], s.folded[s.pos + 1..];
    ReceivedByKey(s.books, s.subs, e, k);
    assert s.folded[s.pos..] == [e] + rest;
    FoldKeyConcat(Lookup(s.books, k), [e], rest, k);
    FoldOneKey(Lookup(s.books, k), e, k);
    if IsSnapshotOf(e, k) {
      assert s.folded == s.folded[..s.pos] + ([e] + rest);
      FoldKeyConcat(None, s.folded[..s.pos], [e] + rest, k);
      FoldKeyConcat(FoldKeyAll(None, s.folded[..s.pos], k), [e], rest, k);
      FoldOneKey(FoldKeyAll(None, s.folded[..s.pos], k), e, k);
    }
  }

  // Replaying what is pending over the core's copy changes nothing.
  lemma PendingAlreadyIn(folded: seq<Event>, pos: nat, k: Symbol)
    requires pos <= |folded|
    ensures FoldKeyAll(FoldKeyAll(None, folded, k), folded[pos..], k) == FoldKeyAll(None, folded, k)
  {
    assert folded == folded[..pos] + folded[pos..];
    FoldKeyConcat(None, folded[..pos], folded[pos..], k);
    FoldIdempotent(FoldKeyAll(None, folded[..pos], k), folded[pos..], k);
  }

  // What is served to a subscribed symbol: the core's copy, if there is one.
  lemma ServedByKey(folded: seq<Event>, subs: set<Subscription>, k: Symbol)
    requires AllSynced(folded) && k in Symbols(subs)
    ensures Lookup(Served(FoldAll(map[], folded), subs), k) == FoldKeyAll(None, folded, k)
  {
    FoldAllByKey(map[], folded, k);
    StaysSynced(None, folded, k);
  }

  lemma MessageStaysInStep(s: State, msg: ClientMsg, k: Symbol)
    requires s.pos <= |s.folded| && AllSynced(s.folded) && k in Symbols(Handled(s.subs, msg))
    requires InStep(s, k) || k !in s.books || k in Served(FoldAll(map[], s.folded), Handled(s.subs, msg))
    ensures InStep(Next(s, Message(msg)), k)
  {
    ServedByKey(s.folded, Handled(s.subs, msg), k);
    PendingAlreadyIn(s.folded, s.pos, k);
    var served := Served(FoldAll(map[], s.folded), Handled(s.subs, msg));
    assert Lookup(s.books + served, k) == if k in served then Lookup(served, k) else Lookup(s.books, k);
  }

  lemma LagStaysInStep(s: State, k: Symbol)
    requires Enabled(s, Lag) && InStep(s, k) && NoneMoves(s.folded[s.pos..s.broadcast - FANOUT_CAPACITY], k)
    ensures InStep(Next(s, Lag), k)
  {
    var pos := s.broadcast - FANOUT_CAPACITY;
    assert s.folded[s.pos..] == s.folded[s.pos..pos] + s.folded[pos..];
    FoldKeyConcat(Lookup(s.books, k), s.folded[s.pos..pos], s.folded[pos..], k);
    NothingMoves(Lookup(s.books, k), s.folded[s.pos..pos], k);
  }

  lemma StepKeepsConverging(s: State, tracked: set<Symbol>, act: Act)
    requires Converging(s, tracked) && Enabled(s, act) && AllSynced(Next(s, act).folded)
    ensures Converging(Next(s, act), Tracked(s, tracked, act))
  {
    forall k | k in Tracked(s, tracked, act)
      ensures InStep(Next(s, act), k)
    {
      match act {
        case Fold(e) => FoldStaysInStep(s, e, k);
        case Broadcast =>
        case Message(msg) => MessageStaysInStep(s, msg, k);
        case Receive => ReceiveStaysInStep(s, k);
        case Lag => LagStaysInStep(s, k);
      }
    }
  }

  // ---------------------------------------------------------------- whole sessions

  // A session opened on a log of which `broadcast` events were sent before it existed.
  ghost predicate Opened(s: State) {
    s.pos == s.broadcast <= |s.folded| && s.subs == {} && s.books == map[]
  }

  ghost predicate Possible(s: State, acts: seq<Act>) {
    acts == [] || (Possible(s, acts[..|acts| - 1]) && Enabled(After(s, acts[..|acts| - 1]), acts[|acts| - 1]))
  }

  ghost function After(s: State, acts: seq<Act>): State {
    if acts == [] then s
    else
      var before, act := After(s, acts[..|acts| - 1]), acts[|acts| - 1];
      if Enabled(before, act) then Next(before, act) else before
  }

  ghost function InStepAfter(s: State, acts: seq<Act>): set<Symbol> {
    if acts == [] then {}
    else
      var before, act := After(s, acts[..|acts| - 1]), acts[|acts| - 1];
      if Enabled(before, act) then Tracked(before, InStepAfter(s, acts[..|acts| - 1]), act)
      else InStepAfter(s, acts[..|acts| - 1])
  }

  lemma SyncedBefore(s: State, act: Act)
    requires Enabled(s, act) && AllSynced(Next(s, act).folded)
    ensures AllSynced(s.folded)
  {
    assert forall i :: 0 <= i < |s.folded| ==> Next(s, act).folded[i] == s.folded[i];
  }

  lemma {:induction false} RunKeepsConverging(s: State, acts: seq<Act>)
    requires Opened(s) && Possible(s, acts) && AllSynced(After(s, acts).folded)
    ensures Converging(After(s, acts), InStepAfter(s, acts))
  {
    if acts != [] {
      var n := |acts| - 1;
      var before := After(s, acts[..n]);
      SyncedBefore(before, acts[n]);
      RunKeepsConverging(s, acts[..n]);
      StepKeepsConverging(before, InStepAfter(s, acts[..n]), acts[n]);
    }
  }

  // Whatever the interleaving of folding, broadcasting, client messages, deliveries and overflows:
  // once the session has taken everything folded so far, each copy that is in step is the core's.
  lemma SessionConverges(s: State, acts: seq<Act>, k: Symbol)
    requires Opened(s) && Possible(s, acts) && AllSynced(After(s, acts).folded)
    ensures var t := After(s, acts);
            k in InStepAfter(s, acts) && t.pos == |t.folded| ==>
              Lookup(t.books, k) == Lookup(FoldAll(map[], t.folded), k)
  {
    RunKeepsConverging(s, acts);
    var t := After(s, acts);
    FoldAllByKey(map[], t.folded, k);
    if k in InStepAfter(s, acts) && t.pos == |t.folded| {
      assert InStep(t, k);
      assert t.folded[t.pos..] == [];
    }
  }

  // A session that loses nothing and drops nothing has every copy it subscribed to in step.
  ghost predicate Lossless(acts: seq<Act>) {
    forall i :: 0 <= i < |acts| ==> Keeps(acts[i])
  }

  predicate Keeps(act: Act) {
    !act.Lag? && (act.Message? ==> !act.msg.Unsubscribe?)
  }

  lemma LosslessStep(s: State, tracked: set<Symbol>, act: Act)
    requires Enabled(s, act) && Keeps(act) && tracked == Symbols(s.subs) && s.books.Keys <= tracked
    ensures Tracked(s, tracked, act) == Symbols(Next(s, act).subs)
    ensures Next(s, act).books.Keys <= Symbols(Next(s, act).subs)
  {
    if act.Message? {
      assert Symbols(s.subs) <= Symbols(Handled(s.subs, act.msg));
    }
  }

  lemma {:induction false} LosslessTracksAll(s: State, acts: seq<Act>)
    requires Opened(s) && Possible(s, acts) && Lossless(acts)
    ensures InStepAfter(s, acts) == Symbols(After(s, acts).subs)
    ensures After(s, acts).books.Keys <= Symbols(After(s, acts).subs)
  {
    if acts != [] {
      var n := |acts| - 1;
      assert Keeps(acts[n]) && forall i :: 0 <= i < n ==> acts[..n][i] == acts[i];
      LosslessTracksAll(s, acts[..n]);
      LosslessStep(After(s, acts[..n]), InStepAfter(s, acts[..n]), acts[n]);
    }
  }

  // ---------------------------------------------------------------- recovering from a loss

  // The core has every book the terminal has.
  ghost predicate WithinCore(s: State) {
    forall k :: k in s.books ==> InCore(s.folded, k)
  }

  // On a log that is never torn, a book the core has is never lost.
  lemma KeptByCore(folded: seq<Event>, e: Event, k: Symbol)
    requires Chains(folded, e) && FoldKeyAll(None, folded, k).Some?
    ensures FoldKeyAll(None, folded + [e], k).Some?
  {
    FoldKeySnoc(None, folded, e, k);
  }

  lemma {:induction false} SnapshotInCore(folded: seq<Event>, pos: nat, k: Symbol)
    requires NeverTorn(folded) && pos < |folded| && IsSnapshotOf(folded[pos], k)
    ensures FoldKeyAll(None, folded, k).Some?
  {
    var n := |folded| - 1;
    assert folded == folded[..n] + [folded[n]];
    if pos < n {
      TornPrefix(folded, n);
      SnapshotInCore(folded[..n], pos, k);
      assert Chains(folded[..n], folded[n]);
      KeptByCore(folded[..n], folded[n], k);
    } else {
      FoldKeySnoc(None, folded[..n], folded[n], k);
    }
  }

  lemma TornPrefix(sent: seq<Event>, n: nat)
    requires NeverTorn(sent) && n <= |sent|
    ensures NeverTorn(sent[..n])
  {
    forall i | 0 <= i < n
      ensures Chains(sent[..n][..i], sent[..n][i])
    {
      assert sent[..n][..i] == sent[..i] && Chains(sent[..i], sent[i]);
    }
  }

  ghost predicate InCore(folded: seq<Event>, k: Symbol) {
    FoldKeyAll(None, folded, k).Some?
  }

  lemma FoldStaysWithinCore(s: State, e: Event)
    requires NeverTorn(s.folded + [e]) && WithinCore(s)
    ensures WithinCore(s.(folded := s.folded + [e]))
  {
    var folded := s.folded + [e];
    assert Chains(folded[..|s.folded|], folded[|s.folded|]) && folded[..|s.folded|] == s.folded;
    forall k | k in s.books
      ensures InCore(folded, k)
    {
      KeptByCore(s.folded, e, k);
    }
  }

  lemma MessageStaysWithinCore(s: State, msg: ClientMsg)
    requires WithinCore(s)
    ensures WithinCore(Next(s, Message(msg)))
  {
    forall k | k in FoldAll(map[], s.folded)
      ensures InCore(s.folded, k)
    {
      FoldAllByKey(map[], s.folded, k);
    }
  }

  // Only a snapshot brings a copy the terminal did not have.
  lemma OnlySnapshotsAdd(books: map<Symbol, Book>, e: Event, k: Symbol)
    requires k in FoldBooks(books, e) && k !in books
    ensures IsSnapshotOf(e, k)
  {
  }

  lemma ReceiveStaysWithinCore(s: State)
    requires Enabled(s, Receive) && NeverTorn(s.folded) && WithinCore(s)
    ensures WithinCore(Next(s, Receive))
  {
    var e := s.folded[s.pos];
    forall k | k in FoldBooks(s.books, e)
      ensures InCore(s.folded, k)
    {
      if k !in s.books {
        OnlySnapshotsAdd(s.books, e, k);
        SnapshotInCore(s.folded, s.pos, k);
      }
    }
  }

  lemma StepStaysWithinCore(s: State, act: Act)
    requires Enabled(s, act) && NeverTorn(Next(s, act).folded) && WithinCore(s)
    ensures WithinCore(Next(s, act))
  {
    match act {
      case Fold(e) => FoldStaysWithinCore(s, e);
      case Message(msg) => MessageStaysWithinCore(s, msg);
      case Receive => ReceiveStaysWithinCore(s);
      case Broadcast =>
      case Lag =>
    }
  }

  lemma {:induction false} RunStaysWithinCore(s: State, acts: seq<Act>)
    requires Opened(s) && Possible(s, acts) && NeverTorn(After(s, acts).folded)
    ensures WithinCore(After(s, acts))
  {
    if acts != [] {
      var before, act := After(s, acts[..|acts| - 1]), acts[|acts| - 1];
      var t := Next(before, act);
      assert before.folded == t.folded[..|before.folded|];
      TornPrefix(t.folded, |before.folded|);
      RunStaysWithinCore(s, acts[..|acts| - 1]);
      StepStaysWithinCore(before, act);
    }
  }

  lemma NeverTornIsSynced(sent: seq<Event>)
    requires NeverTorn(sent)
    ensures AllSynced(sent)
  {
    forall i | 0 <= i < |sent| && sent[i].BookSnapshot?
      ensures sent[i].book.synced
    {
      assert Chains(sent[..i], sent[i]);
    }
  }

  // Any client message heals the session: on a log that is never torn, right after it every
  // subscribed copy is in step again, whatever was lost before.
  lemma MessageHeals(s: State, acts: seq<Act>, msg: ClientMsg)
    requires Opened(s) && Possible(s, acts) && NeverTorn(After(s, acts).folded)
    ensures InStepAfter(s, acts + [Message(msg)]) == Symbols(After(s, acts + [Message(msg)]).subs)
  {
    var before := After(s, acts);
    assert (acts + [Message(msg)])[..|acts|] == acts;
    RunStaysWithinCore(s, acts);
    NeverTornIsSynced(before.folded);
    forall k | k in Symbols(Handled(before.subs, msg)) && k in before.books
      ensures k in Served(FoldAll(map[], before.folded), Handled(before.subs, msg))
    {
      assert InCore(before.folded, k);
      FoldAllByKey(map[], before.folded, k);
      StaysSynced(None, before.folded, k);
    }
  }

  // ---------------------------------------------------------------- end to end

  // The events that can move the copy of `k`, in order.
  function Only(events: seq<Event>, k: Symbol): seq<Event> {
    if events == [] then []
    else
      var e := events[|events| - 1];
      Only(events[..|events| - 1], k) + if Moves(e, k) then [e] else []
  }

  // Nothing else matters to it.
  lemma {:induction false} FoldOnly(b: Option<Book>, events: seq<Event>, k: Symbol)
    ensures FoldKeyAll(b, Only(events, k), k) == FoldKeyAll(b, events, k)
  {
    if events != [] {
      var rest, e := events[..|events| - 1], events[|events| - 1];
      FoldOnly(b, rest, k);
      if Moves(e, k) {
        FoldKeySnoc(b, Only(rest, k), e, k);
      } else {
        assert Only(rest, k) + [] == Only(rest, k);
      }
    }
  }

  // A caught-up session shows the live books of a connector that feeds the core, as far as its copies
  // are in step, whatever bars, notices and other connectors' events the core's log holds besides.
  lemma TerminalMatchesConnector(ops: seq<Op>, cooldownMs: int, s: State, acts: seq<Act>, k: Symbol)
    requires Opened(s) && Possible(s, acts) && AllSynced(After(s, acts).folded)
    requires Only(After(s, acts).folded, k) == Only(Run(ops, cooldownMs).sent, k)
    requires k in InStepAfter(s, acts) && After(s, acts).pos == |After(s, acts).folded|
    ensures var live := LiveBook(Run(ops, cooldownMs).entries, k);
            live.Some? ==> Lookup(After(s, acts).books, k) == live
  {
    var log, sent := After(s, acts).folded, Run(ops, cooldownMs).sent;
    FoldOnly(None, log, k);
    FoldOnly(None, sent, k);
    FoldAllByKey(map[], log, k);
    FoldAllByKey(map[], sent, k);
    ReplicaAgreement(ops, cooldownMs, k);
    SessionConverges(s, acts, k);
  }

  // The order of the pump's two halves is what this rests on. Broadcasting first lets a session
  // take an event the read-model does not have yet; being served then sets its copy back with
  // nothing left to deliver, so that the next update finds a gap in it.
  lemma BroadcastFirstWouldLag(k: Symbol)
    ensures var b := Book(Some(k), [], [], 1, 0, true);
            var d := Delta(k, 1, 2, [], [], 0);
            var core := FoldAll(map[], [BookSnapshot(b)]);
            var relayed := FoldBooks(core, BookDelta(d));
            var served := relayed + Served(core, {Depth(k)});
            Lookup(served, k) != Lookup(FoldAll(map[], [BookSnapshot(b), BookDelta(d)]), k)
  {
    var b := Book(Some(k), [], [], 1, 0, true);
    var d := Delta(k, 1, 2, [], [], 0);
    assert [BookSnapshot(b)][..0] == [];
    assert [BookSnapshot(b), BookDelta(d)][..1] == [BookSnapshot(b)];
    assert FoldAll(map[], [BookSnapshot(b)]) == map[k := b];
    assert Depth(k) in {Depth(k)};
  }
}
