/**
 What a session's copies are worth once its queue has overflowed (crates/core/src/server.rs): which
 of them are wrong, exactly, and until when.
 */
module Lagging {
  import opened Base
  import opened Ids
  import opened Market
  import opened Books
  import opened Replica
  import opened Session
  import Attach

  // ---------------------------------------------------------------- an orderly log

  function IdOf(e: Event): nat {
    match e
    case BookSnapshot(book) => book.lastUpdateId
    case BookDelta(delta) => delta.lastUpdateId
    case _ => 0
  }

  // An update chains onto the core's copy; a snapshot is live and newer than it.
  predicate Follows(core: Option<Book>, e: Event) {
    match e
    case BookDelta(delta) => core.Some? && ApplyDelta(core.value, delta).1 == Applied
    case BookSnapshot(book) => book.synced && (core.Some? ==> core.value.lastUpdateId < book.lastUpdateId)
    case _ => true
  }

  // What the log says about `k` never tears the copy and never goes back.
  ghost predicate Orderly(log: seq<Event>, k: Symbol) {
    log == [] ||
    (var n := |log| - 1;
     Orderly(log[..n], k) && (Moves(log[n], k) ==> Follows(FoldKeyAll(None, log[..n], k), log[n])))
  }

  // The core's copy of `k` after `n` events.
  ghost function Copy(log: seq<Event>, n: nat, k: Symbol): Option<Book>
    requires n <= |log|
  {
    FoldKeyAll(None, log[..n], k)
  }

  lemma CopyStep(log: seq<Event>, n: nat, k: Symbol)
    requires n < |log|
    ensures Copy(log, n + 1, k) == FoldKey(Copy(log, n, k), log[n], k)
  {
    assert log[..n + 1][..n] == log[..n];
  }

  lemma WholeCopy(log: seq<Event>, k: Symbol)
    ensures Copy(log, |log|, k) == FoldKeyAll(None, log, k)
  {
    assert log[..|log|] == log;
  }

  lemma CopyOfPrefix(log: seq<Event>, m: nat, n: nat, k: Symbol)
    requires n <= m <= |log|
    ensures Copy(log[..m], n, k) == Copy(log, n, k)
  {
    assert log[..m][..n] == log[..n];
  }

  lemma {:induction false} OrderlyAt(log: seq<Event>, n: nat, k: Symbol)
    requires Orderly(log, k) && n < |log| && Moves(log[n], k)
    ensures Follows(Copy(log, n, k), log[n])
  {
    if n < |log| - 1 {
      OrderlyAt(log[..|log| - 1], n, k);
      CopyOfPrefix(log, |log| - 1, n, k);
    }
  }

  lemma {:induction false} OrderlyPrefix(log: seq<Event>, n: nat, k: Symbol)
    requires Orderly(log, k) && n <= |log|
    ensures Orderly(log[..n], k)
  {
    if n == |log| {
      assert log[..n] == log;
    } else {
      OrderlyPrefix(log[..|log| - 1], n, k);
      assert log[..|log| - 1][..n] == log[..n];
    }
  }

  // Whether a log is orderly shows in the events about `k` alone.
  lemma {:induction false} OnlyOrderly(log: seq<Event>, k: Symbol)
    ensures Orderly(Only(log, k), k) <==> Orderly(log, k)
  {
    if log != [] {
      var rest, e := log[..|log| - 1], log[|log| - 1];
      OnlyOrderly(rest, k);
      FoldOnly(None, rest, k);
      if Moves(e, k) {
        assert (Only(rest, k) + [e])[..|Only(rest, k)|] == Only(rest, k);
      } else {
        assert Only(rest, k) + [] == Only(rest, k);
      }
    }
  }

  // What an event that follows does to the copy.
  lemma FollowsOn(core: Option<Book>, e: Event, k: Symbol)
    requires Moves(e, k) && Follows(core, e)
    ensures var core' := FoldKey(core, e, k);
            && core'.Some? && core'.value.synced && core'.value.lastUpdateId == IdOf(e)
            && (core.Some? ==> core.value.lastUpdateId < IdOf(e))
  {
  }

  // `b` is a copy no older than `a`.
  predicate NoOlder(a: Option<Book>, b: Option<Book>) {
    a.Some? ==> b.Some? && a.value.lastUpdateId <= b.value.lastUpdateId
  }

  lemma {:induction false} CopiesRise(log: seq<Event>, i: nat, j: nat, k: Symbol)
    requires Orderly(log, k) && i <= j <= |log|
    ensures NoOlder(Copy(log, i, k), Copy(log, j, k))
    decreases j
  {
    if i < j {
      CopiesRise(log, i, j - 1, k);
      CopyStep(log, j - 1, k);
      if Moves(log[j - 1], k) {
        OrderlyAt(log, j - 1, k);
        FollowsOn(Copy(log, j - 1, k), log[j - 1], k);
      }
    }
  }

  lemma {:induction false} CopySynced(log: seq<Event>, j: nat, k: Symbol)
    requires Orderly(log, k) && j <= |log|
    ensures Copy(log, j, k).Some? ==> Copy(log, j, k).value.synced
  {
    if j > 0 {
      CopySynced(log, j - 1, k);
      CopyStep(log, j - 1, k);
      if Moves(log[j - 1], k) {
        OrderlyAt(log, j - 1, k);
        FollowsOn(Copy(log, j - 1, k), log[j - 1], k);
      }
    }
  }

  // Copies from before an event about `k` are older than it, and those from after it are not.
  lemma Between(log: seq<Event>, i: nat, m: nat, j: nat, k: Symbol)
    requires Orderly(log, k) && i <= m < j <= |log| && Moves(log[m], k)
    ensures Copy(log, i, k).Some? ==> Copy(log, i, k).value.lastUpdateId < IdOf(log[m])
    ensures Copy(log, j, k).Some? && IdOf(log[m]) <= Copy(log, j, k).value.lastUpdateId
  {
    CopiesRise(log, i, m, k);
    OrderlyAt(log, m, k);
    FollowsOn(Copy(log, m, k), log[m], k);
    CopyStep(log, m, k);
    CopiesRise(log, m + 1, j, k);
  }

  lemma Unmoved(log: seq<Event>, i: nat, j: nat, k: Symbol)
    requires i <= j <= |log| && NoneMoves(log[i..j], k)
    ensures Copy(log, i, k) == Copy(log, j, k)
  {
    assert log[..j] == log[..i] + log[i..j];
    FoldKeyConcat(None, log[..i], log[i..j], k);
    NothingMoves(Copy(log, i, k), log[i..j], k);
  }

  // ---------------------------------------------------------------- copies that are right, and copies that are not

  // The session's copy is the core's from some moment it has reached, or from a later one.
  ghost predicate FromCore(s: State, k: Symbol, q: nat) {
    s.pos <= q <= |s.folded| && Lookup(s.books, k) == Copy(s.folded, q, k)
  }

  ghost predicate Right(s: State, k: Symbol) {
    exists q :: FromCore(s, k, q)
  }

  // A copy older than the core's, or none where the core has one.
  predicate Behind(copy: Option<Book>, core: Option<Book>) {
    core.Some? && (copy.Some? ==> copy.value.synced && copy.value.lastUpdateId < core.value.lastUpdateId)
  }

  ghost predicate Wrong(s: State, k: Symbol) {
    s.pos <= |s.folded| && Behind(Lookup(s.books, k), Copy(s.folded, s.pos, k))
  }

  // Without a snapshot a copy that is behind never catches up: the next update finds a gap in it.
  lemma StaysBehind(copy: Option<Book>, core: Option<Book>, e: Event, k: Symbol)
    requires Behind(copy, core) && core.value.synced && !IsSnapshotOf(e, k) && (Moves(e, k) ==> Follows(core, e))
    ensures Behind(FoldKey(copy, e, k), FoldKey(core, e, k))
  {
  }

  lemma {:induction false} BehindToTheEnd(log: seq<Event>, copy: Option<Book>, i: nat, j: nat, k: Symbol)
    requires Orderly(log, k) && i <= j <= |log| && Behind(copy, Copy(log, i, k))
    requires NoSnapshotOf(log[i..j], k)
    ensures Behind(FoldKeyAll(copy, log[i..j], k), Copy(log, j, k))
    decreases j
  {
    if i < j {
      var e := log[j - 1];
      assert log[i..j] == log[i..j - 1] + [e];
      BehindToTheEnd(log, copy, i, j - 1, k);
      FoldKeySnoc(copy, log[i..j - 1], e, k);
      CopyStep(log, j - 1, k);
      CopySynced(log, j - 1, k);
      if Moves(e, k) {
        OrderlyAt(log, j - 1, k);
      }
      StaysBehind(FoldKeyAll(copy, log[i..j - 1], k), Copy(log, j - 1, k), e, k);
    } else {
      assert log[i..j] == [];
    }
  }

  lemma RightIsInStep(s: State, k: Symbol, q: nat)
    requires FromCore(s, k, q)
    ensures InStep(s, k)
  {
    var log := s.folded;
    assert log[..q] == log[..s.pos] + log[s.pos..q];
    assert log[s.pos..] == log[s.pos..q] + log[q..] && log == log[..q] + log[q..];
    FoldKeyConcat(None, log[..s.pos], log[s.pos..q], k);
    FoldIdempotent(Copy(log, s.pos, k), log[s.pos..q], k);
    FoldKeyConcat(Lookup(s.books, k), log[s.pos..q], log[q..], k);
    FoldKeyConcat(None, log[..q], log[q..], k);
  }

  lemma SnapshotPutsInStep(s: State, k: Symbol)
    requires s.pos <= |s.folded| && !NoSnapshotOf(s.folded[s.pos..], k)
    ensures InStep(s, k)
  {
    var log := s.folded;
    assert log == log[..s.pos] + log[s.pos..];
    FoldKeyConcat(None, log[..s.pos], log[s.pos..], k);
    SnapshotForgets(Lookup(s.books, k), Copy(log, s.pos, k), log[s.pos..], k);
  }

  lemma WrongIsNotInStep(s: State, k: Symbol)
    requires Orderly(s.folded, k) && Wrong(s, k) && NoSnapshotOf(s.folded[s.pos..], k)
    ensures !InStep(s, k)
  {
    var log := s.folded;
    assert log[s.pos..|log|] == log[s.pos..];
    BehindToTheEnd(log, Lookup(s.books, k), s.pos, |log|, k);
    WholeCopy(log, k);
  }

  // ---------------------------------------------------------------- one overflow

  // The event is about `k` and newer than the copy.
  predicate NewerThan(e: Event, copy: Option<Book>, k: Symbol) {
    Moves(e, k) && (copy.Some? ==> copy.value.lastUpdateId < IdOf(e))
  }

  ghost predicate NothingNewerLost(s: State, k: Symbol)
    requires Enabled(s, Lag)
  {
    forall i :: s.pos <= i < s.broadcast - FANOUT_CAPACITY ==> !NewerThan(s.folded[i], Lookup(s.books, k), k)
  }

  lemma LaterIsNewer(log: seq<Event>, q: nat, i: nat, k: Symbol)
    requires Orderly(log, k) && q <= i < |log|
    ensures Moves(log[i], k) <==> NewerThan(log[i], Copy(log, q, k), k)
  {
    if Moves(log[i], k) {
      Between(log, q, i, i + 1, k);
    }
  }

  lemma LagKeepsRight(s: State, k: Symbol, q: nat)
    requires Enabled(s, Lag) && Orderly(s.folded, k) && FromCore(s, k, q) && NothingNewerLost(s, k)
    ensures Right(Next(s, Lag), k)
  {
    var t := Next(s, Lag);
    if q < t.pos {
      forall i | 0 <= i < |s.folded[q..t.pos]|
        ensures !Moves(s.folded[q..t.pos][i], k)
      {
        LaterIsNewer(s.folded, q, q + i, k);
      }
      Unmoved(s.folded, q, t.pos, k);
      assert FromCore(t, k, t.pos);
    } else {
      assert FromCore(t, k, q);
    }
  }

  lemma LagMakesWrong(s: State, k: Symbol, q: nat)
    requires Enabled(s, Lag) && Orderly(s.folded, k) && FromCore(s, k, q) && !NothingNewerLost(s, k)
    ensures Wrong(Next(s, Lag), k)
  {
    var t := Next(s, Lag);
    var i :| s.pos <= i < t.pos && NewerThan(s.folded[i], Lookup(s.books, k), k);
    if i < q {
      Between(s.folded, i, i, q, k);
      assert false;
    }
    Between(s.folded, q, i, t.pos, k);
    CopySynced(s.folded, q, k);
  }

  // When a copy that was right is still in step after an overflow: if and only if no lost event about
  // it was newer than it, or a snapshot of the book is still to come.
  lemma LagExactly(s: State, k: Symbol, q: nat)
    requires Enabled(s, Lag) && Orderly(s.folded, k) && FromCore(s, k, q)
    ensures var t := Next(s, Lag); InStep(t, k) <==> NothingNewerLost(s, k) || !NoSnapshotOf(t.folded[t.pos..], k)
  {
    var t := Next(s, Lag);
    if NothingNewerLost(s, k) {
      LagKeepsRight(s, k, q);
      var q' :| FromCore(t, k, q');
      RightIsInStep(t, k, q');
    } else if NoSnapshotOf(t.folded[t.pos..], k) {
      LagMakesWrong(s, k, q);
      WrongIsNotInStep(t, k);
    } else {
      SnapshotPutsInStep(t, k);
    }
  }

  // ---------------------------------------------------------------- whole sessions

  // The subscribed symbols whose copies are right: all of them after a client message, one more with
  // each snapshot taken, and fewer only when an overflow loses something newer than the copy.
  ghost function Exact(s: State, exact: set<Symbol>, act: Act): set<Symbol>
    requires Enabled(s, act)
  {
    match act
    case Fold(_) => exact
    case Broadcast => exact
    case Message(msg) => Symbols(Handled(s.subs, msg))
    case Receive => set k | k in Symbols(s.subs) && (k in exact || IsSnapshotOf(s.folded[s.pos], k))
    case Lag => set k | k in exact && NothingNewerLost(s, k)
  }

  ghost function ExactAfter(s: State, acts: seq<Act>): set<Symbol> {
    if acts == [] then {}
    else
      var before, act := After(s, acts[..|acts| - 1]), acts[|acts| - 1];
      if Enabled(before, act) then Exact(before, ExactAfter(s, acts[..|acts| - 1]), act)
      else ExactAfter(s, acts[..|acts| - 1])
  }

  // What is known about `k`: the terminal has no copy the core has not, and a subscribed copy is right
  // or wrong as the set says.
  ghost predicate Judged(s: State, exact: set<Symbol>, k: Symbol) {
    && s.pos <= s.broadcast <= |s.folded|
    && (k in s.books ==> Copy(s.folded, |s.folded|, k).Some?)
    && (k in exact ==> k in Symbols(s.subs))
    && (k in Symbols(s.subs) ==> if k in exact then Right(s, k) else Wrong(s, k))
  }

  lemma FoldJudged(s: State, exact: set<Symbol>, e: Event, k: Symbol)
    requires Judged(s, exact, k) && Orderly(s.folded + [e], k)
    ensures Judged(s.(folded := s.folded + [e]), exact, k)
  {
    var t, n := s.(folded := s.folded + [e]), |s.folded|;
    assert t.folded[..n] == s.folded && s.folded[..n] == s.folded;
    CopiesRise(t.folded, n, n + 1, k);
    CopyOfPrefix(t.folded, n, n, k);
    CopyOfPrefix(t.folded, n, s.pos, k);
    if k in exact {
      var q :| FromCore(s, k, q);
      CopyOfPrefix(t.folded, n, q, k);
      assert FromCore(t, k, q);
    }
  }

  lemma MessageJudged(s: State, exact: set<Symbol>, msg: ClientMsg, k: Symbol)
    requires Judged(s, exact, k) && Orderly(s.folded, k)
    ensures Judged(Next(s, Message(msg)), Exact(s, exact, Message(msg)), k)
  {
    var t, n := Next(s, Message(msg)), |s.folded|;
    WholeCopy(s.folded, k);
    CopySynced(s.folded, n, k);
    FoldAllByKey(map[], s.folded, k);
    if k in Symbols(t.subs) {
      assert FromCore(t, k, n);
    }
  }

  // One event taken by a copy that is right.
  lemma RightTakes(s: State, k: Symbol, q: nat)
    requires Enabled(s, Receive) && Orderly(s.folded, k) && FromCore(s, k, q) && k in Symbols(s.subs)
    ensures Right(Next(s, Receive), k)
  {
    var t, e := Next(s, Receive), s.folded[s.pos];
    ReceivedByKey(s.books, s.subs, e, k);
    CopyStep(s.folded, s.pos, k);
    if q == s.pos || IsSnapshotOf(e, k) {
      assert FromCore(t, k, t.pos);
    } else {
      if Moves(e, k) {
        Between(s.folded, s.pos, s.pos, q, k);
      }
      assert FromCore(t, k, q);
    }
  }

  lemma ReceiveJudged(s: State, exact: set<Symbol>, k: Symbol)
    requires Enabled(s, Receive) && Judged(s, exact, k) && Orderly(s.folded, k)
    ensures Judged(Next(s, Receive), Exact(s, exact, Receive), k)
  {
    var t, e := Next(s, Receive), s.folded[s.pos];
    TakenFromCore(s, k);
    if k in Symbols(s.subs) {
      ReceivedByKey(s.books, s.subs, e, k);
      CopyStep(s.folded, s.pos, k);
      if k in exact {
        var q :| FromCore(s, k, q);
        RightTakes(s, k, q);
      } else if IsSnapshotOf(e, k) {
        assert FromCore(t, k, t.pos);
      } else {
        CopySynced(s.folded, s.pos, k);
        if Moves(e, k) {
          OrderlyAt(s.folded, s.pos, k);
        }
        StaysBehind(Lookup(s.books, k), Copy(s.folded, s.pos, k), e, k);
      }
    }
  }

  lemma TakenFromCore(s: State, k: Symbol)
    requires Enabled(s, Receive) && Orderly(s.folded, k)
    requires k in s.books ==> Copy(s.folded, |s.folded|, k).Some?
    ensures k in Next(s, Receive).books ==> Copy(s.folded, |s.folded|, k).Some?
  {
    var e := s.folded[s.pos];
    if k !in s.books && k in FoldBooks(s.books, e) {
      OnlySnapshotsAdd(s.books, e, k);
      Between(s.folded, s.pos, s.pos, |s.folded|, k);
    }
  }

  lemma LagJudged(s: State, exact: set<Symbol>, k: Symbol)
    requires Enabled(s, Lag) && Judged(s, exact, k) && Orderly(s.folded, k)
    ensures Judged(Next(s, Lag), Exact(s, exact, Lag), k)
  {
    var t := Next(s, Lag);
    if k in exact {
      var q :| FromCore(s, k, q);
      if NothingNewerLost(s, k) {
        LagKeepsRight(s, k, q);
      } else {
        LagMakesWrong(s, k, q);
      }
    } else {
      CopiesRise(s.folded, s.pos, t.pos, k);
    }
  }

  lemma StepJudged(s: State, exact: set<Symbol>, act: Act, k: Symbol)
    requires Enabled(s, act) && Judged(s, exact, k) && Orderly(Next(s, act).folded, k)
    ensures Judged(Next(s, act), Exact(s, exact, act), k)
  {
    match act {
      case Fold(e) => FoldJudged(s, exact, e, k);
      case Broadcast => if k in exact { var q :| FromCore(s, k, q); assert FromCore(Next(s, act), k, q); }
      case Message(msg) => MessageJudged(s, exact, msg, k);
      case Receive => ReceiveJudged(s, exact, k);
      case Lag => LagJudged(s, exact, k);
    }
  }

  lemma {:induction false} RunIsJudged(s: State, acts: seq<Act>, k: Symbol) returns (t: State, exact: set<Symbol>)
    requires Opened(s) && Possible(s, acts) && Orderly(After(s, acts).folded, k)
    ensures t == After(s, acts) && exact == ExactAfter(s, acts) && Judged(t, exact, k)
  {
    if acts == [] {
      t, exact := s, {};
    } else {
      var n := |acts| - 1;
      var before := After(s, acts[..n]);
      FoldedBefore(before, acts[n], k);
      var t', exact' := RunIsJudged(s, acts[..n], k);
      StepJudged(t', exact', acts[n], k);
      t, exact := Next(t', acts[n]), Exact(t', exact', acts[n]);
    }
  }

  lemma FoldedBefore(s: State, act: Act, k: Symbol)
    requires Enabled(s, act) && Orderly(Next(s, act).folded, k)
    ensures Orderly(s.folded, k)
  {
    OrderlyPrefix(Next(s, act).folded, |s.folded|, k);
    assert Next(s, act).folded[..|s.folded|] == s.folded;
  }

  // In every interleaving, overflows included, a subscribed copy is in step if and only if it is
  // exact, or a snapshot of the book is still to come.
  lemma InStepExactly(s: State, acts: seq<Act>, k: Symbol)
    requires Opened(s) && Possible(s, acts) && Orderly(After(s, acts).folded, k) && k in Symbols(After(s, acts).subs)
    ensures var t := After(s, acts);
            t.pos <= |t.folded| && (InStep(t, k) <==> k in ExactAfter(s, acts) || !NoSnapshotOf(t.folded[t.pos..], k))
  {
    var t, exact := RunIsJudged(s, acts, k);
    if k in exact {
      var q :| FromCore(t, k, q);
      RightIsInStep(t, k, q);
    } else if NoSnapshotOf(t.folded[t.pos..], k) {
      WrongIsNotInStep(t, k);
    } else {
      SnapshotPutsInStep(t, k);
    }
  }

  // Once the session has taken everything left to take, it shows the core's book of a subscribed symbol
  // if and only if the copy is exact.
  lemma CaughtUpExactly(s: State, acts: seq<Act>, k: Symbol)
    requires Opened(s) && Possible(s, acts) && Orderly(After(s, acts).folded, k) && k in Symbols(After(s, acts).subs)
    requires After(s, acts).pos == |After(s, acts).folded|
    ensures var t := After(s, acts);
            Lookup(t.books, k) == Lookup(FoldAll(map[], t.folded), k) <==> k in ExactAfter(s, acts)
  {
    var t := After(s, acts);
    InStepExactly(s, acts, k);
    FoldAllByKey(map[], t.folded, k);
    assert t.folded[t.pos..] == [];
  }

  // ---------------------------------------------------------------- one connection publishes an orderly log

  // The id of the latest update of `k` that reached the connector; -1 before the first.
  function Newest(ops: seq<Op>, k: Symbol): int {
    if ops == [] then -1
    else
      var op := ops[|ops| - 1];
      if op.DeltaIn? && op.delta.symbol == k then op.delta.lastUpdateId else Newest(ops[..|ops| - 1], k)
  }

  // Between two reconnects: the updates of `k` come with rising ids, and snapshots come unjoined.
  ghost predicate OneConnection(ops: seq<Op>, k: Symbol) {
    ops == [] ||
    (var rest := ops[..|ops| - 1];
     && OneConnection(rest, k)
     && match ops[|ops| - 1]
        case DeltaIn(delta, _) => delta.symbol == k ==> Newest(rest, k) < delta.lastUpdateId
        case Fetched(snapshot, _) => snapshot.symbol == Some(k) ==> !snapshot.synced
        case FetchFailed(_) => true
        case Reconnect => false)
  }

  // What is buffered is newer than what was published, and nothing is newer than the latest update.
  ghost predicate Ahead(e: Entry, published: Option<Book>, newest: int) {
    && (published.Some? ==> published.value.lastUpdateId <= newest)
    && (forall i :: 0 <= i < |e.buffered| ==> AheadOne(e.buffered[i], published, newest))
  }

  predicate AheadOne(d: Delta, published: Option<Book>, newest: int) {
    d.lastUpdateId <= newest && (published.Some? ==> published.value.lastUpdateId < d.lastUpdateId)
  }

  ghost predicate Settled(entries: map<Symbol, Entry>, sent: seq<Event>, k: Symbol, newest: int) {
    Orderly(sent, k) && Ahead(EntryFor(entries, k), FoldKeyAll(None, sent, k), newest)
  }

  lemma OrderlyMore(sent: seq<Event>, e: Event, k: Symbol)
    requires Orderly(sent, k) && (Moves(e, k) ==> Follows(FoldKeyAll(None, sent, k), e))
    ensures Orderly(sent + [e], k)
  {
    assert (sent + [e])[..|sent|] == sent;
  }

  // Events about other things change nothing for `k`.
  lemma OthersDoNotMatter(sent: seq<Event>, e: Event, k: Symbol)
    requires !Moves(e, k)
    ensures Orderly(sent + [e], k) <==> Orderly(sent, k)
    ensures FoldKeyAll(None, sent + [e], k) == FoldKeyAll(None, sent, k)
  {
    assert (sent + [e])[..|sent|] == sent;
  }

  lemma AnnouncingDoesNotMatter(entries: map<Symbol, Entry>, sent: seq<Event>, need: Need, k: Symbol, newest: int)
    requires Settled(entries, sent, k, newest)
    ensures Settled(entries, sent + Announced(need), k, newest)
  {
    if need.Snapshot? {
      OthersDoNotMatter(sent, Resyncing(need.symbol), k);
    } else {
      assert sent + Announced(need) == sent;
    }
  }

  // An update that is held joins the buffer, or replaces it.
  lemma HeldIsBuffered(e: Entry, d: Delta, now: int, cooldownMs: int)
    ensures var held := Hold(e, d, now, cooldownMs).0.buffered; held == e.buffered + [d] || held == [d]
  {
  }

  lemma HoldStaysAhead(e: Entry, d: Delta, now: int, cooldownMs: int, published: Option<Book>, newest: int)
    requires Ahead(e, published, newest) && newest < d.lastUpdateId
    ensures Ahead(Hold(e, d, now, cooldownMs).0, published, d.lastUpdateId)
  {
    HeldIsBuffered(e, d, now, cooldownMs);
    var held := Hold(e, d, now, cooldownMs).0;
    forall i | 0 <= i < |held.buffered|
      ensures AheadOne(held.buffered[i], published, d.lastUpdateId)
    {
      assert held.buffered[i] != d ==> AheadOne(e.buffered[i], published, newest);
    }
  }

  // What becomes of an entry without a gap: nothing is buffered, and the book stands at the update's id.
  lemma FedBook(k: Symbol, e: Entry, d: Delta, now: int, cooldownMs: int)
    requires EntryOk(k, e)
    ensures var (e', outcome) := Feed(e, d, now, cooldownMs);
            && (outcome.attached || outcome.forward ==>
                  e'.buffered == [] && e'.book.Some? && e'.book.value.lastUpdateId == d.lastUpdateId
                  && e'.book.value.symbol == Some(k))
            && (!outcome.attached && !outcome.forward ==>
                  e'.buffered == e.buffered || e' == Hold(e.(book := None), d, now, cooldownMs).0)
  {
  }

  lemma OwnUpdateSettles(c: Conn, d: Delta, now: int, cooldownMs: int, newest: int)
    requires AgreesAt(c, d.symbol) && Settled(c.entries, c.sent, d.symbol, newest) && newest < d.lastUpdateId
    ensures var (e, outcome) := Feed(EntryFor(c.entries, d.symbol), d, now, cooldownMs);
            var entries := c.entries[d.symbol := e];
            Settled(entries, c.sent + Published(entries, d, outcome), d.symbol, d.lastUpdateId)
  {
    var k, was := d.symbol, EntryFor(c.entries, d.symbol);
    var (e, outcome) := Feed(was, d, now, cooldownMs);
    var published := FoldKeyAll(None, c.sent, k);
    FeedOutcomes(was, d, now, cooldownMs);
    FedBook(k, was, d, now, cooldownMs);
    if outcome.attached {
      assert Published(c.entries[k := e], d, outcome) == [BookSnapshot(e.book.value)];
      OrderlyMore(c.sent, BookSnapshot(e.book.value), k);
      FoldKeySnoc(None, c.sent, BookSnapshot(e.book.value), k);
    } else if outcome.forward {
      assert LiveBook(c.entries, k) == was.book;
      OrderlyMore(c.sent, BookDelta(d), k);
      FoldKeySnoc(None, c.sent, BookDelta(d), k);
    } else {
      assert c.sent + [] == c.sent;
      HoldStaysAhead(was.(book := None), d, now, cooldownMs, published, newest);
      AheadOfMore(e, was, published, newest, d.lastUpdateId);
    }
  }

  lemma AheadOfMore(e: Entry, was: Entry, published: Option<Book>, newest: int, later: int)
    requires Ahead(was, published, newest) && newest <= later
    ensures e.buffered == was.buffered ==> Ahead(e, published, later)
  {
    if e.buffered == was.buffered {
      forall i | 0 <= i < |e.buffered|
        ensures AheadOne(e.buffered[i], published, later)
      {
        assert AheadOne(was.buffered[i], published, newest);
      }
    }
  }

  lemma DeltaSettles(c: Conn, d: Delta, now: int, cooldownMs: int, k: Symbol, newest: int)
    requires AgreesAt(c, d.symbol) && Settled(c.entries, c.sent, k, newest)
    requires d.symbol == k ==> newest < d.lastUpdateId
    ensures var c' := Step(c, DeltaIn(d, now), cooldownMs);
            Settled(c'.entries, c'.sent, k, if d.symbol == k then d.lastUpdateId else newest)
  {
    var was := EntryFor(c.entries, d.symbol);
    var (e, outcome) := Feed(was, d, now, cooldownMs);
    var entries := c.entries[d.symbol := e];
    var sent := c.sent + Published(entries, d, outcome);
    if d.symbol == k {
      OwnUpdateSettles(c, d, now, cooldownMs, newest);
      AnnouncingDoesNotMatter(entries, sent, outcome.need, k, d.lastUpdateId);
    } else {
      FedBook(d.symbol, was, d, now, cooldownMs);
      var published := Published(entries, d, outcome);
      if published != [] {
        assert published == [published[0]];
        OthersDoNotMatter(c.sent, published[0], k);
      } else {
        assert sent == c.sent;
      }
      AnnouncingDoesNotMatter(entries, sent, outcome.need, k, newest);
    }
  }

  // What replay reaches is the snapshot's id or a buffered one.
  lemma {:induction false} ReachedIsBuffered(id: nat, ds: seq<Delta>)
    ensures Attach.Reach(id, ds) == id || exists i :: 0 <= i < |ds| && ds[i].lastUpdateId == Attach.Reach(id, ds)
  {
    if ds != [] {
      var n := |ds| - 1;
      ReachedIsBuffered(id, ds[..n]);
      if Attach.Reach(id, ds) == ds[n].lastUpdateId {
      } else if Attach.Reach(id, ds) != id {
        var i :| 0 <= i < n && ds[..n][i].lastUpdateId == Attach.Reach(id, ds[..n]);
        assert ds[i].lastUpdateId == Attach.Reach(id, ds);
      }
    }
  }

  lemma JoinedIsAhead(e: Entry, snapshot: Book, now: int, published: Option<Book>, newest: int)
    requires Ahead(e, published, newest) && !snapshot.synced
    ensures var joined := Install(e, snapshot, now).1;
            joined.Some? ==>
              && joined.value.synced && joined.value.lastUpdateId <= newest
              && (published.Some? ==> published.value.lastUpdateId < joined.value.lastUpdateId)
  {
    Attach.ReplayBreaks(snapshot, e.buffered);
    var id := Attach.Reach(snapshot.lastUpdateId, e.buffered);
    ReachedIsBuffered(snapshot.lastUpdateId, e.buffered);
    if id != snapshot.lastUpdateId {
      var i :| 0 <= i < |e.buffered| && e.buffered[i].lastUpdateId == id;
      assert AheadOne(e.buffered[i], published, newest);
    }
  }

  lemma FetchedSettles(c: Conn, snapshot: Book, now: int, cooldownMs: int, k: Symbol, newest: int)
    requires Settled(c.entries, c.sent, k, newest) && (snapshot.symbol == Some(k) ==> !snapshot.synced)
    ensures var c' := Step(c, Fetched(snapshot, now), cooldownMs); Settled(c'.entries, c'.sent, k, newest)
  {
    if snapshot.symbol.Some? && snapshot.symbol.value in c.entries {
      var s := snapshot.symbol.value;
      var (e, joined) := Install(c.entries[s], snapshot, now);
      ReplayKeepsSymbol(snapshot, c.entries[s].buffered);
      if s == k {
        JoinedIsAhead(c.entries[k], snapshot, now, FoldKeyAll(None, c.sent, k), newest);
      }
      if joined.None? {
        assert c.sent + [] == c.sent;
      } else if s == k {
        OrderlyMore(c.sent, BookSnapshot(joined.value), k);
        FoldKeySnoc(None, c.sent, BookSnapshot(joined.value), k);
      } else {
        OthersDoNotMatter(c.sent, BookSnapshot(joined.value), k);
      }
    }
  }

  lemma {:induction false} RunSettles(ops: seq<Op>, cooldownMs: int, k: Symbol)
    requires OneConnection(ops, k)
    ensures Settled(Run(ops, cooldownMs).entries, Run(ops, cooldownMs).sent, k, Newest(ops, k))
  {
    if ops != [] {
      var rest, op := ops[..|ops| - 1], ops[|ops| - 1];
      var c := Run(rest, cooldownMs);
      RunSettles(rest, cooldownMs, k);
      RunKeeps(rest, cooldownMs);
      match op {
        case DeltaIn(d, now) =>
          assert AgreesAt(c, d.symbol);
          DeltaSettles(c, d, now, cooldownMs, k, Newest(rest, k));
        case Fetched(snapshot, now) => FetchedSettles(c, snapshot, now, cooldownMs, k, Newest(rest, k));
        case FetchFailed(symbol) =>
      }
    }
  }

  // What the connector publishes about a symbol between two reconnects never tears a copy and never
  // goes back, late snapshots included.
  lemma OneConnectionIsOrderly(ops: seq<Op>, cooldownMs: int, k: Symbol)
    requires OneConnection(ops, k)
    ensures Orderly(Run(ops, cooldownMs).sent, k)
  {
    RunSettles(ops, cooldownMs, k);
  }

  // End to end, overflows included: a core whose log holds, among anything else, what one connection
  // published about `k`. A session that has taken everything left to take shows the connector's live
  // book if and only if its copy is exact.
  lemma TerminalShowsExactly(ops: seq<Op>, cooldownMs: int, s: State, acts: seq<Act>, k: Symbol)
    requires Opened(s) && Possible(s, acts) && OneConnection(ops, k)
    requires Only(After(s, acts).folded, k) == Only(Run(ops, cooldownMs).sent, k)
    requires k in Symbols(After(s, acts).subs) && After(s, acts).pos == |After(s, acts).folded|
    requires LiveBook(Run(ops, cooldownMs).entries, k).Some?
    ensures Lookup(After(s, acts).books, k) == LiveBook(Run(ops, cooldownMs).entries, k) <==> k in ExactAfter(s, acts)
  {
    var log, sent := After(s, acts).folded, Run(ops, cooldownMs).sent;
    OneConnectionIsOrderly(ops, cooldownMs, k);
    OnlyOrderly(log, k);
    OnlyOrderly(sent, k);
    FoldOnly(None, log, k);
    FoldOnly(None, sent, k);
    FoldAllByKey(map[], log, k);
    FoldAllByKey(map[], sent, k);
    ReplicaAgreement(ops, cooldownMs, k);
    CaughtUpExactly(s, acts, k);
  }

  // ---------------------------------------------------------------- a session that falls behind

  // The acts can happen, and lead from `s` to `t`.
  ghost predicate Leads(s: State, acts: seq<Act>, t: State) {
    Possible(s, acts) && After(s, acts) == t
  }

  lemma LeadsOn(s: State, acts: seq<Act>, t: State, act: Act)
    requires Leads(s, acts, t) && Enabled(t, act)
    ensures Leads(s, acts + [act], Next(t, act))
  {
    assert (acts + [act])[..|acts|] == acts;
  }

  // The acts before the last one, and the last one.
  lemma LeadsBack(s: State, acts: seq<Act>, t: State) returns (before: State)
    requires Leads(s, acts, t) && acts != []
    ensures var n := |acts| - 1;
            Leads(s, acts[..n], before) && Enabled(before, acts[n]) && t == Next(before, acts[n])
  {
    before := After(s, acts[..|acts| - 1]);
  }

  lemma {:induction false} LeadsFurther(s: State, x: seq<Act>, t: State, y: seq<Act>, u: State)
    requires Leads(s, x, t) && Leads(t, y, u)
    ensures Leads(s, x + y, u)
    decreases |y|
  {
    if y == [] {
      assert x + y == x;
    } else {
      var rest, act := y[..|y| - 1], y[|y| - 1];
      assert x + y == (x + rest) + [act];
      var before := LeadsBack(t, y, u);
      LeadsFurther(s, x, t, rest, before);
      LeadsOn(s, x + rest, before, act);
    }
  }

  // Events about no book.
  function Noise(k: Symbol, n: nat): seq<Event> {
    if n == 0 then [] else Noise(k, n - 1) + [Resyncing(k)]
  }

  lemma {:induction false} NoiseMovesNothing(k: Symbol, n: nat)
    ensures |Noise(k, n)| == n && forall i :: 0 <= i < n ==> Noise(k, n)[i] == Resyncing(k)
  {
    if n > 0 {
      NoiseMovesNothing(k, n - 1);
    }
  }

  function SendNoise(k: Symbol, n: nat): seq<Act> {
    if n == 0 then [] else SendNoise(k, n - 1) + [Fold(Resyncing(k)), Broadcast]
  }

  lemma {:induction false} NoiseSent(s: State, k: Symbol, n: nat)
    requires s.broadcast == |s.folded|
    ensures Leads(s, SendNoise(k, n), s.(folded := s.folded + Noise(k, n), broadcast := s.broadcast + n))
  {
    if n == 0 {
      assert s.folded + [] == s.folded;
    } else {
      var acts, t := SendNoise(k, n - 1), s.(folded := s.folded + Noise(k, n - 1), broadcast := s.broadcast + n - 1);
      NoiseSent(s, k, n - 1);
      NoiseMovesNothing(k, n - 1);
      LeadsOn(s, acts, t, Fold(Resyncing(k)));
      LeadsOn(s, acts + [Fold(Resyncing(k))], Next(t, Fold(Resyncing(k))), Broadcast);
      assert SendNoise(k, n) == acts + [Fold(Resyncing(k))] + [Broadcast];
      assert s.folded + Noise(k, n) == (s.folded + Noise(k, n - 1)) + [Resyncing(k)];
    }
  }

  function TakeAll(n: nat): seq<Act> {
    if n == 0 then [] else TakeAll(n - 1) + [Receive]
  }

  lemma {:induction false} NoiseTaken(s: State, n: nat)
    requires s.pos + n <= s.broadcast <= |s.folded| && s.broadcast <= s.pos + FANOUT_CAPACITY
    requires forall i :: s.pos <= i < s.pos + n ==> s.folded[i].Resyncing?
    ensures Leads(s, TakeAll(n), s.(pos := s.pos + n))
  {
    if n > 0 {
      var t := s.(pos := s.pos + n - 1);
      NoiseTaken(s, n - 1);
      TakesNoise(t);
      LeadsOn(s, TakeAll(n - 1), t, Receive);
    }
  }

  lemma TakesNoise(s: State)
    requires Enabled(s, Receive) && s.folded[s.pos].Resyncing?
    ensures Next(s, Receive) == s.(pos := s.pos + 1)
  {
  }

  // A whole session, from its opening on, that falls behind by one update and a full queue of other
  // events: when it has taken everything left to take it still shows the book from before.
  function FallingBehind(k: Symbol): seq<Act> {
    Start(k) + SendNoise(k, FANOUT_CAPACITY) + [Lag] + TakeAll(FANOUT_CAPACITY)
  }

  function First(k: Symbol): Book { Book(Some(k), [], [], 1, 0, true) }

  function Second(k: Symbol): Delta { Delta(k, 1, 2, [], [], 0) }

  const FRESH := State([], 0, 0, {}, map[])

  // The state in which the update is lost: it has been sent, and not yet taken.
  function Attached(k: Symbol): State {
    State([BookSnapshot(First(k)), BookDelta(Second(k))], 2, 1, {Depth(k)}, map[k := First(k)])
  }

  function Start(k: Symbol): seq<Act> {
    [Message(Subscribe({Depth(k)})), Fold(BookSnapshot(First(k))), Broadcast, Receive,
     Fold(BookDelta(Second(k))), Broadcast]
  }

  lemma FirstArrives(k: Symbol, subs: set<Subscription>)
    requires subs == {Depth(k)}
    ensures var one := [BookSnapshot(First(k))];
            Next(State(one, 1, 0, subs, map[]), Receive) == State(one, 1, 1, subs, map[k := First(k)])
  {
    assert Depth(k) in subs && k in Symbols(subs);
  }

  lemma Attaches(k: Symbol)
    ensures Leads(FRESH, Start(k), Attached(k))
  {
    var subs, one, acts := {Depth(k)}, [BookSnapshot(First(k))], Start(k);
    LeadsOn(FRESH, [], FRESH, acts[0]);
    assert [] + [acts[0]] == acts[..1] && Next(FRESH, acts[0]) == State([], 0, 0, subs, map[]);
    LeadsOn(FRESH, acts[..1], State([], 0, 0, subs, map[]), acts[1]);
    assert acts[..1] + [acts[1]] == acts[..2] && [] + one == one;
    LeadsOn(FRESH, acts[..2], State(one, 0, 0, subs, map[]), acts[2]);
    assert acts[..2] + [acts[2]] == acts[..3];
    FirstArrives(k, subs);
    LeadsOn(FRESH, acts[..3], State(one, 1, 0, subs, map[]), acts[3]);
    assert acts[..3] + [acts[3]] == acts[..4];
    LeadsOn(FRESH, acts[..4], State(one, 1, 1, subs, map[k := First(k)]), acts[4]);
    assert acts[..4] + [acts[4]] == acts[..5] && one + [BookDelta(Second(k))] == Attached(k).folded;
    LeadsOn(FRESH, acts[..5], Attached(k).(broadcast := 1), acts[5]);
    assert acts[..5] + [acts[5]] == acts;
  }

  lemma FallsBehind(k: Symbol)
    ensures Opened(FRESH) && Possible(FRESH, FallingBehind(k))
    ensures var t := After(FRESH, FallingBehind(k));
            && t.pos == |t.folded| && k in Symbols(t.subs)
            && Lookup(t.books, k) == Some(First(k))
            && Lookup(FoldAll(map[], t.folded), k) == Some(ApplyDelta(First(k), Second(k)).0)
    ensures ApplyDelta(First(k), Second(k)).0.lastUpdateId == 2
  {
    var n := FANOUT_CAPACITY;
    var noise := Noise(k, n);
    var full := Attached(k).(folded := Attached(k).folded + noise, broadcast := 2 + n);
    var lagged := full.(pos := 2);
    NoiseMovesNothing(k, n);
    Attaches(k);
    NoiseSent(Attached(k), k, n);
    LeadsFurther(FRESH, Start(k), Attached(k), SendNoise(k, n), full);
    LeadsOn(FRESH, Start(k) + SendNoise(k, n), full, Lag);
    NoiseTaken(lagged, n);
    LeadsFurther(FRESH, Start(k) + SendNoise(k, n) + [Lag], lagged, TakeAll(n), lagged.(pos := 2 + n));
    assert Depth(k) in full.subs;
    CoreSaw(k, noise);
  }

  lemma CoreSaw(k: Symbol, noise: seq<Event>)
    requires forall i :: 0 <= i < |noise| ==> noise[i] == Resyncing(k)
    ensures Lookup(FoldAll(map[], [BookSnapshot(First(k)), BookDelta(Second(k))] + noise), k) ==
            Some(ApplyDelta(First(k), Second(k)).0)
  {
    var first := [BookSnapshot(First(k)), BookDelta(Second(k))];
    FoldAllByKey(map[], first + noise, k);
    FoldKeyConcat(None, first, noise, k);
    assert first[..1] == [BookSnapshot(First(k))];
    FoldOneKey(None, BookSnapshot(First(k)), k);
    NothingMoves(FoldKeyAll(None, first, k), noise, k);
  }
}
