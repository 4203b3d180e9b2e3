/**
 The venue's two book-sequencing schemes and the one chain they are mapped to
 (crates/binance/src/wire.rs).
 */
module Wire {
  import opened Base
  import opened Ids
  import opened Market

  datatype DepthUpdate = DepthUpdate(first: nat, final: nat, prevFinal: Option<nat>,
                                     bids: seq<Level>, asks: seq<Level>, eventTime: int)

  datatype DepthSnapshot = DepthSnapshot(lastUpdateId: nat, bids: seq<Level>, asks: seq<Level>)

  function UpdateIntoDomain(u: DepthUpdate, symbol: Symbol): Delta {
    var prev := match u.prevFinal
      case Some(pu) => pu
      case None => if u.first == 0 then 0 else u.first - 1;
    Delta(symbol, prev, u.final, u.bids, u.asks, u.eventTime)
  }

  function SnapshotIntoDomain(s: DepthSnapshot, symbol: Symbol, ts: int): Book {
    Book(Some(symbol), s.bids, s.asks, s.lastUpdateId, ts, false)
  }

  // Spot states no predecessor, but each event starts right after the previous one ended.
  ghost predicate GaplessSpot(us: seq<DepthUpdate>) {
    && (forall i :: 0 <= i < |us| ==> us[i].prevFinal.None? && 0 < us[i].first <= us[i].final)
    && (forall i :: 0 < i < |us| ==> us[i].first == us[i - 1].final + 1)
  }

  // USD-M futures name the previous event's final id outright; their first ids need not line up.
  ghost predicate GaplessFutures(us: seq<DepthUpdate>) {
    && (forall i :: 0 <= i < |us| ==> us[i].prevFinal.Some? && us[i].prevFinal.value < us[i].final)
    && (forall i :: 0 < i < |us| ==> us[i].prevFinal == Some(us[i - 1].final))
  }

  // Each update moves forward and starts where the one before it ended.
  ghost predicate Gapless(ds: seq<Delta>) {
    && (forall i :: 0 <= i < |ds| ==> ds[i].prevUpdateId < ds[i].lastUpdateId)
    && (forall i :: 0 < i < |ds| ==> ds[i].prevUpdateId == ds[i - 1].lastUpdateId)
  }

  function IntoDeltas(us: seq<DepthUpdate>, symbol: Symbol): seq<Delta> {
    seq(|us|, i requires 0 <= i < |us| => UpdateIntoDomain(us[i], symbol))
  }

  lemma SchemesChain(us: seq<DepthUpdate>, symbol: Symbol)
    requires GaplessSpot(us) || GaplessFutures(us)
    ensures Gapless(IntoDeltas(us, symbol))
  {
  }

  lemma {:induction false} GaplessRises(ds: seq<Delta>, i: nat, j: nat)
    requires Gapless(ds) && i < j < |ds|
    ensures ds[i].lastUpdateId <= ds[j].prevUpdateId < ds[j].lastUpdateId
    decreases j
  {
    if i + 1 < j {
      GaplessRises(ds, i, j - 1);
    }
  }

  ghost function ApplyAll(book: Book, ds: seq<Delta>): Book {
    if ds == [] then book else ApplyDelta(ApplyAll(book, ds[..|ds| - 1]), ds[|ds| - 1]).0
  }

  lemma ButLast(ds: seq<Delta>, from: nat, to: nat)
    requires from < to <= |ds|
    ensures ds[from..to] != [] && ds[from..to][..|ds[from..to]| - 1] == ds[from..to - 1]
    ensures ds[from..to][|ds[from..to]| - 1] == ds[to - 1]
  {
  }

  lemma {:induction false} ChainTakesAll(ds: seq<Delta>, i: nat, j: nat, book: Book)
    requires Gapless(ds) && i < j <= |ds| && book.synced && book.lastUpdateId == ds[i].lastUpdateId
    ensures var after := ApplyAll(book, ds[i + 1..j]);
            after.synced && after.lastUpdateId == ds[j - 1].lastUpdateId
    decreases j
  {
    if i + 1 < j {
      ChainTakesAll(ds, i, j - 1, book);
      ButLast(ds, i + 1, j);
      assert ds[j - 1].prevUpdateId == ds[j - 2].lastUpdateId;
    } else {
      assert ds[i + 1..j] == [];
    }
  }

  lemma ChainDetectsDrop(ds: seq<Delta>, i: nat, j: nat, book: Book)
    requires Gapless(ds) && i + 1 < j < |ds| && book.synced && book.lastUpdateId == ds[i].lastUpdateId
    ensures ApplyDelta(book, ds[j]) == (book, Gap(ds[i].lastUpdateId, ds[j - 1].lastUpdateId))
  {
    GaplessRises(ds, i, j - 1);
    GaplessRises(ds, i, j);
  }

  // In either scheme a synced book that has just taken event `i` takes every later event of a
  // gapless stream, and ends at the last event's id; if a run of events is dropped, the next one
  // that arrives reports the gap, with what was expected and got, and leaves the book untouched.
  lemma NoGapUnlessDropped(us: seq<DepthUpdate>, symbol: Symbol, i: nat, j: nat, book: Book)
    requires GaplessSpot(us) || GaplessFutures(us)
    requires i < j < |us| && book.synced && book.lastUpdateId == us[i].final
    ensures var ds := IntoDeltas(us, symbol);
            var before := ApplyAll(book, ds[i + 1..j]);
            && before.synced && before.lastUpdateId == us[j - 1].final
            && ApplyDelta(before, ds[j]).1 == Applied
            && ApplyDelta(before, ds[j]).0.lastUpdateId == us[j].final
            && (i + 1 < j ==> ApplyDelta(book, ds[j]) == (book, Gap(us[i].final, us[j - 1].final)))
  {
    var ds := IntoDeltas(us, symbol);
    SchemesChain(us, symbol);
    assert ds[i].lastUpdateId == us[i].final && ds[j - 1].lastUpdateId == us[j - 1].final;
    assert ds[j].lastUpdateId == us[j].final;
    ChainTakesAll(ds, i, j, book);
    assert ds[j].prevUpdateId == ds[j - 1].lastUpdateId;
    if i + 1 < j {
      ChainDetectsDrop(ds, i, j, book);
    }
  }
}
