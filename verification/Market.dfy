/**
 The order book and its sequence bookkeeping (crates/domain/src/market.rs). Prices and quantities are
 decimals in the source; only their order and zero matter here, so they are integers on the venue's grid.
 */
module Market {
  import opened Base
  import opened StdSearch
  import opened Ids

  datatype Level = Level(price: int, qty: int)

  datatype Book = Book(symbol: Option<Symbol>, bids: seq<Level>, asks: seq<Level>,
                       lastUpdateId: nat, ts: int, synced: bool)

  datatype Delta = Delta(symbol: Symbol, prevUpdateId: nat, lastUpdateId: nat,
                         bids: seq<Level>, asks: seq<Level>, ts: int)

  datatype ApplyOutcome = Applied | Stale | Gap(expected: nat, got: nat)

  datatype Trade = Trade(symbol: Symbol, price: int, qty: int, ts: int, id: nat)

  datatype Bucketing = Time(intervalMs: int) | Ticks(count: u32)

  datatype Candle = Candle(symbol: Symbol, openTime: int, bucketing: Bucketing, trades: u32,
                           open: int, high: int, low: int, close: int, volume: int, closed: bool)

  function ComparePrice(a: int, b: int, descending: bool): Ordering {
    if a == b then Equal
    else if descending then (if b < a then Less else Greater)
    else if a < b then Less else Greater
  }

  // The comparator the search of one side runs with.
  function Against(price: int, descending: bool): Level -> Ordering {
    (lvl: Level) => ComparePrice(lvl.price, price, descending)
  }

  function ApplyLevel(side: seq<Level>, upd: Level, descending: bool): seq<Level> {
    match BinarySearchBy(side, Against(upd.price, descending))
    case Ok(pos) =>
      if upd.qty == 0 then side[..pos] + side[pos + 1..]
      else side[pos := side[pos].(qty := upd.qty)]
    case Err(pos) =>
      if upd.qty != 0 then side[..pos] + [upd] + side[pos..] else side
  }

  function ApplySide(side: seq<Level>, updates: seq<Level>, descending: bool): seq<Level> {
    if updates == [] then side
    else
      var n := |updates| - 1;
      ApplyLevel(ApplySide(side, updates[..n], descending), updates[n], descending)
  }

  predicate Continues(book: Book, delta: Delta) {
    if book.synced then delta.prevUpdateId == book.lastUpdateId
    else delta.prevUpdateId <= book.lastUpdateId
  }

  function ApplyDelta(book: Book, delta: Delta): (Book, ApplyOutcome) {
    if delta.lastUpdateId <= book.lastUpdateId then (book, Stale)
    else if !Continues(book, delta) then (book, Gap(book.lastUpdateId, delta.prevUpdateId))
    else
      (book.(bids := ApplySide(book.bids, delta.bids, true),
             asks := ApplySide(book.asks, delta.asks, false),
             lastUpdateId := delta.lastUpdateId, ts := delta.ts, synced := true),
       Applied)
  }

  /** The book as the connector, the core and the terminal hold it: updated in place. */
  class OrderBook {
    var symbol: Option<Symbol>
    var bids: seq<Level>
    var asks: seq<Level>
    var lastUpdateId: nat
    var ts: int
    var synced: bool

    function View(): Book
      reads this
    {
      Book(symbol, bids, asks, lastUpdateId, ts, synced)
    }

    constructor (b: Book)
      ensures View() == b
    {
      symbol, bids, asks, lastUpdateId, ts, synced := b.symbol, b.bids, b.asks, b.lastUpdateId, b.ts, b.synced;
    }

    method Apply(delta: Delta) returns (outcome: ApplyOutcome)
      modifies this
      ensures (View(), outcome) == ApplyDelta(old(View()), delta)
    {
      if delta.lastUpdateId <= lastUpdateId {
        return Stale;
      }
      var continues := if synced then delta.prevUpdateId == lastUpdateId
                       else delta.prevUpdateId <= lastUpdateId;
      if !continues {
        return Gap(lastUpdateId, delta.prevUpdateId);
      }
      bids := MergeSide(bids, delta.bids, true);
      asks := MergeSide(asks, delta.asks, false);
      lastUpdateId := delta.lastUpdateId;
      ts := delta.ts;
      synced := true;
      return Applied;
    }
  }

  method MergeLevel(levels: seq<Level>, upd: Level, descending: bool) returns (side: seq<Level>)
    ensures side == ApplyLevel(levels, upd, descending)
  {
    side := levels;
    match BinarySearchBy(side, Against(upd.price, descending)) {
      case Ok(pos) =>
        if upd.qty == 0 {
          side := side[..pos] + side[pos + 1..];
        } else {
          side := side[pos := side[pos].(qty := upd.qty)];
        }
      case Err(pos) =>
        if upd.qty != 0 {
          side := side[..pos] + [upd] + side[pos..];
        }
    }
  }

  // The source's `apply_side`: a loop of searches, removals, overwrites and insertions.
  method MergeSide(levels: seq<Level>, updates: seq<Level>, descending: bool) returns (side: seq<Level>)
    ensures side == ApplySide(levels, updates, descending)
  {
    side := levels;
    for i := 0 to |updates|
      invariant side == ApplySide(levels, updates[..i], descending)
    {
      assert updates[..i + 1][..i] == updates[..i];
      side := MergeLevel(side, updates[i], descending);
    }
    assert updates[..|updates|] == updates;
  }

  // ---------------------------------------------------------------- a side is a sorted map

  // Best price first, every price once, no empty level.
  ghost predicate SortedSide(side: seq<Level>, descending: bool) {
    && (forall i, j :: 0 <= i < j < |side| ==> Better(side[i].price, side[j].price, descending))
    && (forall i :: 0 <= i < |side| ==> side[i].qty != 0)
  }

  predicate Better(a: int, b: int, descending: bool) {
    if descending then b < a else a < b
  }

  // The quantity resting at each price. `side` lists each price at most once.
  ghost function Levels(side: seq<Level>): map<int, int> {
    if side == [] then map[]
    else
      var n := |side| - 1;
      Levels(side[..n])[side[n].price := side[n].qty]
  }

  // What the venue means by a list of absolute levels: set, or remove on zero, in order.
  ghost function SetLevels(m: map<int, int>, updates: seq<Level>): map<int, int> {
    if updates == [] then m
    else
      var n := |updates| - 1;
      SetLevel(SetLevels(m, updates[..n]), updates[n])
  }

  ghost function SetLevel(m: map<int, int>, upd: Level): map<int, int> {
    if upd.qty == 0 then m - {upd.price} else m[upd.price := upd.qty]
  }

  // `m` is what `side` lists, seen from either end.
  ghost predicate Lists(side: seq<Level>, m: map<int, int>) {
    && (forall i :: 0 <= i < |side| ==> side[i].price in m && m[side[i].price] == side[i].qty)
    && (forall p :: p in m ==> exists i :: 0 <= i < |side| && side[i].price == p)
  }

  lemma ListsOneMap(side: seq<Level>, m: map<int, int>, m': map<int, int>)
    requires Lists(side, m) && Lists(side, m')
    ensures m == m'
  {
    forall p
      ensures p in m <==> p in m'
      ensures p in m ==> m[p] == m'[p]
    {
      if p in m {
        var i :| 0 <= i < |side| && side[i].price == p;
      }
      if p in m' {
        var i :| 0 <= i < |side| && side[i].price == p;
      }
    }
  }

  lemma ListsNothing(side: seq<Level>, m: map<int, int>)
    requires Lists(side, m)
    ensures side == [] <==> m == map[]
  {
    if side != [] {
      assert side[0].price in m;
    }
    if side == [] {
      ListsOneMap(side, m, map[]);
    }
  }

  lemma {:induction false} LevelsListed(side: seq<Level>, descending: bool)
    requires SortedSide(side, descending)
    ensures Lists(side, Levels(side))
  {
    if side != [] {
      var n := |side| - 1;
      LevelsListed(side[..n], descending);
      assert side == side[..n] + [side[n]];
      forall i | 0 <= i < n
        ensures side[i].price in Levels(side[..n]) && side[i].price != side[n].price
      {
        assert side[..n][i] == side[i] && Better(side[i].price, side[n].price, descending);
      }
      ListsAppended(side[..n], side[n], Levels(side[..n]));
    }
  }

  lemma LevelsNotEmpty(side: seq<Level>, descending: bool, p: int)
    requires SortedSide(side, descending) && p in Levels(side)
    ensures Levels(side)[p] != 0
  {
    LevelsListed(side, descending);
    var i :| 0 <= i < |side| && side[i].price == p;
  }

  lemma ListsAppended(side: seq<Level>, lvl: Level, m: map<int, int>)
    requires Lists(side, m)
    requires forall i :: 0 <= i < |side| ==> side[i].price != lvl.price
    ensures Lists(side + [lvl], m[lvl.price := lvl.qty])
  {
    ListsInserted(side, |side|, lvl, m);
    assert side[..|side|] + [lvl] + side[|side|..] == side + [lvl];
  }

  lemma ListsInserted(side: seq<Level>, pos: nat, lvl: Level, m: map<int, int>)
    requires Lists(side, m) && pos <= |side|
    requires forall i :: 0 <= i < |side| ==> side[i].price != lvl.price
    ensures Lists(side[..pos] + [lvl] + side[pos..], m[lvl.price := lvl.qty])
  {
    var side', m' := side[..pos] + [lvl] + side[pos..], m[lvl.price := lvl.qty];
    forall i | 0 <= i < |side'|
      ensures side'[i].price in m' && m'[side'[i].price] == side'[i].qty
    {
      assert side'[i] == if i < pos then side[i] else if i == pos then lvl else side[i - 1];
    }
    forall p | p in m'
      ensures exists i :: 0 <= i < |side'| && side'[i].price == p
    {
      if p == lvl.price {
        assert side'[pos].price == p;
      } else {
        var i :| 0 <= i < |side| && side[i].price == p;
        assert side'[if i < pos then i else i + 1].price == p;
      }
    }
  }

  lemma ListsOverwritten(side: seq<Level>, pos: nat, qty: int, m: map<int, int>)
    requires Lists(side, m) && pos < |side|
    requires forall i :: 0 <= i < |side| && i != pos ==> side[i].price != side[pos].price
    ensures Lists(side[pos := side[pos].(qty := qty)], m[side[pos].price := qty])
  {
    var side', m' := side[pos := side[pos].(qty := qty)], m[side[pos].price := qty];
    forall p | p in m'
      ensures exists i :: 0 <= i < |side'| && side'[i].price == p
    {
      var i :| 0 <= i < |side| && side[i].price == p;
      assert side'[i].price == p;
    }
  }

  lemma ListsRemoved(side: seq<Level>, pos: nat, m: map<int, int>)
    requires Lists(side, m) && pos < |side|
    requires forall i :: 0 <= i < |side| && i != pos ==> side[i].price != side[pos].price
    ensures Lists(side[..pos] + side[pos + 1..], m - {side[pos].price})
  {
    var side', m' := side[..pos] + side[pos + 1..], m - {side[pos].price};
    forall i | 0 <= i < |side'|
      ensures side'[i].price in m' && m'[side'[i].price] == side'[i].qty
    {
      assert side'[i] == side[if i < pos then i else i + 1];
    }
    forall p | p in m'
      ensures exists i :: 0 <= i < |side'| && side'[i].price == p
    {
      var i :| 0 <= i < |side| && side[i].price == p;
      assert side'[if i < pos then i else i - 1].price == p;
    }
  }

  lemma SortedDistinct(side: seq<Level>, pos: nat, descending: bool)
    requires SortedSide(side, descending) && pos < |side|
    ensures forall i :: 0 <= i < |side| && i != pos ==> side[i].price != side[pos].price
  {
    forall i | 0 <= i < |side| && i != pos
      ensures side[i].price != side[pos].price
    {
      assert Better(side[i].price, side[pos].price, descending) || Better(side[pos].price, side[i].price, descending);
    }
  }

  // What the search sees on a sorted side.
  lemma SearchSorted(side: seq<Level>, price: int, descending: bool) returns (found: Found)
    requires SortedSide(side, descending)
    ensures found == BinarySearchBy(side, Against(price, descending))
    ensures found.Ok? ==> found.pos < |side| && side[found.pos].price == price
    ensures found.Err? ==> Belongs(side, price, descending, found.pos)
  {
    var cmp := Against(price, descending);
    forall i, j | 0 <= i < j < |side|
      ensures cmp(side[j]) == Less ==> cmp(side[i]) == Less
      ensures cmp(side[i]) == Greater ==> cmp(side[j]) == Greater
      ensures cmp(side[i]) == Equal ==> cmp(side[j]) == Greater
    {
      assert Better(side[i].price, side[j].price, descending);
    }
    SearchFinds(side, cmp);
    found := BinarySearchBy(side, cmp);
  }

  lemma RemoveSorted(side: seq<Level>, pos: nat, descending: bool)
    requires SortedSide(side, descending) && pos < |side|
    ensures SortedSide(side[..pos] + side[pos + 1..], descending)
  {
    var side' := side[..pos] + side[pos + 1..];
    assert forall i :: 0 <= i < |side'| ==> side'[i] == side[if i < pos then i else i + 1];
  }

  lemma OverwriteSorted(side: seq<Level>, pos: nat, qty: int, descending: bool)
    requires SortedSide(side, descending) && pos < |side| && qty != 0
    ensures SortedSide(side[pos := side[pos].(qty := qty)], descending)
  {
  }

  lemma InsertSorted(side: seq<Level>, pos: nat, lvl: Level, descending: bool)
    requires SortedSide(side, descending) && pos <= |side| && lvl.qty != 0
    requires forall i :: 0 <= i < pos ==> Better(side[i].price, lvl.price, descending)
    requires forall i :: pos <= i < |side| ==> Better(lvl.price, side[i].price, descending)
    ensures SortedSide(side[..pos] + [lvl] + side[pos..], descending)
  {
    var side' := side[..pos] + [lvl] + side[pos..];
    assert forall i :: 0 <= i < |side'| ==>
      side'[i] == if i < pos then side[i] else if i == pos then lvl else side[i - 1];
  }

  // What one level does to a side, by what the search found and what is to be done.
  ghost predicate Refines(side: seq<Level>, side': seq<Level>, upd: Level, descending: bool) {
    SortedSide(side', descending) && Lists(side', SetLevel(Levels(side), upd))
  }

  lemma RemovalRefines(side: seq<Level>, upd: Level, descending: bool, pos: nat)
    requires SortedSide(side, descending) && Lists(side, Levels(side)) && pos < |side| && side[pos].price == upd.price
    requires upd.qty == 0
    ensures Refines(side, side[..pos] + side[pos + 1..], upd, descending)
  {
    SortedDistinct(side, pos, descending);
    ListsRemoved(side, pos, Levels(side));
    RemoveSorted(side, pos, descending);
  }

  lemma OverwriteRefines(side: seq<Level>, upd: Level, descending: bool, pos: nat)
    requires SortedSide(side, descending) && Lists(side, Levels(side)) && pos < |side| && side[pos].price == upd.price
    requires upd.qty != 0
    ensures Refines(side, side[pos := side[pos].(qty := upd.qty)], upd, descending)
  {
    SortedDistinct(side, pos, descending);
    ListsOverwritten(side, pos, upd.qty, Levels(side));
    OverwriteSorted(side, pos, upd.qty, descending);
  }

  // `pos` is where a price that is not listed belongs.
  ghost predicate Belongs(side: seq<Level>, price: int, descending: bool, pos: nat) {
    && pos <= |side|
    && (forall i :: 0 <= i < pos ==> Better(side[i].price, price, descending))
    && (forall i :: pos <= i < |side| ==> Better(price, side[i].price, descending))
  }

  lemma InsertionRefines(side: seq<Level>, upd: Level, descending: bool, pos: nat)
    requires SortedSide(side, descending) && Lists(side, Levels(side)) && Belongs(side, upd.price, descending, pos)
    requires upd.qty != 0
    ensures Refines(side, side[..pos] + [upd] + side[pos..], upd, descending)
  {
    assert forall i :: 0 <= i < |side| ==> side[i].price != upd.price;
    ListsInserted(side, pos, upd, Levels(side));
    InsertSorted(side, pos, upd, descending);
  }

  lemma AbsenceRefines(side: seq<Level>, upd: Level, descending: bool, pos: nat)
    requires SortedSide(side, descending) && Lists(side, Levels(side)) && Belongs(side, upd.price, descending, pos)
    requires upd.qty == 0
    ensures Refines(side, side, upd, descending)
  {
    assert forall i :: 0 <= i < |side| ==> side[i].price != upd.price;
    assert upd.price !in Levels(side);
    assert Levels(side) - {upd.price} == Levels(side);
  }

  lemma ApplyLevelRefines(side: seq<Level>, upd: Level, descending: bool) returns (side': seq<Level>)
    requires SortedSide(side, descending)
    ensures side' == ApplyLevel(side, upd, descending) && Refines(side, side', upd, descending)
  {
    var found := SearchSorted(side, upd.price, descending);
    LevelsListed(side, descending);
    var pos := found.pos;
    if found.Ok? {
      if upd.qty == 0 {
        side' := side[..pos] + side[pos + 1..];
        RemovalRefines(side, upd, descending, pos);
      } else {
        side' := side[pos := side[pos].(qty := upd.qty)];
        OverwriteRefines(side, upd, descending, pos);
      }
    } else if upd.qty != 0 {
      side' := side[..pos] + [upd] + side[pos..];
      InsertionRefines(side, upd, descending, pos);
    } else {
      side' := side;
      AbsenceRefines(side, upd, descending, pos);
    }
  }

  // The in-place merge of a sorted side is the plain fold over a price-to-quantity map, for both
  // directions of the comparator, and leaves the side sorted, without repeated or empty levels.
  lemma {:induction false} SideRefinesMap(side: seq<Level>, updates: seq<Level>, descending: bool)
    requires SortedSide(side, descending)
    ensures SortedSide(ApplySide(side, updates, descending), descending)
    ensures Levels(ApplySide(side, updates, descending)) == SetLevels(Levels(side), updates)
  {
    if updates != [] {
      var n := |updates| - 1;
      var before, after := ApplySide(side, updates[..n], descending), ApplySide(side, updates, descending);
      SideRefinesMap(side, updates[..n], descending);
      var merged := ApplyLevelRefines(before, updates[n], descending);
      LevelsListed(after, descending);
      ListsOneMap(after, Levels(after), SetLevel(Levels(before), updates[n]));
    }
  }

  lemma SameWorst(a: seq<Level>, b: seq<Level>, m: map<int, int>, descending: bool)
    requires SortedSide(a, descending) && SortedSide(b, descending)
    requires Lists(a, m) && Lists(b, m) && a != [] && b != []
    ensures a[|a| - 1] == b[|b| - 1]
  {
    var n, k := |a| - 1, |b| - 1;
    var i :| 0 <= i < |b| && b[i].price == a[n].price;
    var j :| 0 <= j < |a| && a[j].price == b[k].price;
    assert i < k ==> Better(b[i].price, b[k].price, descending);
    assert j < n ==> Better(a[j].price, a[n].price, descending);
  }

  lemma WithoutWorst(side: seq<Level>, m: map<int, int>, descending: bool)
    requires SortedSide(side, descending) && Lists(side, m) && side != []
    ensures SortedSide(side[..|side| - 1], descending)
    ensures Lists(side[..|side| - 1], m - {side[|side| - 1].price})
  {
    var n := |side| - 1;
    SortedDistinct(side, n, descending);
    ListsRemoved(side, n, m);
    assert side[..n] + side[n + 1..] == side[..n];
  }

  // A sorted side is determined by its map: there is exactly one way to list it.
  lemma {:induction false} SortedSideIsUnique(a: seq<Level>, b: seq<Level>, m: map<int, int>, descending: bool)
    requires SortedSide(a, descending) && SortedSide(b, descending)
    requires Lists(a, m) && Lists(b, m)
    ensures a == b
  {
    ListsNothing(a, m);
    ListsNothing(b, m);
    if a != [] {
      var n, k := |a| - 1, |b| - 1;
      SameWorst(a, b, m, descending);
      WithoutWorst(a, m, descending);
      WithoutWorst(b, m, descending);
      SortedSideIsUnique(a[..n], b[..k], m - {a[n].price}, descending);
      SameButLast(a, b);
    }
  }

  lemma SameButLast(a: seq<Level>, b: seq<Level>)
    requires a != [] && b != [] && a[..|a| - 1] == b[..|b| - 1] && a[|a| - 1] == b[|b| - 1]
    ensures a == b
  {
    assert a == a[..|a| - 1] + [a[|a| - 1]] && b == b[..|b| - 1] + [b[|b| - 1]];
  }

  // The last word a list of updates has on a price, if it mentions it.
  ghost function LastWord(updates: seq<Level>, price: int): Option<int> {
    if updates == [] then None
    else
      var n := |updates| - 1;
      if updates[n].price == price then Some(updates[n].qty) else LastWord(updates[..n], price)
  }

  // Zero stands for "no level at this price".
  function QtyAt(m: map<int, int>, price: int): int {
    if price in m then m[price] else 0
  }

  lemma {:induction false} SetLevelsAt(m: map<int, int>, updates: seq<Level>, price: int)
    ensures QtyAt(SetLevels(m, updates), price) ==
            match LastWord(updates, price)
            case Some(qty) => qty
            case None => QtyAt(m, price)
    ensures price in SetLevels(m, updates) && (price in m ==> m[price] != 0) ==> SetLevels(m, updates)[price] != 0
  {
    if updates != [] {
      SetLevelsAt(m, updates[..|updates| - 1], price);
    }
  }

  // What one incremental update does to a well-formed book, in terms of the two price-to-quantity
  // maps it stands for; a stale or gap-exposing update leaves every field alone.
  lemma ApplyMeans(book: Book, delta: Delta)
    requires SortedSide(book.bids, true) && SortedSide(book.asks, false)
    ensures var (book', outcome) := ApplyDelta(book, delta);
            && SortedSide(book'.bids, true) && SortedSide(book'.asks, false)
            && (outcome == Stale <==> delta.lastUpdateId <= book.lastUpdateId)
            && (outcome == Applied <==>
                  && delta.prevUpdateId <= book.lastUpdateId < delta.lastUpdateId
                  && (book.synced ==> delta.prevUpdateId == book.lastUpdateId))
            && (outcome != Applied ==> book' == book)
            && (outcome == Applied ==>
                  && Levels(book'.bids) == SetLevels(Levels(book.bids), delta.bids)
                  && Levels(book'.asks) == SetLevels(Levels(book.asks), delta.asks)
                  && book'.symbol == book.symbol && book'.synced
                  && book'.lastUpdateId == delta.lastUpdateId && book'.ts == delta.ts)
  {
    SideRefinesMap(book.bids, delta.bids, true);
    SideRefinesMap(book.asks, delta.asks, false);
  }
}
