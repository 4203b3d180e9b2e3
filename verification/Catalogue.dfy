/** Instrument lists by market, their differences and their pages (crates/wire/src/catalogue.rs). */
module Catalogue {
  import opened Base
  import opened StdSearch
  import opened Ids

  const INSTRUMENTS_PAGE: nat := 2_000

  datatype Instrument = Instrument(symbol: Symbol, base: string, quote: string, marginAsset: string,
                                   tickSize: int, stepSize: int, minQty: int, minNotional: int, trading: bool)

  // Names compare character by character; a proper prefix comes first.
  predicate Before(a: string, b: string) {
    BeforeFrom(a, b, 0)
  }

  predicate BeforeFrom(a: string, b: string, i: nat)
    requires i <= |a| && i <= |b|
    decreases |b| - i
  {
    i < |b| && (i == |a| || a[i] < b[i] || (a[i] == b[i] && BeforeFrom(a, b, i + 1)))
  }

  // The order of the names: they agree up to some place, and there the first one ends or is smaller.
  lemma BeforeIsLexicographic(a: string, b: string)
    ensures Before(a, b) <==> exists n :: PartsAt(a, b, n)
  {
    LexicographicFrom(a, b, 0);
  }

  predicate PartsAt(a: string, b: string, n: nat) {
    n <= |a| && n < |b| && a[..n] == b[..n] && (n == |a| || a[n] < b[n])
  }

  lemma {:induction false} LexicographicFrom(a: string, b: string, i: nat)
    requires i <= |a| && i <= |b| && a[..i] == b[..i]
    ensures BeforeFrom(a, b, i) <==> exists n :: i <= n && PartsAt(a, b, n)
    decreases |b| - i
  {
    forall n | i < n && PartsAt(a, b, n)
      ensures i < |a| && i < |b| && a[i] == b[i]
    {
      assert a[..n][i] == b[..n][i];
    }
    if i < |a| && i < |b| && a[i] == b[i] {
      assert a[..i + 1] == a[..i] + [a[i]] && b[..i + 1] == b[..i] + [b[i]];
      LexicographicFrom(a, b, i + 1);
    } else if BeforeFrom(a, b, i) {
      assert PartsAt(a, b, i);
    }
  }

  function Name(i: Instrument): string { i.symbol.raw }

  lemma BeforeIsTotal(a: string, b: string)
    ensures a == b || Before(a, b) || Before(b, a)
    ensures !(Before(a, b) && Before(b, a)) && !Before(a, a)
  {
    TotalFrom(a, b, 0);
    TotalFrom(a, a, 0);
  }

  lemma {:induction false} TotalFrom(a: string, b: string, i: nat)
    requires i <= |a| && i <= |b| && a[..i] == b[..i]
    ensures a == b || BeforeFrom(a, b, i) || BeforeFrom(b, a, i)
    ensures !(BeforeFrom(a, b, i) && BeforeFrom(b, a, i))
    decreases |b| - i
  {
    if i < |a| && i < |b| && a[i] == b[i] {
      assert a[..i + 1] == a[..i] + [a[i]] && b[..i + 1] == b[..i] + [b[i]];
      TotalFrom(a, b, i + 1);
    } else if i == |a| == |b| {
      assert a == a[..i] && b == b[..i];
    }
  }

  lemma BeforeIsTransitive(a: string, b: string, c: string)
    requires Before(a, b) && Before(b, c)
    ensures Before(a, c)
  {
    TransitiveFrom(a, b, c, 0);
  }

  lemma {:induction false} TransitiveFrom(a: string, b: string, c: string, i: nat)
    requires i <= |a| && i <= |b| && i <= |c| && BeforeFrom(a, b, i) && BeforeFrom(b, c, i)
    ensures BeforeFrom(a, c, i)
    decreases |c| - i
  {
    if i < |a| && a[i] == b[i] && b[i] == c[i] {
      TransitiveFrom(a, b, c, i + 1);
    }
  }

  // ---------------------------------------------------------------- normalising a list

  // Sorted by name, every name once: what makes a cursor by name work.
  ghost predicate Strict(list: seq<Instrument>) {
    forall i, j :: 0 <= i < j < |list| ==> Before(Name(list[i]), Name(list[j]))
  }

  ghost predicate Sorted(list: seq<Instrument>) {
    forall i, j :: 0 <= i < j < |list| ==> !Before(Name(list[j]), Name(list[i]))
  }

  // A stable sort: an item goes behind everything not greater than it.
  function Insert(list: seq<Instrument>, x: Instrument): seq<Instrument> {
    if list == [] then [x]
    else if Before(Name(x), Name(list[0])) then [x] + list
    else [list[0]] + Insert(list[1..], x)
  }

  function SortedByName(list: seq<Instrument>): seq<Instrument> {
    if list == [] then [] else Insert(SortedByName(list[..|list| - 1]), list[|list| - 1])
  }

  // Drop an item named like the last one kept.
  function Dedup(list: seq<Instrument>): seq<Instrument> {
    if list == [] then []
    else
      var kept := Dedup(list[..|list| - 1]);
      var x := list[|list| - 1];
      if kept != [] && Name(kept[|kept| - 1]) == Name(x) then kept else kept + [x]
  }

  function Normal(incoming: seq<Instrument>): seq<Instrument> {
    Dedup(SortedByName(incoming))
  }

  // The first item with a name.
  function Find(list: seq<Instrument>, name: string): (r: Option<Instrument>)
    ensures r.Some? ==> r.value in list && Name(r.value) == name
    ensures r.None? ==> forall x :: x in list ==> Name(x) != name
  {
    if list == [] then None
    else if Name(list[0]) == name then Some(list[0])
    else Find(list[1..], name)
  }

  lemma {:induction false} FindAppended(list: seq<Instrument>, x: Instrument, name: string)
    ensures Find(list + [x], name) ==
            if Find(list, name).Some? then Find(list, name) else if Name(x) == name then Some(x) else None
  {
    if list == [] {
      assert [] + [x] == [x];
    } else {
      FindAppended(list[1..], x, name);
      assert (list + [x])[1..] == list[1..] + [x];
    }
  }

  lemma {:induction false} InsertMembers(list: seq<Instrument>, x: Instrument)
    ensures forall y :: y in Insert(list, x) <==> y in list || y == x
  {
    if list != [] && !Before(Name(x), Name(list[0])) {
      InsertMembers(list[1..], x);
      assert list == [list[0]] + list[1..];
    }
  }

  lemma {:induction false} InsertSorts(list: seq<Instrument>, x: Instrument)
    requires Sorted(list)
    ensures Sorted(Insert(list, x))
  {
    if list != [] {
      if Before(Name(x), Name(list[0])) {
        SmallestFirst(list, x);
      } else {
        InsertSorts(list[1..], x);
        InsertMembers(list[1..], x);
        var rest := Insert(list[1..], x);
        forall j | 0 <= j < |rest|
          ensures !Before(Name(rest[j]), Name(list[0]))
        {
          assert rest[j] in rest;
          if rest[j] != x {
            assert rest[j] in list[1..];
            var k :| 0 <= k < |list[1..]| && list[1..][k] == rest[j];
            assert list[k + 1] == rest[j];
          }
        }
      }
    }
  }

  lemma SmallestFirst(list: seq<Instrument>, x: Instrument)
    requires Sorted(list) && list != [] && Before(Name(x), Name(list[0]))
    ensures Sorted([x] + list)
  {
    forall j | 0 <= j < |list|
      ensures !Before(Name(list[j]), Name(x))
    {
      BeforeIsTotal(Name(x), Name(list[j]));
      BeforeIsTotal(Name(list[0]), Name(list[0]));
      if Before(Name(list[j]), Name(x)) {
        BeforeIsTransitive(Name(list[j]), Name(x), Name(list[0]));
      }
    }
  }

  lemma NotListed(list: seq<Instrument>, x: Instrument)
    requires Sorted(list) && list != [] && Before(Name(x), Name(list[0]))
    ensures Find(list, Name(x)) == None
  {
    BeforeIsTotal(Name(x), Name(x));
    assert forall k :: 0 < k < |list| ==> !Before(Name(list[k]), Name(list[0]));
    assert forall k :: 0 <= k < |list| ==> Name(list[k]) != Name(x);
  }

  // Inserting leaves what a name finds alone, unless the name was new.
  lemma {:induction false} FindInserted(list: seq<Instrument>, x: Instrument, name: string)
    requires Sorted(list)
    ensures Find(Insert(list, x), name) ==
            if Find(list, name).Some? then Find(list, name) else if Name(x) == name then Some(x) else None
  {
    if list != [] {
      if Before(Name(x), Name(list[0])) {
        assert ([x] + list)[1..] == list;
        NotListed(list, x);
      } else {
        FindInserted(list[1..], x, name);
        assert ([list[0]] + Insert(list[1..], x))[1..] == Insert(list[1..], x);
      }
    }
  }

  lemma {:induction false} SortSorts(list: seq<Instrument>)
    ensures Sorted(SortedByName(list))
  {
    if list != [] {
      SortSorts(list[..|list| - 1]);
      InsertSorts(SortedByName(list[..|list| - 1]), list[|list| - 1]);
    }
  }

  lemma {:induction false} SortFinds(list: seq<Instrument>, name: string)
    ensures Find(SortedByName(list), name) == Find(list, name)
  {
    if list != [] {
      var rest, x := list[..|list| - 1], list[|list| - 1];
      SortFinds(rest, name);
      SortSorts(rest);
      FindInserted(SortedByName(rest), x, name);
      FindAppended(rest, x, name);
      assert list == rest + [x];
    }
  }

  lemma {:induction false} DedupEnds(list: seq<Instrument>)
    ensures list != [] ==> Dedup(list) != [] && Name(Dedup(list)[|Dedup(list)| - 1]) == Name(list[|list| - 1])
  {
  }

  // Leaving out an item named like one that is there, or adding it, finds the same.
  lemma {:induction false} DedupKeeps(list: seq<Instrument>, name: string)
    ensures Find(Dedup(list), name) == Find(list, name)
  {
    if list != [] {
      var rest, x := list[..|list| - 1], list[|list| - 1];
      var kept := Dedup(rest);
      DedupKeeps(rest, name);
      FindAppended(rest, x, name);
      assert list == rest + [x];
      if kept != [] && Name(kept[|kept| - 1]) == Name(x) {
        assert kept[|kept| - 1] in kept;
      } else {
        FindAppended(kept, x, name);
      }
    }
  }

  lemma {:induction false} DedupIsStrict(list: seq<Instrument>)
    requires Sorted(list)
    ensures Strict(Dedup(list))
  {
    if list != [] {
      var n := |list| - 1;
      var kept, x := Dedup(list[..n]), list[n];
      DedupIsStrict(list[..n]);
      DedupEnds(list[..n]);
      if kept != [] && Name(kept[|kept| - 1]) != Name(x) {
        BeforeIsTotal(Name(kept[|kept| - 1]), Name(x));
        assert !Before(Name(list[n]), Name(list[n - 1]));
        forall i | 0 <= i < |kept|
          ensures Before(Name(kept[i]), Name(x))
        {
          if i < |kept| - 1 {
            BeforeIsTransitive(Name(kept[i]), Name(kept[|kept| - 1]), Name(x));
          }
        }
      }
    }
  }

  // What `replace` stores: the venue's list in name order, every name once, each name with the item
  // the venue listed first.
  lemma NormalIsFaithful(incoming: seq<Instrument>, name: string)
    ensures Strict(Normal(incoming))
    ensures Find(Normal(incoming), name) == Find(incoming, name)
  {
    SortSorts(incoming);
    SortFinds(incoming, name);
    DedupKeeps(SortedByName(incoming), name);
    DedupIsStrict(SortedByName(incoming));
  }

  // ---------------------------------------------------------------- what changed

  datatype Changed = Changed(added: seq<Symbol>, removed: seq<Symbol>, altered: seq<Symbol>)

  predicate IsEmpty(c: Changed) { c.added == [] && c.removed == [] && c.altered == [] }

  predicate SameTerms(a: Instrument, b: Instrument) {
    && a.tickSize == b.tickSize && a.stepSize == b.stepSize && a.minQty == b.minQty && a.minNotional == b.minNotional
    && a.trading == b.trading && a.base == b.base && a.quote == b.quote && a.marginAsset == b.marginAsset
  }

  function Unlisted(items: seq<Instrument>, other: seq<Instrument>): seq<Symbol> {
    if items == [] then []
    else
      Unlisted(items[..|items| - 1], other) +
      if Find(other, Name(items[|items| - 1])).None? then [items[|items| - 1].symbol] else []
  }

  function Altered(items: seq<Instrument>, was: seq<Instrument>): seq<Symbol> {
    if items == [] then []
    else
      var x := items[|items| - 1];
      var before := Find(was, Name(x));
      Altered(items[..|items| - 1], was) + if before.Some? && !SameTerms(before.value, x) then [x.symbol] else []
  }

  function Diff(was: seq<Instrument>, now: seq<Instrument>): Changed {
    Changed(Unlisted(now, was), Unlisted(was, now), Altered(now, was))
  }

  // Every name of `items` is listed in `other`.
  ghost predicate Covers(other: seq<Instrument>, items: seq<Instrument>) {
    forall i :: 0 <= i < |items| ==> Lists(other, items[i])
  }

  predicate Lists(other: seq<Instrument>, x: Instrument) {
    Find(other, Name(x)).Some?
  }

  lemma CoversOneMore(other: seq<Instrument>, items: seq<Instrument>, x: Instrument)
    ensures Covers(other, items + [x]) <==> Covers(other, items) && Lists(other, x)
  {
    var more := items + [x];
    if Covers(other, more) {
      assert Lists(other, more[|items|]);
      forall i | 0 <= i < |items|
        ensures Lists(other, items[i])
      {
        assert Lists(other, more[i]);
      }
    }
  }

  lemma {:induction false} UnlistedEmpty(items: seq<Instrument>, other: seq<Instrument>)
    ensures Unlisted(items, other) == [] <==> Covers(other, items)
  {
    if items != [] {
      var n := |items| - 1;
      UnlistedEmpty(items[..n], other);
      CoversOneMore(other, items[..n], items[n]);
      assert items == items[..n] + [items[n]];
    }
  }

  // No item of `items` was listed in `was` on other terms.
  ghost predicate Unaltered(items: seq<Instrument>, was: seq<Instrument>) {
    forall i :: 0 <= i < |items| ==> OldTerms(items[i], was)
  }

  predicate OldTerms(x: Instrument, was: seq<Instrument>) {
    var before := Find(was, Name(x));
    before.Some? ==> SameTerms(before.value, x)
  }

  lemma UnalteredOneMore(items: seq<Instrument>, was: seq<Instrument>, x: Instrument)
    ensures Unaltered(items + [x], was) <==> Unaltered(items, was) && OldTerms(x, was)
  {
    var more := items + [x];
    if Unaltered(more, was) {
      assert OldTerms(more[|items|], was);
      forall i | 0 <= i < |items|
        ensures OldTerms(items[i], was)
      {
        assert OldTerms(more[i], was);
      }
    }
  }

  lemma {:induction false} AlteredEmpty(items: seq<Instrument>, was: seq<Instrument>)
    ensures Altered(items, was) == [] <==> Unaltered(items, was)
  {
    if items != [] {
      var n := |items| - 1;
      AlteredEmpty(items[..n], was);
      UnalteredOneMore(items[..n], was, items[n]);
      assert items == items[..n] + [items[n]];
    }
  }

  // A report names exactly the items it should, for a list in which every name occurs once.
  lemma {:induction false} UnlistedExactly(items: seq<Instrument>, other: seq<Instrument>, x: Instrument)
    requires Strict(items) && x in items
    ensures x.symbol in Unlisted(items, other) <==> Find(other, Name(x)).None?
    ensures forall s :: s in Unlisted(items, other) ==> exists y :: y in items && y.symbol == s
  {
    var n := |items| - 1;
    var z := items[n];
    assert items == items[..n] + [z];
    UnlistedWithin(items[..n], other);
    if x in items[..n] {
      UnlistedExactly(items[..n], other, x);
      NamesDiffer(items, x);
    } else {
      forall y | y in items[..n]
        ensures y.symbol != z.symbol
      {
        NamesDiffer(items, y);
      }
    }
  }

  lemma {:induction false} UnlistedWithin(items: seq<Instrument>, other: seq<Instrument>)
    ensures forall s :: s in Unlisted(items, other) ==> exists y :: y in items && y.symbol == s
  {
    if items != [] {
      var n := |items| - 1;
      UnlistedWithin(items[..n], other);
      assert items == items[..n] + [items[n]];
    }
  }

  lemma NamesDiffer(items: seq<Instrument>, x: Instrument)
    requires Strict(items) && items != [] && x in items[..|items| - 1]
    ensures Name(x) != Name(items[|items| - 1])
  {
    var i :| 0 <= i < |items| - 1 && items[i] == x;
    assert Before(Name(items[i]), Name(items[|items| - 1]));
    BeforeIsTotal(Name(x), Name(x));
  }

  lemma {:induction false} AlteredExactly(items: seq<Instrument>, was: seq<Instrument>, x: Instrument)
    requires Strict(items) && x in items
    ensures x.symbol in Altered(items, was) <==>
            Find(was, Name(x)).Some? && !SameTerms(Find(was, Name(x)).value, x)
  {
    var n := |items| - 1;
    var z := items[n];
    assert items == items[..n] + [z];
    AlteredWithin(items[..n], was);
    if x in items[..n] {
      AlteredExactly(items[..n], was, x);
      NamesDiffer(items, x);
    } else {
      forall y | y in items[..n]
        ensures y.symbol != z.symbol
      {
        NamesDiffer(items, y);
      }
    }
  }

  lemma {:induction false} AlteredWithin(items: seq<Instrument>, was: seq<Instrument>)
    ensures forall s :: s in Altered(items, was) ==> exists y :: y in items && y.symbol == s
  {
    if items != [] {
      var n := |items| - 1;
      AlteredWithin(items[..n], was);
      assert items == items[..n] + [items[n]];
    }
  }

  // Every field of a report names exactly what it should: listed now and not before, listed before and
  // not now, and listed both times on other terms.
  lemma ReportIsExact(was: seq<Instrument>, now: seq<Instrument>)
    requires Strict(was) && Strict(now)
    ensures var changed := Diff(was, now);
            && (forall x :: x in now ==> (x.symbol in changed.added <==> Find(was, Name(x)).None?))
            && (forall x :: x in was ==> (x.symbol in changed.removed <==> Find(now, Name(x)).None?))
            && (forall x :: x in now ==> (x.symbol in changed.altered <==>
                  Find(was, Name(x)).Some? && Find(was, Name(x)).value.(symbol := x.symbol) != x))
            && (forall s :: s in changed.added ==> exists x :: x in now && x.symbol == s)
            && (forall s :: s in changed.removed ==> exists x :: x in was && x.symbol == s)
            && (forall s :: s in changed.altered ==> exists x :: x in now && x.symbol == s)
  {
    UnlistedWithin(now, was);
    UnlistedWithin(was, now);
    AlteredWithin(now, was);
    forall x | x in now
      ensures x.symbol in Diff(was, now).added <==> Find(was, Name(x)).None?
      ensures x.symbol in Diff(was, now).altered <==>
              Find(was, Name(x)).Some? && Find(was, Name(x)).value.(symbol := x.symbol) != x
    {
      UnlistedExactly(now, was, x);
      AlteredExactly(now, was, x);
      if Find(was, Name(x)).Some? {
        TermsAreEverything(Find(was, Name(x)).value, x);
      }
    }
    forall x | x in was
      ensures x.symbol in Diff(was, now).removed <==> Find(now, Name(x)).None?
    {
      UnlistedExactly(was, now, x);
    }
  }

  // Terms are everything about an instrument but its symbol.
  lemma TermsAreEverything(a: Instrument, b: Instrument)
    ensures SameTerms(a, b) <==> a.(symbol := b.symbol) == b
  {
  }

  // The same names in the same order, on the same terms.
  ghost predicate SameListing(a: seq<Instrument>, b: seq<Instrument>) {
    |a| == |b| && forall i :: 0 <= i < |a| ==> SameItem(a[i], b[i])
  }

  predicate SameItem(x: Instrument, y: Instrument) {
    Name(x) == Name(y) && SameTerms(x, y)
  }

  lemma FindStrict(list: seq<Instrument>, i: nat)
    requires Strict(list) && i < |list|
    ensures Find(list, Name(list[i])) == Some(list[i])
  {
    BeforeIsTotal(Name(list[i]), Name(list[i]));
    forall j | 0 <= j < |list| && Name(list[j]) == Name(list[i])
      ensures j == i
    {
      assert !(i < j) && !(j < i);
    }
    assert list[i] in list;
  }

  // A list's largest name is last.
  lemma LastIsLargest(list: seq<Instrument>, x: Instrument)
    requires Strict(list) && x in list
    ensures Name(x) == Name(list[|list| - 1]) || Before(Name(x), Name(list[|list| - 1]))
  {
    var i :| 0 <= i < |list| && list[i] == x;
  }

  lemma SameLargest(a: seq<Instrument>, b: seq<Instrument>)
    requires Strict(a) && Strict(b) && Covers(b, a) && Covers(a, b) && a != []
    ensures b != [] && Name(a[|a| - 1]) == Name(b[|b| - 1])
  {
    assert Lists(b, a[|a| - 1]);
    var x := Name(a[|a| - 1]);
    LastIsLargest(b, Find(b, x).value);
    assert Lists(a, b[|b| - 1]);
    var y := Name(b[|b| - 1]);
    LastIsLargest(a, Find(a, y).value);
    BeforeIsTotal(x, y);
  }

  lemma {:induction false} SameNamesSameOrder(a: seq<Instrument>, b: seq<Instrument>)
    requires Strict(a) && Strict(b) && Covers(b, a) && Covers(a, b)
    ensures |a| == |b| && forall i :: 0 <= i < |a| ==> Name(a[i]) == Name(b[i])
  {
    if a == [] && b == [] {
    } else if a == [] {
      SameLargest(b, a);
    } else {
      var n, m := |a| - 1, |b| - 1;
      SameLargest(a, b);
      DroppedStillFound(a, b);
      DroppedStillFound(b, a);
      SameNamesSameOrder(a[..n], b[..m]);
      AppendedNames(a[..n], b[..m], a, b);
    }
  }

  lemma AppendedNames(a: seq<Instrument>, b: seq<Instrument>, a': seq<Instrument>, b': seq<Instrument>)
    requires |a'| == |a| + 1 && a'[..|a|] == a && |b'| == |b| + 1 && b'[..|b|] == b
    requires |a| == |b| && (forall i :: 0 <= i < |a| ==> Name(a[i]) == Name(b[i]))
    requires Name(a'[|a|]) == Name(b'[|b|])
    ensures |a'| == |b'| && forall i :: 0 <= i < |a'| ==> Name(a'[i]) == Name(b'[i])
  {
    assert forall i :: 0 <= i < |a| ==> a'[i] == a[i] && b'[i] == b[i];
  }

  lemma DroppedStillFound(a: seq<Instrument>, b: seq<Instrument>)
    requires Strict(a) && Strict(b) && Covers(b, a) && a != [] && b != [] && Name(a[|a| - 1]) == Name(b[|b| - 1])
    ensures Covers(b[..|b| - 1], a[..|a| - 1]) && Strict(a[..|a| - 1])
  {
    var n, fewer := |b| - 1, a[..|a| - 1];
    assert b == b[..n] + [b[n]];
    forall i | 0 <= i < |fewer|
      ensures Lists(b[..n], fewer[i])
    {
      assert Lists(b, a[i]) && Before(Name(a[i]), Name(a[|a| - 1]));
      BeforeIsTotal(Name(b[n]), Name(b[n]));
      FindAppended(b[..n], b[n], Name(a[i]));
    }
  }

  lemma NothingReported(was: seq<Instrument>, now: seq<Instrument>)
    requires Strict(was) && Strict(now) && IsEmpty(Diff(was, now))
    ensures SameListing(was, now)
  {
    UnlistedEmpty(now, was);
    UnlistedEmpty(was, now);
    AlteredEmpty(now, was);
    SameNamesSameOrder(was, now);
    forall i | 0 <= i < |was|
      ensures SameItem(was[i], now[i])
    {
      FindStrict(was, i);
      assert OldTerms(now[i], was);
    }
  }

  lemma NothingToReport(was: seq<Instrument>, now: seq<Instrument>)
    requires Strict(was) && Strict(now) && SameListing(was, now)
    ensures IsEmpty(Diff(was, now))
  {
    forall i | 0 <= i < |now|
      ensures Lists(was, now[i]) && Lists(now, was[i]) && OldTerms(now[i], was)
    {
      assert SameItem(was[i], now[i]);
      FindStrict(was, i);
      FindStrict(now, i);
    }
    UnlistedEmpty(now, was);
    UnlistedEmpty(was, now);
    AlteredEmpty(now, was);
  }

  // Nothing is reported exactly when the listing is the same.
  lemma EmptyDiffMeansSame(was: seq<Instrument>, now: seq<Instrument>)
    requires Strict(was) && Strict(now)
    ensures IsEmpty(Diff(was, now)) <==> SameListing(was, now)
  {
    if IsEmpty(Diff(was, now)) {
      NothingReported(was, now);
    }
    if SameListing(was, now) {
      NothingToReport(was, now);
    }
  }

  // ---------------------------------------------------------------- one page

  datatype Page = Page(items: seq<Instrument>, cursor: Option<string>)

  // `partition_point` is the library's binary search with no equal answer.
  function NotAfter(name: string): Instrument -> Ordering {
    (i: Instrument) => if Name(i) == name || Before(Name(i), name) then Less else Greater
  }

  function StartOf(list: seq<Instrument>, cursor: Option<string>): (start: nat)
    ensures start <= |list|
  {
    match cursor
    case None => 0
    case Some(after) => BinarySearchBy(list, NotAfter(after)).pos
  }

  function PageOf(list: seq<Instrument>, cursor: Option<string>): Page {
    var start := StartOf(list, cursor);
    var end := Min(start + INSTRUMENTS_PAGE, |list|);
    var items := list[start..end];
    Page(items, if end < |list| && items != [] then Some(Name(items[|items| - 1])) else None)
  }

  predicate After(name: string, cursor: Option<string>) {
    cursor.Some? ==> Before(cursor.value, name)
  }

  // A page starts exactly behind its cursor.
  lemma StartIsExact(list: seq<Instrument>, cursor: Option<string>)
    requires Strict(list)
    ensures var start := StartOf(list, cursor);
            && (forall i :: 0 <= i < start ==> !After(Name(list[i]), cursor))
            && (forall i :: start <= i < |list| ==> After(Name(list[i]), cursor))
  {
    if cursor.Some? {
      var cmp := NotAfter(cursor.value);
      forall i, j | 0 <= i < j < |list|
        ensures cmp(list[j]) == Less ==> cmp(list[i]) == Less
      {
        assert Before(Name(list[i]), Name(list[j]));
        if cmp(list[j]) == Less && Name(list[j]) != cursor.value {
          BeforeIsTransitive(Name(list[i]), Name(list[j]), cursor.value);
        }
      }
      SearchFinds(list, cmp);
      forall i | 0 <= i < |list|
        ensures cmp(list[i]) == Less <==> !Before(cursor.value, Name(list[i]))
      {
        BeforeIsTotal(Name(list[i]), cursor.value);
      }
    }
  }

  // ---------------------------------------------------------------- the catalogue

  datatype Cat = Cat(byMarket: map<(ExchangeId, MarketKind), seq<Instrument>>, rev: nat)

  class Catalogue {
    var byMarket: map<(ExchangeId, MarketKind), seq<Instrument>>
    var rev: nat

    constructor ()
      ensures byMarket == map[] && rev == 0
    {
      byMarket, rev := map[], 0;
    }

    function Listed(exchange: ExchangeId, market: MarketKind): seq<Instrument>
      reads this
    {
      if (exchange, market) in byMarket then byMarket[(exchange, market)] else []
    }

    method Replace(exchange: ExchangeId, market: MarketKind, incoming: seq<Instrument>) returns (changed: Changed)
      modifies this
      ensures byMarket == old(byMarket)[(exchange, market) := Normal(incoming)]
      ensures changed == Diff(old(Listed(exchange, market)), Normal(incoming))
      ensures rev == old(rev) + (if IsEmpty(changed) then 0 else 1)
      ensures View() == Refreshed(old(View()), Refresh(exchange, market, incoming))
    {
      var items := Normal(incoming);
      changed := Compare(Listed(exchange, market), items);
      byMarket := byMarket[(exchange, market) := items];
      if !IsEmpty(changed) {
        rev := rev + 1;
      }
    }

    function View(): Cat
      reads this
    {
      Cat(byMarket, rev)
    }

    // A market without a list has no page, not an empty one. A page carries the revision it was cut from.
    function GetPage(exchange: ExchangeId, market: MarketKind, cursor: Option<string>): Option<(Page, nat)>
      reads this
    {
      if (exchange, market) in byMarket then Some((PageOf(byMarket[(exchange, market)], cursor), rev)) else None
    }

    function Get(symbol: Symbol): Option<Instrument>
      reads this
    {
      if (symbol.exchange, symbol.market) in byMarket then
        Lookup(byMarket[(symbol.exchange, symbol.market)], symbol.raw)
      else None
    }
  }

  // The loops of `replace` over the new list and the old one.
  method Compare(previous: seq<Instrument>, items: seq<Instrument>) returns (changed: Changed)
    ensures changed == Diff(previous, items)
  {
    var added, altered, removed: seq<Symbol> := [], [], [];
    for i := 0 to |items|
      invariant added == Unlisted(items[..i], previous) && altered == Altered(items[..i], previous)
    {
      assert items[..i + 1][..i] == items[..i];
      match Find(previous, Name(items[i])) {
        case None => added := added + [items[i].symbol];
        case Some(before) =>
          if !SameTerms(before, items[i]) {
            altered := altered + [items[i].symbol];
          }
      }
    }
    assert items[..|items|] == items;
    for i := 0 to |previous|
      invariant removed == Unlisted(previous[..i], items)
    {
      assert previous[..i + 1][..i] == previous[..i];
      if Find(items, Name(previous[i])).None? {
        removed := removed + [previous[i].symbol];
      }
    }
    assert previous[..|previous|] == previous;
    changed := Changed(added, removed, altered);
  }

  function ByName(name: string): Instrument -> Ordering {
    (i: Instrument) => if Name(i) == name then Equal else if Before(Name(i), name) then Less else Greater
  }

  function Lookup(list: seq<Instrument>, name: string): Option<Instrument> {
    var found := BinarySearchBy(list, ByName(name));
    if found.Ok? then Some(list[found.pos]) else None
  }

  // The binary search in a stored list finds what a scan would.
  lemma LookupFinds(list: seq<Instrument>, name: string)
    requires Strict(list)
    ensures Lookup(list, name) == Find(list, name)
  {
    var cmp := ByName(name);
    forall i, j | 0 <= i < j < |list|
      ensures cmp(list[j]) != Greater ==> cmp(list[i]) == Less
    {
      assert Before(Name(list[i]), Name(list[j]));
      BeforeIsTotal(Name(list[i]), name);
      BeforeIsTotal(Name(list[i]), Name(list[j]));
      if cmp(list[j]) == Less {
        BeforeIsTransitive(Name(list[i]), Name(list[j]), name);
      }
    }
    SearchFinds(list, cmp);
    var found := BinarySearchBy(list, cmp);
    if found.Ok? {
      FindStrict(list, found.pos);
    } else {
      forall x | x in list
        ensures Name(x) != name
      {
        var i :| 0 <= i < |list| && list[i] == x;
        assert cmp(list[i]) != Equal;
      }
    }
  }

  // ---------------------------------------------------------------- walking a list that changes

  // The pages of a walk: `lists[i]` is what the market holds when page `i` is asked for.
  function Walk(lists: seq<seq<Instrument>>, cursor: Option<string>): (pages: seq<Page>)
    ensures |pages| <= |lists|
    decreases |lists|
  {
    if lists == [] then []
    else
      var page := PageOf(lists[0], cursor);
      [page] + if page.cursor.None? then [] else Walk(lists[1..], page.cursor)
  }

  predicate Finished(lists: seq<seq<Instrument>>, cursor: Option<string>)
    decreases |lists|
  {
    lists != [] && (PageOf(lists[0], cursor).cursor.None? || Finished(lists[1..], PageOf(lists[0], cursor).cursor))
  }

  function Delivered(pages: seq<Page>): seq<Instrument> {
    if pages == [] then [] else pages[0].items + Delivered(pages[1..])
  }

  // Where a page lies in the list.
  lemma PageLies(list: seq<Instrument>, cursor: Option<string>)
    ensures var page, start := PageOf(list, cursor), StartOf(list, cursor);
            var end := start + |page.items|;
            && end <= |list| && page.items == list[start..end]
            && (page.cursor.Some? <==> end < |list|)
            && (page.cursor.Some? ==> |page.items| == INSTRUMENTS_PAGE && page.cursor.value == Name(list[end - 1]))
  {
  }

  lemma SliceElements(list: seq<Instrument>, start: nat, end: nat)
    requires start <= end <= |list|
    ensures forall i :: 0 <= i < end - start ==> list[start..end][i] == list[start + i]
  {
  }

  lemma SliceIsStrict(list: seq<Instrument>, start: nat, end: nat)
    requires Strict(list) && start <= end <= |list|
    ensures Strict(list[start..end])
  {
    SliceElements(list, start, end);
  }

  lemma SliceIsAfter(list: seq<Instrument>, cursor: Option<string>, end: nat)
    requires Strict(list) && StartOf(list, cursor) <= end <= |list|
    ensures forall x :: x in list[StartOf(list, cursor)..end] ==> x in list && After(Name(x), cursor)
  {
    StartIsExact(list, cursor);
    SliceElements(list, StartOf(list, cursor), end);
  }

  lemma PageIsStrict(list: seq<Instrument>, cursor: Option<string>)
    requires Strict(list)
    ensures Strict(PageOf(list, cursor).items)
  {
    PageLies(list, cursor);
    SliceIsStrict(list, StartOf(list, cursor), StartOf(list, cursor) + |PageOf(list, cursor).items|);
  }

  lemma PageIsAfter(list: seq<Instrument>, cursor: Option<string>)
    requires Strict(list)
    ensures forall x :: x in PageOf(list, cursor).items ==> x in list && After(Name(x), cursor)
  {
    PageLies(list, cursor);
    SliceIsAfter(list, cursor, StartOf(list, cursor) + |PageOf(list, cursor).items|);
  }

  lemma PageInside(list: seq<Instrument>, cursor: Option<string>)
    requires Strict(list)
    ensures var page := PageOf(list, cursor);
            && Strict(page.items)
            && (forall x :: x in page.items ==> x in list && After(Name(x), cursor))
            && (page.cursor.Some? ==>
                  && |page.items| == INSTRUMENTS_PAGE
                  && page.cursor.value == Name(page.items[|page.items| - 1]) && After(page.cursor.value, cursor))
  {
    PageIsStrict(list, cursor);
    PageIsAfter(list, cursor);
    var items := PageOf(list, cursor).items;
    if PageOf(list, cursor).cursor.Some? {
      assert items[|items| - 1] in items;
    }
  }

  // What a page leaves out comes after its own cursor.
  lemma PageComplete(list: seq<Instrument>, cursor: Option<string>, x: Instrument)
    requires Strict(list) && x in list && After(Name(x), cursor)
    ensures var page := PageOf(list, cursor); x in page.items || (page.cursor.Some? && After(Name(x), page.cursor))
  {
    var i :| 0 <= i < |list| && list[i] == x;
    NotBeforePage(list, cursor, i);
    InOrBehindPage(list, cursor, i);
  }

  lemma NotBeforePage(list: seq<Instrument>, cursor: Option<string>, i: nat)
    requires Strict(list) && i < |list| && After(Name(list[i]), cursor)
    ensures StartOf(list, cursor) <= i
  {
    StartIsExact(list, cursor);
  }

  lemma InOrBehindPage(list: seq<Instrument>, cursor: Option<string>, i: nat)
    requires Strict(list) && StartOf(list, cursor) <= i < |list|
    ensures var page := PageOf(list, cursor);
            list[i] in page.items || (page.cursor.Some? && After(Name(list[i]), page.cursor))
  {
    PageLies(list, cursor);
    var start, page := StartOf(list, cursor), PageOf(list, cursor);
    var end := start + |page.items|;
    if i < end {
      assert page.items[i - start] == list[i];
    } else {
      assert Before(Name(list[end - 1]), Name(list[i]));
    }
  }

  ghost predicate AllStrict(lists: seq<seq<Instrument>>) {
    forall i :: 0 <= i < |lists| ==> Strict(lists[i])
  }

  // What the rest of a walk delivers, after its first page.
  function Rest(lists: seq<seq<Instrument>>, cursor: Option<string>): seq<Instrument>
    requires lists != []
  {
    var page := PageOf(lists[0], cursor);
    if page.cursor.None? then [] else Delivered(Walk(lists[1..], page.cursor))
  }

  lemma WalkOn(lists: seq<seq<Instrument>>, cursor: Option<string>)
    requires lists != []
    ensures var page := PageOf(lists[0], cursor);
            && Walk(lists, cursor) == [page] + (if page.cursor.None? then [] else Walk(lists[1..], page.cursor))
            && Delivered(Walk(lists, cursor)) == page.items + Rest(lists, cursor)
  {
    var page := PageOf(lists[0], cursor);
    var more := if page.cursor.None? then [] else Walk(lists[1..], page.cursor);
    assert ([page] + more)[1..] == more;
  }

  // Delivered names strictly increase, so nothing is delivered twice, whatever happens to the list
  // between pages.
  lemma {:induction false} WalkIncreases(lists: seq<seq<Instrument>>, cursor: Option<string>)
    requires AllStrict(lists)
    ensures Strict(Delivered(Walk(lists, cursor)))
    ensures forall x :: x in Delivered(Walk(lists, cursor)) ==> After(Name(x), cursor)
    decreases |lists|
  {
    if lists != [] {
      var page := PageOf(lists[0], cursor);
      if page.cursor.Some? {
        WalkIncreases(lists[1..], page.cursor);
      }
      PageThenRest(lists[0], cursor, Rest(lists, cursor));
      WalkOn(lists, cursor);
    }
  }

  lemma PageThenRest(list: seq<Instrument>, cursor: Option<string>, rest: seq<Instrument>)
    requires Strict(list) && Strict(rest)
    requires PageOf(list, cursor).cursor.None? ==> rest == []
    requires forall x :: x in rest ==> After(Name(x), PageOf(list, cursor).cursor)
    ensures Strict(PageOf(list, cursor).items + rest)
    ensures forall x :: x in PageOf(list, cursor).items + rest ==> After(Name(x), cursor)
  {
    var page := PageOf(list, cursor);
    PageInside(list, cursor);
    if page.cursor.Some? {
      PagesJoin(page.items, rest, page.cursor.value, cursor);
    } else {
      assert page.items + rest == page.items;
    }
  }

  lemma PagesJoin(items: seq<Instrument>, more: seq<Instrument>, last: string, cursor: Option<string>)
    requires Strict(items) && Strict(more) && items != [] && last == Name(items[|items| - 1])
    requires forall x :: x in more ==> Before(last, Name(x))
    requires After(last, cursor)
    ensures Strict(items + more)
    ensures forall x :: x in more ==> After(Name(x), cursor)
  {
    forall i, j | 0 <= i < |items| && 0 <= j < |more|
      ensures Before(Name(items[i]), Name(more[j]))
    {
      assert more[j] in more;
      if i < |items| - 1 {
        BeforeIsTransitive(Name(items[i]), last, Name(more[j]));
      }
    }
    forall x | x in more
      ensures After(Name(x), cursor)
    {
      if cursor.Some? {
        BeforeIsTransitive(cursor.value, last, Name(x));
      }
    }
  }

  // An instrument listed at every page of a finished walk is delivered, however the rest of the
  // list changed meanwhile.
  lemma {:induction false} NothingSkipped(lists: seq<seq<Instrument>>, cursor: Option<string>, name: string)
    requires AllStrict(lists) && Finished(lists, cursor) && After(name, cursor)
    requires forall i :: 0 <= i < |Walk(lists, cursor)| ==> Find(lists[i], name).Some?
    ensures exists x :: x in Delivered(Walk(lists, cursor)) && Name(x) == name
    decreases |lists|
  {
    var page := PageOf(lists[0], cursor);
    WalkOn(lists, cursor);
    assert Walk(lists, cursor)[0] == page;
    var x := Find(lists[0], name).value;
    PageComplete(lists[0], cursor, x);
    if x !in page.items {
      var more := Walk(lists[1..], page.cursor);
      forall i | 0 <= i < |more|
        ensures Find(lists[1..][i], name).Some?
      {
        assert Walk(lists, cursor)[i + 1] == more[i];
        assert Find(lists[i + 1], name).Some?;
      }
      NothingSkipped(lists[1..], page.cursor, name);
    }
  }

  ghost predicate Unchanging(lists: seq<seq<Instrument>>, list: seq<Instrument>) {
    forall i :: 0 <= i < |lists| ==> lists[i] == list
  }

  lemma StillUnchanging(lists: seq<seq<Instrument>>, list: seq<Instrument>)
    requires Unchanging(lists, list) && lists != []
    ensures lists[0] == list && Unchanging(lists[1..], list)
  {
  }

  // A finished walk over a list that does not change delivers it from the cursor to the end.
  lemma {:induction false} WholeList(lists: seq<seq<Instrument>>, list: seq<Instrument>, cursor: Option<string>)
    requires Strict(list) && Unchanging(lists, list) && Finished(lists, cursor)
    ensures Delivered(Walk(lists, cursor)) == list[StartOf(list, cursor)..]
    decreases |lists|
  {
    var page := PageOf(list, cursor);
    StillUnchanging(lists, list);
    WalkOn(lists, cursor);
    PageIsSlice(list, cursor);
    if page.cursor.Some? {
      WholeList(lists[1..], list, page.cursor);
      NextStart(list, cursor);
    } else {
      assert page.items + [] == page.items;
    }
  }

  lemma PageIsSlice(list: seq<Instrument>, cursor: Option<string>)
    ensures var page, start := PageOf(list, cursor), StartOf(list, cursor);
            && start + |page.items| <= |list|
            && list[start..] == page.items + list[start + |page.items|..]
            && (page.cursor.None? ==> page.items == list[start..])
  {
    PageLies(list, cursor);
    var start, page := StartOf(list, cursor), PageOf(list, cursor);
    CutTwice(list, start, start + |page.items|);
  }

  lemma CutTwice(list: seq<Instrument>, start: nat, end: nat)
    requires start <= end <= |list|
    ensures list[start..] == list[start..end] + list[end..]
  {
  }

  lemma NextStart(list: seq<Instrument>, cursor: Option<string>)
    requires Strict(list) && PageOf(list, cursor).cursor.Some?
    ensures StartOf(list, PageOf(list, cursor).cursor) == StartOf(list, cursor) + |PageOf(list, cursor).items|
  {
    var page, start := PageOf(list, cursor), StartOf(list, cursor);
    var end := start + |page.items|;
    var next := StartOf(list, page.cursor);
    StartIsExact(list, page.cursor);
    assert page.cursor.value == Name(list[end - 1]);
    BeforeIsTotal(Name(list[end - 1]), Name(list[end - 1]));
    assert next >= end;
    if next > end {
      assert Before(Name(list[end - 1]), Name(list[end]));
      assert After(Name(list[end]), page.cursor);
    }
  }

  // Every name a walk from `cursor` may still meet is in `universe`.
  ghost predicate NamesWithin(lists: seq<seq<Instrument>>, cursor: Option<string>, universe: set<string>) {
    forall i :: 0 <= i < |lists| ==> NamesIn(lists[i], cursor, universe)
  }

  ghost predicate NamesIn(list: seq<Instrument>, cursor: Option<string>, universe: set<string>) {
    forall x :: x in list && After(Name(x), cursor) ==> Name(x) in universe
  }

  // A full page leaves fewer names to meet.
  lemma FewerLeft(lists: seq<seq<Instrument>>, cursor: Option<string>, universe: set<string>)
    requires AllStrict(lists) && lists != [] && NamesWithin(lists, cursor, universe)
    requires PageOf(lists[0], cursor).cursor.Some?
    ensures var page := PageOf(lists[0], cursor);
            var left := universe - Names(page.items);
            NamesWithin(lists[1..], page.cursor, left) && |left| == |universe| - INSTRUMENTS_PAGE
  {
    assert NamesIn(lists[0], cursor, universe);
    PageTaken(lists[0], cursor, universe);
    RestWithin(lists, cursor, universe);
  }

  lemma PageTaken(list: seq<Instrument>, cursor: Option<string>, universe: set<string>)
    requires Strict(list) && NamesIn(list, cursor, universe) && PageOf(list, cursor).cursor.Some?
    ensures |universe - Names(PageOf(list, cursor).items)| == |universe| - INSTRUMENTS_PAGE
  {
    PageInside(list, cursor);
    TakenFrom(PageOf(list, cursor).items, universe);
  }

  lemma RestWithin(lists: seq<seq<Instrument>>, cursor: Option<string>, universe: set<string>)
    requires lists != [] && Strict(lists[0]) && NamesWithin(lists, cursor, universe)
    requires PageOf(lists[0], cursor).cursor.Some?
    ensures var page := PageOf(lists[0], cursor); NamesWithin(lists[1..], page.cursor, universe - Names(page.items))
  {
    var page := PageOf(lists[0], cursor);
    PageInside(lists[0], cursor);
    forall i | 0 <= i < |lists[1..]|
      ensures NamesIn(lists[1..][i], page.cursor, universe - Names(page.items))
    {
      assert NamesIn(lists[i + 1], cursor, universe);
      LeftIn(lists[i + 1], page.items, page.cursor.value, cursor, universe);
    }
  }

  lemma LeftIn(list: seq<Instrument>, items: seq<Instrument>, last: string, cursor: Option<string>,
               universe: set<string>)
    requires Strict(items) && items != [] && last == Name(items[|items| - 1]) && After(last, cursor)
    requires NamesIn(list, cursor, universe)
    ensures NamesIn(list, Some(last), universe - Names(items))
  {
    forall x | x in list && Before(last, Name(x))
      ensures Name(x) in universe - Names(items)
    {
      LaterName(items, last, cursor, Name(x));
    }
  }

  // Over a finite universe of names a walk ends: every page but the last takes a full page's worth
  // of names that no later page can take.
  lemma {:induction false} WalkEnds(lists: seq<seq<Instrument>>, cursor: Option<string>, universe: set<string>)
    requires AllStrict(lists) && NamesWithin(lists, cursor, universe)
    requires |universe| < |lists| * INSTRUMENTS_PAGE
    ensures Finished(lists, cursor)
    decreases |lists|
  {
    var page := PageOf(lists[0], cursor);
    if page.cursor.Some? {
      FewerLeft(lists, cursor, universe);
      WalkEnds(lists[1..], page.cursor, universe - Names(page.items));
    }
  }

  function Names(items: seq<Instrument>): set<string> {
    set x | x in items :: Name(x)
  }

  lemma TakenFrom(items: seq<Instrument>, universe: set<string>)
    requires Strict(items) && forall x :: x in items ==> Name(x) in universe
    ensures |universe - Names(items)| == |universe| - |items|
  {
    DistinctNames(items);
    assert Names(items) <= universe;
  }

  lemma LaterName(items: seq<Instrument>, last: string, cursor: Option<string>, name: string)
    requires Strict(items) && items != [] && last == Name(items[|items| - 1])
    requires After(last, cursor) && Before(last, name)
    ensures After(name, cursor)
    ensures forall x :: x in items ==> Name(x) != name
  {
    if cursor.Some? {
      BeforeIsTransitive(cursor.value, last, name);
    }
    forall x | x in items
      ensures Name(x) != name
    {
      LastIsLargest(items, x);
      BeforeIsTotal(last, name);
    }
  }

  lemma {:induction false} DistinctNames(items: seq<Instrument>)
    requires Strict(items)
    ensures |Names(items)| == |items|
  {
    if items != [] {
      var n := |items| - 1;
      DistinctNames(items[..n]);
      NamesGrow(items[..n], items[n]);
      assert items == items[..n] + [items[n]];
      forall x | x in items[..n]
        ensures Name(x) != Name(items[n])
      {
        NamesDiffer(items, x);
      }
    }
  }

  lemma NamesGrow(items: seq<Instrument>, x: Instrument)
    ensures Names(items + [x]) == Names(items) + {Name(x)}
  {
  }

  // ---------------------------------------------------------------- the revision

  datatype Refresh = Refresh(exchange: ExchangeId, market: MarketKind, incoming: seq<Instrument>)

  function ListIn(c: Cat, exchange: ExchangeId, market: MarketKind): seq<Instrument> {
    if (exchange, market) in c.byMarket then c.byMarket[(exchange, market)] else []
  }

  function Refreshed(c: Cat, r: Refresh): Cat {
    var items := Normal(r.incoming);
    Cat(c.byMarket[(r.exchange, r.market) := items],
        c.rev + if IsEmpty(Diff(ListIn(c, r.exchange, r.market), items)) then 0 else 1)
  }

  function RefreshedAll(c: Cat, rs: seq<Refresh>): Cat {
    if rs == [] then c else Refreshed(RefreshedAll(c, rs[..|rs| - 1]), rs[|rs| - 1])
  }

  ghost predicate AllStored(c: Cat) {
    forall k :: k in c.byMarket ==> Strict(c.byMarket[k])
  }

  lemma SameListingTransitive(a: seq<Instrument>, b: seq<Instrument>, c: seq<Instrument>)
    requires SameListing(a, b) && SameListing(b, c)
    ensures SameListing(a, c)
  {
    forall i | 0 <= i < |a|
      ensures SameItem(a[i], c[i])
    {
      assert SameItem(a[i], b[i]) && SameItem(b[i], c[i]);
    }
  }

  lemma RefreshKeepsOrTells(c: Cat, r: Refresh, exchange: ExchangeId, market: MarketKind)
    requires AllStored(c)
    ensures var c' := Refreshed(c, r);
            && c.rev <= c'.rev && AllStored(c')
            && (c'.rev == c.rev ==> SameListing(ListIn(c, exchange, market), ListIn(c', exchange, market)))
  {
    NormalIsFaithful(r.incoming, "");
    if (exchange, market) == (r.exchange, r.market) {
      EmptyDiffMeansSame(ListIn(c, exchange, market), Normal(r.incoming));
    }
  }

  // Each refresh moves the revision by one, or not at all where it brings the same names and terms.
  lemma RevisionSteps(c: Cat, r: Refresh)
    requires AllStored(c)
    ensures Refreshed(c, r).rev - c.rev ==
            if SameListing(ListIn(c, r.exchange, r.market), ListIn(Refreshed(c, r), r.exchange, r.market)) then 0 else 1
  {
    NormalIsFaithful(r.incoming, "");
    EmptyDiffMeansSame(ListIn(c, r.exchange, r.market), Normal(r.incoming));
  }

  // Two pages carrying the same revision were cut from the same list, in names and terms, whatever
  // refreshes came between; and the revision never goes back.
  lemma {:induction false} SameRevisionSameList(c: Cat, rs: seq<Refresh>, exchange: ExchangeId, market: MarketKind)
    requires AllStored(c)
    ensures var c' := RefreshedAll(c, rs);
            && c.rev <= c'.rev && AllStored(c')
            && (c'.rev == c.rev ==> SameListing(ListIn(c, exchange, market), ListIn(c', exchange, market)))
  {
    if rs != [] {
      var n := |rs| - 1;
      var mid := RefreshedAll(c, rs[..n]);
      SameRevisionSameList(c, rs[..n], exchange, market);
      RefreshKeepsOrTells(mid, rs[n], exchange, market);
      if Refreshed(mid, rs[n]).rev == c.rev {
        SameListingTransitive(ListIn(c, exchange, market), ListIn(mid, exchange, market),
                              ListIn(Refreshed(mid, rs[n]), exchange, market));
      }
    }
  }

  lemma StartAt(list: seq<Instrument>, cursor: Option<string>, i: nat)
    requires Strict(list) && i < |list|
    ensures i < StartOf(list, cursor) <==> !After(Name(list[i]), cursor)
  {
    StartIsExact(list, cursor);
  }

  lemma SameStart(a: seq<Instrument>, b: seq<Instrument>, cursor: Option<string>)
    requires Strict(a) && Strict(b) && SameListing(a, b)
    ensures StartOf(a, cursor) == StartOf(b, cursor)
  {
    var i := Min(StartOf(a, cursor), StartOf(b, cursor));
    if i < |a| {
      assert SameItem(a[i], b[i]);
      StartAt(a, cursor, i);
      StartAt(b, cursor, i);
    }
  }

  lemma SameSlice(a: seq<Instrument>, b: seq<Instrument>, start: nat, end: nat)
    requires SameListing(a, b) && start <= end <= |a|
    ensures SameListing(a[start..end], b[start..end])
  {
    forall i | 0 <= i < end - start
      ensures SameItem(a[start..end][i], b[start..end][i])
    {
      assert SameItem(a[start + i], b[start + i]);
    }
  }

  // Cutting the same place out of the same listing gives the same page.
  lemma SamePage(a: seq<Instrument>, b: seq<Instrument>, cursor: Option<string>)
    requires Strict(a) && Strict(b) && SameListing(a, b)
    ensures SameListing(PageOf(a, cursor).items, PageOf(b, cursor).items)
    ensures PageOf(a, cursor).cursor == PageOf(b, cursor).cursor
  {
    SameStart(a, b, cursor);
    var start := StartOf(a, cursor);
    var end := Min(start + INSTRUMENTS_PAGE, |a|);
    SameSlice(a, b, start, end);
    PageLies(a, cursor);
    PageLies(b, cursor);
    if end < |a| {
      assert SameItem(a[end - 1], b[end - 1]);
    }
  }

  // What a catalogue hands out for one cursor at two moments, with only refreshes in between: pages
  // that carry the same revision agree in names, terms and next cursor.
  lemma SameRevisionSamePage(c: Cat, rs: seq<Refresh>, exchange: ExchangeId, market: MarketKind, cursor: Option<string>)
    requires AllStored(c) && RefreshedAll(c, rs).rev == c.rev
    ensures var p := PageOf(ListIn(c, exchange, market), cursor);
            var q := PageOf(ListIn(RefreshedAll(c, rs), exchange, market), cursor);
            SameListing(p.items, q.items) && p.cursor == q.cursor
  {
    SameRevisionSameList(c, rs, exchange, market);
    SamePage(ListIn(c, exchange, market), ListIn(RefreshedAll(c, rs), exchange, market), cursor);
  }

  // What a catalogue answers: for a market it has a list of, the page of that list with its own
  // revision, and for a symbol the item the list has under that name.
  lemma AnswersFromList(catalogue: Catalogue, symbol: Symbol, cursor: Option<string>)
    requires AllStored(catalogue.View())
    ensures var list := ListIn(catalogue.View(), symbol.exchange, symbol.market);
            var page := catalogue.GetPage(symbol.exchange, symbol.market, cursor);
            && (page.Some? <==> (symbol.exchange, symbol.market) in catalogue.byMarket)
            && (page.Some? ==>
                  && page.value.1 == catalogue.rev && Strict(page.value.0.items)
                  && (forall x :: x in page.value.0.items ==> x in list && After(Name(x), cursor))
                  && FirstAfter(list, cursor, page.value.0.items)
                  && (page.value.0.cursor == NextCursor(list, cursor, page.value.0.items)))
            && catalogue.Get(symbol) == Find(list, symbol.raw)
  {
    var list := ListIn(catalogue.View(), symbol.exchange, symbol.market);
    PageInside(list, cursor);
    PageIsFirst(list, cursor);
    LookupFinds(list, symbol.raw);
  }

  // `items` are the first 2000 listed names after the cursor, or all there are.
  ghost predicate FirstAfter(list: seq<Instrument>, cursor: Option<string>, items: seq<Instrument>) {
    exists start: nat :: StartsBehind(list, cursor, start) && items == list[start..Min(start + 2_000, |list|)]
  }

  ghost predicate StartsBehind(list: seq<Instrument>, cursor: Option<string>, start: nat) {
    && start <= |list|
    && (forall i :: 0 <= i < start ==> !After(Name(list[i]), cursor))
    && (forall i :: start <= i < |list| ==> After(Name(list[i]), cursor))
  }

  // The last name on the page, unless nothing listed comes after it.
  ghost function NextCursor(list: seq<Instrument>, cursor: Option<string>, items: seq<Instrument>): Option<string> {
    if items != [] && items[|items| - 1] in list && items[|items| - 1] != list[|list| - 1]
    then Some(Name(items[|items| - 1])) else None
  }

  lemma PageIsFirst(list: seq<Instrument>, cursor: Option<string>)
    requires Strict(list)
    ensures var page := PageOf(list, cursor);
            FirstAfter(list, cursor, page.items) && page.cursor == NextCursor(list, cursor, page.items)
  {
    StartIsExact(list, cursor);
    PageLies(list, cursor);
    var start, items := StartOf(list, cursor), PageOf(list, cursor).items;
    assert StartsBehind(list, cursor, start);
    if items != [] {
      var end := start + |items|;
      assert items[|items| - 1] == list[end - 1];
      if end < |list| {
        assert Before(Name(list[end - 1]), Name(list[|list| - 1]));
        BeforeIsTotal(Name(list[end - 1]), Name(list[|list| - 1]));
      }
    }
  }
}
