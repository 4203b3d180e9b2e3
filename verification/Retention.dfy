/**
 The retention sweep over candles and audit records (crates/storage/src/retention.rs). A table is a map
 from row ids; which of the matching rows a LIMIT picks is anybody's choice, and any statement may
 fail.
 */
module Retention {
  import opened Base

  const BATCH: nat := 5_000
  const DAY_MS: int := 86_400_000

  datatype Policy = Policy(minuteDays: int, fiveMinuteDays: int, hourlyAndAboveDays: int, auditDays: int)

  const DEFAULT_POLICY := Policy(30, 15, 3_650, 365)

  datatype Swept = Swept(candles: int, audit: int, batches: int)

  datatype Result<T> = Ok(value: T) | Err

  datatype Bar = Bar(tfMs: int, openTime: int)

  function KeepCandlesFrom(p: Policy, tfMs: int, nowMs: int): int {
    var days := if tfMs <= 60_000 then p.minuteDays
                else if tfMs <= 3_599_999 then p.fiveMinuteDays
                else p.hourlyAndAboveDays;
    nowMs - days * DAY_MS
  }

  function KeepAuditFrom(p: Policy, nowMs: int): int {
    nowMs - p.auditDays * DAY_MS
  }

  // The rows one statement matches.
  function Matching(candles: map<nat, Bar>, tfMs: int, cutoff: int): set<nat> {
    set r | r in candles && candles[r].tfMs == tfMs && candles[r].openTime < cutoff
  }

  function OldAudit(audit: map<nat, int>, cutoff: int): set<nat> {
    set r | r in audit && audit[r] < cutoff
  }

  // The rows past the horizon of their own timeframe.
  function Expired(candles: map<nat, Bar>, p: Policy, nowMs: int): set<nat> {
    set r | r in candles && candles[r].openTime < KeepCandlesFrom(p, candles[r].tfMs, nowMs)
  }

  // What is expired, by the age of a bar and the length of its timeframe; and of a record by its age.
  lemma ExpiredByAge(candles: map<nat, Bar>, p: Policy, nowMs: int, r: nat)
    requires r in candles
    ensures var age := nowMs - candles[r].openTime;
            r in Expired(candles, p, nowMs) <==>
            || (candles[r].tfMs <= 60_000 && age > p.minuteDays * 86_400_000)
            || (60_000 < candles[r].tfMs < 3_600_000 && age > p.fiveMinuteDays * 86_400_000)
            || (3_600_000 <= candles[r].tfMs && age > p.hourlyAndAboveDays * 86_400_000)
  {
  }

  lemma OldByAge(audit: map<nat, int>, p: Policy, nowMs: int, r: nat)
    requires r in audit
    ensures r in OldAudit(audit, KeepAuditFrom(p, nowMs)) <==> nowMs - audit[r] > p.auditDays * 86_400_000
  {
  }

  // The same, for some of the timeframes.
  function ExpiredIn(candles: map<nat, Bar>, p: Policy, nowMs: int, tfs: seq<int>): set<nat> {
    set r | r in candles && candles[r].tfMs in tfs && candles[r].openTime < KeepCandlesFrom(p, candles[r].tfMs, nowMs)
  }

  // Transactions a sweep takes: for each timeframe full batches, and the short one that ends it.
  function BatchesFor(candles: map<nat, Bar>, p: Policy, nowMs: int, tfs: seq<int>): int {
    if tfs == [] then 0
    else
      var tf := tfs[|tfs| - 1];
      BatchesFor(candles, p, nowMs, tfs[..|tfs| - 1])
      + |Matching(candles, tf, KeepCandlesFrom(p, tf, nowMs))| / BATCH + 1
  }

  ghost predicate Increasing(xs: seq<int>) {
    forall i, j :: 0 <= i < j < |xs| ==> xs[i] < xs[j]
  }

  ghost predicate Timeframes(candles: map<nat, Bar>, tfs: seq<int>) {
    Increasing(tfs) && forall tf :: tf in tfs <==> exists r :: r in candles && candles[r].tfMs == tf
  }

  // Some of the allowed rows are gone, and nothing else has changed.
  ghost predicate LostOnly<T>(now: map<nat, T>, was: map<nat, T>, allowed: set<nat>) {
    exists picked :: picked <= allowed && now == was - picked
  }

  // So many of the allowed rows are gone, as one batch takes them, and nothing else has changed.
  ghost predicate LostBatch<T>(now: map<nat, T>, was: map<nat, T>, allowed: set<nat>, count: int) {
    count == Min(BATCH, |allowed|) && exists picked :: picked <= allowed && |picked| == count && now == was - picked
  }

  lemma LostMore<T>(now: map<nat, T>, mid: map<nat, T>, was: map<nat, T>, gone: set<nat>, allowed: set<nat>,
                    all: set<nat>)
    requires mid == was - gone && LostOnly(now, mid, allowed) && gone + allowed <= all
    ensures LostOnly(now, was, all)
  {
    var picked :| picked <= allowed && now == mid - picked;
    assert now == was - (gone + picked);
  }

  lemma LostNothing<T>(was: map<nat, T>, allowed: set<nat>)
    ensures LostOnly(was, was, allowed)
  {
    assert {} <= allowed && was == was - {};
  }

  lemma ExpiredInNone(candles: map<nat, Bar>, p: Policy, nowMs: int)
    ensures ExpiredIn(candles, p, nowMs, []) == {} && candles == candles - {}
  {
  }

  lemma ExpiredInAll(candles: map<nat, Bar>, p: Policy, nowMs: int, tfs: seq<int>)
    requires Timeframes(candles, tfs)
    ensures ExpiredIn(candles, p, nowMs, tfs) == Expired(candles, p, nowMs)
  {
  }

  lemma ExpiredInOneMore(candles: map<nat, Bar>, p: Policy, nowMs: int, tfs: seq<int>, i: nat)
    requires Increasing(tfs) && i < |tfs|
    ensures var before := ExpiredIn(candles, p, nowMs, tfs[..i]);
            var more := Matching(candles, tfs[i], KeepCandlesFrom(p, tfs[i], nowMs));
            && ExpiredIn(candles, p, nowMs, tfs[..i + 1]) == before + more
            && before !! more
            && |ExpiredIn(candles, p, nowMs, tfs[..i + 1])| == |before| + |more|
            && Matching(candles - before, tfs[i], KeepCandlesFrom(p, tfs[i], nowMs)) == more
  {
    assert tfs[..i + 1] == tfs[..i] + [tfs[i]];
    OneMoreTimeframe(candles, p, nowMs, tfs[..i], tfs[i]);
  }

  lemma OneMoreTimeframe(candles: map<nat, Bar>, p: Policy, nowMs: int, tfs: seq<int>, tf: int)
    requires tf !in tfs
    ensures var before, more := ExpiredIn(candles, p, nowMs, tfs), Matching(candles, tf, KeepCandlesFrom(p, tf, nowMs));
            && ExpiredIn(candles, p, nowMs, tfs + [tf]) == before + more
            && before !! more && |before + more| == |before| + |more|
            && Matching(candles - before, tf, KeepCandlesFrom(p, tf, nowMs)) == more
  {
    var before, more := ExpiredIn(candles, p, nowMs, tfs), Matching(candles, tf, KeepCandlesFrom(p, tf, nowMs));
    assert ExpiredIn(candles, p, nowMs, tfs + [tf]) == before + more;
    assert before !! more;
  }

  // The rows a LIMIT happens to pick.
  method Pick(matching: set<nat>, limit: nat) returns (picked: set<nat>)
    ensures picked <= matching && |picked| == Min(limit, |matching|)
  {
    picked := {};
    var left := matching;
    while |picked| < limit && left != {}
      invariant picked !! left && picked + left == matching && |picked| <= limit
      decreases left
    {
      var r :| r in left;
      picked, left := picked + {r}, left - {r};
    }
    assert left == {} ==> picked == matching;
    assert left != {} ==> |matching| == |picked| + |left|;
  }

  method Distinct(candles: map<nat, Bar>) returns (tfs: seq<int>)
    ensures Timeframes(candles, tfs)
  {
    tfs := [];
    var left := candles.Keys;
    while left != {}
      invariant left <= candles.Keys && Increasing(tfs)
      invariant forall tf :: tf in tfs <==> exists r :: r in candles && r !in left && candles[r].tfMs == tf
      decreases left
    {
      var r :| r in left;
      ghost var before := tfs;
      tfs := InsertDistinct(tfs, candles[r].tfMs);
      forall tf
        ensures tf in tfs <==> exists s :: s in candles && s !in left - {r} && candles[s].tfMs == tf
      {
        if tf in before {
          var s :| s in candles && s !in left && candles[s].tfMs == tf;
        }
        if tf == candles[r].tfMs {
          assert r in candles && r !in left - {r};
        }
      }
      left := left - {r};
    }
  }

  method InsertDistinct(xs: seq<int>, x: int) returns (ys: seq<int>)
    requires Increasing(xs)
    ensures Increasing(ys) && forall y :: y in ys <==> y in xs || y == x
  {
    var i := 0;
    while i < |xs| && xs[i] < x
      invariant i <= |xs| && forall j :: 0 <= j < i ==> xs[j] < x
    {
      i := i + 1;
    }
    if i < |xs| && xs[i] == x {
      return xs;
    }
    ys := xs[..i] + [x] + xs[i..];
    InsertIncreases(xs, i, x);
    InsertMembers(xs, i, x);
  }

  lemma InsertIncreases(xs: seq<int>, i: nat, x: int)
    requires Increasing(xs) && i <= |xs| && (i < |xs| ==> x < xs[i]) && forall j :: 0 <= j < i ==> xs[j] < x
    ensures Increasing(xs[..i] + [x] + xs[i..])
  {
    var ys := xs[..i] + [x] + xs[i..];
    assert forall j :: 0 <= j < |ys| ==> ys[j] == if j < i then xs[j] else if j == i then x else xs[j - 1];
  }

  lemma InsertMembers(xs: seq<int>, i: nat, x: int)
    requires i <= |xs|
    ensures forall y :: y in xs[..i] + [x] + xs[i..] <==> y in xs || y == x
  {
    assert xs == xs[..i] + xs[i..];
  }

  // The statements of a stretch all go through.
  ghost predicate AllWork(works: nat -> bool, from: nat, to: nat) {
    forall i :: from <= i < to ==> works(i)
  }

  lemma AllWorkJoins(works: nat -> bool, a: nat, b: nat, c: nat)
    requires a <= b <= c
    ensures AllWork(works, a, c) <==> AllWork(works, a, b) && AllWork(works, b, c)
  {
  }

  class Database {
    var candles: map<nat, Bar>
    var audit: map<nat, int>

    // How many statements have been tried, and which of them go through.
    var tried: nat
    const works: nat -> bool

    constructor (candles: map<nat, Bar>, audit: map<nat, int>, works: nat -> bool)
      ensures this.candles == candles && this.audit == audit && tried == 0 && this.works == works
    {
      this.candles, this.audit, tried, this.works := candles, audit, 0, works;
    }

    method Statement() returns (ok: bool)
      modifies this`tried
      ensures tried == old(tried) + 1 && ok == works(old(tried))
    {
      ok := works(tried);
      tried := tried + 1;
    }

    // One transaction, and how many rows the table lost; counted by reading it before and after.
    method DeleteCandles(tfMs: int, cutoff: int) returns (r: Result<int>)
      modifies this`candles, this`tried
      ensures old(tried) < tried && (r.Ok? <==> AllWork(works, old(tried), tried))
      ensures r.Ok? ==> LostBatch(candles, old(candles), Matching(old(candles), tfMs, cutoff), r.value)
      ensures r.Err? ==> LostOnly(candles, old(candles), Matching(old(candles), tfMs, cutoff))
    {
      LostNothing(candles, Matching(candles, tfMs, cutoff));
      var counted := Statement();
      if !counted {
        return Err;
      }
      var before := |candles|;
      var deleted := Statement();
      if !deleted {
        return Err;
      }
      var picked := Pick(Matching(candles, tfMs, cutoff), BATCH);
      Removed(candles, picked);
      candles := candles - picked;
      var recounted := Statement();
      if !recounted {
        return Err;
      }
      return Ok(Max(before - |candles|, 0));
    }

    method DeleteAudit(cutoff: int) returns (r: Result<int>)
      modifies this`audit, this`tried
      ensures old(tried) < tried && (r.Ok? <==> AllWork(works, old(tried), tried))
      ensures r.Ok? ==> LostBatch(audit, old(audit), OldAudit(old(audit), cutoff), r.value)
      ensures r.Err? ==> LostOnly(audit, old(audit), OldAudit(old(audit), cutoff))
    {
      LostNothing(audit, OldAudit(audit, cutoff));
      var counted := Statement();
      if !counted {
        return Err;
      }
      var before := |audit|;
      var deleted := Statement();
      if !deleted {
        return Err;
      }
      var picked := Pick(OldAudit(audit, cutoff), BATCH);
      Removed(audit, picked);
      audit := audit - picked;
      var recounted := Statement();
      if !recounted {
        return Err;
      }
      return Ok(Max(before - |audit|, 0));
    }

    // All of one timeframe's expired bars, a batch at a time.
    method SweepTimeframe(tfMs: int, cutoff: int) returns (r: Result<(int, int)>)
      modifies this`candles, this`tried
      ensures old(tried) < tried && (r.Ok? <==> AllWork(works, old(tried), tried))
      ensures r.Ok? ==> var m := Matching(old(candles), tfMs, cutoff);
                candles == old(candles) - m && r.value == (|m|, |m| / BATCH + 1)
      ensures r.Err? ==> LostOnly(candles, old(candles), Matching(old(candles), tfMs, cutoff))
    {
      ghost var m := Matching(candles, tfMs, cutoff);
      ghost var gone: set<nat> := {};
      var removed, batches := 0, 0;
      assert candles == old(candles) - {};
      while true
        invariant gone <= m && candles == old(candles) - gone
        invariant removed == |gone| == batches * BATCH
        invariant old(tried) <= tried && AllWork(works, old(tried), tried)
        invariant batches > 0 ==> old(tried) < tried
        decreases |m| - |gone|
      {
        RestMatches(old(candles), tfMs, cutoff, gone);
        ghost var before := tried;
        var one := DeleteCandles(tfMs, cutoff);
        AllWorkJoins(works, old(tried), before, tried);
        if one.Err? {
          LostMore(candles, old(candles) - gone, old(candles), gone, m - gone, m);
          return Err;
        }
        gone := OneBatchOn(candles, old(candles), m, gone, one.value);
        removed := removed + one.value;
        batches := batches + 1;
        if one.value < BATCH {
          FullBatches(batches - 1, one.value);
          return Ok((removed, batches));
        }
      }
    }

    method SweepAudit(cutoff: int) returns (r: Result<(int, int)>)
      modifies this`audit, this`tried
      ensures old(tried) < tried && (r.Ok? <==> AllWork(works, old(tried), tried))
      ensures r.Ok? ==> var m := OldAudit(old(audit), cutoff);
                audit == old(audit) - m && r.value == (|m|, |m| / BATCH + 1)
      ensures r.Err? ==> LostOnly(audit, old(audit), OldAudit(old(audit), cutoff))
    {
      ghost var m := OldAudit(audit, cutoff);
      ghost var gone: set<nat> := {};
      var removed, batches := 0, 0;
      assert audit == old(audit) - {};
      while true
        invariant gone <= m && audit == old(audit) - gone
        invariant removed == |gone| == batches * BATCH
        invariant old(tried) <= tried && AllWork(works, old(tried), tried)
        invariant batches > 0 ==> old(tried) < tried
        decreases |m| - |gone|
      {
        assert OldAudit(audit, cutoff) == m - gone;
        ghost var before := tried;
        var one := DeleteAudit(cutoff);
        AllWorkJoins(works, old(tried), before, tried);
        if one.Err? {
          LostMore(audit, old(audit) - gone, old(audit), gone, m - gone, m);
          return Err;
        }
        gone := OneBatchOn(audit, old(audit), m, gone, one.value);
        removed := removed + one.value;
        batches := batches + 1;
        if one.value < BATCH {
          FullBatches(batches - 1, one.value);
          return Ok((removed, batches));
        }
      }
    }

    method SweepCandles(p: Policy, nowMs: int) returns (r: Result<(int, int)>, tfs: seq<int>)
      modifies this`candles, this`tried
      ensures old(tried) < tried && (r.Ok? <==> AllWork(works, old(tried), tried))
      ensures Timeframes(old(candles), tfs)
      ensures r.Ok? ==> var expired := Expired(old(candles), p, nowMs);
                candles == old(candles) - expired && r.value == (|expired|, BatchesFor(old(candles), p, nowMs, tfs))
      ensures r.Err? ==> LostOnly(candles, old(candles), Expired(old(candles), p, nowMs))
    {
      ghost var was := candles;
      tfs := Distinct(candles);
      ExpiredInAll(was, p, nowMs, tfs);
      ExpiredInNone(was, p, nowMs);
      var listed := Statement();
      if !listed {
        LostNothing(was, Expired(was, p, nowMs));
        return Err, tfs;
      }
      var removed, batches := 0, 0;
      for i := 0 to |tfs|
        invariant candles == was - ExpiredIn(was, p, nowMs, tfs[..i])
        invariant removed == |ExpiredIn(was, p, nowMs, tfs[..i])|
        invariant batches == BatchesFor(was, p, nowMs, tfs[..i])
        invariant old(tried) < tried && AllWork(works, old(tried), tried)
      {
        ghost var mid, before := candles, tried;
        var one := SweepTimeframe(tfs[i], KeepCandlesFrom(p, tfs[i], nowMs));
        AllWorkJoins(works, old(tried), before, tried);
        OneTimeframeOn(was, mid, candles, p, nowMs, tfs, i);
        if one.Err? {
          return Err, tfs;
        }
        removed, batches := removed + one.value.0, batches + one.value.1;
      }
      assert tfs[..|tfs|] == tfs;
      return Ok((removed, batches)), tfs;
    }

    // A sweep that reports success has removed exactly what was past its own horizon, says how much,
    // and took as many transactions as the full batches and the short last ones come to. One that
    // fails half-way has removed nothing else either, and it fails only if a statement does.
    method Sweep(p: Policy, nowMs: int) returns (r: Result<Swept>, tfs: seq<int>)
      modifies this
      ensures old(tried) < tried && (r.Ok? <==> AllWork(works, old(tried), tried))
      ensures Timeframes(old(candles), tfs)
      ensures r.Ok? ==>
                var expired, stale := Expired(old(candles), p, nowMs), OldAudit(old(audit), KeepAuditFrom(p, nowMs));
                && candles == old(candles) - expired && audit == old(audit) - stale
                && r.value == Swept(|expired|, |stale|, BatchesFor(old(candles), p, nowMs, tfs) + |stale| / BATCH + 1)
      ensures r.Err? ==>
                && LostOnly(candles, old(candles), Expired(old(candles), p, nowMs))
                && LostOnly(audit, old(audit), OldAudit(old(audit), KeepAuditFrom(p, nowMs)))
    {
      LostNothing(audit, OldAudit(audit, KeepAuditFrom(p, nowMs)));
      var bars;
      bars, tfs := SweepCandles(p, nowMs);
      if bars.Err? {
        return Err, tfs;
      }
      ghost var before := tried;
      var records := SweepAudit(KeepAuditFrom(p, nowMs));
      AllWorkJoins(works, old(tried), before, tried);
      if records.Err? {
        assert LostOnly(candles, old(candles), Expired(old(candles), p, nowMs));
        return Err, tfs;
      }
      return Ok(Swept(bars.value.0, records.value.0, bars.value.1 + records.value.1)), tfs;
    }

    // The dry run: the same numbers of rows, without removing any.
    method WouldSweep(p: Policy, nowMs: int) returns (r: Result<Swept>)
      modifies this`tried
      ensures old(tried) < tried && (r.Ok? <==> AllWork(works, old(tried), tried))
      ensures r.Ok? ==>
                r.value == Swept(|Expired(candles, p, nowMs)|, |OldAudit(audit, KeepAuditFrom(p, nowMs))|, 0)
    {
      var bars := CountExpired(p, nowMs);
      if bars.Err? {
        return Err;
      }
      var counted := Statement();
      if !counted {
        return Err;
      }
      return Ok(Swept(bars.value, |OldAudit(audit, KeepAuditFrom(p, nowMs))|, 0));
    }

    method CountExpired(p: Policy, nowMs: int) returns (r: Result<int>)
      modifies this`tried
      ensures old(tried) < tried && (r.Ok? <==> AllWork(works, old(tried), tried))
      ensures r.Ok? ==> r.value == |Expired(candles, p, nowMs)|
    {
      var listed := Statement();
      if !listed {
        return Err;
      }
      var total := 0;
      var tfs := Distinct(candles);
      ExpiredInNone(candles, p, nowMs);
      for i := 0 to |tfs|
        invariant total == |ExpiredIn(candles, p, nowMs, tfs[..i])|
        invariant old(tried) < tried && AllWork(works, old(tried), tried)
      {
        var counted := Statement();
        if !counted {
          return Err;
        }
        var cutoff := KeepCandlesFrom(p, tfs[i], nowMs);
        var matching := Matching(candles, tfs[i], cutoff);
        CountOneMore(candles, p, nowMs, tfs, i);
        total := total + |matching|;
      }
      assert tfs[..|tfs|] == tfs;
      ExpiredInAll(candles, p, nowMs, tfs);
      return Ok(total);
    }
  }

  lemma CountOneMore(candles: map<nat, Bar>, p: Policy, nowMs: int, tfs: seq<int>, i: nat)
    requires Increasing(tfs) && i < |tfs|
    ensures |ExpiredIn(candles, p, nowMs, tfs[..i + 1])| ==
            |ExpiredIn(candles, p, nowMs, tfs[..i])| + |Matching(candles, tfs[i], KeepCandlesFrom(p, tfs[i], nowMs))|
  {
    ExpiredInOneMore(candles, p, nowMs, tfs, i);
  }

  // The state after one more timeframe, swept whole or in part.
  lemma OneTimeframeOn(was: map<nat, Bar>, mid: map<nat, Bar>, now: map<nat, Bar>, p: Policy, nowMs: int,
                       tfs: seq<int>, i: nat)
    requires Timeframes(was, tfs) && i < |tfs| && mid == was - ExpiredIn(was, p, nowMs, tfs[..i])
    ensures var swept := Matching(mid, tfs[i], KeepCandlesFrom(p, tfs[i], nowMs));
            && (LostOnly(now, mid, swept) ==> LostOnly(now, was, Expired(was, p, nowMs)))
            && (now == mid - swept ==> now == was - ExpiredIn(was, p, nowMs, tfs[..i + 1]))
            && |ExpiredIn(was, p, nowMs, tfs[..i + 1])| == |ExpiredIn(was, p, nowMs, tfs[..i])| + |swept|
            && BatchesFor(was, p, nowMs, tfs[..i + 1]) == BatchesFor(was, p, nowMs, tfs[..i]) + |swept| / BATCH + 1
  {
    var before, swept := ExpiredIn(was, p, nowMs, tfs[..i]), Matching(mid, tfs[i], KeepCandlesFrom(p, tfs[i], nowMs));
    ExpiredInOneMore(was, p, nowMs, tfs, i);
    OneMoreBatches(was, p, nowMs, tfs, i);
    if now == mid - swept {
      LostTwice(was, before, swept);
    }
    if LostOnly(now, mid, swept) {
      ExpiredAreAll(was, p, nowMs, tfs[..i + 1]);
      LostMore(now, mid, was, before, swept, Expired(was, p, nowMs));
    }
  }

  lemma OneMoreBatches(candles: map<nat, Bar>, p: Policy, nowMs: int, tfs: seq<int>, i: nat)
    requires i < |tfs|
    ensures BatchesFor(candles, p, nowMs, tfs[..i + 1]) ==
            BatchesFor(candles, p, nowMs, tfs[..i])
            + |Matching(candles, tfs[i], KeepCandlesFrom(p, tfs[i], nowMs))| / BATCH + 1
  {
    assert tfs[..i + 1][..i] == tfs[..i];
  }

  lemma LostTwice<T>(was: map<nat, T>, gone: set<nat>, more: set<nat>)
    ensures was - gone - more == was - (gone + more)
  {
  }

  lemma ExpiredAreAll(candles: map<nat, Bar>, p: Policy, nowMs: int, tfs: seq<int>)
    ensures ExpiredIn(candles, p, nowMs, tfs) <= Expired(candles, p, nowMs)
  {
  }

  lemma Removed<T>(m: map<nat, T>, picked: set<nat>)
    requires picked <= m.Keys
    ensures |m - picked| == |m| - |picked|
  {
    assert (m - picked).Keys == m.Keys - picked;
    assert |m.Keys - picked| == |m.Keys| - |picked|;
    assert |m - picked| == |(m - picked).Keys| && |m| == |m.Keys|;
  }

  lemma RestMatches(candles: map<nat, Bar>, tfMs: int, cutoff: int, gone: set<nat>)
    requires gone <= Matching(candles, tfMs, cutoff)
    ensures Matching(candles - gone, tfMs, cutoff) == Matching(candles, tfMs, cutoff) - gone
  {
  }

  // One batch more: either it was full, or nothing is left.
  lemma Grown(m: set<nat>, gone: set<nat>, picked: set<nat>)
    requires gone <= m && picked <= m - gone && |picked| == Min(BATCH, |m - gone|)
    ensures gone + picked <= m && |gone + picked| == |gone| + |picked| && |gone + picked| <= |m|
    ensures |picked| < BATCH ==> gone + picked == m
  {
    assert |m - gone| == |m| - |gone|;
    assert |gone + picked| == |gone| + |picked|;
    SubsetSize(gone + picked, m);
    if |picked| < BATCH {
      SameSize(picked, m - gone);
    }
  }

  // The rows gone once another batch has been taken.
  lemma OneBatchOn<T>(now: map<nat, T>, was: map<nat, T>, m: set<nat>, gone: set<nat>, count: int)
    returns (more: set<nat>)
    requires gone <= m && LostBatch(now, was - gone, m - gone, count)
    ensures more <= m && now == was - more && |gone| <= |more| == |gone| + count <= |m| && 0 <= count <= BATCH
    ensures count < BATCH ==> more == m
  {
    var picked :| picked <= m - gone && |picked| == count && now == was - gone - picked;
    Grown(m, gone, picked);
    LostTwice(was, gone, picked);
    more := gone + picked;
  }

  lemma SubsetSize(a: set<nat>, b: set<nat>)
    requires a <= b
    ensures |a| <= |b|
  {
    assert b == a + (b - a);
  }

  lemma SameSize(a: set<nat>, b: set<nat>)
    requires a <= b && |a| == |b|
    ensures a == b
  {
    assert |b - a| == |b| - |a|;
  }

  lemma FullBatches(full: int, rest: int)
    requires 0 <= rest < BATCH && 0 <= full
    ensures (full * BATCH + rest) / BATCH == full
  {
  }
}
