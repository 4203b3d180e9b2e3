/**
 How a session tells a retried command from a new one (crates/wire/src/idempotency.rs). Request ids
 are 64 bits wide; the floor is computed with the release build's wrap-around.
 */
module Idempotency {
  import opened Base

  const SEEN_REQ_CAPACITY: nat := 4_096

  const U64: nat := 0x1_0000_0000_0000_0000

  type ReqId = x: nat | x < U64

  datatype AckStatus = Accepted | Done | Rejected | Failed

  datatype ServerEvent = CommandAck(req: ReqId, status: AckStatus, detail: string) | OtherEvent(tag: nat)

  predicate IsFinal(ack: ServerEvent) {
    ack.CommandAck? ==> !ack.status.Accepted?
  }

  datatype Admission = Fresh | Replay(ack: ServerEvent) | InFlight | TooOld(oldestRemembered: ReqId)

  datatype Record = Running | Answered(ack: ServerEvent)

  datatype Ring = Ring(order: seq<ReqId>, records: map<ReqId, Record>,
                       highWater: Option<ReqId>, evictedBelow: Option<ReqId>)

  function Floor(forgotten: ReqId): ReqId {
    (forgotten + 1) % U64
  }

  // The oldest id forgotten: the floor becomes the id after it.
  function Popped(r: Ring): Ring
    requires r.order != []
  {
    r.(order := r.order[1..], records := r.records - {r.order[0]}, evictedBelow := Some(Floor(r.order[0])))
  }

  function Evicted(r: Ring): Ring
    decreases |r.order|
  {
    if |r.order| > SEEN_REQ_CAPACITY then Evicted(Popped(r)) else r
  }

  function Recorded(r: Ring, req: ReqId): Ring {
    r.(records := r.records[req := Running], order := r.order + [req],
       highWater := Some(if r.highWater.Some? then Max(r.highWater.value, req) else req))
  }

  function Admitted(r: Ring, req: ReqId): (Ring, Admission) {
    if req in r.records then
      (r, match r.records[req] case Running => InFlight case Answered(ack) => Replay(ack))
    else if r.evictedBelow.Some? && req < r.evictedBelow.value then (r, TooOld(r.evictedBelow.value))
    else (Evicted(Recorded(r, req)), Fresh)
  }

  function Completed(r: Ring, req: ReqId, ack: ServerEvent): Ring {
    if IsFinal(ack) && req in r.records then r.(records := r.records[req := Answered(ack)]) else r
  }

  class ReqRing {
    var order: seq<ReqId>
    var records: map<ReqId, Record>
    var highWater: Option<ReqId>
    var evictedBelow: Option<ReqId>

    function View(): Ring
      reads this
    {
      Ring(order, records, highWater, evictedBelow)
    }

    constructor ()
      ensures View() == Ring([], map[], None, None)
    {
      order, records, highWater, evictedBelow := [], map[], None, None;
    }

    method Admit(req: ReqId) returns (admission: Admission)
      modifies this
      ensures (View(), admission) == Admitted(old(View()), req)
    {
      if req in records {
        match records[req] {
          case Running => return InFlight;
          case Answered(ack) => return Replay(ack);
        }
      }
      if evictedBelow.Some? && req < evictedBelow.value {
        return TooOld(evictedBelow.value);
      }
      records := records[req := Running];
      order := order + [req];
      highWater := Some(if highWater.Some? then Max(highWater.value, req) else req);
      EvictIfFull();
      return Fresh;
    }

    method Complete(req: ReqId, ack: ServerEvent)
      modifies this
      ensures View() == Completed(old(View()), req, ack)
    {
      if ack.CommandAck? && ack.status.Accepted? {
        return;
      }
      if req in records {
        records := records[req := Answered(ack)];
      }
    }

    method EvictIfFull()
      modifies this
      ensures View() == Evicted(old(View()))
    {
      while |order| > SEEN_REQ_CAPACITY
        invariant Evicted(View()) == Evicted(old(View()))
        decreases |order|
      {
        var oldest := order[0];
        order := order[1..];
        records := records - {oldest};
        evictedBelow := Some((oldest + 1) % U64);
      }
    }
  }

  // ---------------------------------------------------------------- runs

  datatype Op = Admit(req: ReqId) | Complete(req: ReqId, ack: ServerEvent)

  // A ring after a run, with every id it let execute, in order.
  datatype Trail = Trail(ring: Ring, executed: seq<ReqId>)

  const EMPTY := Trail(Ring([], map[], None, None), [])

  function Step(t: Trail, op: Op): Trail {
    match op
    case Admit(req) =>
      var (ring, admission) := Admitted(t.ring, req);
      Trail(ring, if admission.Fresh? then t.executed + [req] else t.executed)
    case Complete(req, ack) => t.(ring := Completed(t.ring, req, ack))
  }

  function Play(ops: seq<Op>): Trail {
    if ops == [] then EMPTY else Step(Play(ops[..|ops| - 1]), ops[|ops| - 1])
  }

  // The ids that have been executed and forgotten.
  function Gone(t: Trail): seq<ReqId> {
    if |t.executed| <= |t.ring.order| then [] else t.executed[..|t.executed| - |t.ring.order|]
  }

  // The ring remembers exactly the last `SEEN_REQ_CAPACITY` executions, each once, and its floor
  // is just above the id it forgot last.
  ghost predicate Sound(t: Trail) {
    t.executed == Gone(t) + t.ring.order && SoundRing(t.ring, Gone(t))
  }

  ghost predicate SoundRing(r: Ring, gone: seq<ReqId>) {
    && |r.order| <= SEEN_REQ_CAPACITY
    && (gone != [] ==> |r.order| == SEEN_REQ_CAPACITY)
    && Distinct(r.order) && Indexed(r)
    && r.evictedBelow == (if gone == [] then None else Some(Floor(gone[|gone| - 1])))
  }

  ghost predicate Distinct(xs: seq<ReqId>) {
    forall i, j :: 0 <= i < j < |xs| ==> Differ(xs, i, j)
  }

  predicate Differ(xs: seq<ReqId>, i: nat, j: nat)
    requires i < |xs| && j < |xs|
  {
    xs[i] != xs[j]
  }

  // `records` holds exactly the ids of `order`.
  ghost predicate Indexed(r: Ring) {
    forall x :: IndexedAt(r, x)
  }

  ghost predicate IndexedAt(r: Ring, x: ReqId) {
    x in r.records <==> x in r.order
  }

  lemma GoneIs(t: Trail, gone: seq<ReqId>)
    requires t.executed == gone + t.ring.order
    ensures Gone(t) == gone
  {
  }

  lemma StepIsSound(t: Trail, op: Op)
    requires Sound(t)
    ensures Sound(Step(t, op))
  {
    match op {
      case Admit(req) =>
        if Admitted(t.ring, req).1.Fresh? {
          FreshIsSound(t, req);
          assert Step(t, op) == Trail(Evicted(Recorded(t.ring, req)), t.executed + [req]);
        } else {
          assert Step(t, op) == t;
        }
      case Complete(req, ack) => AnswerIsSound(t, req, ack);
    }
  }

  lemma AnswerIsSound(t: Trail, req: ReqId, ack: ServerEvent)
    requires Sound(t)
    ensures Sound(t.(ring := Completed(t.ring, req, ack)))
  {
    AnswerKeepsRing(t.ring, Gone(t), req, ack);
    GoneIs(t.(ring := Completed(t.ring, req, ack)), Gone(t));
  }

  lemma AnswerKeepsRing(r: Ring, gone: seq<ReqId>, req: ReqId, ack: ServerEvent)
    requires SoundRing(r, gone)
    ensures SoundRing(Completed(r, req, ack), gone) && Completed(r, req, ack).order == r.order
  {
    forall x
      ensures IndexedAt(Completed(r, req, ack), x)
    {
      assert IndexedAt(r, x);
    }
  }

  lemma FreshIsSound(t: Trail, req: ReqId)
    requires Sound(t) && req !in t.ring.records
    ensures Sound(Trail(Evicted(Recorded(t.ring, req)), t.executed + [req]))
  {
    var order, gone := t.ring.order, Gone(t);
    var r := Recorded(t.ring, req);
    EvictOnce(r);
    RecordedRing(t.ring, req);
    if |order| < SEEN_REQ_CAPACITY {
      assert t.executed + [req] == gone + (order + [req]);
      GoneIs(Trail(r, t.executed + [req]), gone);
    } else {
      OldestGoes(r, gone);
      NextOldest(t.executed, gone, order, req);
      GoneIs(Trail(Popped(r), t.executed + [req]), gone + [order[0]]);
    }
  }

  lemma RecordedRing(r: Ring, req: ReqId)
    requires Distinct(r.order) && Indexed(r) && req !in r.records
    ensures Distinct(Recorded(r, req).order) && Indexed(Recorded(r, req))
  {
    assert IndexedAt(r, req);
    forall i, j | 0 <= i < j < |Recorded(r, req).order|
      ensures Differ(Recorded(r, req).order, i, j)
    {
      assert j < |r.order| ==> Differ(r.order, i, j);
    }
    forall x
      ensures IndexedAt(Recorded(r, req), x)
    {
      assert IndexedAt(r, x);
    }
  }

  lemma NextOldest(executed: seq<ReqId>, gone: seq<ReqId>, order: seq<ReqId>, req: ReqId)
    requires executed == gone + order && order != []
    ensures executed + [req] == (gone + [order[0]]) + (order + [req])[1..]
  {
    assert order == [order[0]] + order[1..];
  }

  // One id too many is one id forgotten.
  lemma EvictOnce(r: Ring)
    requires |r.order| <= SEEN_REQ_CAPACITY + 1
    ensures Evicted(r) == if |r.order| > SEEN_REQ_CAPACITY then Popped(r) else r
  {
    if |r.order| > SEEN_REQ_CAPACITY {
      assert Evicted(Popped(r)) == Popped(r);
    }
  }

  lemma OldestGoes(r: Ring, gone: seq<ReqId>)
    requires |r.order| == SEEN_REQ_CAPACITY + 1 && Distinct(r.order) && Indexed(r)
    ensures SoundRing(Popped(r), gone + [r.order[0]])
  {
    var oldest, rest := r.order[0], r.order[1..];
    assert r.order == [oldest] + rest;
    forall i, j | 0 <= i < j < |rest|
      ensures Differ(rest, i, j)
    {
      assert Differ(r.order, i + 1, j + 1);
    }
    forall x
      ensures IndexedAt(Popped(r), x)
    {
      assert IndexedAt(r, x);
      if x in rest {
        var i :| 0 <= i < |rest| && rest[i] == x;
        assert Differ(r.order, 0, i + 1);
      }
    }
  }

  lemma {:induction false} PlayIsSound(ops: seq<Op>)
    ensures Sound(Play(ops))
  {
    if ops != [] {
      PlayIsSound(ops[..|ops| - 1]);
      StepIsSound(Play(ops[..|ops| - 1]), ops[|ops| - 1]);
    }
  }

  ghost predicate IsLargest(high: Option<ReqId>, xs: seq<ReqId>) {
    if high.None? then xs == [] else high.value in xs && forall x :: x in xs ==> x <= high.value
  }

  lemma LargestOfMore(high: Option<ReqId>, xs: seq<ReqId>, x: ReqId)
    requires IsLargest(high, xs)
    ensures IsLargest(Some(if high.Some? then Max(high.value, x) else x), xs + [x])
  {
    assert x in xs + [x] && (forall y :: y in xs + [x] <==> y in xs || y == x);
  }

  // The high-water mark is the largest id ever let through.
  lemma {:induction false} HighWaterIsLargest(ops: seq<Op>)
    ensures IsLargest(Play(ops).ring.highWater, Play(ops).executed)
  {
    if ops != [] {
      var n := |ops| - 1;
      HighWaterIsLargest(ops[..n]);
      PlayIsSound(ops[..n]);
      HighWaterKept(Play(ops[..n]), ops[n]);
    }
  }

  lemma HighWaterKept(t: Trail, op: Op)
    requires |t.ring.order| <= SEEN_REQ_CAPACITY && IsLargest(t.ring.highWater, t.executed)
    ensures IsLargest(Step(t, op).ring.highWater, Step(t, op).executed)
  {
    if op.Admit? && Admitted(t.ring, op.req).1.Fresh? {
      EvictOnce(Recorded(t.ring, op.req));
      LargestOfMore(t.ring.highWater, t.executed, op.req);
    }
  }

  // An id is either a retry of one already executed, or above every one executed so far.
  ghost predicate Rising(ops: seq<Op>) {
    ops == [] ||
    (var n := |ops| - 1;
     Rising(ops[..n]) &&
     (ops[n].Admit? ==>
        ops[n].req in Play(ops[..n]).executed || forall x :: x in Play(ops[..n]).executed ==> x < ops[n].req))
  }

  ghost predicate Increasing(xs: seq<nat>) {
    forall i, j :: 0 <= i < j < |xs| ==> xs[i] < xs[j]
  }

  lemma {:induction false} ExecutedIncrease(ops: seq<Op>)
    requires Rising(ops)
    ensures Increasing(Play(ops).executed)
  {
    if ops != [] {
      var n := |ops| - 1;
      var t := Play(ops[..n]);
      ExecutedIncrease(ops[..n]);
      PlayIsSound(ops[..n]);
      if ops[n].Admit? {
        if ops[n].req in t.executed {
          RetryIsNotFresh(t, ops[n].req);
        } else {
          forall i | 0 <= i < |t.executed|
            ensures t.executed[i] < ops[n].req
          {
            assert t.executed[i] in t.executed;
          }
        }
      }
    }
  }

  lemma RetryIsNotFresh(t: Trail, req: ReqId)
    requires Sound(t) && Increasing(t.executed) && req in t.executed
    ensures !Admitted(t.ring, req).1.Fresh?
  {
    assert IndexedAt(t.ring, req);
    if req !in t.ring.order {
      assert req in Gone(t);
      var n := |Gone(t)|;
      var i :| 0 <= i < n && Gone(t)[i] == req;
      assert t.executed[i] == req && t.executed[n - 1] == Gone(t)[n - 1] && t.executed[n] == t.ring.order[0];
    }
  }

  // At most once: over every run whose first-time ids arrive in increasing order, with retries of
  // anything at any time, no id is let through twice, and the memory stays within its capacity.
  lemma AtMostOnce(ops: seq<Op>, i: nat, j: nat)
    requires Rising(ops) && i < j < |Play(ops).executed|
    ensures Play(ops).executed[i] != Play(ops).executed[j]
    ensures |Play(ops).ring.order| <= SEEN_REQ_CAPACITY && |Play(ops).ring.records| <= SEEN_REQ_CAPACITY
  {
    ExecutedIncrease(ops);
    PlayIsSound(ops);
    var r := Play(ops).ring;
    forall x
      ensures x in r.records.Keys <==> x in r.order
    {
      assert IndexedAt(r, x);
    }
    KeysFit(r.order, r.records.Keys);
  }

  lemma {:induction false} KeysFit(order: seq<ReqId>, keys: set<ReqId>)
    requires forall x :: x in keys <==> x in order
    ensures |keys| <= |order|
  {
    if order == [] {
      assert keys == {};
    } else {
      var n := |order| - 1;
      var rest := set x | x in keys && x in order[..n];
      KeysFit(order[..n], rest);
      assert keys == rest + {order[n]};
    }
  }

  // Without that ordering the floor can sink, because it is overwritten and not raised, and it wraps
  // to zero behind the largest id of all: on any run, every forgotten id is still refused if and only
  // if none is above the one forgotten last and that is not the largest id of all.
  lemma ForgottenAreRefused(ops: seq<Op>)
    ensures var t := Play(ops);
            (forall x :: Forgotten(t, x) ==> !LetsThrough(t, x)) <==> (forall x :: Forgotten(t, x) ==> BelowFloor(t, x))
  {
    PlayIsSound(ops);
    var t := Play(ops);
    forall x | Forgotten(t, x)
      ensures LetsThrough(t, x) <==> !BelowFloor(t, x)
    {
      ForgottenIsRefused(t.ring, Gone(t), x);
    }
  }

  ghost predicate Forgotten(t: Trail, x: ReqId) {
    x in Gone(t) && x !in t.ring.order
  }

  predicate LetsThrough(t: Trail, x: ReqId) {
    Admitted(t.ring, x).1.Fresh?
  }

  // Not above the id forgotten last, which is not the largest of all.
  predicate BelowFloor(t: Trail, x: ReqId) {
    Gone(t) != [] && x <= Gone(t)[|Gone(t)| - 1] < U64 - 1
  }

  lemma ForgottenIsRefused(r: Ring, gone: seq<ReqId>, x: ReqId)
    requires SoundRing(r, gone) && gone != [] && x !in r.order
    ensures Admitted(r, x).1.Fresh? <==> !(x <= gone[|gone| - 1] < U64 - 1)
  {
    assert IndexedAt(r, x);
  }

  // The run that shows it: 100, then 1, then 4096 later ids, then a retry of 100.
  function Later(n: nat): seq<Op>
    requires n <= SEEN_REQ_CAPACITY
  {
    if n == 0 then [Admit(100), Admit(1)] else Later(n - 1) + [Admit(LaterId(n))]
  }

  function LaterId(n: nat): ReqId
    requires n <= SEEN_REQ_CAPACITY
  {
    199 + n
  }

  function LaterIds(n: nat): (ids: seq<ReqId>)
    requires n <= SEEN_REQ_CAPACITY
    ensures |ids| == n + 2 && ids[0] == 100
    ensures forall i :: 0 <= i < |ids| ==> ids[i] < 200 + n
  {
    if n == 0 then [100, 1] else LaterIds(n - 1) + [LaterId(n)]
  }

  // An id above everything executed is always let through.
  lemma NewIdIsFresh(t: Trail, req: ReqId)
    requires Sound(t) && (forall i :: 0 <= i < |t.executed| ==> t.executed[i] < req)
    ensures Admitted(t.ring, req).1.Fresh?
  {
    assert IndexedAt(t.ring, req);
    assert forall i :: 0 <= i < |t.ring.order| ==> t.ring.order[i] == t.executed[|Gone(t)| + i];
    assert Gone(t) != [] ==> Gone(t)[|Gone(t)| - 1] == t.executed[|Gone(t)| - 1];
  }

  lemma FirstTwoExecute()
    ensures Play(Later(0)).executed == [100, 1]
  {
    var first := Step(EMPTY, Admit(100));
    assert Later(0) == [Admit(100), Admit(1)];
    assert [Admit(100), Admit(1)][..1] == [Admit(100)] && [Admit(100)][..0] == [];
    assert Play([Admit(100)]) == first;
    StepIsSound(EMPTY, Admit(100));
    assert first.executed == [100] && Gone(first) == [] && first.ring.order == [100];
  }

  lemma NewIdExecutes(t: Trail, ids: seq<ReqId>, req: ReqId)
    requires Sound(t) && t.executed == ids && (forall i :: 0 <= i < |ids| ==> ids[i] < req)
    ensures Step(t, Admit(req)).executed == ids + [req]
  {
    NewIdIsFresh(t, req);
  }

  lemma PlayOneMore(ops: seq<Op>, op: Op)
    ensures Play(ops + [op]) == Step(Play(ops), op)
  {
    assert (ops + [op])[..|ops|] == ops;
  }

  lemma {:induction false} LaterExecutes(n: nat)
    requires n <= SEEN_REQ_CAPACITY
    ensures Play(Later(n)).executed == LaterIds(n)
  {
    if n == 0 {
      FirstTwoExecute();
    } else {
      LaterExecutes(n - 1);
      PlayIsSound(Later(n - 1));
      NewIdExecutes(Play(Later(n - 1)), LaterIds(n - 1), LaterId(n));
      PlayOneMore(Later(n - 1), Admit(LaterId(n)));
    }
  }

  lemma ExecutedTwice()
    ensures Play(Later(SEEN_REQ_CAPACITY) + [Admit(100)]).executed == LaterIds(SEEN_REQ_CAPACITY) + [100]
    ensures LaterIds(SEEN_REQ_CAPACITY)[0] == 100
  {
    var n := SEEN_REQ_CAPACITY;
    LaterExecutes(n);
    PlayIsSound(Later(n));
    var t := Play(Later(n));
    PlayOneMore(Later(n), Admit(100));
    LastGone(t);
    assert IndexedAt(t.ring, 100);
  }

  // After it the ring has forgotten 100 and then 1, which puts the floor at 2.
  lemma LastGone(t: Trail)
    requires Sound(t) && t.executed == LaterIds(SEEN_REQ_CAPACITY)
    ensures 100 !in t.ring.order && t.ring.evictedBelow == Some(2)
  {
    FirstAndSecond(SEEN_REQ_CAPACITY);
    assert Gone(t) == t.executed[..2];
    assert forall i :: 0 <= i < |t.ring.order| ==> t.ring.order[i] == t.executed[i + 2];
  }

  lemma {:induction false} FirstAndSecond(n: nat)
    requires n <= SEEN_REQ_CAPACITY
    ensures LaterIds(n)[1] == 1 && forall i :: 2 <= i < n + 2 ==> LaterIds(n)[i] >= 200
  {
    if n > 0 {
      FirstAndSecond(n - 1);
    }
  }

  // ---------------------------------------------------------------- replay

  // From a state in which `req` has its answer, through any operations that neither complete it
  // again nor push it out, a retry is given exactly that answer and changes nothing.
  ghost predicate Remembered(t: Trail, ops: seq<Op>, req: ReqId) {
    forall n :: 0 <= n <= |ops| ==> req in PlayFrom(t, ops[..n]).ring.order
  }

  function PlayFrom(t: Trail, ops: seq<Op>): Trail {
    if ops == [] then t else Step(PlayFrom(t, ops[..|ops| - 1]), ops[|ops| - 1])
  }

  lemma {:induction false} AnswerStays(t: Trail, ops: seq<Op>, req: ReqId, ack: ServerEvent)
    requires Sound(t) && Remembered(t, ops, req)
    requires req in t.ring.records && t.ring.records[req] == Answered(ack)
    requires forall op :: op in ops && op.Complete? && op.req == req ==> !IsFinal(op.ack)
    ensures var t' := PlayFrom(t, ops);
            Sound(t') && req in t'.ring.records && t'.ring.records[req] == Answered(ack)
  {
    if ops != [] {
      var n := |ops| - 1;
      assert forall m :: 0 <= m <= n ==> ops[..n][..m] == ops[..m];
      AnswerStays(t, ops[..n], req, ack);
      var t' := PlayFrom(t, ops[..n]);
      StepIsSound(t', ops[n]);
      assert ops[..|ops|] == ops;
      StepKeepsAnswer(t', ops[n], req, ack);
    }
  }

  lemma StepKeepsAnswer(t: Trail, op: Op, req: ReqId, ack: ServerEvent)
    requires Sound(t) && req in t.ring.records && t.ring.records[req] == Answered(ack)
    requires op.Complete? && op.req == req ==> !IsFinal(op.ack)
    requires req in Step(t, op).ring.order
    ensures req in Step(t, op).ring.records && Step(t, op).ring.records[req] == Answered(ack)
  {
    if op.Admit? && Admitted(t.ring, op.req).1.Fresh? {
      StepIsSound(t, op);
      assert IndexedAt(Step(t, op).ring, req);
      FreshKeepsAnswer(t.ring, op.req, req);
    }
  }

  // Letting a new id in leaves the record of any other id that is still there.
  lemma FreshKeepsAnswer(r: Ring, added: ReqId, req: ReqId)
    requires |r.order| <= SEEN_REQ_CAPACITY && req in r.records && added !in r.records
    requires req in Evicted(Recorded(r, added)).records
    ensures Evicted(Recorded(r, added)).records[req] == r.records[req]
  {
    EvictOnce(Recorded(r, added));
  }

  // ---------------------------------------------------------------- retries of what is still running

  lemma AdmittedRuns(t: Trail, req: ReqId)
    requires Sound(t) && Admitted(t.ring, req).1.Fresh?
    ensures var r := Admitted(t.ring, req).0; req in r.records && r.records[req] == Running
  {
    var t' := Step(t, Admit(req));
    StepIsSound(t, Admit(req));
    EvictOnce(Recorded(t.ring, req));
    assert IndexedAt(t.ring, req);
    if |t.ring.order| == SEEN_REQ_CAPACITY {
      assert t.ring.order[0] in t.ring.order;
    }
  }

  lemma StepKeepsRunning(t: Trail, op: Op, req: ReqId)
    requires Sound(t) && req in t.ring.records && t.ring.records[req] == Running
    requires op.Complete? && op.req == req ==> !IsFinal(op.ack)
    requires req in Step(t, op).ring.order
    ensures req in Step(t, op).ring.records && Step(t, op).ring.records[req] == Running
  {
    if op.Admit? && Admitted(t.ring, op.req).1.Fresh? {
      StepIsSound(t, op);
      assert IndexedAt(Step(t, op).ring, req);
      FreshKeepsAnswer(t.ring, op.req, req);
    }
  }

  lemma {:induction false} RunningStays(t: Trail, ops: seq<Op>, req: ReqId)
    requires Sound(t) && Remembered(t, ops, req) && req in t.ring.records && t.ring.records[req] == Running
    requires forall op :: op in ops && op.Complete? && op.req == req ==> !IsFinal(op.ack)
    ensures var t' := PlayFrom(t, ops); Sound(t') && req in t'.ring.records && t'.ring.records[req] == Running
  {
    if ops != [] {
      var n := |ops| - 1;
      assert forall m :: 0 <= m <= n ==> ops[..n][..m] == ops[..m];
      RunningStays(t, ops[..n], req);
      StepIsSound(PlayFrom(t, ops[..n]), ops[n]);
      assert ops[..|ops|] == ops;
      StepKeepsRunning(PlayFrom(t, ops[..n]), ops[n], req);
    }
  }

  // From the moment an id is let through, as long as it is remembered and no final answer to it has
  // come, every retry is told that it is still running, and changes nothing.
  lemma RetryIsInFlight(before: seq<Op>, req: ReqId, ops: seq<Op>)
    requires Admitted(Play(before).ring, req).1.Fresh?
    requires Remembered(Step(Play(before), Admit(req)), ops, req)
    requires forall op :: op in ops && op.Complete? && op.req == req ==> !IsFinal(op.ack)
    ensures var t := PlayFrom(Step(Play(before), Admit(req)), ops);
            Admitted(t.ring, req) == (t.ring, InFlight)
  {
    PlayIsSound(before);
    StepIsSound(Play(before), Admit(req));
    AdmittedRuns(Play(before), req);
    RunningStays(Step(Play(before), Admit(req)), ops, req);
  }

  // The retry that comes at once.
  lemma RetryAtOnce(before: seq<Op>, req: ReqId)
    requires Admitted(Play(before).ring, req).1.Fresh?
    ensures var r := Admitted(Play(before).ring, req).0; Admitted(r, req) == (r, InFlight)
  {
    PlayIsSound(before);
    AdmittedRuns(Play(before), req);
  }

  // Exactly when an id is refused as too old: it is not remembered, and below the id after the one
  // forgotten last; the refusal names that id and changes nothing.
  lemma TooOldExactly(ops: seq<Op>, req: ReqId)
    ensures var t := Play(ops);
            var (r, admission) := Admitted(t.ring, req);
            && (admission.TooOld? <==>
                  req !in t.ring.order && Gone(t) != [] && req < (Gone(t)[|Gone(t)| - 1] + 1) % U64)
            && (admission.TooOld? ==>
                  r == t.ring && admission.oldestRemembered == (Gone(t)[|Gone(t)| - 1] + 1) % U64)
  {
    PlayIsSound(ops);
    TooOldFor(Play(ops).ring, Gone(Play(ops)), req);
  }

  lemma TooOldFor(r: Ring, gone: seq<ReqId>, req: ReqId)
    requires SoundRing(r, gone)
    ensures var (r', admission) := Admitted(r, req);
            && (admission.TooOld? <==> req !in r.order && gone != [] && req < (gone[|gone| - 1] + 1) % U64)
            && (admission.TooOld? ==> r' == r && admission.oldestRemembered == (gone[|gone| - 1] + 1) % U64)
  {
    assert IndexedAt(r, req);
  }

  // Only a final answer to an id that is tracked is recorded, and nothing else is ever changed by one:
  // an acceptance leaves the id running.
  lemma AnsweredExactly(r: Ring, req: ReqId, ack: ServerEvent)
    ensures var r' := Completed(r, req, ack);
            && r'.order == r.order && r'.highWater == r.highWater && r'.evictedBelow == r.evictedBelow
            && r'.records.Keys == r.records.Keys
            && (forall x :: x in r.records && x != req ==> r'.records[x] == r.records[x])
            && (req in r.records ==>
                  r'.records[req] ==
                  if ack.CommandAck? && ack.status == Accepted then r.records[req] else Answered(ack))
  {
  }

  // ---------------------------------------------------------------- retries of what was answered

  lemma ReplaysTheAnswer(before: seq<Op>, req: ReqId, ack: ServerEvent, ops: seq<Op>)
    requires IsFinal(ack)
    requires var t := Step(Play(before), Complete(req, ack)); Remembered(t, ops, req)
    requires forall op :: op in ops && op.Complete? && op.req == req ==> !IsFinal(op.ack)
    ensures var t := PlayFrom(Step(Play(before), Complete(req, ack)), ops);
            Admitted(t.ring, req) == (t.ring, Replay(ack))
  {
    PlayIsSound(before);
    var t := Step(Play(before), Complete(req, ack));
    StepIsSound(Play(before), Complete(req, ack));
    assert ops[..0] == [];
    assert req in PlayFrom(t, ops[..0]).ring.order;
    assert IndexedAt(t.ring, req) && IndexedAt(Play(before).ring, req);
    AnswerStays(t, ops, req, ack);
  }
}
