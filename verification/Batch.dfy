/** The outbound batcher and the array body it builds by hand (crates/wire/src/batch.rs). */
module Batching {
  import opened Base

  type byte = x: int | 0 <= x < 256

  const BATCH_FLUSH_MS: int := 5
  const BATCH_FLUSH_BYTES: nat := 64 * 1024
  const BATCH_MAX_ITEMS: nat := 256
  const NEVER_BATCH_ABOVE_CLASS: nat := 1

  datatype FlushReason = Urgent | Deadline | Bytes | Items | Requested

  datatype Batch = Batch(body: seq<byte>, isArray: bool, count: nat, reason: FlushReason)

  // ---------------------------------------------------------------- the array body

  function Header(n: nat): seq<byte> {
    if n <= 15 then [0x90 + n]
    else if n <= 0xffff then [0xdc, n / 0x100, n % 0x100]
    else
      var m := n % 0x1_0000_0000;
      [0xdd, m / 0x100_0000, m / 0x1_0000 % 0x100, m / 0x100 % 0x100, m % 0x100]
  }

  function Joined(parts: seq<seq<byte>>): seq<byte> {
    if parts == [] then [] else Joined(parts[..|parts| - 1]) + parts[|parts| - 1]
  }

  method MsgpackArray(parts: seq<seq<byte>>) returns (out: seq<byte>)
    ensures out == Header(|parts|) + Joined(parts)
  {
    var n := |parts|;
    out := [];
    if n <= 15 {
      out := out + [0x90 + n];
    } else if n <= 0xffff {
      out := out + [0xdc];
      out := out + [n / 0x100, n % 0x100];
    } else {
      var m := n % 0x1_0000_0000;
      out := out + [0xdd];
      out := out + [m / 0x100_0000, m / 0x1_0000 % 0x100, m / 0x100 % 0x100, m % 0x100];
    }
    assert out == Header(n);
    for i := 0 to n
      invariant out == Header(n) + Joined(parts[..i])
    {
      assert parts[..i + 1][..i] == parts[..i];
      out := out + parts[i];
    }
    assert parts[..n] == parts;
  }

  // ---------------------------------------------------------------- the batcher

  datatype Pending = Pending(parts: seq<seq<byte>>, bytes: nat, openedAt: Option<int>)

  function Taken(p: Pending, reason: FlushReason): Batch
    requires p.parts != []
  {
    if |p.parts| == 1 then Batch(p.parts[0], false, 1, reason)
    else Batch(Header(|p.parts|) + Joined(p.parts), true, |p.parts|, reason)
  }

  const EMPTY := Pending([], 0, None)

  predicate Due(p: Pending, now: int) {
    p.openedAt.Some? && now >= p.openedAt.value + BATCH_FLUSH_MS
  }

  function Pushed(p: Pending, encoded: seq<byte>, urgency: nat, now: int): (Pending, Option<Batch>) {
    if urgency <= NEVER_BATCH_ABOVE_CLASS then (p, Some(Batch(encoded, false, 1, Urgent)))
    else
      var q := Pending(p.parts + [encoded], p.bytes + |encoded|, if p.parts == [] then Some(now) else p.openedAt);
      if |q.parts| >= BATCH_MAX_ITEMS then (EMPTY, Some(Taken(q, Items)))
      else if q.bytes >= BATCH_FLUSH_BYTES then (EMPTY, Some(Taken(q, Bytes)))
      else if Due(q, now) then (EMPTY, Some(Taken(q, Deadline)))
      else (q, None)
  }

  function FlushedDue(p: Pending, now: int): (Pending, Option<Batch>) {
    if p.parts != [] && Due(p, now) then (EMPTY, Some(Taken(p, Deadline))) else (p, None)
  }

  function Flushed(p: Pending): (Pending, Option<Batch>) {
    if p.parts != [] then (EMPTY, Some(Taken(p, Requested))) else (p, None)
  }

  datatype PushResult = Sent(batch: Option<Batch>) | EncodeError

  class Batcher {
    var parts: seq<seq<byte>>
    var bytes: nat
    var openedAt: Option<int>

    function View(): Pending
      reads this
    {
      Pending(parts, bytes, openedAt)
    }

    constructor ()
      ensures View() == EMPTY
    {
      parts, bytes, openedAt := [], 0, None;
    }

    function DeadlineAt(): Option<int>
      reads this
    {
      if openedAt.Some? then Some(openedAt.value + BATCH_FLUSH_MS) else None
    }

    // `encoded` is what the serialiser made of the message, if it could.
    method Push(encoded: Option<seq<byte>>, urgency: nat, now: int) returns (r: PushResult)
      modifies this
      ensures match encoded
              case None => View() == old(View()) && r == EncodeError
              case Some(e) =>
                var (pending, batch) := Pushed(old(View()), e, urgency, now);
                View() == pending && r == Sent(batch)
    {
      if encoded.None? {
        return EncodeError;
      }
      if urgency <= NEVER_BATCH_ABOVE_CLASS {
        return Sent(Some(Batch(encoded.value, false, 1, Urgent)));
      }
      if parts == [] {
        openedAt := Some(now);
      }
      bytes := bytes + |encoded.value|;
      parts := parts + [encoded.value];
      var reason: Option<FlushReason> := None;
      if |parts| >= BATCH_MAX_ITEMS {
        reason := Some(Items);
      } else if bytes >= BATCH_FLUSH_BYTES {
        reason := Some(Bytes);
      } else if DeadlineAt().Some? && now >= DeadlineAt().value {
        reason := Some(Deadline);
      }
      if reason.None? {
        return Sent(None);
      }
      var batch := Take(reason.value);
      return Sent(Some(batch));
    }

    method FlushDue(now: int) returns (batch: Option<Batch>)
      modifies this
      ensures (View(), batch) == FlushedDue(old(View()), now)
    {
      if parts != [] && DeadlineAt().Some? && now >= DeadlineAt().value {
        var b := Take(Deadline);
        return Some(b);
      }
      return None;
    }

    method Flush() returns (batch: Option<Batch>)
      modifies this
      ensures (View(), batch) == Flushed(old(View()))
    {
      if parts != [] {
        var b := Take(Requested);
        return Some(b);
      }
      return None;
    }

    method Take(reason: FlushReason) returns (batch: Batch)
      requires parts != []
      modifies this
      ensures View() == EMPTY && batch == Taken(old(View()), reason)
    {
      var taken := parts;
      parts := [];
      bytes := 0;
      openedAt := None;
      if |taken| == 1 {
        return Batch(taken[0], false, 1, reason);
      }
      var body := MsgpackArray(taken);
      return Batch(body, true, |taken|, reason);
    }
  }

  // ---------------------------------------------------------------- what the receiver reads

  // The array formats of the MessagePack specification: the count, and where the elements start.
  function ReadHeader(body: seq<byte>): Option<(nat, nat)> {
    if body == [] then None
    else if 0x90 <= body[0] <= 0x9f then Some((body[0] - 0x90, 1))
    else if body[0] == 0xdc && |body| >= 3 then Some(((body[1] as int) * 0x100 + body[2], 3))
    else if body[0] == 0xdd && |body| >= 5 then
      Some(((body[1] as int) * 0x100_0000 + (body[2] as int) * 0x1_0000 + (body[3] as int) * 0x100 + body[4], 5))
    else None
  }

  // Nothing shorter than the header announces the same number of elements.
  lemma HeaderIsShortest(n: nat, other: seq<byte>)
    requires n < 0x1_0000_0000 && ReadHeader(other).Some? && ReadHeader(other).value.0 == n
    ensures |Header(n)| <= ReadHeader(other).value.1
  {
  }

  // `measure` tells the length of the value a byte string starts with.
  function ReadElements(measure: seq<byte> -> Option<nat>, body: seq<byte>, n: nat): Option<seq<seq<byte>>> {
    if n == 0 then (if body == [] then Some([]) else None)
    else
      match measure(body)
      case None => None
      case Some(len) =>
        if len > |body| then None
        else
          match ReadElements(measure, body[len..], n - 1)
          case None => None
          case Some(rest) => Some([body[..len]] + rest)
  }

  function ReadArray(measure: seq<byte> -> Option<nat>, body: seq<byte>): Option<seq<seq<byte>>> {
    match ReadHeader(body)
    case None => None
    case Some((n, start)) => if start <= |body| then ReadElements(measure, body[start..], n) else None
  }

  // Encodings whose end can be told whatever follows them.
  ghost predicate SelfDelimiting(measure: seq<byte> -> Option<nat>, parts: seq<seq<byte>>) {
    forall i :: 0 <= i < |parts| ==> Delimited(measure, parts[i])
  }

  ghost predicate Delimited(measure: seq<byte> -> Option<nat>, part: seq<byte>) {
    forall rest :: measure(part + rest) == Some(|part|)
  }

  lemma HeaderIsRead(n: nat, rest: seq<byte>)
    ensures ReadHeader(Header(n) + rest) == Some((n % 0x1_0000_0000, |Header(n)|))
  {
    var h := Header(n);
    assert (h + rest)[0] == h[0];
    if n > 0xffff {
      assert (h + rest)[1] == h[1] && (h + rest)[2] == h[2] && (h + rest)[3] == h[3] && (h + rest)[4] == h[4];
      FourBytes(n % 0x1_0000_0000);
    } else if n > 15 {
      assert (h + rest)[1] == h[1] && (h + rest)[2] == h[2];
    }
  }

  lemma FourBytes(m: nat)
    requires m < 0x1_0000_0000
    ensures m == m / 0x100_0000 * 0x100_0000 + m / 0x1_0000 % 0x100 * 0x1_0000 + m / 0x100 % 0x100 * 0x100 + m % 0x100
  {
    var a, b, c := m / 0x100_0000, m / 0x1_0000, m / 0x100;
    assert c / 0x100 == b && b / 0x100 == a;
  }

  lemma {:induction false} JoinedFront(parts: seq<seq<byte>>)
    requires parts != []
    ensures Joined(parts) == parts[0] + Joined(parts[1..])
  {
    var n := |parts| - 1;
    if n > 0 {
      JoinedFront(parts[..n]);
      assert parts[..n][1..] == parts[1..][..n - 1];
      assert parts[1..][n - 1] == parts[n];
    } else {
      assert parts[..0] == [] && parts[1..] == [];
    }
  }

  lemma {:induction false} ElementsAreRead(measure: seq<byte> -> Option<nat>, parts: seq<seq<byte>>)
    requires SelfDelimiting(measure, parts)
    ensures ReadElements(measure, Joined(parts), |parts|) == Some(parts)
  {
    if parts != [] {
      JoinedFront(parts);
      var rest := Joined(parts[1..]);
      assert Delimited(measure, parts[0]) && measure(parts[0] + rest) == Some(|parts[0]|);
      assert (parts[0] + rest)[|parts[0]|..] == rest && (parts[0] + rest)[..|parts[0]|] == parts[0];
      ElementsAreRead(measure, parts[1..]);
      assert parts == [parts[0]] + parts[1..];
    }
  }

  lemma {:induction false} ReadsThatMany(measure: seq<byte> -> Option<nat>, body: seq<byte>, n: nat)
    ensures ReadElements(measure, body, n).Some? ==> |ReadElements(measure, body, n).value| == n
    decreases n
  {
    if n > 0 && measure(body).Some? && measure(body).value <= |body| {
      ReadsThatMany(measure, body[measure(body).value..], n - 1);
    }
  }

  lemma ArrayOpens(measure: seq<byte> -> Option<nat>, parts: seq<seq<byte>>)
    ensures ReadArray(measure, Header(|parts|) + Joined(parts)) ==
            ReadElements(measure, Joined(parts), |parts| % 0x1_0000_0000)
  {
    var h, rest := Header(|parts|), Joined(parts);
    HeaderIsRead(|parts|, rest);
    assert (h + rest)[|h|..] == rest;
  }

  // The hand-built body reads back as the parts it was built from, exactly while their number fits
  // the 32 bits of the widest header.
  lemma ArrayRoundTrip(measure: seq<byte> -> Option<nat>, parts: seq<seq<byte>>)
    requires SelfDelimiting(measure, parts)
    ensures ReadArray(measure, Header(|parts|) + Joined(parts)) == Some(parts) <==> |parts| < 0x1_0000_0000
  {
    ArrayOpens(measure, parts);
    var n := |parts| % 0x1_0000_0000;
    ReadsBackIfCounted(measure, parts, n, ReadArray(measure, Header(|parts|) + Joined(parts)));
    CountFits(|parts|);
  }

  lemma CountFits(n: nat)
    ensures n % 0x1_0000_0000 == n <==> n < 0x1_0000_0000
  {
  }

  lemma ReadsBackIfCounted(measure: seq<byte> -> Option<nat>, parts: seq<seq<byte>>, n: nat,
                           got: Option<seq<seq<byte>>>)
    requires SelfDelimiting(measure, parts) && got == ReadElements(measure, Joined(parts), n)
    ensures got == Some(parts) <==> n == |parts|
  {
    ReadsThatMany(measure, Joined(parts), n);
    ElementsAreRead(measure, parts);
  }

  // ---------------------------------------------------------------- runs

  datatype Op = Push(encoded: seq<byte>, urgency: nat, now: int) | FlushDue(now: int) | Flush

  datatype Trail = Trail(pending: Pending, emitted: seq<Batch>)

  function Step(p: Pending, op: Op): (Pending, Option<Batch>) {
    match op
    case Push(encoded, urgency, now) => Pushed(p, encoded, urgency, now)
    case FlushDue(now) => FlushedDue(p, now)
    case Flush => Flushed(p)
  }

  function Next(t: Trail, op: Op): Trail {
    var (p, b) := Step(t.pending, op);
    Trail(p, if b.Some? then t.emitted + [b.value] else t.emitted)
  }

  function Play(ops: seq<Op>): Trail {
    if ops == [] then Trail(EMPTY, []) else Next(Play(ops[..|ops| - 1]), ops[|ops| - 1])
  }

  // The messages pushed with or without urgency, in order.
  function PushedIn(ops: seq<Op>, urgent: bool): seq<seq<byte>> {
    if ops == [] then []
    else
      var op := ops[|ops| - 1];
      PushedIn(ops[..|ops| - 1], urgent) +
      if op.Push? && (op.urgency <= NEVER_BATCH_ABOVE_CLASS) == urgent then [op.encoded] else []
  }

  // What a receiver gets out of one frame.
  function Read(measure: seq<byte> -> Option<nat>, b: Batch): Option<seq<seq<byte>>> {
    if b.isArray then ReadArray(measure, b.body) else Some([b.body])
  }

  // What it gets out of all frames of one kind, in order; `None` if one cannot be read.
  function ReadAll(measure: seq<byte> -> Option<nat>, emitted: seq<Batch>, urgent: bool): Option<seq<seq<byte>>> {
    if emitted == [] then Some([])
    else
      var b := emitted[|emitted| - 1];
      match ReadAll(measure, emitted[..|emitted| - 1], urgent)
      case None => None
      case Some(before) =>
        if b.reason.Urgent? != urgent then Some(before)
        else
          match Read(measure, b)
          case None => None
          case Some(more) => Some(before + more)
  }

  function TotalBytes(parts: seq<seq<byte>>): nat {
    if parts == [] then 0 else TotalBytes(parts[..|parts| - 1]) + |parts[|parts| - 1]|
  }

  ghost predicate Sound(p: Pending) {
    && |p.parts| < BATCH_MAX_ITEMS && p.bytes < BATCH_FLUSH_BYTES && p.bytes == TotalBytes(p.parts)
    && (p.openedAt.Some? <==> p.parts != [])
  }

  ghost predicate AllDelimited(measure: seq<byte> -> Option<nat>, ops: seq<Op>) {
    forall i :: 0 <= i < |ops| ==> DelimitedPush(measure, ops[i])
  }

  ghost predicate DelimitedPush(measure: seq<byte> -> Option<nat>, op: Op) {
    op.Push? ==> Delimited(measure, op.encoded)
  }

  lemma TakenReads(measure: seq<byte> -> Option<nat>, p: Pending, reason: FlushReason)
    requires p.parts != [] && |p.parts| <= BATCH_MAX_ITEMS && SelfDelimiting(measure, p.parts)
    ensures Read(measure, Taken(p, reason)) == Some(p.parts)
    ensures Taken(p, reason).count == |p.parts|
  {
    ArrayRoundTrip(measure, p.parts);
    if |p.parts| == 1 {
      assert p.parts == [p.parts[0]];
    }
  }

  lemma ReadAllSnoc(measure: seq<byte> -> Option<nat>, emitted: seq<Batch>, b: Batch, urgent: bool)
    ensures ReadAll(measure, emitted + [b], urgent) ==
            match ReadAll(measure, emitted, urgent)
            case None => None
            case Some(before) =>
              if b.reason.Urgent? != urgent then Some(before)
              else
                match Read(measure, b)
                case None => None
                case Some(more) => Some(before + more)
  {
    assert (emitted + [b])[..|emitted|] == emitted;
  }

  // A message alone goes out as itself, several as an array.
  lemma FrameShape(p: Pending, reason: FlushReason)
    requires p.parts != []
    ensures var b := Taken(p, reason);
            && b.reason == reason && b.count == |p.parts| && (b.isArray <==> 1 < |p.parts|)
            && (|p.parts| == 1 ==> b.body == p.parts[0])
  {
  }

  // When what is pending goes out without a push: on demand always, by the clock exactly once its
  // oldest message has waited five milliseconds; then all of it does, and nothing stays pending.
  lemma FlushesExactly(p: Pending, now: int)
    requires Sound(p)
    ensures var (q, b) := FlushedDue(p, now);
            && (b.Some? <==> p.parts != [] && now >= p.openedAt.value + 5)
            && (if b.Some? then q == EMPTY && b.value == Taken(p, Deadline) else q == p)
    ensures var (q, b) := Flushed(p);
            && (b.Some? <==> p.parts != [])
            && (if b.Some? then q == EMPTY && b.value == Taken(p, Requested) else q == p)
  {
    if p.parts == [] {
      assert p.bytes == 0;
    }
  }

  // Why a push sends, when several reasons apply: the number of messages, then their size, then time.
  lemma SendsFor(p: Pending, encoded: seq<byte>, urgency: nat, now: int)
    requires Sound(p) && urgency > 1
    ensures var b := Pushed(p, encoded, urgency, now).1;
            var since := if p.parts == [] then now else p.openedAt.value;
            if |p.parts| + 1 >= 256 then b.Some? && b.value.reason == Items
            else if p.bytes + |encoded| >= 65_536 then b.Some? && b.value.reason == Bytes
            else if now >= since + 5 then b.Some? && b.value.reason == Deadline
            else b.None?
  {
  }

  // One operation: what is read from the frame it sends, if any, and what is then pending are
  // together what was pending before and the message it brought; the bounds are kept.
  ghost predicate Conserves(measure: seq<byte> -> Option<nat>, p: Pending, op: Op, q: Pending, b: Option<Batch>) {
    var brought := if op.Push? && op.urgency > NEVER_BATCH_ABOVE_CLASS then [op.encoded] else [];
    var urgent := op.Push? && op.urgency <= NEVER_BATCH_ABOVE_CLASS;
    && Sound(q) && SelfDelimiting(measure, q.parts)
    && (b.Some? ==> Read(measure, b.value).Some? && (b.value.reason.Urgent? <==> urgent))
    && (if urgent then b.Some? && q == p && Read(measure, b.value) == Some([op.encoded])
        else (if b.Some? then Read(measure, b.value).value else []) + q.parts == p.parts + brought)
    && (!op.Flush? && !urgent && q.parts != [] ==> op.now < q.openedAt.value + BATCH_FLUSH_MS)
    && (op.Flush? ==> q.parts == [])
  }

  lemma DelimitedSnoc(measure: seq<byte> -> Option<nat>, parts: seq<seq<byte>>, part: seq<byte>)
    requires SelfDelimiting(measure, parts) && Delimited(measure, part)
    ensures SelfDelimiting(measure, parts + [part])
  {
  }

  lemma PushConserves(measure: seq<byte> -> Option<nat>, p: Pending, encoded: seq<byte>, urgency: nat, now: int)
    requires Sound(p) && SelfDelimiting(measure, p.parts) && urgency > NEVER_BATCH_ABOVE_CLASS
    requires Delimited(measure, encoded)
    ensures var (q, b) := Pushed(p, encoded, urgency, now);
            && Sound(q) && SelfDelimiting(measure, q.parts)
            && (q.parts != [] ==> now < q.openedAt.value + BATCH_FLUSH_MS)
            && match b
               case None => q.parts == p.parts + [encoded]
               case Some(batch) =>
                 && q.parts == [] && Read(measure, batch) == Some(p.parts + [encoded]) && !batch.reason.Urgent?
                 && batch.count == |p.parts| + 1 <= BATCH_MAX_ITEMS
                 && match batch.reason
                    case Items => batch.count == BATCH_MAX_ITEMS
                    case Bytes => p.bytes + |encoded| >= BATCH_FLUSH_BYTES
                    case Deadline => p.openedAt.Some? && now >= p.openedAt.value + BATCH_FLUSH_MS
                    case _ => false
  {
    var all := p.parts + [encoded];
    var filled := Pending(all, p.bytes + |encoded|, if p.parts == [] then Some(now) else p.openedAt);
    assert all[..|p.parts|] == p.parts;
    DelimitedSnoc(measure, p.parts, encoded);
    var (q, b) := Pushed(p, encoded, urgency, now);
    if b.Some? {
      assert b.value == Taken(filled, b.value.reason);
      TakenReads(measure, filled, b.value.reason);
    } else {
      assert q == filled;
    }
  }

  lemma StepConserves(measure: seq<byte> -> Option<nat>, p: Pending, op: Op)
    requires Sound(p) && SelfDelimiting(measure, p.parts)
    requires DelimitedPush(measure, op)
    ensures Conserves(measure, p, op, Step(p, op).0, Step(p, op).1)
  {
    if op.Push? && op.urgency > NEVER_BATCH_ABOVE_CLASS {
      PushConserves(measure, p, op.encoded, op.urgency, op.now);
    } else if !op.Push? && p.parts != [] {
      TakenReads(measure, p, Deadline);
      TakenReads(measure, p, Requested);
    }
  }

  // Over any run: reading all ordinary frames in order, and then what is pending, gives the
  // ordinary messages in the order they were pushed; reading the urgent frames gives the urgent
  // messages in order, each alone and at once; what is pending stays below both size bounds with
  // its size counted exactly.
  ghost predicate Conserved(measure: seq<byte> -> Option<nat>, ops: seq<Op>, t: Trail) {
    && UrgentAlone(t.emitted)
    && ReadAll(measure, t.emitted, false).Some?
    && ReadAll(measure, t.emitted, false).value + t.pending.parts == PushedIn(ops, false)
    && ReadAll(measure, t.emitted, true) == Some(PushedIn(ops, true))
    && Sound(t.pending) && SelfDelimiting(measure, t.pending.parts)
  }

  // An urgent frame is its one message and nothing else.
  ghost predicate UrgentAlone(emitted: seq<Batch>) {
    forall i :: 0 <= i < |emitted| ==> IfUrgentAlone(emitted[i])
  }

  predicate IfUrgentAlone(b: Batch) {
    b.reason.Urgent? ==> !b.isArray && b.count == 1
  }

  predicate IsUrgent(op: Op) {
    op.Push? && op.urgency <= NEVER_BATCH_ABOVE_CLASS
  }

  // The urgent message pushed by operation `n` of a run is sent by that operation, by itself, and
  // leaves what is pending as it was.
  ghost predicate LeftAtOnce(ops: seq<Op>, n: nat)
    requires n < |ops|
  {
    IsUrgent(ops[n]) ==>
      && Play(ops[..n + 1]).emitted == Play(ops[..n]).emitted + [Batch(ops[n].encoded, false, 1, Urgent)]
      && Play(ops[..n + 1]).pending == Play(ops[..n]).pending
  }

  // The push that opened what is pending: nothing was pending before it, something has been ever since,
  // its message is the oldest, and the clock of the batch is its time.
  ghost predicate OpenedBy(ops: seq<Op>, n: nat)
    requires n < |ops|
  {
    && !PendingAfter(ops, n) && (forall m :: n < m <= |ops| ==> PendingAfter(ops, m))
    && Opens(ops[n], Play(ops).pending)
  }

  ghost predicate PendingAfter(ops: seq<Op>, m: nat)
    requires m <= |ops|
  {
    Play(ops[..m]).pending.parts != []
  }

  predicate Opens(op: Op, p: Pending) {
    op.Push? && !IsUrgent(op) && p.parts != [] && p.parts[0] == op.encoded && p.openedAt == Some(op.now)
  }

  lemma {:induction false} OldestSetsTheClock(ops: seq<Op>) returns (n: nat)
    requires Play(ops).pending.parts != []
    ensures n < |ops| && OpenedBy(ops, n)
  {
    var last := |ops| - 1;
    var before := Play(ops[..last]).pending;
    LastStep(ops);
    if before.parts == [] {
      n := last;
      FirstPending(before, ops[last]);
      OpenedNow(ops);
    } else {
      n := OldestSetsTheClock(ops[..last]);
      PendingGrows(before, ops[last]);
      StillOpenedBy(ops, n);
    }
  }

  lemma OpenedNow(ops: seq<Op>)
    requires ops != [] && Play(ops[..|ops| - 1]).pending.parts == []
    requires Opens(ops[|ops| - 1], Play(ops).pending)
    ensures OpenedBy(ops, |ops| - 1)
  {
    assert ops[..|ops|] == ops;
  }

  lemma StillOpenedBy(ops: seq<Op>, n: nat)
    requires n + 1 < |ops| && OpenedBy(ops[..|ops| - 1], n) && Opens(ops[n], Play(ops).pending)
    ensures OpenedBy(ops, n)
  {
    assert ops[..|ops|] == ops;
    forall m | 0 <= m < |ops|
      ensures PendingAfter(ops[..|ops| - 1], m) == PendingAfter(ops, m)
    {
      SamePrefix(ops, m);
    }
  }

  lemma SamePrefix(ops: seq<Op>, m: nat)
    requires m < |ops|
    ensures PendingAfter(ops[..|ops| - 1], m) == PendingAfter(ops, m)
  {
    assert ops[..|ops| - 1][..m] == ops[..m];
  }

  // What is pending for the first time was opened by the last operation.
  lemma FirstPending(p: Pending, op: Op)
    requires p.parts == [] && Step(p, op).0.parts != []
    ensures Opens(op, Step(p, op).0)
  {
  }

  lemma LastStep(ops: seq<Op>)
    requires ops != []
    ensures Play(ops).pending == Step(Play(ops[..|ops| - 1]).pending, ops[|ops| - 1]).0
  {
  }

  // What stays pending keeps its oldest message and its clock.
  lemma PendingGrows(p: Pending, op: Op)
    requires p.parts != []
    ensures var q := Step(p, op).0;
            q.parts != [] ==> q.parts[0] == p.parts[0] && q.openedAt == p.openedAt
  {
  }

  lemma UrgentLeavesAtOnce(ops: seq<Op>, n: nat)
    requires n < |ops|
    ensures LeftAtOnce(ops, n)
  {
    assert ops[..n + 1][..n] == ops[..n];
  }

  lemma PushedOneMore(ops: seq<Op>, op: Op, urgent: bool)
    ensures PushedIn(ops + [op], urgent) ==
            PushedIn(ops, urgent) + if op.Push? && IsUrgent(op) == urgent then [op.encoded] else []
  {
    assert (ops + [op])[..|ops|] == ops;
  }

  // The ordinary frames, and what is pending behind them.
  lemma OrdinaryOn(measure: seq<byte> -> Option<nat>, ops: seq<Op>, t: Trail, op: Op)
    requires Conserved(measure, ops, t)
    requires Conserves(measure, t.pending, op, Step(t.pending, op).0, Step(t.pending, op).1)
    ensures var t' := Next(t, op);
            && ReadAll(measure, t'.emitted, false).Some?
            && ReadAll(measure, t'.emitted, false).value + t'.pending.parts == PushedIn(ops + [op], false)
  {
    var (q, b) := Step(t.pending, op);
    var before := ReadAll(measure, t.emitted, false).value;
    var brought := if op.Push? && !IsUrgent(op) then [op.encoded] else [];
    PushedOneMore(ops, op, false);
    if b.Some? {
      ReadAllSnoc(measure, t.emitted, b.value, false);
    }
    if !IsUrgent(op) {
      Regroup(before, if b.Some? then Read(measure, b.value).value else [], q.parts, t.pending.parts, brought);
    } else {
      assert (before + t.pending.parts) + brought == before + t.pending.parts;
    }
  }

  // The urgent frames.
  lemma UrgentOn(measure: seq<byte> -> Option<nat>, ops: seq<Op>, t: Trail, op: Op)
    requires Conserved(measure, ops, t)
    requires Conserves(measure, t.pending, op, Step(t.pending, op).0, Step(t.pending, op).1)
    ensures ReadAll(measure, Next(t, op).emitted, true) == Some(PushedIn(ops + [op], true))
  {
    var b := Step(t.pending, op).1;
    PushedOneMore(ops, op, true);
    if b.Some? {
      ReadAllSnoc(measure, t.emitted, b.value, true);
    }
    if !IsUrgent(op) {
      assert PushedIn(ops, true) + [] == PushedIn(ops, true);
    }
  }

  lemma OneStepOn(measure: seq<byte> -> Option<nat>, ops: seq<Op>, t: Trail, op: Op)
    requires Conserved(measure, ops, t)
    requires DelimitedPush(measure, op)
    ensures Conserved(measure, ops + [op], Next(t, op))
  {
    StepConserves(measure, t.pending, op);
    OrdinaryOn(measure, ops, t, op);
    UrgentOn(measure, ops, t, op);
  }

  lemma Regroup(sent: seq<seq<byte>>, more: seq<seq<byte>>, left: seq<seq<byte>>, before: seq<seq<byte>>,
                brought: seq<seq<byte>>)
    requires more + left == before + brought
    ensures (sent + more) + left == (sent + before) + brought
    ensures sent + [] == sent
  {
    assert (sent + more) + left == sent + (more + left);
    assert (sent + before) + brought == sent + (before + brought);
  }

  lemma NothingYet(measure: seq<byte> -> Option<nat>)
    ensures Conserved(measure, [], Trail(EMPTY, []))
  {
  }

  lemma {:induction false} PlayConserves(measure: seq<byte> -> Option<nat>, ops: seq<Op>) returns (t: Trail)
    requires AllDelimited(measure, ops)
    ensures t == Play(ops) && Conserved(measure, ops, t)
  {
    if ops == [] {
      t := Trail(EMPTY, []);
      NothingYet(measure);
    } else {
      var n := |ops| - 1;
      var before := PlayConserves(measure, ops[..n]);
      OneStepOn(measure, ops[..n], before, ops[n]);
      t := Next(before, ops[n]);
      assert ops == ops[..n] + [ops[n]];
    }
  }

  lemma NothingLostOrReordered(measure: seq<byte> -> Option<nat>, ops: seq<Op>)
    requires AllDelimited(measure, ops)
    ensures Conserved(measure, ops, Play(ops))
    ensures forall n :: 0 <= n < |ops| ==> LeftAtOnce(ops, n)
  {
    var t := PlayConserves(measure, ops);
    forall n | 0 <= n < |ops|
      ensures LeftAtOnce(ops, n)
    {
      UrgentLeavesAtOnce(ops, n);
    }
  }
}
