/**
 The store's queue, its single writer and the answers it gives after each commit
 (crates/storage/src/store.rs). The database is any type `D`; what a statement does to it, and
 whether it succeeds, is the environment's business.
 */
module Store {
  import opened Base

  const QUEUE_DEPTH: nat := 16_384
  const MAX_BATCH: nat := 512

  datatype Value = Int(i: int) | Real(r: real) | Text(t: string) | Blob(b: seq<bv8>) | Null

  datatype Write = Write(sql: string, params: seq<Value>)

  datatype Job = Job(id: nat, writes: seq<Write>)

  // `script` runs every statement of a text, `single` one statement with parameters.
  datatype Env<!D> = Env(script: (string, D) -> Option<D>, single: (string, seq<Value>, D) -> Option<D>)

  // What may go wrong around one batch besides the statements themselves: BEGIN refused, the
  // statements at some positions interrupted, COMMIT refused with or without the transaction left
  // open, ROLLBACK refused.
  datatype CommitFate = Done | Undone | LeftOpen

  datatype Weather = Weather(begins: bool, interrupted: set<nat>, commit: CommitFate, rollsBack: bool)

  function RunWrite<D>(env: Env<D>, w: Write, db: D): Option<D> {
    if w.params == [] then env.script(w.sql, db) else env.single(w.sql, w.params, db)
  }

  // Serial execution: each statement on the state the one before it left.
  function RunAll<D>(env: Env<D>, ws: seq<Write>, db: D): Option<D> {
    if ws == [] then Some(db)
    else
      match RunAll(env, ws[..|ws| - 1], db)
      case None => None
      case Some(mid) => RunWrite(env, ws[|ws| - 1], mid)
  }

  function Writes(jobs: seq<Job>): seq<Write> {
    if jobs == [] then [] else Writes(jobs[..|jobs| - 1]) + jobs[|jobs| - 1].writes
  }

  // What the connection shows the world: the committed database, and whether a transaction is open.
  datatype Conn<D> = Conn(db: D, open: bool)

  // No statement at a position in `[from, to)` is interrupted.
  predicate Calm(w: Weather, from: nat, to: nat) {
    forall i :: from <= i < to ==> i !in w.interrupted
  }

  function CommitBatch<D>(env: Env<D>, c: Conn<D>, batch: seq<Job>, w: Weather): (Conn<D>, bool) {
    if c.open || !w.begins then (c, false)
    else
      var ws := Writes(batch);
      var ran := RunAll(env, ws, c.db);
      if ran.None? || !Calm(w, 0, |ws|) then (c.(open := !w.rollsBack), false)
      else
        match w.commit
        case Done => (c.(db := ran.value), true)
        case Undone => (c, false)
        case LeftOpen => (c.(open := true), false)
  }

  class Connection<D> {
    var db: D
    var working: D
    var open: bool

    function View(): Conn<D>
      reads this
    {
      Conn(db, open)
    }

    constructor (db: D)
      ensures View() == Conn(db, false)
    {
      this.db, working, open := db, db, false;
    }

    method Begin(w: Weather) returns (ok: bool)
      modifies this
      ensures db == old(db) && ok == (!old(open) && w.begins)
      ensures if ok then open && working == db else open == old(open)
    {
      ok := !open && w.begins;
      if ok {
        working := db;
        open := true;
      }
    }

    method Execute(env: Env<D>, write: Write, w: Weather, position: nat) returns (ok: bool)
      modifies this
      ensures db == old(db) && open == old(open)
      ensures var ran := RunWrite(env, write, old(working));
              ok == (ran.Some? && position !in w.interrupted) && (ok ==> working == ran.value)
    {
      var ran := if write.params == [] then env.script(write.sql, working)
                 else env.single(write.sql, write.params, working);
      ok := ran.Some? && position !in w.interrupted;
      if ok {
        working := ran.value;
      }
    }

    method Commit(w: Weather) returns (ok: bool)
      modifies this
      ensures ok == w.commit.Done?
      ensures db == (if ok then old(working) else old(db)) && open == w.commit.LeftOpen?
    {
      ok := w.commit.Done?;
      if ok {
        db := working;
      }
      open := w.commit.LeftOpen?;
    }

    method ExecuteJob(env: Env<D>, writes: seq<Write>, w: Weather, position: nat) returns (ok: bool)
      modifies this
      ensures db == old(db) && open == old(open)
      ensures ok <==> RunAll(env, writes, old(working)).Some? && Calm(w, position, position + |writes|)
      ensures ok ==> RunAll(env, writes, old(working)) == Some(working)
    {
      for i := 0 to |writes|
        invariant db == old(db) && open == old(open)
        invariant Calm(w, position, position + i)
        invariant RunAll(env, writes[..i], old(working)) == Some(working)
      {
        assert writes[..i + 1][..i] == writes[..i];
        var ran := Execute(env, writes[i], w, position + i);
        if !ran {
          RunAllPrefix(env, writes[..i + 1], writes[i + 1..], old(working));
          assert writes == writes[..i + 1] + writes[i + 1..];
          return false;
        }
      }
      assert writes[..|writes|] == writes;
      return true;
    }

    // The source's `commit`: all of the batch, or none of it.
    method CommitJobs(env: Env<D>, batch: seq<Job>, w: Weather) returns (ok: bool)
      modifies this
      ensures (View(), ok) == CommitBatch(env, old(View()), batch, w)
    {
      ok := Begin(w);
      if !ok {
        return;
      }
      ok := ExecuteAll(env, batch, w);
      if !ok {
        open := !w.rollsBack;
        return;
      }
      ok := Commit(w);
    }

    // The loop over the jobs of a batch, up to the first statement that fails.
    method ExecuteAll(env: Env<D>, batch: seq<Job>, w: Weather) returns (ok: bool)
      modifies this
      ensures db == old(db) && open == old(open)
      ensures ok <==> RunAll(env, Writes(batch), old(working)).Some? && Calm(w, 0, |Writes(batch)|)
      ensures ok ==> RunAll(env, Writes(batch), old(working)) == Some(working)
    {
      ghost var start := working;
      var position := 0;
      for j := 0 to |batch|
        invariant db == old(db) && open == old(open)
        invariant position == |Writes(batch[..j])| && Calm(w, 0, position)
        invariant RunAll(env, Writes(batch[..j]), start) == Some(working)
      {
        UpToJob(env, batch, j, start);
        ok := ExecuteJob(env, batch[j].writes, w, position);
        if !ok {
          return;
        }
        position := position + |batch[j].writes|;
      }
      assert batch[..|batch|] == batch;
      return true;
    }
  }

  // Running a batch up to and including job `j`, and what that means for all of it.
  lemma UpToJob<D>(env: Env<D>, batch: seq<Job>, j: nat, db: D)
    requires j < |batch|
    ensures Writes(batch[..j + 1]) == Writes(batch[..j]) + batch[j].writes <= Writes(batch)
    ensures RunAll(env, Writes(batch[..j + 1]), db) ==
            match RunAll(env, Writes(batch[..j]), db)
            case None => None
            case Some(mid) => RunAll(env, batch[j].writes, mid)
    ensures RunAll(env, Writes(batch[..j + 1]), db).None? ==> RunAll(env, Writes(batch), db).None?
  {
    assert batch[..j + 1][..j] == batch[..j];
    assert batch == batch[..j + 1] + batch[j + 1..];
    WritesConcat(batch[..j + 1], batch[j + 1..]);
    RunAllPrefix(env, Writes(batch[..j]), batch[j].writes, db);
    RunAllPrefix(env, Writes(batch[..j + 1]), Writes(batch[j + 1..]), db);
  }

  // A serial execution that fails early fails as a whole.
  lemma {:induction false} RunAllPrefix<D>(env: Env<D>, x: seq<Write>, y: seq<Write>, db: D)
    ensures RunAll(env, x + y, db) == match RunAll(env, x, db) case None => None case Some(mid) => RunAll(env, y, mid)
    decreases |y|
  {
    if y == [] {
      assert x + y == x;
    } else {
      RunAllPrefix(env, x, y[..|y| - 1], db);
      assert (x + y)[..|x + y| - 1] == x + y[..|y| - 1];
    }
  }

  // ---------------------------------------------------------------- what a commit does to the data

  // The states the statements lead through, each by what the environment makes of it: a text without
  // parameters is run as a script, a statement with parameters on its own.
  ghost predicate Performs<D>(env: Env<D>, ws: seq<Write>, states: seq<D>) {
    && |states| == |ws| + 1
    && (forall i :: 0 <= i < |ws| ==> PerformsAt(env, ws[i], states[i], states[i + 1]))
  }

  ghost predicate PerformsAt<D>(env: Env<D>, w: Write, before: D, after: D) {
    if w.params == [] then env.script(w.sql, before) == Some(after)
    else env.single(w.sql, w.params, before) == Some(after)
  }

  lemma {:induction false} RunAllPerforms<D>(env: Env<D>, ws: seq<Write>, db: D) returns (states: seq<D>)
    requires RunAll(env, ws, db).Some?
    ensures Performs(env, ws, states) && states[0] == db && states[|ws|] == RunAll(env, ws, db).value
  {
    if ws == [] {
      states := [db];
    } else {
      var n := |ws| - 1;
      var before := RunAllPerforms(env, ws[..n], db);
      states := before + [RunAll(env, ws, db).value];
      assert PerformsAt(env, ws[n], states[n], states[n + 1]);
      forall i | 0 <= i < n
        ensures PerformsAt(env, ws[i], states[i], states[i + 1])
      {
        assert PerformsAt(env, ws[..n][i], before[i], before[i + 1]);
      }
    }
  }

  lemma {:induction false} PerformedIsRun<D>(env: Env<D>, ws: seq<Write>, states: seq<D>)
    requires Performs(env, ws, states)
    ensures RunAll(env, ws, states[0]) == Some(states[|ws|])
  {
    if ws != [] {
      var n := |ws| - 1;
      forall i | 0 <= i < n
        ensures PerformsAt(env, ws[..n][i], states[..n + 1][i], states[..n + 1][i + 1])
      {
        assert PerformsAt(env, ws[i], states[i], states[i + 1]);
      }
      PerformedIsRun(env, ws[..n], states[..n + 1]);
      assert PerformsAt(env, ws[n], states[n], states[n + 1]);
    }
  }

  // The writes of a batch: its jobs' writes, one job after another.
  lemma {:induction false} WritesInOrder(jobs: seq<Job>, j: nat, i: nat)
    requires j < |jobs| && i < |jobs[j].writes|
    ensures |Writes(jobs[..j])| + i < |Writes(jobs)| && Writes(jobs)[|Writes(jobs[..j])| + i] == jobs[j].writes[i]
  {
    var n := |jobs| - 1;
    if j < n {
      WritesInOrder(jobs[..n], j, i);
      assert jobs[..n][..j] == jobs[..j];
    }
  }

  function TotalWrites(jobs: seq<Job>): nat {
    if jobs == [] then 0 else TotalWrites(jobs[..|jobs| - 1]) + |jobs[|jobs| - 1].writes|
  }

  lemma {:induction false} WritesAreAll(jobs: seq<Job>)
    ensures |Writes(jobs)| == TotalWrites(jobs)
  {
    if jobs != [] {
      WritesAreAll(jobs[..|jobs| - 1]);
    }
  }

  // In fair weather a batch commits if and only if its writes can be performed one after another, and
  // what is then committed is where they lead.
  lemma CommitPerforms<D>(env: Env<D>, db: D, batch: seq<Job>, after: D)
    ensures CommitBatch(env, Conn(db, false), batch, FAIR) == (Conn(after, false), true) <==>
            exists states :: Performs(env, Writes(batch), states) && states[0] == db && states[|Writes(batch)|] == after
  {
    if CommitBatch(env, Conn(db, false), batch, FAIR) == (Conn(after, false), true) {
      var states := RunAllPerforms(env, Writes(batch), db);
    }
    forall states | Performs(env, Writes(batch), states) && states[0] == db && states[|Writes(batch)|] == after
      ensures CommitBatch(env, Conn(db, false), batch, FAIR) == (Conn(after, false), true)
    {
      PerformedIsRun(env, Writes(batch), states);
    }
  }

  lemma OneJobsWrites(job: Job)
    ensures Writes([job]) == job.writes
  {
    assert [job][..0] == [];
  }

  // A job of one statement does to the database what the environment says the statement does.
  lemma OneWriteReaches<D>(env: Env<D>, db: D, id: nat, w: Write)
    ensures var did := if w.params == [] then env.script(w.sql, db) else env.single(w.sql, w.params, db);
            CommitBatch(env, Conn(db, false), [Job(id, [w])], FAIR) ==
            if did.Some? then (Conn(did.value, false), true) else (Conn(db, false), false)
  {
    OneJobsWrites(Job(id, [w]));
    assert [w][..0] == [];
    assert RunAll(env, [w], db) == RunWrite(env, w, db);
    assert Calm(FAIR, 0, 1);
  }

  // Two statements, in one job or in two: the second works on what the first left.
  lemma TwoWritesReach<D>(env: Env<D>, db: D, id: nat, sql: string, params: seq<Value>, script: string)
    requires params != [] && env.single(sql, params, db).Some?
    requires env.script(script, env.single(sql, params, db).value).Some?
    ensures var first, second := Write(sql, params), Write(script, []);
            var after := env.script(script, env.single(sql, params, db).value).value;
            && CommitBatch(env, Conn(db, false), [Job(id, [first, second])], FAIR) == (Conn(after, false), true)
            && CommitBatch(env, Conn(db, false), [Job(id, [first]), Job(id + 1, [second])], FAIR) ==
               (Conn(after, false), true)
  {
    var first, second := Write(sql, params), Write(script, []);
    var mid := env.single(sql, params, db).value;
    var after := env.script(script, mid).value;
    OneJobsWrites(Job(id, [first, second]));
    OneJobsWrites(Job(id, [first]));
    assert [Job(id, [first]), Job(id + 1, [second])][..1] == [Job(id, [first])];
    assert [first] + [second] == [first, second];
    assert Writes([Job(id, [first]), Job(id + 1, [second])]) == [first, second];
    assert Performs(env, [first, second], [db, mid, after]);
    PerformedIsRun(env, [first, second], [db, mid, after]);
  }

  // ---------------------------------------------------------------- the writer and its queue

  datatype Phase = Idle | Gathering | Ready | Acking(ok: bool, next: nat) | Stopped

  // `accepted` is every job the queue ever took, `history` every batch with its outcome, `acks`
  // every answer given: all three only grow.
  datatype Sys<D> = Sys(conn: Conn<D>, queue: seq<Job>, batch: seq<Job>, phase: Phase, sending: bool,
                        accepted: seq<Job>, history: seq<(seq<Job>, bool)>, acks: seq<(Job, bool)>)

  datatype Act =
    | Send(job: Job)             // a producer's `write` goes through
    | Drop                       // the store is dropped: no producer can send any more
    | Recv                       // the writer's blocking receive
    | TryRecv                    // one more job joins the batch
    | StopGathering              // the batch is full, or nothing was waiting
    | CommitNow(weather: Weather)
    | Ack                        // the next job of the batch is answered
    | Exit                       // the queue is closed and empty

  // A producer facing a full queue is blocked: sending is simply not possible then.
  predicate Enabled<D>(s: Sys<D>, act: Act) {
    match act
    case Send(_) => s.sending && |s.queue| < QUEUE_DEPTH
    case Drop => true
    case Recv => s.phase.Idle? && s.queue != []
    case TryRecv => s.phase.Gathering? && |s.batch| < MAX_BATCH && s.queue != []
    case StopGathering => s.phase.Gathering? && (|s.batch| >= MAX_BATCH || s.queue == [])
    case CommitNow(_) => s.phase.Ready?
    case Ack => s.phase.Acking? && s.phase.next < |s.batch|
    case Exit => s.phase.Idle? && s.queue == [] && !s.sending
  }

  function Next<D>(env: Env<D>, s: Sys<D>, act: Act): Sys<D>
    requires Enabled(s, act)
  {
    match act
    case Send(job) => s.(queue := s.queue + [job], accepted := s.accepted + [job])
    case Drop => s.(sending := false)
    case Recv => s.(phase := Gathering, batch := [s.queue[0]], queue := s.queue[1..])
    case TryRecv => s.(batch := s.batch + [s.queue[0]], queue := s.queue[1..])
    case StopGathering => s.(phase := Ready)
    case CommitNow(w) =>
      var (conn, ok) := CommitBatch(env, s.conn, s.batch, w);
      s.(conn := conn, phase := Acking(ok, 0), history := s.history + [(s.batch, ok)])
    case Ack =>
      var acks := s.acks + [(s.batch[s.phase.next], s.phase.ok)];
      if s.phase.next + 1 == |s.batch| then s.(acks := acks, phase := Idle, batch := [])
      else s.(acks := acks, phase := s.phase.(next := s.phase.next + 1))
    case Exit => s.(phase := Stopped)
  }

  function Start<D>(db: D): Sys<D> {
    Sys(Conn(db, false), [], [], Idle, true, [], [], [])
  }

  // The jobs of every batch, in order; the jobs of the committed ones; the answers they are due.
  function Processed(history: seq<(seq<Job>, bool)>): seq<Job> {
    if history == [] then [] else Processed(history[..|history| - 1]) + history[|history| - 1].0
  }

  function Committed(history: seq<(seq<Job>, bool)>): seq<Job> {
    if history == [] then []
    else
      var (batch, ok) := history[|history| - 1];
      Committed(history[..|history| - 1]) + if ok then batch else []
  }

  function Answers(batch: seq<Job>, ok: bool): seq<(Job, bool)> {
    seq(|batch|, i requires 0 <= i < |batch| => (batch[i], ok))
  }

  function Due(history: seq<(seq<Job>, bool)>): seq<(Job, bool)> {
    if history == [] then []
    else Due(history[..|history| - 1]) + Answers(history[|history| - 1].0, history[|history| - 1].1)
  }

  ghost predicate Serial<D>(env: Env<D>, init: D, s: Sys<D>) {
    && RunAll(env, Writes(Committed(s.history)), init) == Some(s.conn.db)
    && |s.queue| <= QUEUE_DEPTH && |s.batch| <= MAX_BATCH
    && match s.phase
       case Idle => s.batch == [] && s.accepted == Processed(s.history) + s.queue && s.acks == Due(s.history)
       case Gathering =>
         s.batch != [] && s.accepted == Processed(s.history) + s.batch + s.queue && s.acks == Due(s.history)
       case Ready => s.batch != [] && s.accepted == Processed(s.history) + s.batch + s.queue && s.acks == Due(s.history)
       case Acking(ok, next) =>
         && s.history != [] && s.history[|s.history| - 1] == (s.batch, ok)
         && s.accepted == Processed(s.history) + s.queue && next < |s.batch|
         && s.acks == Due(s.history[..|s.history| - 1]) + Answers(s.batch, ok)[..next]
       case Stopped =>
         s.batch == [] && s.queue == [] && !s.sending && s.accepted == Processed(s.history) && s.acks == Due(s.history)
  }

  lemma {:induction false} WritesConcat(x: seq<Job>, y: seq<Job>)
    ensures Writes(x + y) == Writes(x) + Writes(y)
    decreases |y|
  {
    if y == [] {
      assert x + y == x;
    } else {
      var rest, last := y[..|y| - 1], y[|y| - 1];
      WritesConcat(x, rest);
      WithoutLast(x, y);
      Regroup(Writes(x), Writes(rest), last.writes);
    }
  }

  lemma WithoutLast<T>(x: seq<T>, y: seq<T>)
    requires y != []
    ensures (x + y)[..|x + y| - 1] == x + y[..|y| - 1] && (x + y)[|x + y| - 1] == y[|y| - 1]
  {
  }

  lemma CommitStaysSerial<D>(env: Env<D>, init: D, s: Sys<D>, w: Weather)
    requires Serial(env, init, s) && s.phase.Ready?
    ensures Serial(env, init, Next(env, s, CommitNow(w)))
  {
    var (conn, ok) := CommitBatch(env, s.conn, s.batch, w);
    CommitsExactlyWhen(env, s.conn, s.batch, w);
    OneMoreBatch(env, s.history, s.batch, ok, init, s.conn.db);
    LastBatch(s.history, s.batch, ok);
  }

  lemma LastBatch(history: seq<(seq<Job>, bool)>, batch: seq<Job>, ok: bool)
    ensures var history' := history + [(batch, ok)];
            && history'[|history'| - 1] == (batch, ok) && history'[..|history'| - 1] == history
            && Due(history) + Answers(batch, ok)[..0] == Due(history)
  {
  }

  lemma AckStaysSerial<D>(env: Env<D>, init: D, s: Sys<D>)
    requires Serial(env, init, s) && Enabled(s, Ack)
    ensures Serial(env, init, Next(env, s, Ack))
  {
    var next, earlier := s.phase.next, Due(s.history[..|s.history| - 1]);
    NextAnswer(s.batch, s.phase.ok, next);
    Regroup(earlier, Answers(s.batch, s.phase.ok)[..next], [(s.batch[next], s.phase.ok)]);
  }

  lemma NextAnswer(batch: seq<Job>, ok: bool, next: nat)
    requires next < |batch|
    ensures Answers(batch, ok)[..next + 1] == Answers(batch, ok)[..next] + [(batch[next], ok)]
    ensures next + 1 == |batch| ==> Answers(batch, ok)[..next + 1] == Answers(batch, ok)
  {
  }

  lemma SendStaysSerial<D>(env: Env<D>, init: D, s: Sys<D>, job: Job)
    requires Serial(env, init, s) && Enabled(s, Send(job))
    ensures Serial(env, init, Next(env, s, Send(job)))
  {
    Regroup(Processed(s.history), s.queue, [job]);
    Regroup(Processed(s.history) + s.batch, s.queue, [job]);
  }

  lemma Regroup<T>(a: seq<T>, b: seq<T>, c: seq<T>)
    ensures (a + b) + c == a + (b + c)
  {
  }

  lemma TakeStaysSerial<D>(env: Env<D>, init: D, s: Sys<D>, act: Act)
    requires Serial(env, init, s) && Enabled(s, act) && (act.Recv? || act.TryRecv?)
    ensures Serial(env, init, Next(env, s, act))
  {
    var first, rest := [s.queue[0]], s.queue[1..];
    assert s.queue == first + rest;
    Regroup(Processed(s.history), first, rest);
    Regroup(Processed(s.history) + s.batch, first, rest);
    Regroup(Processed(s.history), s.batch, first);
  }

  lemma StepStaysSerial<D>(env: Env<D>, init: D, s: Sys<D>, act: Act)
    requires Serial(env, init, s) && Enabled(s, act)
    ensures Serial(env, init, Next(env, s, act))
  {
    match act {
      case Send(job) => SendStaysSerial(env, init, s, job);
      case Recv => TakeStaysSerial(env, init, s, act);
      case TryRecv => TakeStaysSerial(env, init, s, act);
      case CommitNow(w) => CommitStaysSerial(env, init, s, w);
      case Ack => AckStaysSerial(env, init, s);
      case Drop =>
      case StopGathering =>
      case Exit =>
    }
  }

  ghost predicate Run<D>(env: Env<D>, states: seq<Sys<D>>, acts: seq<Act>) {
    && |states| == |acts| + 1
    && forall i :: 0 <= i < |acts| ==> StepAt(env, states, acts, i)
  }

  ghost predicate StepAt<D>(env: Env<D>, states: seq<Sys<D>>, acts: seq<Act>, i: nat)
    requires i < |acts| && i + 1 < |states|
  {
    Enabled(states[i], acts[i]) && states[i + 1] == Next(env, states[i], acts[i])
  }

  lemma {:induction false} RunStaysSerial<D>(env: Env<D>, init: D, states: seq<Sys<D>>, acts: seq<Act>, n: nat)
    requires Run(env, states, acts) && states[0] == Start(init) && n < |states|
    ensures forall i :: 0 <= i <= n ==> Serial(env, init, states[i])
    decreases n
  {
    if n > 0 {
      RunStaysSerial(env, init, states, acts, n - 1);
      assert StepAt(env, states, acts, n - 1);
      StepStaysSerial(env, init, states[n - 1], acts[n - 1]);
    } else {
      StartIsSerial(env, init);
    }
  }

  lemma StartIsSerial<D>(env: Env<D>, init: D)
    ensures Serial(env, init, Start(init))
  {
  }

  // In every interleaving of producers and the writer: the database is the result of running, one
  // after another and in the order they were queued, the writes of exactly the jobs whose batches
  // committed, so a job answered with an error has left nothing behind; jobs are processed in the
  // order the queue took them and nothing is lost or repeated; answers follow that order and carry
  // their batch's outcome; the queue is never deeper than its bound.
  lemma SerialEquivalence<D>(env: Env<D>, init: D, states: seq<Sys<D>>, acts: seq<Act>, n: nat)
    requires Run(env, states, acts) && states[0] == Start(init) && n < |states|
    ensures var s := states[n];
            && RunAll(env, Writes(Committed(s.history)), init) == Some(s.conn.db)
            && Processed(s.history) + (if s.phase.Acking? then [] else s.batch) + s.queue == s.accepted
            && s.acks <= Due(s.history)
            && |s.queue| <= QUEUE_DEPTH
            && (s.phase.Stopped? ==> s.queue == [] && Processed(s.history) == s.accepted && s.acks == Due(s.history))
  {
    RunStaysSerial(env, init, states, acts, n);
    var s := states[n];
    if s.phase.Acking? {
      assert Answers(s.batch, s.phase.ok)[..s.phase.next] <= Answers(s.batch, s.phase.ok);
    }
    assert Processed(s.history) + [] == Processed(s.history);
  }

  // Job `i`, counted over all batches, is in batch `b`.
  predicate InBatch(history: seq<(seq<Job>, bool)>, i: nat, b: nat)
    requires b < |history|
  {
    |Processed(history[..b])| <= i < |Processed(history[..b + 1])|
  }

  // Each job's answer is the outcome of the batch it was in, told by position.
  lemma {:induction false} DueAnswers(history: seq<(seq<Job>, bool)>, i: nat) returns (b: nat)
    requires i < |Processed(history)|
    ensures |Due(history)| == |Processed(history)|
    ensures b < |history| && InBatch(history, i, b)
    ensures Processed(history[..b + 1]) == Processed(history[..b]) + history[b].0
    ensures Processed(history)[i] == history[b].0[i - |Processed(history[..b])|]
    ensures Due(history)[i] == (Processed(history)[i], history[b].1)
  {
    b := |history| - 1;
    var before := Processed(history[..b]);
    DueLength(history[..b]);
    assert history[..b + 1] == history && history[..b + 1][..b] == history[..b];
    if i < |before| {
      var n := b;
      b := DueAnswers(history[..n], i);
      assert history[..n][..b] == history[..b] && history[..n][..b + 1] == history[..b + 1];
    }
  }

  lemma {:induction false} BatchesApart(history: seq<(seq<Job>, bool)>, b: nat, c: nat)
    requires b <= c <= |history|
    ensures |Processed(history[..b])| <= |Processed(history[..c])|
    decreases c
  {
    if b < c {
      BatchesApart(history, b, c - 1);
      assert history[..c][..c - 1] == history[..c - 1];
    }
  }

  // There is only one such batch.
  lemma InOneBatch(history: seq<(seq<Job>, bool)>, i: nat, b: nat, c: nat)
    requires b < |history| && c < |history| && InBatch(history, i, b) && InBatch(history, i, c)
    ensures b == c
  {
    if b < c {
      BatchesApart(history, b + 1, c);
    } else if c < b {
      BatchesApart(history, c + 1, b);
    }
  }

  lemma {:induction false} DueLength(history: seq<(seq<Job>, bool)>)
    ensures |Due(history)| == |Processed(history)|
  {
    if history != [] {
      DueLength(history[..|history| - 1]);
    }
  }

  // Exactly when a batch commits, and exactly when it leaves a transaction open: a COMMIT that is
  // refused with the transaction still there, or a ROLLBACK that is refused after a failed statement.
  // Nothing cleans up before the next BEGIN.
  lemma CommitsExactlyWhen<D>(env: Env<D>, c: Conn<D>, batch: seq<Job>, w: Weather)
    ensures var (c', ok) := CommitBatch(env, c, batch, w);
            var succeeds := Calm(w, 0, |Writes(batch)|) && RunAll(env, Writes(batch), c.db).Some?;
            && (ok <==> !c.open && w.begins && succeeds && w.commit.Done?)
            && c'.db == (if ok then RunAll(env, Writes(batch), c.db).value else c.db)
            && (c'.open <==> c.open || (w.begins && if succeeds then w.commit.LeftOpen? else !w.rollsBack))
            && (c.open ==> c' == c)
  {
  }

  // The batches from the `n`th on were all refused.
  ghost predicate RefusedFrom(history: seq<(seq<Job>, bool)>, n: nat) {
    forall b :: n <= b < |history| ==> !history[b].1
  }

  lemma StuckStep<D>(env: Env<D>, s: Sys<D>, act: Act)
    requires Enabled(s, act) && s.conn.open
    ensures var s' := Next(env, s, act);
            && s'.conn == s.conn
            && Committed(s'.history) == Committed(s.history)
            && (s'.history == s.history || exists batch :: s'.history == s.history + [(batch, false)])
  {
    if act.CommitNow? {
      CommitsExactlyWhen(env, s.conn, s.batch, act.weather);
      LastBatch(s.history, s.batch, false);
      assert Committed(s.history) + [] == Committed(s.history);
    }
  }

  // A transaction left open stays: no later batch commits, every later job is refused, and the data
  // stands still.
  lemma {:induction false} LeftOpenStaysStuck<D>(env: Env<D>, states: seq<Sys<D>>, acts: seq<Act>, m: nat, n: nat)
    requires Run(env, states, acts) && m <= n < |states| && states[m].conn.open
    ensures states[n].conn == states[m].conn
    ensures Committed(states[n].history) == Committed(states[m].history)
    ensures states[m].history <= states[n].history && RefusedFrom(states[n].history, |states[m].history|)
    decreases n
  {
    if m < n {
      LeftOpenStaysStuck(env, states, acts, m, n - 1);
      assert StepAt(env, states, acts, n - 1);
      StuckStep(env, states[n - 1], acts[n - 1]);
    }
  }

  const FAIR := Weather(true, {}, Done, true)
  const STORMY := Weather(true, {}, LeftOpen, false)

  // The acts in which one job is sent, received, committed under `w` and answered.
  function OneJob(job: Job, w: Weather): seq<Act> {
    [Send(job), Recv, StopGathering, CommitNow(w), Ack]
  }

  // An idle store with nothing queued, after `OneJob`.
  lemma OneJobRuns<D>(env: Env<D>, s: Sys<D>, job: Job, w: Weather) returns (states: seq<Sys<D>>)
    requires s.phase.Idle? && s.queue == [] && s.batch == [] && s.sending
    ensures Run(env, states, OneJob(job, w)) && states[0] == s
    ensures var (conn, ok) := CommitBatch(env, s.conn, [job], w);
            states[5] == s.(conn := conn, accepted := s.accepted + [job], history := s.history + [([job], ok)],
                            acks := s.acks + [(job, ok)])
  {
    var acts := OneJob(job, w);
    var s1 := Next(env, s, acts[0]);
    var s2 := Next(env, s1, acts[1]);
    var s3 := Next(env, s2, acts[2]);
    var s4 := Next(env, s3, acts[3]);
    var s5 := Next(env, s4, acts[4]);
    states := [s, s1, s2, s3, s4, s5];
  }

  lemma RunsJoin<D>(env: Env<D>, states: seq<Sys<D>>, acts: seq<Act>, states': seq<Sys<D>>, acts': seq<Act>)
    requires Run(env, states, acts) && Run(env, states', acts') && states[|acts|] == states'[0]
    ensures Run(env, states + states'[1..], acts + acts')
  {
    var all, alls := states + states'[1..], acts + acts';
    forall i | 0 <= i < |alls|
      ensures StepAt(env, all, alls, i)
    {
      if i < |acts| {
        assert StepAt(env, states, acts, i);
      } else {
        assert StepAt(env, states', acts', i - |acts|);
        assert all[i] == states'[i - |acts|];
      }
    }
  }

  // From a fresh store, in fair weather: the statement a producer sends is in the database when it is
  // answered.
  lemma SentWriteReaches<D>(env: Env<D>, init: D, id: nat, w: Write) returns (states: seq<Sys<D>>)
    ensures var did := if w.params == [] then env.script(w.sql, init) else env.single(w.sql, w.params, init);
            && Run(env, states, OneJob(Job(id, [w]), FAIR)) && states[0] == Start(init)
            && states[5].acks == [(Job(id, [w]), did.Some?)]
            && states[5].conn == Conn(if did.Some? then did.value else init, false)
  {
    states := OneJobRuns(env, Start(init), Job(id, [w]), FAIR);
    OneWriteReaches(env, init, id, w);
  }

  // The writer is never stuck: unless it has stopped, or waits on an empty queue for producers that
  // may still send, it has a next step whatever the producers do.
  predicate WriterAct(act: Act) {
    !act.Send? && !act.Drop?
  }

  lemma WriterCanMove<D>(env: Env<D>, init: D, s: Sys<D>) returns (act: Act)
    requires Serial(env, init, s) && !s.phase.Stopped? && !(s.phase.Idle? && s.queue == [] && s.sending)
    ensures WriterAct(act) && Enabled(s, act)
  {
    match s.phase {
      case Idle => act := if s.queue != [] then Recv else Exit;
      case Gathering => act := if |s.batch| < MAX_BATCH && s.queue != [] then TryRecv else StopGathering;
      case Ready => act := CommitNow(FAIR);
      case Acking(_, _) => act := Ack;
    }
  }

  // A producer can send exactly while the store is there and the queue has room.
  lemma SendsExactly<D>(s: Sys<D>, job: Job)
    ensures Enabled(s, Send(job)) <==> s.sending && |s.queue| < 16_384
  {
  }

  // How a store gets stuck from its very start, whatever the database and the jobs: the first batch
  // leaves its transaction open, and the next job is accepted and answered with an error although
  // nothing goes wrong any more.
  lemma GetsStuck<D>(env: Env<D>, init: D, first: Job, second: Job) returns (states: seq<Sys<D>>)
    ensures Run(env, states, OneJob(first, STORMY) + OneJob(second, FAIR)) && states[0] == Start(init)
    ensures var s := states[10];
            && s.conn == Conn(init, true) && s.phase.Idle? && s.queue == [] && s.sending
            && s.accepted == [first, second] && s.acks == [(first, false), (second, false)]
  {
    var a := OneJobRuns(env, Start(init), first, STORMY);
    CommitsExactlyWhen(env, Conn(init, false), [first], STORMY);
    var b := OneJobRuns(env, a[5], second, FAIR);
    CommitsExactlyWhen(env, a[5].conn, [second], FAIR);
    states := a + b[1..];
    RunsJoin(env, a, OneJob(first, STORMY), b, OneJob(second, FAIR));
    assert states[10] == b[5];
  }

  // ---------------------------------------------------------------- the writer thread after `Drop`

  // With no producer left, the writer's loop runs until the queue is empty: everything accepted is
  // committed or refused, and answered.
  // The rounds of that loop: each takes as many jobs as a batch may hold and commits them.
  function Rounds<D>(env: Env<D>, c: Conn<D>, queue: seq<Job>, weather: nat -> Weather, n: nat)
    : (r: (seq<(seq<Job>, bool)>, Conn<D>))
    decreases |queue|
  {
    if queue == [] then ([], c)
    else
      var k := Min(MAX_BATCH, |queue|);
      var (next, ok) := CommitBatch(env, c, queue[..k], weather(n));
      var (later, last) := Rounds(env, next, queue[k..], weather, n + 1);
      ([(queue[..k], ok)] + later, last)
  }

  ghost predicate AllCommitted(history: seq<(seq<Job>, bool)>) {
    forall b :: 0 <= b < |history| ==> history[b].1
  }

  ghost predicate AllFair(weather: nat -> Weather) {
    forall n :: weather(n) == FAIR
  }

  // The rounds leave nothing out, and every batch but the last is full.
  lemma {:induction false} RoundsTakeAll<D>(env: Env<D>, c: Conn<D>, queue: seq<Job>, weather: nat -> Weather, n: nat)
    ensures var history := Rounds(env, c, queue, weather, n).0;
            && Processed(history) == queue && |history| == (|queue| + MAX_BATCH - 1) / MAX_BATCH
            && forall b :: 0 <= b < |history| ==> HasSize(history, b, |queue|)
    decreases |queue|
  {
    if queue != [] {
      var k := Min(MAX_BATCH, |queue|);
      var (next, ok) := CommitBatch(env, c, queue[..k], weather(n));
      RoundsTakeAll(env, next, queue[k..], weather, n + 1);
      var later := Rounds(env, next, queue[k..], weather, n + 1).0;
      ProcessedFirst((queue[..k], ok), later);
      assert queue[..k] + queue[k..] == queue;
      SizesOneMore((queue[..k], ok), later, |queue|, |queue| - k);
    }
  }

  // Batch `b` of a queue of `total` jobs takes as many as a batch may hold, or what is left.
  predicate HasSize(history: seq<(seq<Job>, bool)>, b: nat, total: nat)
    requires b < |history|
  {
    |history[b].0| == Min(MAX_BATCH, total - b * MAX_BATCH)
  }

  lemma SizesOneMore(first: (seq<Job>, bool), later: seq<(seq<Job>, bool)>, total: nat, rest: nat)
    requires 0 < total == |first.0| + rest && |first.0| == Min(MAX_BATCH, total)
    requires |later| == (rest + MAX_BATCH - 1) / MAX_BATCH
    requires forall b :: 0 <= b < |later| ==> HasSize(later, b, rest)
    ensures |[first] + later| == (total + MAX_BATCH - 1) / MAX_BATCH
    ensures forall b :: 0 <= b < |[first] + later| ==> HasSize([first] + later, b, total)
  {
    forall b | 0 < b <= |later|
      ensures HasSize([first] + later, b, total)
    {
      assert HasSize(later, b - 1, rest);
    }
  }

  lemma {:induction false} ProcessedFirst(first: (seq<Job>, bool), later: seq<(seq<Job>, bool)>)
    ensures Processed([first] + later) == first.0 + Processed(later)
  {
    if later == [] {
      assert ([first] + later)[..0] == [];
    } else {
      var n := |later| - 1;
      ProcessedFirst(first, later[..n]);
      assert ([first] + later)[..n + 1] == [first] + later[..n];
      Regroup(first.0, Processed(later[..n]), later[n].0);
    }
  }

  // In fair weather every batch commits, and every job is answered Ok, exactly when the environment
  // can perform all the writes in the order they were queued; the database is then what they make of it.
  lemma {:induction false} FairRounds<D>(env: Env<D>, db: D, queue: seq<Job>, weather: nat -> Weather, n: nat)
    requires AllFair(weather)
    ensures var (history, last) := Rounds(env, Conn(db, false), queue, weather, n);
            && !last.open
            && (AllCommitted(history) <==> RunAll(env, Writes(queue), db).Some?)
            && (RunAll(env, Writes(queue), db).Some? ==> RunAll(env, Writes(queue), db) == Some(last.db))
    decreases |queue|
  {
    if queue != [] {
      var k := Min(MAX_BATCH, |queue|);
      var (batch, rest) := (queue[..k], queue[k..]);
      var (next, ok) := CommitBatch(env, Conn(db, false), batch, weather(n));
      CommitsExactlyWhen(env, Conn(db, false), batch, weather(n));
      assert Calm(FAIR, 0, |Writes(batch)|);
      FairRounds(env, next.db, rest, weather, n + 1);
      assert batch + rest == queue;
      WritesConcat(batch, rest);
      RunAllPrefix(env, Writes(batch), Writes(rest), db);
      var (later, last) := Rounds(env, next, rest, weather, n + 1);
      FirstAndRest((batch, ok), later);
    }
  }

  function Successes(history: seq<(seq<Job>, bool)>): nat {
    if history == [] then 0
    else Successes(history[..|history| - 1]) + if history[|history| - 1].1 then 1 else 0
  }

  // What has been done so far and what is ahead make up the whole.
  ghost predicate RoundsAhead<D>(whole: (seq<(seq<Job>, bool)>, Conn<D>), done: seq<(seq<Job>, bool)>,
                                 ahead: (seq<(seq<Job>, bool)>, Conn<D>))
  {
    whole == (done + ahead.0, ahead.1)
  }

  lemma OneRound<D>(env: Env<D>, c: Conn<D>, queue: seq<Job>, batch: seq<Job>, rest: seq<Job>,
                    weather: nat -> Weather, n: nat, whole: (seq<(seq<Job>, bool)>, Conn<D>),
                    done: seq<(seq<Job>, bool)>)
    requires queue == batch + rest && 0 < |batch| <= MAX_BATCH && (|batch| < MAX_BATCH ==> rest == [])
    requires RoundsAhead(whole, done, Rounds(env, c, queue, weather, n))
    ensures var (next, ok) := CommitBatch(env, c, batch, weather(n));
            && RoundsAhead(whole, done + [(batch, ok)], Rounds(env, next, rest, weather, n + 1))
            && Successes(done + [(batch, ok)]) == Successes(done) + if ok then 1 else 0
  {
    var k := Min(MAX_BATCH, |queue|);
    assert queue[..k] == batch && queue[k..] == rest;
    var (next, ok) := CommitBatch(env, c, batch, weather(n));
    var (later, _) := Rounds(env, next, rest, weather, n + 1);
    assert done + ([(batch, ok)] + later) == done + [(batch, ok)] + later;
    assert (done + [(batch, ok)])[..|done|] == done;
  }

  lemma FirstAndRest(first: (seq<Job>, bool), later: seq<(seq<Job>, bool)>)
    ensures AllCommitted([first] + later) <==> first.1 && AllCommitted(later)
  {
    var all := [first] + later;
    assert all[0] == first && forall b :: 0 <= b < |later| ==> later[b] == all[b + 1];
  }

  class Writer<D> {
    const connection: Connection<D>
    var queue: seq<Job>
    var acks: seq<(Job, bool)>
    var rows: nat
    var batches: nat

    constructor (db: D, queue: seq<Job>)
      ensures connection.View() == Conn(db, false) && this.queue == queue && acks == [] && rows == 0 && batches == 0
      ensures fresh(connection)
    {
      connection := new Connection(db);
      this.queue, acks, rows, batches := queue, [], 0, 0;
    }

    // One job, and whatever else is already waiting.
    method Gather() returns (batch: seq<Job>)
      requires queue != []
      modifies this`queue
      ensures batch + queue == old(queue) && 0 < |batch| <= MAX_BATCH
      ensures |batch| < MAX_BATCH ==> queue == []
    {
      batch, queue := [queue[0]], queue[1..];
      while |batch| < MAX_BATCH && queue != []
        invariant batch + queue == old(queue) && 0 < |batch| <= MAX_BATCH
        decreases |queue|
      {
        assert queue == [queue[0]] + queue[1..];
        batch, queue := batch + [queue[0]], queue[1..];
      }
    }

    method Answer(batch: seq<Job>, ok: bool)
      modifies this`acks
      ensures acks == old(acks) + Answers(batch, ok)
    {
      for j := 0 to |batch|
        invariant acks == old(acks) + Answers(batch, ok)[..j]
      {
        assert Answers(batch, ok)[..j + 1] == Answers(batch, ok)[..j] + [(batch[j], ok)];
        acks := acks + [(batch[j], ok)];
      }
      assert Answers(batch, ok)[..|batch|] == Answers(batch, ok);
    }

    // One round of the loop: gather, commit, answer, count.
    method Turn(env: Env<D>, w: Weather) returns (batch: seq<Job>, ok: bool)
      requires queue != []
      modifies this, connection
      ensures batch + queue == old(queue) && 0 < |batch| <= MAX_BATCH && (|batch| < MAX_BATCH ==> queue == [])
      ensures (connection.View(), ok) == CommitBatch(env, old(connection.View()), batch, w)
      ensures acks == old(acks) + Answers(batch, ok)
      ensures rows == old(rows) + (if ok then |Writes(batch)| else 0)
      ensures batches == old(batches) + (if ok then 1 else 0)
    {
      batch := Gather();
      ok := connection.CommitJobs(env, batch, w);
      var n := CountRows(batch);
      Answer(batch, ok);
      if ok {
        rows := rows + n;
        batches := batches + 1;
      }
    }

    method Drain(env: Env<D>, weather: nat -> Weather) returns (ghost history: seq<(seq<Job>, bool)>)
      modifies this, connection
      ensures queue == []
      ensures Processed(history) == old(queue)
      ensures acks == old(acks) + Due(history)
      ensures RunAll(env, Writes(Committed(history)), old(connection.db)) == Some(connection.db)
      ensures rows == old(rows) + |Writes(Committed(history))|
      ensures batches == old(batches) + Successes(history)
      ensures BatchesFit(history)
      ensures (history, connection.View()) == Rounds(env, old(connection.View()), old(queue), weather, 0)
    {
      history := [];
      var turn := 0;
      ghost var init := connection.db;
      ghost var whole := Rounds(env, connection.View(), queue, weather, 0);
      assert history + whole.0 == whole.0;
      while queue != []
        invariant Processed(history) + queue == old(queue)
        invariant acks == old(acks) + Due(history)
        invariant RunAll(env, Writes(Committed(history)), init) == Some(connection.db)
        invariant rows == old(rows) + |Writes(Committed(history))|
        invariant batches == old(batches) + Successes(history)
        invariant BatchesFit(history)
        invariant RoundsAhead(whole, history, Rounds(env, connection.View(), queue, weather, turn))
        decreases |queue|
      {
        ghost var before, waiting := connection.View(), queue;
        var batch, ok := Turn(env, weather(turn));
        OneRound(env, before, waiting, batch, queue, weather, turn, whole, history);
        TurnDrains(env, init, before, batch, connection.View(), ok, weather(turn), history, queue, old(acks));
        turn := turn + 1;
        history := history + [(batch, ok)];
      }
      assert history + [] == history;
    }
  }

  ghost predicate BatchesFit(history: seq<(seq<Job>, bool)>) {
    forall b :: 0 <= b < |history| ==> BatchFits(history[b].0)
  }

  predicate BatchFits(batch: seq<Job>) { 0 < |batch| <= MAX_BATCH }

  lemma OneMoreFits(history: seq<(seq<Job>, bool)>, batch: seq<Job>, ok: bool)
    requires BatchesFit(history) && BatchFits(batch)
    ensures BatchesFit(history + [(batch, ok)])
  {
  }

  lemma LengthOfSum(x: seq<Write>, y: seq<Write>)
    ensures |x + y| == |x| + |y|
  {
  }

  // What one turn of the loop adds to its invariants.
  lemma TurnDrains<D>(env: Env<D>, init: D, before: Conn<D>, batch: seq<Job>, after: Conn<D>, ok: bool, w: Weather,
                      history: seq<(seq<Job>, bool)>, queue: seq<Job>, acks: seq<(Job, bool)>)
    requires (after, ok) == CommitBatch(env, before, batch, w) && BatchFits(batch) && BatchesFit(history)
    requires RunAll(env, Writes(Committed(history)), init) == Some(before.db)
    ensures var history' := history + [(batch, ok)];
            && Processed(history') + queue == Processed(history) + (batch + queue)
            && acks + Due(history') == (acks + Due(history)) + Answers(batch, ok)
            && RunAll(env, Writes(Committed(history')), init) == Some(after.db)
            && |Writes(Committed(history'))| == |Writes(Committed(history))| + (if ok then |Writes(batch)| else 0)
            && BatchesFit(history')
  {
    CommitsExactlyWhen(env, before, batch, w);
    OneMoreBatch(env, history, batch, ok, init, before.db);
    Regroup(Processed(history), batch, queue);
    Regroup(acks, Due(history), Answers(batch, ok));
    LengthOfSum(Writes(Committed(history)), if ok then Writes(batch) else []);
    OneMoreFits(history, batch, ok);
  }

  lemma OneMoreBatch<D>(env: Env<D>, history: seq<(seq<Job>, bool)>, batch: seq<Job>, ok: bool, init: D, db: D)
    requires RunAll(env, Writes(Committed(history)), init) == Some(db)
    ensures var history' := history + [(batch, ok)];
            && Processed(history') == Processed(history) + batch
            && Due(history') == Due(history) + Answers(batch, ok)
            && Writes(Committed(history')) == Writes(Committed(history)) + (if ok then Writes(batch) else [])
            && RunAll(env, Writes(Committed(history')), init) == if ok then RunAll(env, Writes(batch), db) else Some(db)
  {
    assert (history + [(batch, ok)])[..|history|] == history;
    WritesConcat(Committed(history), batch);
    RunAllPrefix(env, Writes(Committed(history)), Writes(batch), init);
    assert Committed(history) + [] == Committed(history);
  }

  method CountRows(batch: seq<Job>) returns (n: nat)
    ensures n == |Writes(batch)|
  {
    n := 0;
    for j := 0 to |batch|
      invariant n == |Writes(batch[..j])|
    {
      assert batch[..j + 1][..j] == batch[..j];
      n := n + |batch[j].writes|;
    }
    assert batch[..|batch|] == batch;
  }
}
