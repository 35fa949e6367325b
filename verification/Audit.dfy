/**
 * Lighthouse audits: the guarded updates of their rows (internal/db/lighthouse.go) and the consumer that drives
 * them from the job's lighthouse stream (cmd/analysis/main.go).
 */
module Audit {
  import opened Text
  import opened Keys
  import opened Redis
  import opened Messages
  import opened Scheduler

  datatype Status = Pending | Running | Succeeded | Failed | SkippedQuota

  predicate Terminal(s: Status) {
    s.Succeeded? || s.Failed? || s.SkippedQuota?
  }

  /** A missing metric differs from a measured zero. */
  datatype Metrics = Metrics(
    performanceScore: Option<int>, lcpMs: Option<int>, cls: Option<real>, inpMs: Option<int>, tbtMs: Option<int>,
    fcpMs: Option<int>, speedIndexMs: Option<int>, ttfbMs: Option<int>, totalByteWeight: Option<int>, reportKey: Option<string>)

  const NOT_MEASURED := Metrics(None, None, None, None, None, None, None, None, None, None)

  datatype RunRow = RunRow(
    status: Status, sourceTaskId: Option<string>, startedAt: Option<int>, completedAt: Option<int>,
    metrics: Metrics, errorMessage: Option<string>, durationMs: Option<int>)

  type Runs = map<Int64, RunRow>

  /** NULLIF(s, ''). */
  function NullIfEmpty(s: string): Option<string> {
    if s == "" then None else Some(s)
  }

  function Inserted(sourceTaskId: string): RunRow {
    RunRow(Pending, NullIfEmpty(sourceTaskId), None, None, NOT_MEASURED, None, None)
  }

  // ---------- the guarded updates ----------

  predicate Has(runs: Runs, id: Int64, s: Status) {
    id in runs && runs[id].status == s
  }

  predicate Movable(runs: Runs, id: Int64) {
    Has(runs, id, Pending) || Has(runs, id, Running)
  }

  /** Nothing is left to do for the run. */
  predicate Settled(runs: Runs, id: Int64) {
    id in runs ==> Terminal(runs[id].status)
  }

  function Marked(runs: Runs, id: Int64, now: int): Runs {
    if Movable(runs, id) then runs[id := runs[id].(status := Running, startedAt := Some(now))] else runs
  }

  datatype Result = Score(metrics: Metrics, durationMs: int) | Failure(message: string, durationMs: int)

  /** An empty report key is stored as none. */
  function Recorded(m: Metrics): Metrics {
    if m.reportKey.Some? then m.(reportKey := NullIfEmpty(m.reportKey.value)) else m
  }

  function Final(row: RunRow, result: Result, now: int): RunRow {
    match result
    case Score(m, duration) => row.(status := Succeeded, metrics := Recorded(m), durationMs := Some(duration), completedAt := Some(now))
    case Failure(message, duration) => row.(status := Failed, errorMessage := NullIfEmpty(message), durationMs := Some(duration), completedAt := Some(now))
  }

  function Written(runs: Runs, id: Int64, result: Result, now: int): Runs {
    if Has(runs, id, Running) then runs[id := Final(runs[id], result, now)] else runs
  }

  function Skipped(runs: Runs, id: Int64, now: int): Runs {
    if Has(runs, id, Pending) then runs[id := runs[id].(status := SkippedQuota, completedAt := Some(now))] else runs
  }

  /** The row is there with that status. */
  ghost predicate WasAt(runs: Runs, id: Int64, status: Status) {
    id in runs && runs[id].status == status
  }

  /** Only that row changed, and to this. */
  ghost predicate RowBecomes(before: Runs, id: Int64, row: RunRow, after: Runs) {
    after.Keys == before.Keys + {id} && after[id] == row && forall other :: other in before && other != id ==> after[other] == before[other]
  }

  datatype MarkReply = Moved(sourceTaskId: string) | NotMoved | MarkError
  datatype WriteReply = Done | NotFound | WriteError

  class RunTable {
    var runs: Runs

    constructor ()
      ensures runs == map[]
    {
      runs := map[];
    }

    method MarkLighthouseRunRunning(id: Int64, now: int, exec: Exec) returns (r: MarkReply)
      modifies this
      ensures runs == if exec.NotApplied? then old(runs) else Marked(old(runs), id, now)
      ensures r.MarkError? <==> !exec.Applied?
      ensures r.NotMoved? ==> Settled(runs, id)
      ensures r.Moved? ==> Has(runs, id, Running)
      ensures var was := old(runs);
        if !exec.NotApplied? && (WasAt(was, id, Pending) || WasAt(was, id, Running))
        then RowBecomes(was, id, was[id].(status := Running, startedAt := Some(now)), runs)
        else runs == was
    {
      if exec.NotApplied? {
        return MarkError;
      }
      var moved := id in runs && (runs[id].status.Pending? || runs[id].status.Running?);
      if moved {
        runs := runs[id := runs[id].(status := Running, startedAt := Some(now))];
      }
      if exec.AppliedUnseen? {
        return MarkError;
      }
      r := if !moved then NotMoved else Moved(if runs[id].sourceTaskId.Some? then runs[id].sourceTaskId.value else "");
    }

    method CompleteLighthouseRun(id: Int64, m: Metrics, durationMs: int, now: int, exec: Exec) returns (r: WriteReply)
      modifies this
      ensures runs == if exec.NotApplied? then old(runs) else Written(old(runs), id, Score(m, durationMs), now)
      ensures r == if !exec.Applied? then WriteError else if Has(old(runs), id, Running) then Done else NotFound
      ensures r.Done? ==> Settled(runs, id)
      ensures var was := old(runs);
        if !exec.NotApplied? && WasAt(was, id, Running)
        then RowBecomes(was, id, was[id].(status := Succeeded, metrics := m.(reportKey := if m.reportKey == Some("") then None else m.reportKey),
                                          durationMs := Some(durationMs), completedAt := Some(now)), runs)
        else runs == was
    {
      if exec.NotApplied? {
        return WriteError;
      }
      var rows := 0;
      if id in runs && runs[id].status.Running? {
        runs := runs[id := runs[id].(status := Succeeded, metrics := Recorded(m), durationMs := Some(durationMs), completedAt := Some(now))];
        rows := 1;
      }
      r := if exec.AppliedUnseen? then WriteError else if rows == 0 then NotFound else Done;
    }

    method FailLighthouseRun(id: Int64, message: string, durationMs: int, now: int, exec: Exec) returns (r: WriteReply)
      modifies this
      ensures runs == if exec.NotApplied? then old(runs) else Written(old(runs), id, Failure(message, durationMs), now)
      ensures r == if !exec.Applied? then WriteError else if Has(old(runs), id, Running) then Done else NotFound
      ensures r.Done? ==> Settled(runs, id)
      ensures var was := old(runs);
        if !exec.NotApplied? && WasAt(was, id, Running)
        then RowBecomes(was, id, was[id].(status := Failed, errorMessage := (if message == "" then None else Some(message)),
                                          durationMs := Some(durationMs), completedAt := Some(now)), runs)
        else runs == was
    {
      if exec.NotApplied? {
        return WriteError;
      }
      var rows := 0;
      if id in runs && runs[id].status.Running? {
        runs := runs[id := runs[id].(status := Failed, errorMessage := NullIfEmpty(message), durationMs := Some(durationMs),
                                     completedAt := Some(now))];
        rows := 1;
      }
      r := if exec.AppliedUnseen? then WriteError else if rows == 0 then NotFound else Done;
    }

    method MarkLighthouseRunSkippedQuota(id: Int64, now: int, exec: Exec) returns (r: WriteReply)
      modifies this
      ensures runs == if exec.NotApplied? then old(runs) else Skipped(old(runs), id, now)
      ensures r == if !exec.Applied? then WriteError else if Has(old(runs), id, Pending) then Done else NotFound
      ensures var was := old(runs);
        if !exec.NotApplied? && WasAt(was, id, Pending)
        then RowBecomes(was, id, was[id].(status := SkippedQuota, completedAt := Some(now)), runs)
        else runs == was
    {
      if exec.NotApplied? {
        return WriteError;
      }
      var rows := 0;
      if id in runs && runs[id].status.Pending? {
        runs := runs[id := runs[id].(status := SkippedQuota, completedAt := Some(now))];
        rows := 1;
      }
      r := if exec.AppliedUnseen? then WriteError else if rows == 0 then NotFound else Done;
    }
  }

  // ---------- the consumer ----------

  /** How the audit itself ends: shed for lack of memory, cancelled by a shutdown, or with something to record. */
  datatype Outcome = Shed | Cancelled | Ended(result: Result)

  /** What the world does to one message: meanwhile is the table as other consumers leave it during the audit. */
  datatype World = World(markExec: Exec, markedAt: int, outcome: Outcome, meanwhile: Runs, writeExec: Exec, writtenAt: int, ackFails: bool)

  /** The table after one message is processed, and whether the consumer asks Redis to acknowledge it. */
  function Processed(runs: Runs, id: Int64, w: World): (Runs, bool) {
    if w.markExec.NotApplied? then (runs, false)
    else
      var marked := Marked(runs, id, w.markedAt);
      if w.markExec.AppliedUnseen? then (marked, false)
      else if !Movable(runs, id) then (marked, true)
      else if !w.outcome.Ended? then (w.meanwhile, false)
      else if w.writeExec.NotApplied? then (w.meanwhile, false)
      else (Written(w.meanwhile, id, w.outcome.result, w.writtenAt), w.writeExec.Applied? && Has(w.meanwhile, id, Running))
  }

  class AuditConsumer {
    const rdb: Server
    const table: RunTable

    constructor (rdb: Server, table: RunTable)
      ensures this.rdb == rdb && this.table == table
    {
      this.rdb, this.table := rdb, table;
    }

    method ProcessOne(id: Int64, key: string, message: nat, w: World) returns (ghost acks: bool)
      modifies rdb, table
      ensures (table.runs, acks) == Processed(old(table.runs), id, w)
      ensures rdb.db == if acks && !w.ackFails then old(rdb.db).XAck(key, message) else old(rdb.db)
      ensures acks ==> Settled(table.runs, id)
    {
      acks := false;
      var mark := table.MarkLighthouseRunRunning(id, w.markedAt, w.markExec);
      if mark.MarkError? {
        return;
      }
      if mark.NotMoved? {
        acks := true;
        if !w.ackFails {
          rdb.db := rdb.db.XAck(key, message);
        }
        return;
      }
      table.runs := w.meanwhile;
      if !w.outcome.Ended? {
        return;
      }
      var reply;
      match w.outcome.result {
        case Failure(text, duration) => reply := table.FailLighthouseRun(id, text, duration, w.writtenAt, w.writeExec);
        case Score(m, duration) => reply := table.CompleteLighthouseRun(id, m, duration, w.writtenAt, w.writeExec);
      }
      if !reply.Done? {
        return;
      }
      acks := true;
      if !w.ackFails {
        rdb.db := rdb.db.XAck(key, message);
      }
    }

    /**
     * Malformed messages are acknowledged at once; each other one starts a worker, in order, until the context
     * is cancelled while the consumer waits for a free slot.
     */
    method DispatchMessages(key: string, messages: seq<(nat, Fields)>, cancelledAt: nat) returns (started: seq<(nat, Int64)>)
      modifies rdb
      ensures started == Started(messages, cancelledAt)
      ensures rdb.db == DroppedUpTo(old(rdb.db), key, messages, cancelledAt)
      ensures forall r: nat :: Reaches(messages, cancelledAt, r) ==>
        started == Readable(messages[..r]) && DroppedExactly(old(rdb.db), key, messages[..r], rdb.db)
    {
      forall r: nat | Reaches(messages, cancelledAt, r)
        ensures Started(messages, cancelledAt) == Readable(messages[..r])
        ensures DroppedExactly(rdb.db, key, messages[..r], DroppedUpTo(rdb.db, key, messages, cancelledAt))
      {
        ReachedOnly(rdb.db, key, messages, cancelledAt, r);
      }
      started := [];
      var i := 0;
      while i < |messages|
        invariant i <= |messages| && |started| <= cancelledAt
        invariant Dispatching(old(rdb.db), rdb.db, key, messages, cancelledAt, i, started)
      {
        var runId := ParseAuditRunId(messages[i].1);
        if runId.None? {
          DispatchingDrop(old(rdb.db), rdb.db, key, messages, cancelledAt, i, started);
          rdb.db := rdb.db.XAck(key, messages[i].0);
        } else if |started| == cancelledAt {
          DispatchingStop(old(rdb.db), rdb.db, key, messages, cancelledAt, i, started);
          return;
        } else {
          DispatchingStart(old(rdb.db), rdb.db, key, messages, cancelledAt, i, started);
          started := started + [(messages[i].0, runId.value)];
        }
        i := i + 1;
      }
    }
  }

  /** What is still to come, from message i on, completes what the whole call does. */
  ghost predicate Dispatching(before: Store, db: Store, key: string, messages: seq<(nat, Fields)>, n: nat, i: nat, started: seq<(nat, Int64)>)
    requires i <= |messages| && |started| <= n
  {
    Started(messages, n) == started + Started(messages[i..], n - |started|) &&
    DroppedUpTo(before, key, messages, n) == DroppedUpTo(db, key, messages[i..], n - |started|)
  }

  lemma DispatchingDrop(before: Store, db: Store, key: string, messages: seq<(nat, Fields)>, n: nat, i: nat, started: seq<(nat, Int64)>)
    requires i < |messages| && |started| <= n && Dispatching(before, db, key, messages, n, i, started)
    requires ParseAuditRunId(messages[i].1).None?
    ensures Dispatching(before, db.XAck(key, messages[i].0), key, messages, n, i + 1, started)
  {
    assert messages[i..][1..] == messages[i + 1..] && messages[i..][0] == messages[i];
    FirstOfRest(db, key, messages[i..], n - |started|, started);
  }

  lemma DispatchingStop(before: Store, db: Store, key: string, messages: seq<(nat, Fields)>, n: nat, i: nat, started: seq<(nat, Int64)>)
    requires i < |messages| && |started| == n && Dispatching(before, db, key, messages, n, i, started)
    requires ParseAuditRunId(messages[i].1).Some?
    ensures Started(messages, n) == started && DroppedUpTo(before, key, messages, n) == db
  {
    FirstOfRest(db, key, messages[i..], 0, started);
  }

  lemma DispatchingStart(before: Store, db: Store, key: string, messages: seq<(nat, Fields)>, n: nat, i: nat, started: seq<(nat, Int64)>)
    requires i < |messages| && |started| < n && Dispatching(before, db, key, messages, n, i, started)
    requires ParseAuditRunId(messages[i].1).Some?
    ensures Dispatching(before, db, key, messages, n, i + 1, started + [(messages[i].0, ParseAuditRunId(messages[i].1).value)])
  {
    assert messages[i..][1..] == messages[i + 1..] && messages[i..][0] == messages[i];
    FirstOfRest(db, key, messages[i..], n - |started|, started);
  }

  lemma FirstOfRest(db: Store, key: string, messages: seq<(nat, Fields)>, n: nat, started: seq<(nat, Int64)>)
    requires messages != []
    ensures var runId := ParseAuditRunId(messages[0].1);
      if runId.None? then
        Started(messages, n) == Started(messages[1..], n) &&
        DroppedUpTo(db, key, messages, n) == DroppedUpTo(db.XAck(key, messages[0].0), key, messages[1..], n)
      else if n == 0 then started + Started(messages, n) == started && DroppedUpTo(db, key, messages, n) == db
      else
        started + Started(messages, n) == started + [(messages[0].0, runId.value)] + Started(messages[1..], n - 1) &&
        DroppedUpTo(db, key, messages, n) == DroppedUpTo(db, key, messages[1..], n - 1)
  {
    if ParseAuditRunId(messages[0].1).Some? && n > 0 {
      StartsOne(messages, n, started);
    }
  }

  lemma StartsOne(messages: seq<(nat, Fields)>, n: nat, started: seq<(nat, Int64)>)
    requires messages != [] && n > 0 && ParseAuditRunId(messages[0].1).Some?
    ensures started + Started(messages, n) == started + [(messages[0].0, ParseAuditRunId(messages[0].1).value)] + Started(messages[1..], n - 1)
  {
  }

  /** The messages that get a worker when the context is cancelled with n slots handed out. */
  function Started(messages: seq<(nat, Fields)>, n: nat): seq<(nat, Int64)>
    decreases |messages|
  {
    if messages == [] then []
    else if ParseAuditRunId(messages[0].1).None? then Started(messages[1..], n)
    else if n == 0 then []
    else [(messages[0].0, ParseAuditRunId(messages[0].1).value)] + Started(messages[1..], n - 1)
  }

  function DroppedUpTo(db: Store, key: string, messages: seq<(nat, Fields)>, n: nat): Store
    decreases |messages|
  {
    if messages == [] then db
    else if ParseAuditRunId(messages[0].1).None? then DroppedUpTo(db.XAck(key, messages[0].0), key, messages[1..], n)
    else if n == 0 then db
    else DroppedUpTo(db, key, messages[1..], n - 1)
  }

  // ---------- what those two amount to ----------

  /** The readable messages, with their run ids. */
  function Readable(messages: seq<(nat, Fields)>): seq<(nat, Int64)>
    decreases |messages|
  {
    if messages == [] then []
    else
      var rest := Readable(messages[1..]);
      var run := ParseAuditRunId(messages[0].1);
      if run.Some? then [(messages[0].0, run.value)] + rest else rest
  }

  /** The first r messages are reached: all of them, or those before the readable one that finds n slots handed out. */
  ghost predicate Reaches(messages: seq<(nat, Fields)>, n: nat, r: nat) {
    r <= |messages| && |Readable(messages[..r])| <= n &&
    (r < |messages| ==> ParseAuditRunId(messages[r].1).Some? && |Readable(messages[..r])| == n)
  }

  ghost predicate NamesMalformed(messages: seq<(nat, Fields)>, id: nat) {
    exists m :: m in messages && m.0 == id && ParseAuditRunId(m.1).None?
  }

  /** The malformed ones among the messages are acknowledged, and nothing else is. */
  ghost predicate DroppedExactly(before: Store, key: string, messages: seq<(nat, Fields)>, after: Store) {
    after.zsets == before.zsets && (forall k :: k != key ==> after.StreamAt(k) == before.StreamAt(k)) &&
    after.StreamAt(key).entries == before.StreamAt(key).entries &&
    forall e :: e in after.StreamAt(key).pel <==> e in before.StreamAt(key).pel && !NamesMalformed(messages, e.id)
  }

  /** Some number of messages is reached. */
  lemma {:induction false} SomeReached(messages: seq<(nat, Fields)>, n: nat) returns (r: nat)
    ensures Reaches(messages, n, r)
    decreases |messages|
  {
    if messages == [] || (ParseAuditRunId(messages[0].1).Some? && n == 0) {
      r := 0;
      assert messages[..0] == [];
    } else {
      var readable := ParseAuditRunId(messages[0].1).Some?;
      var k := SomeReached(messages[1..], if readable then n - 1 else n);
      r := k + 1;
      assert messages[..r][1..] == messages[1..][..k];
    }
  }

  /** The started workers are the readable messages among those reached, and the dropped ones the malformed ones. */
  lemma ReachedOnly(db: Store, key: string, messages: seq<(nat, Fields)>, n: nat, r: nat)
    requires Reaches(messages, n, r)
    ensures Started(messages, n) == Readable(messages[..r])
    ensures DroppedExactly(db, key, messages[..r], DroppedUpTo(db, key, messages, n))
  {
    ReachedStarts(messages, n, r);
    ReachedDrops(db, key, messages, n, r);
  }

  lemma ReachesRest(messages: seq<(nat, Fields)>, n: nat, r: nat)
    requires Reaches(messages, n, r) && r > 0
    ensures messages[..r][1..] == messages[1..][..r - 1]
    ensures if ParseAuditRunId(messages[0].1).None? then Reaches(messages[1..], n, r - 1) else n > 0 && Reaches(messages[1..], n - 1, r - 1)
  {
    assert messages[..r][1..] == messages[1..][..r - 1];
  }

  lemma {:induction false} ReachedStarts(messages: seq<(nat, Fields)>, n: nat, r: nat)
    requires Reaches(messages, n, r)
    ensures Started(messages, n) == Readable(messages[..r])
    decreases |messages|
  {
    if r > 0 {
      ReachesRest(messages, n, r);
      ReachedStarts(messages[1..], if ParseAuditRunId(messages[0].1).None? then n else n - 1, r - 1);
    }
  }

  lemma {:induction false} ReachedDrops(db: Store, key: string, messages: seq<(nat, Fields)>, n: nat, r: nat)
    requires Reaches(messages, n, r)
    ensures DroppedExactly(db, key, messages[..r], DroppedUpTo(db, key, messages, n))
    decreases |messages|
  {
    if r > 0 {
      ReachesRest(messages, n, r);
      var first, rest := messages[0], messages[1..];
      if ParseAuditRunId(first.1).None? {
        ReachedDrops(db.XAck(key, first.0), key, rest, n, r - 1);
        DropFirst(db, key, messages[..r], DroppedUpTo(db, key, messages, n));
      } else {
        ReachedDrops(db, key, rest, n - 1, r - 1);
        KeepFirst(db, key, messages[..r], DroppedUpTo(db, key, messages, n));
      }
    }
  }

  lemma DropFirst(db: Store, key: string, messages: seq<(nat, Fields)>, after: Store)
    requires messages != [] && ParseAuditRunId(messages[0].1).None?
    requires DroppedExactly(db.XAck(key, messages[0].0), key, messages[1..], after)
    ensures DroppedExactly(db, key, messages, after)
  {
    MalformedCons(messages);
  }

  lemma KeepFirst(db: Store, key: string, messages: seq<(nat, Fields)>, after: Store)
    requires messages != [] && ParseAuditRunId(messages[0].1).Some?
    requires DroppedExactly(db, key, messages[1..], after)
    ensures DroppedExactly(db, key, messages, after)
  {
    MalformedCons(messages);
  }

  lemma MalformedCons(messages: seq<(nat, Fields)>)
    requires messages != []
    ensures forall id :: NamesMalformed(messages, id) <==>
      (messages[0].0 == id && ParseAuditRunId(messages[0].1).None?) || NamesMalformed(messages[1..], id)
  {
    assert messages == [messages[0]] + messages[1..];
  }
}

/**
 * Audits as a state machine: any number of consumers, every database write and every acknowledgement a step of its
 * own, redelivery at any time, duplicate messages, and a crash possible after every step.
 */
module AuditProtocol {
  import opened Text
  import opened Redis
  import opened Messages
  import opened Scheduler
  import opened Audit

  /** Where a worker is: about to mark the run, auditing it, or about to acknowledge its message. */
  datatype Phase = ToMark | Auditing | ToAck

  datatype Worker = Worker(message: nat, run: Int64, phase: Phase)

  datatype State = State(
    runs: Runs,
    used: set<Int64>,            // ids ever given out: a BIGSERIAL never repeats one
    messages: seq<Fields>,       // the stream
    acked: set<nat>,             // positions of acknowledged messages
    workers: map<nat, Worker>,
    closings: map<Int64, nat>,   // how many updates wrote the run and left it terminal
    verdicts: map<Int64, Verdict>) // what the latest of them was asked to record

  /** A finished audit, a failed one, or a run skipped for lack of quota. */
  datatype Verdict = Measured(metrics: Metrics, durationMs: int, at: int) | Broke(message: string, durationMs: int, at: int) | OverQuota(at: int)

  datatype Step =
    | Insert(run: Int64, sourceTaskId: string)
    | Publish(run: Int64, values: Fields)    // at least once, or garbled
    | Take(worker: nat, message: nat)        // first delivery, redelivery or reclaim
    | Drop(message: nat)                     // a malformed message
    | Mark(worker: nat, exec: Exec, now: int)
    | GiveUp(worker: nat)                    // shed, cancelled or crashed
    | Write(worker: nat, result: Result, exec: Exec, now: int)
    | Ack(worker: nat, succeeds: bool)
    | Skip(run: Int64, now: int)
    | Delete(run: Int64)                     // the job or page goes, and the row with it

  function Closed(s: State, run: Int64): nat {
    if run in s.closings then s.closings[run] else 0
  }

  /** Every update counts that changed the table and left the run terminal, whatever the run was before. */
  function Counting(s: State, run: Int64, after: Runs): map<Int64, nat> {
    if after != s.runs && run in after && Terminal(after[run].status) then s.closings[run := Closed(s, run) + 1] else s.closings
  }

  function Judging(s: State, run: Int64, after: Runs, verdict: Verdict): map<Int64, Verdict> {
    if after != s.runs && run in after && Terminal(after[run].status) then s.verdicts[run := verdict] else s.verdicts
  }

  function VerdictOf(result: Result, now: int): Verdict {
    match result
    case Score(m, duration) => Measured(m, duration, now)
    case Failure(message, duration) => Broke(message, duration, now)
  }

  /** The worker goes on to a phase, or is gone. */
  function Goes(s: State, w: nat, phase: Option<Phase>): map<nat, Worker>
    requires w in s.workers
  {
    if phase.Some? then s.workers[w := s.workers[w].(phase := phase.value)] else s.workers - {w}
  }

  ghost function Next(s: State, step: Step): Option<State> {
    match step
    case Insert(run, source) =>
      if run in s.used then None else Some(s.(runs := s.runs[run := Inserted(source)], used := s.used + {run}))
    case Publish(run, values) =>
      if run in s.used && (ParseAuditRunId(values) == Some(run) || ParseAuditRunId(values).None?)
      then Some(s.(messages := s.messages + [values]))
      else None
    case Take(w, k) =>
      if w !in s.workers && k < |s.messages| && k !in s.acked && ParseAuditRunId(s.messages[k]).Some?
      then Some(s.(workers := s.workers[w := Worker(k, ParseAuditRunId(s.messages[k]).value, ToMark)]))
      else None
    case Drop(k) =>
      if k < |s.messages| && ParseAuditRunId(s.messages[k]).None? then Some(s.(acked := s.acked + {k})) else None
    case Mark(w, exec, now) =>
      if !At(s, w, ToMark) then None
      else
        var run := s.workers[w].run;
        var after := if exec.NotApplied? then s.runs else Marked(s.runs, run, now);
        Some(s.(runs := after, closings := Counting(s, run, after),
                workers := Goes(s, w, if !exec.Applied? then None else if Movable(s.runs, run) then Some(Auditing) else Some(ToAck))))
    case GiveUp(w) => if w in s.workers then Some(s.(workers := s.workers - {w})) else None
    case Write(w, result, exec, now) =>
      if !At(s, w, Auditing) then None
      else
        var run := s.workers[w].run;
        var after := if exec.NotApplied? then s.runs else Written(s.runs, run, result, now);
        Some(s.(runs := after, closings := Counting(s, run, after), verdicts := Judging(s, run, after, VerdictOf(result, now)),
                workers := Goes(s, w, if exec.Applied? && Has(s.runs, run, Running) then Some(ToAck) else None)))
    case Ack(w, succeeds) =>
      if !At(s, w, ToAck) then None
      else Some(s.(acked := if succeeds then s.acked + {s.workers[w].message} else s.acked, workers := s.workers - {w}))
    case Skip(run, now) =>
      var after := Skipped(s.runs, run, now);
      Some(s.(runs := after, closings := Counting(s, run, after), verdicts := Judging(s, run, after, OverQuota(now))))
    case Delete(run) => Some(s.(runs := s.runs - {run}))
  }

  predicate At(s: State, w: nat, phase: Phase) {
    w in s.workers && s.workers[w].phase == phase
  }

  const START := State(map[], {}, [], {}, map[], map[], map[])

  ghost function From(s: State, run: seq<Step>): Option<State>
    decreases |run|
  {
    if run == [] then Some(s)
    else match From(s, run[..|run| - 1])
      case None => None
      case Some(last) => Next(last, run[|run| - 1])
  }

  // ---------- what every run keeps ----------

  /** Nothing is left to do for a message. */
  ghost predicate Spent(s: State, k: nat) {
    k < |s.messages| && (ParseAuditRunId(s.messages[k]).Some? ==>
      ParseAuditRunId(s.messages[k]).value in s.used && Settled(s.runs, ParseAuditRunId(s.messages[k]).value))
  }

  ghost predicate WorkerFits(s: State, w: nat)
    requires w in s.workers
  {
    var worker := s.workers[w];
    worker.message < |s.messages| && ParseAuditRunId(s.messages[worker.message]) == Some(worker.run) && worker.run in s.used &&
    (worker.phase.ToAck? ==> Settled(s.runs, worker.run))
  }

  ghost predicate CountFits(s: State, run: Int64) {
    Closed(s, run) <= 1 && (run !in s.used ==> Closed(s, run) == 0) &&
    (run in s.runs ==> run in s.used && (Closed(s, run) == 1 <==> Terminal(s.runs[run].status)))
  }

  /** What a terminal row records is what its closing write was asked to record. */
  ghost predicate RowTells(row: RunRow, verdict: Verdict) {
    match verdict
    case Measured(m, duration, at) =>
      row.status == Succeeded && row.metrics == m.(reportKey := if m.reportKey == Some("") then None else m.reportKey) &&
      row.durationMs == Some(duration) && row.completedAt == Some(at)
    case Broke(message, duration, at) =>
      row.status == Failed && row.errorMessage == (if message == "" then None else Some(message)) &&
      row.durationMs == Some(duration) && row.completedAt == Some(at)
    case OverQuota(at) => row.status == SkippedQuota && row.completedAt == Some(at)
  }

  ghost predicate VerdictFits(s: State, run: Int64) {
    run in s.runs && Terminal(s.runs[run].status) ==> run in s.verdicts && RowTells(s.runs[run], s.verdicts[run])
  }

  ghost predicate Inv(s: State) {
    (forall k :: k in s.acked ==> Spent(s, k)) &&
    (forall w :: w in s.workers ==> WorkerFits(s, w)) &&
    (forall run :: CountFits(s, run)) && (forall run :: VerdictFits(s, run)) &&
    (forall k :: 0 <= k < |s.messages| && ParseAuditRunId(s.messages[k]).Some? ==> ParseAuditRunId(s.messages[k]).value in s.used)
  }

  /** A settled run stays settled, and a terminal row is never written again. */
  lemma SettledStays(s: State, step: Step, s': State, run: Int64)
    requires Next(s, step) == Some(s') && run in s.used && Settled(s.runs, run)
    ensures run in s'.used && Settled(s'.runs, run) && (run in s'.runs ==> run in s.runs && s'.runs[run] == s.runs[run])
  {
  }

  lemma StepAcked(s: State, step: Step, s': State)
    requires Next(s, step) == Some(s') && Inv(s)
    ensures forall k :: k in s'.acked ==> Spent(s', k)
  {
    forall k | k in s'.acked
      ensures Spent(s', k)
    {
      if k in s.acked {
        assert Spent(s, k);
      } else if step.Ack? {
        assert WorkerFits(s, step.worker);
      }
      var run := ParseAuditRunId(s.messages[k]);
      if run.Some? {
        SettledStays(s, step, s', run.value);
      }
    }
  }

  lemma StepWorkers(s: State, step: Step, s': State)
    requires Next(s, step) == Some(s') && Inv(s)
    ensures forall w :: w in s'.workers ==> WorkerFits(s', w)
  {
    forall w | w in s'.workers
      ensures WorkerFits(s', w)
    {
      if w in s.workers {
        assert WorkerFits(s, w);
        if Settled(s.runs, s.workers[w].run) {
          SettledStays(s, step, s', s.workers[w].run);
        }
      }
    }
  }

  lemma StepCounts(s: State, step: Step, s': State)
    requires Next(s, step) == Some(s') && Inv(s)
    ensures forall run :: CountFits(s', run)
  {
    hide ParseAuditRunId, Spent, WorkerFits, VerdictFits, Judging, Goes;
    forall run
      ensures CountFits(s', run)
    {
      assert CountFits(s, run);
    }
  }

  lemma StepVerdicts(s: State, step: Step, s': State)
    requires Next(s, step) == Some(s') && Inv(s)
    ensures forall run :: VerdictFits(s', run)
  {
    hide ParseAuditRunId, Spent, WorkerFits, CountFits, Counting, Goes;
    forall run
      ensures VerdictFits(s', run)
    {
      assert VerdictFits(s, run);
    }
  }

  lemma StepInv(s: State, step: Step, s': State)
    requires Next(s, step) == Some(s') && Inv(s)
    ensures Inv(s')
  {
    StepAcked(s, step, s');
    StepWorkers(s, step, s');
    StepCounts(s, step, s');
    StepVerdicts(s, step, s');
  }

  lemma {:induction false} RunInv(run: seq<Step>)
    ensures From(START, run).Some? ==> Inv(From(START, run).value)
    decreases |run|
  {
    if run != [] {
      var before := run[..|run| - 1];
      RunInv(before);
      if From(START, before).Some? && From(START, run).Some? {
        StepInv(From(START, before).value, run[|run| - 1], From(START, run).value);
      }
    }
  }

  // ---------- the theorems ----------

  /**
   * However often its message is delivered and to however many consumers, a run gets at most one terminal write:
   * one if it is there and terminal, none if it is there and open.
   */
  lemma AtMostOneTerminalWrite(steps: seq<Step>, run: Int64)
    requires From(START, steps).Some?
    ensures var s := From(START, steps).value;
      Closed(s, run) <= 1 && (run in s.runs ==> (Closed(s, run) == 1 <==> Terminal(s.runs[run].status)))
  {
    RunInv(steps);
    assert CountFits(From(START, steps).value, run);
  }

  /**
   * Over any run a terminal row holds what its one closing write was asked to record: the metrics of a finished
   * audit as a success, the message of a failed one as a failure, or the lack of quota.
   */
  lemma TerminalRowTells(steps: seq<Step>, run: Int64)
    requires From(START, steps).Some?
    ensures var s := From(START, steps).value;
      run in s.runs && Terminal(s.runs[run].status) ==> run in s.verdicts && RowTells(s.runs[run], s.verdicts[run])
  {
    RunInv(steps);
    assert VerdictFits(From(START, steps).value, run);
  }

  /** From any reachable state on, a terminal row stays as it is until it is deleted for good. */
  lemma {:induction false} TerminalRowsNeverChange(s: State, steps: seq<Step>, run: Int64)
    requires From(s, steps).Some? && run in s.used && run in s.runs && Terminal(s.runs[run].status)
    ensures var last := From(s, steps).value;
      run in last.used && Settled(last.runs, run) && (run in last.runs ==> last.runs[run] == s.runs[run])
    decreases |steps|
  {
    if steps != [] {
      var before := steps[..|steps| - 1];
      TerminalRowsNeverChange(s, before, run);
      SettledStays(From(s, before).value, steps[|steps| - 1], From(s, steps).value, run);
    }
  }

  /** A readable message is acknowledged only once its row is terminal or gone: an open row keeps all its messages. */
  lemma OpenRunKeepsItsMessages(steps: seq<Step>, k: nat, run: Int64)
    requires From(START, steps).Some?
    requires var s := From(START, steps).value;
      k < |s.messages| && ParseAuditRunId(s.messages[k]) == Some(run) && run in s.runs && !Terminal(s.runs[run].status)
    ensures k !in From(START, steps).value.acked
  {
    RunInv(steps);
    var s := From(START, steps).value;
    assert k in s.acked ==> Spent(s, k);
  }

  /** Nothing that happened can keep an open run from being finished: a redelivery, a mark and a write always suffice. */
  lemma NeverStuck(steps: seq<Step>, k: nat, run: Int64, w: nat, result: Result, now: int)
    requires From(START, steps).Some?
    requires var s := From(START, steps).value;
      w !in s.workers && k < |s.messages| && ParseAuditRunId(s.messages[k]) == Some(run) && Movable(s.runs, run)
    ensures var last := From(From(START, steps).value, [Take(w, k), Mark(w, Applied, now), Write(w, result, Applied, now)]);
      last.Some? && run in last.value.runs && Terminal(last.value.runs[run].status)
  {
    OpenRunKeepsItsMessages(steps, k, run);
    var s := From(START, steps).value;
    var more := [Take(w, k), Mark(w, Applied, now), Write(w, result, Applied, now)];
    assert From(s, more[..0]) == Some(s);
    assert more[..1][..0] == more[..0] && more[..2][..1] == more[..1] && more[..3][..2] == more[..2] && more[..3] == more;
    var taken := Next(s, more[0]).value;
    var marked := Next(taken, more[1]).value;
    assert From(s, more[..1]) == Some(taken);
    assert From(s, more[..2]) == Some(marked);
    assert From(s, more[..3]) == Next(marked, more[2]);
  }

  /**
   * AuditConsumer.ProcessOne is two steps of the machine, between which others may act: it ends at its mark, or
   * else with a write or by giving up in the state mid that the others left behind.
   */
  lemma ProcessOneIsTwoSteps(s: State, id: nat, w: World, mid: State)
    requires At(s, id, ToMark)
    requires mid.runs == w.meanwhile && At(mid, id, Auditing) && mid.workers[id].run == s.workers[id].run
    ensures var marked := Next(s, Mark(id, w.markExec, w.markedAt));
      var ended := Next(mid, if w.outcome.Ended? then Write(id, w.outcome.result, w.writeExec, w.writtenAt) else GiveUp(id));
      var last := if marked.Some? && At(marked.value, id, Auditing) then ended else marked;
      last.Some? && Processed(s.runs, s.workers[id].run, w) == (last.value.runs, At(last.value, id, ToAck))
  {
  }
}
