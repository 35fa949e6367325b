/** The transactional outbox sweeper (internal/broker/outbox.go). */
module Outbox {
  import opened Text
  import opened Schedule
  import opened Redis
  import opened Scheduler

  datatype OutboxRow = OutboxRow(
    taskId: string, jobId: string, pageId: Int64, host: string, path: string, priority: Priority, retryCount: Int64,
    sourceType: string, sourceUrl: string, runAt: int, attempts: nat, taskType: string, lighthouseRunId: Option<Int64>)
  {
    function Entry(): ScheduleEntry {
      ScheduleEntry(taskId, jobId, pageId, host, path, priority, retryCount, sourceType, sourceUrl, runAt,
                    if taskType == "" then "crawl" else taskType,
                    if lighthouseRunId.Some? then lighthouseRunId.value else 0)
    }
  }

  type Table = map<int, OutboxRow>

  datatype Options = Options(batchSize: int, baseBackoff: int, maxBackoff: int, maxAttempts: int)

  /** NewOutboxSweeper replaces whatever is not positive. */
  function Normalised(o: Options): (r: Options)
    ensures r.batchSize > 0 && r.baseBackoff > 0 && r.maxBackoff > 0 && r.maxAttempts > 0
    ensures o.batchSize > 0 && o.baseBackoff > 0 && o.maxBackoff > 0 && o.maxAttempts > 0 ==> r == o
    ensures o.batchSize <= 0 && o.baseBackoff <= 0 && o.maxBackoff <= 0 && o.maxAttempts <= 0 ==> r == Options(200, 2000, 300000, 10)
  {
    Options(if o.batchSize <= 0 then 200 else o.batchSize,
            if o.baseBackoff <= 0 then 2000 else o.baseBackoff,
            if o.maxBackoff <= 0 then 300000 else o.maxBackoff,
            if o.maxAttempts <= 0 then 10 else o.maxAttempts)
  }

  function Pow2(n: nat): (p: nat)
    ensures p >= 1
  {
    if n == 0 then 1 else 2 * Pow2(n - 1)
  }

  function Backoff(o: Options, attempts: nat): int {
    var grown := o.baseBackoff * Pow2(attempts);
    if grown <= o.maxBackoff then grown else o.maxBackoff
  }

  /** The back-off doubles with every attempt until it meets its limit. */
  lemma BackoffDoubles(o: Options, attempts: nat)
    requires o.baseBackoff >= 0 && o.maxBackoff >= 0
    ensures Backoff(o, 0) == if o.baseBackoff <= o.maxBackoff then o.baseBackoff else o.maxBackoff
    ensures Backoff(o, attempts + 1) == if 2 * Backoff(o, attempts) <= o.maxBackoff then 2 * Backoff(o, attempts) else o.maxBackoff
  {
    DoubledPower(o.baseBackoff, attempts);
  }

  lemma DoubledPower(base: nat, n: nat)
    ensures base * Pow2(n + 1) == 2 * (base * Pow2(n)) && base * Pow2(n) >= 0
  {
    var p := Pow2(n);
    assert Pow2(n + 1) == 2 * p;
    assert base * (2 * p) == 2 * (base * p);
  }

  // ---------- what a committed tick does ----------

  /** One more failure would use up the attempts. */
  predicate Exhausted(r: OutboxRow, o: Options) {
    r.attempts + 1 >= o.maxAttempts
  }

  function Bumped(r: OutboxRow, o: Options, now: int): OutboxRow {
    r.(attempts := r.attempts + 1, runAt := now + Backoff(o, r.attempts))
  }

  /** bumpAttempts' UPDATE. */
  function BumpRows(t: Table, ids: set<int>, o: Options, now: int): Table {
    map id | id in t :: if id in ids then Bumped(t[id], o, now) else t[id]
  }

  /** moveToDeadLetter's INSERT ... SELECT. */
  function DeadCopies(t: Table, ids: set<int>): Table {
    map id | id in t && id in ids :: t[id].(attempts := t[id].attempts + 1)
  }

  function ExhaustedIds(outbox: Table, failed: set<int>, o: Options): set<int> {
    set id | id in failed && id in outbox && Exhausted(outbox[id], o)
  }

  /** The outbox after the DELETE and the UPDATE of a tick. */
  function BumpedTable(outbox: Table, scheduled: set<int>, failed: set<int>, o: Options, now: int): Table {
    BumpRows(outbox - scheduled, failed - ExhaustedIds(outbox, failed, o), o, now)
  }

  /** The outbox once the scheduled rows are deleted and the failed ones bumped or taken out. */
  function Swept(outbox: Table, scheduled: set<int>, failed: set<int>, o: Options, now: int): Table {
    BumpedTable(outbox, scheduled, failed, o, now) - ExhaustedIds(outbox, failed, o)
  }

  /** The dead-letter table once the exhausted failures have moved there. */
  function Buried(outbox: Table, dead: Table, scheduled: set<int>, failed: set<int>, o: Options, now: int): Table {
    dead + DeadCopies(BumpedTable(outbox, scheduled, failed, o, now), ExhaustedIds(outbox, failed, o))
  }

  ghost predicate AttemptsBelow(outbox: Table, o: Options) {
    forall id :: id in outbox ==> outbox[id].attempts < o.maxAttempts
  }

  /** Every claimed row ends up in exactly one place, every other row is untouched, and stored attempts stay below the limit. */
  lemma TickPartitions(outbox: Table, dead: Table, scheduled: set<int>, failed: set<int>, o: Options, now: int, id: int)
    requires AttemptsBelow(outbox, o) && scheduled !! failed && outbox.Keys !! dead.Keys && id in outbox
    ensures var outbox', dead' := Swept(outbox, scheduled, failed, o, now), Buried(outbox, dead, scheduled, failed, o, now);
      AttemptsBelow(outbox', o) && outbox'.Keys !! dead'.Keys &&
      (id in scheduled ==> id !in outbox' && id !in dead') &&
      (id in failed ==>
        var r := outbox[id];
        if r.attempts + 1 >= o.maxAttempts then id !in outbox' && id in dead' && dead'[id] == r.(attempts := o.maxAttempts)
        else
          id in outbox' && id !in dead' && outbox'[id] == r.(attempts := r.attempts + 1, runAt := now + Backoff(o, r.attempts)) &&
          outbox'[id].runAt - now <= o.maxBackoff) &&
      (id !in scheduled && id !in failed ==> id in outbox' && id !in dead' && outbox'[id] == outbox[id])
    ensures forall d :: d in dead ==> d in Buried(outbox, dead, scheduled, failed, o, now) && Buried(outbox, dead, scheduled, failed, o, now)[d] == dead[d]
  {
  }

  // ---------- the life of a row that keeps failing ----------

  datatype Fate = InOutbox(row: OutboxRow) | Dead(row: OutboxRow)

  /** A row after failing in committed ticks at the given times. */
  function Failing(r: OutboxRow, o: Options, times: seq<int>): Fate
    decreases |times|
  {
    if times == [] then InOutbox(r)
    else if Exhausted(r, o) then Dead(r.(attempts := r.attempts + 1))
    else Failing(Bumped(r, o, times[0]), o, times[1..])
  }

  /** The pauses that failing at these times brought the row. */
  function Pauses(r: OutboxRow, o: Options, times: seq<int>): int
    decreases |times|
  {
    if times == [] || Exhausted(r, o) then 0
    else Backoff(o, r.attempts) + Pauses(Bumped(r, o, times[0]), o, times[1..])
  }

  /** A row fails at most maxAttempts times and waits at most maxAttempts - 1 maximal pauses before it is dead. */
  lemma {:induction false} RowLifetime(r: OutboxRow, o: Options, times: seq<int>)
    requires r.attempts < o.maxAttempts && o.maxBackoff >= 0
    ensures Failing(r, o, times).InOutbox? <==> |times| < o.maxAttempts - r.attempts
    ensures Failing(r, o, times).row.attempts == (if |times| < o.maxAttempts - r.attempts then r.attempts + |times| else o.maxAttempts)
    ensures Pauses(r, o, times) <= (o.maxAttempts - 1 - r.attempts) * o.maxBackoff
    decreases |times|
  {
    if times != [] && !Exhausted(r, o) {
      RowLifetime(Bumped(r, o, times[0]), o, times[1..]);
      OneMorePause(o.maxAttempts - 2 - r.attempts, o.maxBackoff);
    } else {
      NoNegativePause(o.maxAttempts - 1 - r.attempts, o.maxBackoff);
    }
  }

  lemma OneMorePause(n: int, pause: int)
    ensures n * pause + pause == (n + 1) * pause
  {
  }

  lemma NoNegativePause(n: nat, pause: int)
    requires pause >= 0
    ensures n * pause >= 0
  {
  }

  /** What a committed tick did. */
  datatype Committed = Committed(scheduled: set<int>, failed: set<int>, now: int)

  function AfterTicks(outbox: Table, dead: Table, ticks: seq<Committed>, o: Options): (Table, Table)
    decreases |ticks|
  {
    if ticks == [] then (outbox, dead)
    else
      var t := ticks[0];
      AfterTicks(Swept(outbox, t.scheduled, t.failed, o, t.now), Buried(outbox, dead, t.scheduled, t.failed, o, t.now), ticks[1..], o)
  }

  /** Each tick claims rows of the outbox it meets, and splits them. */
  ghost predicate Possible(outbox: Table, ticks: seq<Committed>, o: Options)
    decreases |ticks|
  {
    ticks != [] ==>
      var t := ticks[0];
      t.scheduled !! t.failed && t.scheduled + t.failed <= outbox.Keys &&
      Possible(Swept(outbox, t.scheduled, t.failed, o, t.now), ticks[1..], o)
  }

  /** When the row failed. */
  function FailTimes(ticks: seq<Committed>, id: int): seq<int>
    decreases |ticks|
  {
    if ticks == [] then [] else (if id in ticks[0].failed then [ticks[0].now] else []) + FailTimes(ticks[1..], id)
  }

  ghost predicate NeverScheduled(ticks: seq<Committed>, id: int) {
    forall i :: 0 <= i < |ticks| ==> id !in ticks[i].scheduled
  }

  /** A row that has left the outbox for the dead-letter table stays there, untouched. */
  lemma {:induction false} DeadStays(outbox: Table, dead: Table, ticks: seq<Committed>, o: Options, id: int)
    requires Possible(outbox, ticks, o) && id !in outbox && id in dead
    ensures var r := AfterTicks(outbox, dead, ticks, o); id !in r.0 && id in r.1 && r.1[id] == dead[id]
    ensures FailTimes(ticks, id) == []
    decreases |ticks|
  {
    if ticks != [] {
      var t := ticks[0];
      DeadStays(Swept(outbox, t.scheduled, t.failed, o, t.now), Buried(outbox, dead, t.scheduled, t.failed, o, t.now), ticks[1..], o, id);
    }
  }

  ghost predicate Meets(outbox: Table, dead: Table, id: int, fate: Fate) {
    match fate
    case InOutbox(r) => id in outbox && outbox[id] == r
    case Dead(r) => id !in outbox && id in dead && dead[id].attempts == r.attempts
  }

  /**
   * Over any run of ticks, whatever happens to the other rows, a row that is never scheduled has the life computed
   * above: with RowLifetime, it fails in at most maxAttempts of them.
   */
  lemma {:induction false} RowInRun(outbox: Table, dead: Table, ticks: seq<Committed>, o: Options, id: int)
    requires Possible(outbox, ticks, o) && AttemptsBelow(outbox, o) && outbox.Keys !! dead.Keys
    requires id in outbox && NeverScheduled(ticks, id)
    ensures var r := AfterTicks(outbox, dead, ticks, o); Meets(r.0, r.1, id, Failing(outbox[id], o, FailTimes(ticks, id)))
    ensures |FailTimes(ticks, id)| <= o.maxAttempts - outbox[id].attempts
    decreases |ticks|
  {
    if ticks != [] {
      var t := ticks[0];
      var outbox', dead' := Swept(outbox, t.scheduled, t.failed, o, t.now), Buried(outbox, dead, t.scheduled, t.failed, o, t.now);
      TickPartitions(outbox, dead, t.scheduled, t.failed, o, t.now, id);
      forall i | 0 <= i < |ticks[1..]|
        ensures id !in ticks[1..][i].scheduled
      {
        assert ticks[1..][i] == ticks[i + 1];
      }
      assert id !in ticks[0].scheduled;
      FirstTick(outbox, dead, t, o, id);
      FailingNext(outbox[id], o, ticks, id);
      if id in t.failed && Exhausted(outbox[id], o) {
        DeadStays(outbox', dead', ticks[1..], o, id);
      } else {
        RowInRun(outbox', dead', ticks[1..], o, id);
      }
    }
  }

  lemma FailingNext(r: OutboxRow, o: Options, ticks: seq<Committed>, id: int)
    requires ticks != []
    ensures var rest := FailTimes(ticks[1..], id);
      Failing(r, o, FailTimes(ticks, id)) ==
        (if id !in ticks[0].failed then Failing(r, o, rest)
         else if Exhausted(r, o) then Dead(r.(attempts := r.attempts + 1))
         else Failing(Bumped(r, o, ticks[0].now), o, rest)) &&
      |FailTimes(ticks, id)| == |rest| + if id in ticks[0].failed then 1 else 0
  {
    var rest := FailTimes(ticks[1..], id);
    assert ([ticks[0].now] + rest)[1..] == rest && [] + rest == rest;
  }

  lemma FirstTick(outbox: Table, dead: Table, t: Committed, o: Options, id: int)
    requires id in outbox && id !in t.scheduled && t.scheduled !! t.failed
    ensures var outbox' := Swept(outbox, t.scheduled, t.failed, o, t.now);
      if id in t.failed && Exhausted(outbox[id], o) then id !in outbox'
      else id in outbox' && outbox'[id] == if id in t.failed then Bumped(outbox[id], o, t.now) else outbox[id]
  {
  }

  // ---------- partitioning in place ----------

  datatype Claimed = Claimed(id: int, row: OutboxRow)

  function Retryable(rows: seq<Claimed>, o: Options): seq<Claimed> {
    if rows == [] then []
    else
      var last := rows[|rows| - 1];
      Retryable(rows[..|rows| - 1], o) + (if Exhausted(last.row, o) then [] else [last])
  }

  function Terminal(rows: seq<Claimed>, o: Options): seq<Claimed> {
    if rows == [] then []
    else
      var last := rows[|rows| - 1];
      Terminal(rows[..|rows| - 1], o) + (if Exhausted(last.row, o) then [last] else [])
  }

  lemma {:induction false} PartitionSizes(rows: seq<Claimed>, o: Options)
    ensures |Retryable(rows, o)| + |Terminal(rows, o)| == |rows|
    ensures forall c :: c in Retryable(rows, o) <==> c in rows && !Exhausted(c.row, o)
    ensures forall c :: c in Terminal(rows, o) <==> c in rows && Exhausted(c.row, o)
  {
    if rows != [] {
      var n := |rows| - 1;
      PartitionSizes(rows[..n], o);
      assert rows == rows[..n] + [rows[n]];
    }
  }

  /** kept := retry[:0]: the rows to keep are compacted to the front of the slice's own array. */
  method PartitionRetry(retry: array<Claimed>, o: Options) returns (kept: nat, deadLetter: seq<Claimed>)
    modifies retry
    ensures kept <= retry.Length && retry[..kept] == Retryable(old(retry[..]), o)
    ensures deadLetter == Terminal(old(retry[..]), o)
  {
    ghost var rows := retry[..];
    kept, deadLetter := 0, [];
    for i := 0 to retry.Length
      invariant kept <= i && retry[..kept] == Retryable(rows[..i], o) && deadLetter == Terminal(rows[..i], o)
      invariant retry[i..] == rows[i..]
    {
      var r := retry[i];
      assert r == retry[i..][0] == rows[i];
      assert rows[..i + 1][..i] == rows[..i];
      if Exhausted(r.row, o) {
        deadLetter := deadLetter + [r];
      } else {
        assert retry[..kept + 1][..kept] == retry[..kept];
        retry[kept] := r;
        kept := kept + 1;
        assert retry[..kept] == retry[..kept - 1] + [r];
      }
      assert retry[i + 1..] == rows[i..][1..];
    }
    assert rows[..retry.Length] == rows;
  }

  // ---------- the sweeper ----------

  /** Where the database lets a tick down. */
  datatype DbFault =
    | NoFault
    | BeforeSchedule // nothing has happened yet
    | AfterSchedule  // a statement or the commit fails: rolled back, but Redis has the entries
    | CommitUnseen   // the commit took effect and its reply was lost

  /** The rows that ScheduleBatch did not report as scheduled, by index. */
  function FailedIds(claimed: seq<Claimed>, r: BatchResult): set<int> {
    match r
    case BatchOk => {}
    case BatchError(failed) => set i | 0 <= i < |claimed| && i in failed :: claimed[i].id
    case PipelineError => IdsOf(claimed)
  }

  function IdsOf(claimed: seq<Claimed>): set<int> {
    set c | c in claimed :: c.id
  }

  predicate Fails(outcome: PipelineOutcome, i: nat) {
    outcome.Broken? || i in outcome.failed
  }

  /** The claimed rows whose command failed, or all of them when the pipeline did. */
  function Failures(claimed: seq<Claimed>, outcome: PipelineOutcome): set<int> {
    set i | 0 <= i < |claimed| && Fails(outcome, i) :: claimed[i].id
  }

  ghost predicate SameAt(before: Table, after: Table, id: int) {
    (id in after <==> id in before) && (id in before ==> after[id] == before[id])
  }

  ghost predicate DistinctRows(claimed: seq<Claimed>) {
    forall i, j :: 0 <= i < j < |claimed| ==> claimed[i].id != claimed[j].id
  }

  /** Where a committed tick leaves the i-th claimed row: deleted once scheduled, otherwise bumped or dead. */
  ghost predicate RowSettled(c: Claimed, failed: bool, o: Options, now: int, dead: Table, outbox': Table, dead': Table) {
    if !failed then c.id !in outbox' && SameAt(dead, dead', c.id)
    else if c.row.attempts + 1 < o.maxAttempts then
      c.id in outbox' && SameAt(dead, dead', c.id) &&
      outbox'[c.id] == c.row.(attempts := c.row.attempts + 1, runAt := now + Backoff(o, c.row.attempts))
    else c.id !in outbox' && c.id in dead' && dead'[c.id] == c.row.(attempts := c.row.attempts + 1)
  }

  /** Both tables after a committed tick, row by row, in terms of what became of the ZADDs. */
  ghost predicate Settles(outbox: Table, dead: Table, claimed: seq<Claimed>, outcome: PipelineOutcome, o: Options, now: int,
                          outbox': Table, dead': Table) {
    (forall i :: 0 <= i < |claimed| ==>
      RowSettled(claimed[i], outcome.Broken? || i in outcome.failed, o, now, dead, outbox', dead')) &&
    (forall id :: id !in IdsOf(claimed) ==> SameAt(outbox, outbox', id) && SameAt(dead, dead', id))
  }

  ghost predicate NoneFailed(claimed: seq<Claimed>, outcome: PipelineOutcome) {
    outcome.Executed? && forall i :: 0 <= i < |claimed| ==> i !in outcome.failed
  }

  ghost predicate AreRows(outbox: Table, claimed: seq<Claimed>) {
    forall i :: 0 <= i < |claimed| ==> claimed[i].id in outbox && outbox[claimed[i].id] == claimed[i].row
  }

  lemma FailureIds(claimed: seq<Claimed>, outcome: PipelineOutcome)
    ensures Failures(claimed, outcome) <= IdsOf(claimed)
  {
    forall i | 0 <= i < |claimed|
      ensures claimed[i].id in IdsOf(claimed)
    {
      assert claimed[i] in claimed;
    }
  }

  lemma FailureOf(claimed: seq<Claimed>, outcome: PipelineOutcome, i: nat)
    requires DistinctRows(claimed) && i < |claimed|
    ensures claimed[i].id in IdsOf(claimed) && (claimed[i].id in Failures(claimed, outcome) <==> outcome.Broken? || i in outcome.failed)
  {
    assert claimed[i] in claimed;
  }

  lemma SweptSettles(outbox: Table, dead: Table, claimed: seq<Claimed>, outcome: PipelineOutcome, o: Options, now: int)
    requires DistinctRows(claimed) && AreRows(outbox, claimed)
    ensures var failed := Failures(claimed, outcome);
      Settles(outbox, dead, claimed, outcome, o, now,
              Swept(outbox, IdsOf(claimed) - failed, failed, o, now), Buried(outbox, dead, IdsOf(claimed) - failed, failed, o, now))
  {
    var failed := Failures(claimed, outcome);
    FailureIds(claimed, outcome);
    forall i | 0 <= i < |claimed|
      ensures RowSettled(claimed[i], outcome.Broken? || i in outcome.failed, o, now, dead,
                         Swept(outbox, IdsOf(claimed) - failed, failed, o, now), Buried(outbox, dead, IdsOf(claimed) - failed, failed, o, now))
    {
      FailureOf(claimed, outcome, i);
    }
  }

  class Sweeper {
    const scheduler: Scheduler
    const opts: Options
    var outbox: Table
    var dead: Table

    constructor (scheduler: Scheduler, opts: Options)
      ensures this.scheduler == scheduler && this.opts == Normalised(opts) && outbox == map[] && dead == map[]
    {
      this.scheduler, this.opts := scheduler, Normalised(opts);
      outbox, dead := map[], map[];
    }

    /** The SELECT's answer: distinct due rows, locked for this tick. */
    ghost predicate Claims(claimed: seq<Claimed>, now: int)
      reads this
    {
      (forall i :: 0 <= i < |claimed| ==>
        claimed[i].id in outbox && outbox[claimed[i].id] == claimed[i].row && claimed[i].row.runAt <= now) &&
      (forall i, j :: 0 <= i < j < |claimed| ==> claimed[i].id != claimed[j].id) && |claimed| <= opts.batchSize
    }

    /** Splits the claimed rows by what ScheduleBatch reported. */
    method Split(claimed: seq<Claimed>, r: BatchResult) returns (succeeded: set<int>, retry: array<Claimed>)
      requires forall i, j :: 0 <= i < j < |claimed| ==> claimed[i].id != claimed[j].id
      ensures succeeded == IdsOf(claimed) - FailedIds(claimed, r) && fresh(retry)
      ensures forall c :: c in retry[..] <==> c in claimed && c.id in FailedIds(claimed, r)
    {
      var rows: seq<Claimed> := [];
      succeeded := {};
      match r {
        case BatchOk =>
          succeeded := IdsOf(claimed);
        case BatchError(failed) =>
          for i := 0 to |claimed|
            invariant succeeded == set k | 0 <= k < i && k !in failed :: claimed[k].id
            invariant forall c :: c in rows <==> exists k :: 0 <= k < i && k in failed && claimed[k] == c
          {
            if i in failed {
              rows := rows + [claimed[i]];
            } else {
              succeeded := succeeded + {claimed[i].id};
            }
          }
        case PipelineError =>
          rows := claimed;
      }
      retry := new Claimed[|rows|](i requires 0 <= i < |rows| => rows[i]);
      assert retry[..] == rows;
    }

    /** One tick over the claimed rows. */
    method Tick(now: int, claimed: seq<Claimed>, outcome: PipelineOutcome, fault: DbFault) returns (ok: bool)
      requires Claims(claimed, now)
      modifies this, scheduler.rdb
      ensures fault.BeforeSchedule? || claimed == [] ==> scheduler.rdb.db == old(scheduler.rdb.db)
      ensures !fault.BeforeSchedule? && claimed != [] ==> scheduler.rdb.db == AddEntries(old(scheduler.rdb.db), EntriesOf(claimed), outcome)
      ensures fault.BeforeSchedule? || fault.AfterSchedule? || claimed == [] ==> outbox == old(outbox) && dead == old(dead)
      ensures (fault.NoFault? || fault.CommitUnseen?) && claimed != [] ==>
        Settles(old(outbox), old(dead), claimed, outcome, opts, now, outbox, dead)
      ensures (fault.NoFault? || fault.CommitUnseen?) && claimed != [] ==>
        var failed := Failures(claimed, outcome);
        outbox == Swept(old(outbox), IdsOf(claimed) - failed, failed, opts, now) &&
        dead == Buried(old(outbox), old(dead), IdsOf(claimed) - failed, failed, opts, now)
      ensures ok <==> fault.NoFault? && (claimed == [] || NoneFailed(claimed, outcome))
    {
      if fault.BeforeSchedule? {
        return false;
      }
      if claimed == [] {
        return fault.NoFault?;
      }
      var result := scheduler.ScheduleBatch(EntriesOf(claimed), outcome);
      if fault.AfterSchedule? {
        return false;
      }
      ResultTells(claimed, result, outcome);
      SweptSettles(outbox, dead, claimed, outcome, opts, now);
      Record(now, claimed, result);
      ok := fault.NoFault? && result.BatchOk?;
    }

    /** The statements of the transaction, by what ScheduleBatch reported. */
    method Record(now: int, claimed: seq<Claimed>, result: BatchResult)
      requires Claims(claimed, now)
      modifies this
      ensures var failed := FailedIds(claimed, result);
        outbox == Swept(old(outbox), IdsOf(claimed) - failed, failed, opts, now) &&
        dead == Buried(old(outbox), old(dead), IdsOf(claimed) - failed, failed, opts, now)
    {
      var succeeded, retry := Split(claimed, result);
      ghost var rows := retry[..];
      var kept, deadLetter := PartitionRetry(retry, opts);
      PartitionSizes(rows, opts);
      var bump := IdsOf(retry[..kept]);
      var bury := IdsOf(deadLetter);
      RowIds(outbox, claimed, rows, FailedIds(claimed, result), opts);
      assert bump == FailedIds(claimed, result) - bury;
      outbox := outbox - succeeded;
      outbox := BumpRows(outbox, bump, opts, now);
      dead := dead + DeadCopies(outbox, bury);
      outbox := outbox - bury;
    }
  }

  function EntriesOf(claimed: seq<Claimed>): (r: seq<ScheduleEntry>)
    ensures |r| == |claimed| && forall i :: 0 <= i < |claimed| ==> r[i] == claimed[i].row.Entry()
  {
    seq(|claimed|, i requires 0 <= i < |claimed| => claimed[i].row.Entry())
  }

  /** The rows the sweeper takes for failed are those that failed. */
  lemma ResultTells(claimed: seq<Claimed>, r: BatchResult, outcome: PipelineOutcome)
    requires r.PipelineError? <==> outcome.Broken?
    requires r.BatchOk? <==> outcome.Executed? && forall i :: 0 <= i < |claimed| ==> i !in outcome.failed
    requires r.BatchError? ==> forall i :: i in r.failed <==> i < |claimed| && i in outcome.failed
    ensures FailedIds(claimed, r) == Failures(claimed, outcome)
  {
    forall id
      ensures id in FailedIds(claimed, r) <==> id in Failures(claimed, outcome)
    {
      if id in FailedIds(claimed, r) {
        var i :| 0 <= i < |claimed| && claimed[i].id == id && (r.BatchError? ==> i in r.failed);
        assert Fails(outcome, i);
      }
      if id in Failures(claimed, outcome) {
        var i :| 0 <= i < |claimed| && claimed[i].id == id && Fails(outcome, i);
        assert claimed[i] in claimed;
      }
    }
  }

  /** The two halves of the failed rows, as ids. */
  lemma RowIds(outbox: Table, claimed: seq<Claimed>, rows: seq<Claimed>, failed: set<int>, o: Options)
    requires forall i :: 0 <= i < |claimed| ==> claimed[i].id in outbox && outbox[claimed[i].id] == claimed[i].row
    requires forall c :: c in rows <==> c in claimed && c.id in failed
    requires failed <= IdsOf(claimed)
    ensures IdsOf(Terminal(rows, o)) == ExhaustedIds(outbox, failed, o)
    ensures IdsOf(Retryable(rows, o)) == failed - ExhaustedIds(outbox, failed, o)
  {
    PartitionSizes(rows, o);
    forall id | id in failed
      ensures exists c :: c in rows && c.id == id && outbox[id] == c.row
    {
      var c :| c in claimed && c.id == id;
      assert c in rows;
    }
  }
}
