/**
 * The whole pipeline as a state machine: outbox, sorted set, stream, pending list, acknowledgement. Every step is
 * one transaction or one Redis command (or MULTI/EXEC), any number of sweepers, dispatchers and workers take part,
 * and each of them may stop for good after any step.
 */
module Pipeline {
  import opened Text
  import opened Keys
  import opened Schedule
  import opened Redis
  import opened Messages
  import opened Scheduler
  import opened Outbox
  import D = Dispatcher
  import T = Teardown

  datatype Task = Task(id: string, job: string)

  /** A sweep transaction in flight: the rows it has locked, and those Redis has confirmed to it. */
  datatype OpenTick = OpenTick(claimed: set<int>, confirmed: set<int>)

  datatype State = State(
    db: Store, outbox: Table, dead: Table,
    accepted: Table,           // every row ever committed to the outbox
    ticks: map<nat, OpenTick>, // sweeps in flight
    held: set<ScheduleEntry>,  // entries some dispatcher has read from a sorted set
    finished: set<Task>,       // tasks a worker acknowledged
    torn: set<string>)         // jobs torn down

  datatype Step =
    | Enqueue(id: int, row: OutboxRow)
    | Begin(sweep: nat, ids: set<int>)
    | ScheduleRow(sweep: nat, id: int, confirmed: bool)
    | Commit(sweep: nat, failed: set<int>, opts: Options, now: int)
    | Abort(sweep: nat)
    | ReadMember(jobId: string, member: string, score: int)
    | PublishEntry(e: ScheduleEntry)
    | PushBack(e: ScheduleEntry, score: int)
    | Deliver(jobId: string, audit: bool, count: nat, now: int)
    | Redeliver(jobId: string, audit: bool, start: nat, count: nat, minIdle: int, now: int)
    | DropMalformed(jobId: string, audit: bool, message: nat)
    | Finish(jobId: string, audit: bool, message: nat)
    | Retry(jobId: string, message: nat, retryCount: Int64, runAt: int)
    | Teardown(jobId: string)
    | Elsewhere(db: Store) // counters, pacing, configuration

  function KeyOf(jobId: string, audit: bool): string {
    if audit then LighthouseStreamKey(jobId) else StreamKey(jobId)
  }

  /** Can the consumer of that kind of stream read the message? */
  predicate ReadableBy(values: Fields, audit: bool) {
    if audit then ParseAuditRunId(values).Some? else ParseStreamMessage(0, values).Some?
  }

  function TaskOf(values: Fields): Task {
    Task(Get(values, TaskId), Get(values, JobId))
  }

  /** Some worker has been handed the message. */
  predicate Seen(db: Store, key: string, id: nat) {
    1 <= id <= db.StreamAt(key).delivered && id <= |db.StreamAt(key).entries|
  }

  function MessageAt(db: Store, key: string, id: nat): Fields
    requires Seen(db, key, id)
  {
    db.StreamAt(key).entries[id - 1]
  }

  function Reclaimed(db: Store, key: string, start: nat, count: nat, minIdle: int, now: int): Store {
    db.SetPel(key, AutoClaim(db.StreamAt(key).pel, start, count, minIdle, now).pel)
  }

  /** ScheduleAndAck of the entry a worker rebuilds from the message. */
  function Retried(db: Store, key: string, id: nat, retryCount: Int64, runAt: int): Store
    requires Seen(db, key, id) && ReadableBy(MessageAt(db, key, id), false)
  {
    AddEntry(db, RetryEntry(ParseStreamMessage(0, MessageAt(db, key, id)).value, retryCount, runAt)).XAck(key, id)
  }

  /** A dispatcher holds what it could parse and drops what it could not. */
  function AfterRead(s: State, jobId: string, member: string, parsed: Option<ScheduleEntry>): State {
    match parsed
    case Some(e) => s.(held := s.held + {e})
    case None => s.(db := s.db.ZRem(ScheduleKey(jobId), member))
  }

  /** The state after a step, or nothing when the step cannot happen. */
  ghost function Next(s: State, step: Step): Option<State> {
    match step
    case Enqueue(id, row) =>
      if id in s.accepted then None
      else Some(s.(outbox := s.outbox[id := row], accepted := s.accepted[id := row]))
    case Begin(sweep, ids) =>
      // FOR UPDATE SKIP LOCKED: rows locked by another sweep are passed over
      if sweep in s.ticks || !(ids <= s.outbox.Keys) || exists other :: other in s.ticks && !(s.ticks[other].claimed !! ids) then None
      else Some(s.(ticks := s.ticks[sweep := OpenTick(ids, {})]))
    case ScheduleRow(sweep, id, confirmed) =>
      if sweep !in s.ticks || id !in s.ticks[sweep].claimed || id !in s.outbox then None
      else
        var tick := s.ticks[sweep];
        Some(s.(db := AddEntry(s.db, s.outbox[id].Entry()),
                ticks := if confirmed then s.ticks[sweep := tick.(confirmed := tick.confirmed + {id})] else s.ticks))
    case Commit(sweep, failed, opts, now) =>
      if sweep !in s.ticks || !(failed <= s.ticks[sweep].claimed) || !(s.ticks[sweep].claimed - failed <= s.ticks[sweep].confirmed) then None
      else Some(s.(outbox := Swept(s.outbox, s.ticks[sweep].claimed - failed, failed, opts, now),
                   dead := Buried(s.outbox, s.dead, s.ticks[sweep].claimed - failed, failed, opts, now),
                   ticks := s.ticks - {sweep}))
    case Abort(sweep) => if sweep !in s.ticks then None else Some(s.(ticks := s.ticks - {sweep}))
    case ReadMember(jobId, member, score) =>
      var z := s.db.ZSetAt(ScheduleKey(jobId));
      if member !in z || z[member] != score then None else Some(AfterRead(s, jobId, member, ParseScheduleEntry(member, score)))
    case PublishEntry(e) =>
      if e !in s.held || D.RouteOf(e).None? then None else Some(s.(db := D.Publish(s.db, e, D.RouteOf(e).value)))
    case PushBack(e, score) =>
      if e !in s.held then None else Some(s.(db := s.db.ZAddXX(ScheduleKey(e.jobId), e.Member(), score)))
    case Deliver(jobId, audit, count, now) => Some(s.(db := s.db.XReadGroup(KeyOf(jobId, audit), count, now)))
    case Redeliver(jobId, audit, start, count, minIdle, now) => Some(s.(db := Reclaimed(s.db, KeyOf(jobId, audit), start, count, minIdle, now)))
    case DropMalformed(jobId, audit, id) =>
      var key := KeyOf(jobId, audit);
      if Seen(s.db, key, id) && !ReadableBy(MessageAt(s.db, key, id), audit) then Some(s.(db := s.db.XAck(key, id))) else None
    case Finish(jobId, audit, id) =>
      var key := KeyOf(jobId, audit);
      if Seen(s.db, key, id) && ReadableBy(MessageAt(s.db, key, id), audit)
      then Some(s.(db := s.db.XAck(key, id), finished := s.finished + {TaskOf(MessageAt(s.db, key, id))}))
      else None
    case Retry(jobId, id, retryCount, runAt) =>
      if Seen(s.db, StreamKey(jobId), id) && ReadableBy(MessageAt(s.db, StreamKey(jobId), id), false)
      then Some(s.(db := Retried(s.db, StreamKey(jobId), id, retryCount, runAt)))
      else None
    case Teardown(jobId) => if ColonFree(jobId) then Some(s.(db := T.Deleted(s.db, jobId), torn := s.torn + {jobId})) else None
    case Elsewhere(db) => if db.zsets == s.db.zsets && db.streams == s.db.streams then Some(s.(db := db)) else None
  }

  const START := State(Store(map[], map[], map[], map[], map[]), map[], map[], map[], map[], {}, {}, {})

  /** The state after a run from s, or nothing when some step of it cannot happen. */
  ghost function From(s: State, run: seq<Step>): Option<State>
    decreases |run|
  {
    if run == [] then Some(s)
    else match From(s, run[..|run| - 1])
      case None => None
      case Some(last) => Next(last, run[|run| - 1])
  }

  ghost function After(run: seq<Step>): Option<State> {
    From(START, run)
  }

  // ---------- where a task can be ----------

  predicate Live(s: Stream, k: nat) {
    1 <= k <= |s.entries| && (k > s.delivered || Awaited(s.pel, k))
  }

  predicate Awaited(pel: seq<PelEntry>, k: nat) {
    exists e :: e in pel && e.id == k
  }

  /** The message stands for the task, and a consumer of its stream will be able to read it. */
  predicate Carries(values: Fields, audit: bool, t: Task) {
    TaskOf(values) == t && ReadableBy(values, false) && ReadableBy(values, audit)
  }

  predicate Holds(s: Stream, k: nat, audit: bool, t: Task) {
    Live(s, k) && Carries(s.entries[k - 1], audit, t)
  }

  /** Undelivered, or delivered and not yet acknowledged. */
  ghost predicate InStream(s: Stream, audit: bool, t: Task) {
    exists k :: Holds(s, k, audit, t)
  }

  predicate MemberOf(m: string, t: Task) {
    ParseScheduleEntry(m, 0).Some? && EntryOf(ParseScheduleEntry(m, 0).value, t)
  }

  predicate EntryOf(e: ScheduleEntry, t: Task) {
    e.taskId == t.id && e.jobId == t.job && t.id != "" && t.job != "" && e.host != "" && e.path != ""
  }

  ghost predicate InSchedule(z: ZSet, t: Task) {
    exists m :: m in z && MemberOf(m, t)
  }

  ghost predicate Safe(db: Store, finished: set<Task>, t: Task) {
    t in finished || InSchedule(db.ZSetAt(ScheduleKey(t.job)), t) ||
    InStream(db.StreamAt(StreamKey(t.job)), false, t) || InStream(db.StreamAt(LighthouseStreamKey(t.job)), true, t)
  }

  // ---------- text that survives printing ----------

  predicate PipeFreeValues(v: Fields) {
    PipeFree(Get(v, TaskId)) && PipeFree(Get(v, JobId)) && PipeFree(Get(v, Host)) && PipeFree(Get(v, Path)) &&
    PipeFree(Get(v, SourceType)) && PipeFree(Get(v, SourceUrl))
  }

  ghost predicate CleanStream(s: Stream) {
    s.delivered <= |s.entries| && forall v :: v in s.entries ==> PipeFreeValues(v)
  }

  ghost predicate CleanHeld(held: set<ScheduleEntry>) {
    forall e :: e in held ==> e.HasPipeFreeText()
  }

  ghost predicate CleanStore(db: Store) {
    forall key :: CleanStream(db.StreamAt(key))
  }

  ghost predicate Clean(s: State) {
    CleanHeld(s.held) && CleanStore(s.db)
  }

  // ---------- the three hand-overs ----------

  /** Outbox to sorted set. */
  lemma AddedMember(e: ScheduleEntry, t: Task)
    requires e.HasPipeFreeText() && EntryOf(e, t)
    ensures MemberOf(e.Member(), t)
  {
    ParseAfterPrint(e, 0);
  }

  /** Sorted set to stream. */
  lemma PublishedMessage(e: ScheduleEntry, t: Task)
    requires e.HasPipeFreeText() && MemberOf(e.Member(), t) && D.RouteOf(e).Some?
    ensures e.jobId == t.job && exists audit :: D.RouteOf(e).value == KeyOf(t.job, audit) && Carries(StreamValues(e), audit, t)
  {
    ParseAfterPrint(e, 0);
    assert EntryOf(e, t);
    MessageRoundTrip(e, 0);
    Messages.FieldsReadBack(e);
    if e.TaskTypeOrDefault() == "crawl" {
      assert Carries(StreamValues(e), false, t) && D.RouteOf(e).value == KeyOf(t.job, false);
    } else {
      AuditMessageRoundTrip(e);
      assert Carries(StreamValues(e), true, t) && D.RouteOf(e).value == KeyOf(t.job, true);
    }
  }

  /** Stream back to sorted set. */
  lemma RetriedMember(v: Fields, audit: bool, t: Task, retryCount: Int64, runAt: int)
    requires Carries(v, audit, t) && PipeFreeValues(v)
    ensures var e := RetryEntry(ParseStreamMessage(0, v).value, retryCount, runAt); e.jobId == t.job && MemberOf(e.Member(), t)
  {
    var e := RetryEntry(ParseStreamMessage(0, v).value, retryCount, runAt);
    assert PipeFree("");
    AddedMember(e, t);
  }

  /**
   * What a worker reads is what was put into the outbox, field for field, the priority to four decimals: through the
   * sorted set, back into an entry, and through the stream of the row's kind.
   */
  lemma RowReachesWorker(row: OutboxRow, score: int, id: nat)
    requires WellFormed(row)
    ensures var stored := ParseScheduleEntry(row.Entry().Member(), score);
      stored.Some? &&
      ((row.taskType == "" || row.taskType == "crawl") ==>
        D.RouteOf(stored.value) == Some(StreamKey(row.jobId)) &&
        ParseStreamMessage(id, StreamValues(stored.value)) ==
          Some(StreamMessage(id, row.taskId, row.jobId, row.pageId, row.host, row.path, Round4(row.priority), row.retryCount, row.sourceType, row.sourceUrl))) &&
      (row.taskType == "lighthouse" && row.lighthouseRunId.Some? && row.lighthouseRunId.value > 0 ==>
        D.RouteOf(stored.value) == Some(LighthouseStreamKey(row.jobId)) &&
        ParseAuditRunId(StreamValues(stored.value)) == row.lighthouseRunId)
  {
    hide IntStr, Fixed4, ParseInt, ParseDecimal, StreamValues, ParseStreamMessage, ParseAuditRunId, ParseScheduleEntry;
    var e := row.Entry();
    ParseAfterPrint(e, score);
    var stored := e.Stored(score);
    MessageRoundTrip(stored, id);
    RoundedTwice(row.priority);
    if stored.TaskTypeOrDefault() == "lighthouse" {
      AuditMessageRoundTrip(stored);
    }
  }

  lemma RoundedTwice(x: Priority)
    ensures Round4(Round4(x)) == Round4(x)
  {
    Fixed4Rounds(x);
  }

  /** A retry brings the worker the same message again, with the new retry count. */
  lemma RetryReachesWorker(v: Fields, retryCount: Int64, runAt: int, score: int, id: nat)
    requires ParseStreamMessage(id, v).Some? && PipeFreeValues(v)
    ensures var m := ParseStreamMessage(id, v).value;
      var stored := ParseScheduleEntry(RetryEntry(m, retryCount, runAt).Member(), score);
      stored.Some? && D.RouteOf(stored.value) == Some(StreamKey(m.jobId)) &&
      ParseStreamMessage(id, StreamValues(stored.value)) == Some(m.(retryCount := retryCount, priority := Round4(m.priority)))
  {
    var m := ParseStreamMessage(id, v).value;
    var e := RetryEntry(m, retryCount, runAt);
    ReadFromFields(v, id);
    hide IntStr, Fixed4, ParseInt, ParseDecimal, StreamValues, ParseStreamMessage, ParseScheduleEntry, PipeFreeValues;
    assert e.HasPipeFreeText() by {
      assert PipeFree("");
    }
    ParseAfterPrint(e, score);
    MessageRoundTrip(e.Stored(score), id);
    RoundedTwice(m.priority);
  }

  lemma ReadFromFields(v: Fields, id: nat)
    requires ParseStreamMessage(id, v).Some? && PipeFreeValues(v)
    ensures var m := ParseStreamMessage(id, v).value;
      m.messageId == id && m.taskId != "" && m.jobId != "" && m.host != "" && m.path != "" &&
      PipeFree(m.taskId) && PipeFree(m.jobId) && PipeFree(m.host) && PipeFree(m.path) && PipeFree(m.sourceType) && PipeFree(m.sourceUrl)
  {
    assert PipeFree("");
  }

  // ---------- what a step takes away ----------

  ghost predicate ZSetKeeps(z: ZSet, z': ZSet, t: Task) {
    forall m :: m in z && MemberOf(m, t) ==> m in z'
  }

  ghost predicate StreamKeeps(s: Stream, s': Stream, audit: bool, t: Task) {
    s.entries <= s'.entries && forall k :: Holds(s, k, audit, t) ==> Live(s', k)
  }

  ghost predicate Keeps(db: Store, db': Store, t: Task) {
    ZSetKeeps(db.ZSetAt(ScheduleKey(t.job)), db'.ZSetAt(ScheduleKey(t.job)), t) &&
    StreamKeeps(db.StreamAt(StreamKey(t.job)), db'.StreamAt(StreamKey(t.job)), false, t) &&
    StreamKeeps(db.StreamAt(LighthouseStreamKey(t.job)), db'.StreamAt(LighthouseStreamKey(t.job)), true, t)
  }

  lemma StreamKept(s: Stream, s': Stream, audit: bool, t: Task)
    requires StreamKeeps(s, s', audit, t) && InStream(s, audit, t)
    ensures InStream(s', audit, t)
  {
    var k :| Holds(s, k, audit, t);
    assert Holds(s', k, audit, t);
  }

  lemma KeptSafe(db: Store, db': Store, finished: set<Task>, finished': set<Task>, t: Task)
    requires Safe(db, finished, t) && Keeps(db, db', t) && finished <= finished'
    ensures Safe(db', finished', t)
  {
    if InStream(db.StreamAt(StreamKey(t.job)), false, t) {
      StreamKept(db.StreamAt(StreamKey(t.job)), db'.StreamAt(StreamKey(t.job)), false, t);
    }
    if InStream(db.StreamAt(LighthouseStreamKey(t.job)), true, t) {
      StreamKept(db.StreamAt(LighthouseStreamKey(t.job)), db'.StreamAt(LighthouseStreamKey(t.job)), true, t);
    }
  }

  lemma AddKeeps(db: Store, e: ScheduleEntry, t: Task)
    ensures Keeps(db, AddEntry(db, e), t)
    ensures EntryOf(e, t) && e.HasPipeFreeText() ==> InSchedule(AddEntry(db, e).ZSetAt(ScheduleKey(t.job)), t)
  {
    ZAddEffect(db, ScheduleKey(e.jobId), e.Member(), e.runAt);
    if EntryOf(e, t) && e.HasPipeFreeText() {
      AddedMember(e, t);
      assert e.Member() in AddEntry(db, e).ZSetAt(ScheduleKey(t.job));
    }
  }

  lemma PushBackKeeps(db: Store, e: ScheduleEntry, score: int, t: Task)
    ensures Keeps(db, db.ZAddXX(ScheduleKey(e.jobId), e.Member(), score), t)
  {
    ZAddEffect(db, ScheduleKey(e.jobId), e.Member(), score);
  }

  lemma DropMemberKeeps(db: Store, key: string, member: string, t: Task)
    requires !MemberOf(member, t)
    ensures Keeps(db, db.ZRem(key, member), t)
  {
    ZRemEffect(db, key, member);
  }

  /** Only one stream changed, and it kept its entries and, apart from lost, its live ids. */
  ghost predicate OneStream(db: Store, key: string, db': Store, lost: nat) {
    db'.zsets == db.zsets && (forall k :: k != key ==> db'.StreamAt(k) == db.StreamAt(k)) &&
    db'.StreamAt(key).entries == db.StreamAt(key).entries &&
    forall k: nat :: k != lost && Live(db.StreamAt(key), k) ==> Live(db'.StreamAt(key), k)
  }

  lemma OneStreamKeeps(db: Store, key: string, db': Store, lost: nat, t: Task)
    requires OneStream(db, key, db', lost)
    requires !Holds(db.StreamAt(key), lost, false, t) && !Holds(db.StreamAt(key), lost, true, t)
    ensures Keeps(db, db', t)
  {
  }

  lemma DeliverChanges(db: Store, key: string, count: nat, now: int)
    ensures OneStream(db, key, db.XReadGroup(key, count, now), 0)
  {
    var s, s' := db.StreamAt(key), db.XReadGroup(key, count, now).StreamAt(key);
    if key in db.streams {
      var n := s'.delivered - s.delivered;
      forall k: nat | Live(s, k)
        ensures Live(s', k)
      {
        if Awaited(s.pel, k) {
          var e :| e in s.pel && e.id == k;
          assert e in s'.pel;
        } else if k <= s'.delivered {
          var e := Fresh(s.delivered + 1, n, now)[k - s.delivered - 1];
          assert e in s'.pel && e.id == k;
        }
      }
    }
  }

  lemma ClaimKeepsIds(pel: seq<PelEntry>, start: nat, count: nat, minIdle: int, now: int, k: nat)
    requires Awaited(pel, k)
    ensures Awaited(AutoClaim(pel, start, count, minIdle, now).pel, k)
  {
    var pel' := AutoClaim(pel, start, count, minIdle, now).pel;
    var n :| 0 <= n < |pel| && pel[n].id == k;
    assert |pel'| == |pel|;
    assert pel'[n].id == k;
    assert pel'[n] in pel';
  }

  lemma RedeliverChanges(db: Store, key: string, start: nat, count: nat, minIdle: int, now: int)
    ensures OneStream(db, key, Reclaimed(db, key, start, count, minIdle, now), 0)
  {
    var s := db.StreamAt(key);
    forall k: nat | Awaited(s.pel, k)
      ensures Awaited(AutoClaim(s.pel, start, count, minIdle, now).pel, k)
    {
      ClaimKeepsIds(s.pel, start, count, minIdle, now, k);
    }
  }

  lemma AckChanges(db: Store, key: string, id: nat)
    ensures OneStream(db, key, db.XAck(key, id), id)
  {
    var s, s' := db.StreamAt(key), db.XAck(key, id).StreamAt(key);
    forall k: nat | k != id && Live(s, k)
      ensures Live(s', k)
    {
      if Awaited(s.pel, k) {
        var e :| e in s.pel && e.id == k;
        assert e in s'.pel;
      }
    }
  }

  lemma PublishSafe(db: Store, e: ScheduleEntry, finished: set<Task>, t: Task)
    requires e.HasPipeFreeText() && D.RouteOf(e).Some? && CleanStore(db)
    requires Safe(db, finished, t)
    ensures Safe(D.Publish(db, e, D.RouteOf(e).value), finished, t)
  {
    var route := D.RouteOf(e).value;
    var db' := D.Publish(db, e, route);
    D.PublishChanges(db, e, route);
    if MemberOf(e.Member(), t) {
      PublishedMessage(e, t);
      var audit :| route == KeyOf(t.job, audit) && Carries(StreamValues(e), audit, t);
      assert CleanStream(db.StreamAt(route));
      assert Holds(db'.StreamAt(route), |db.StreamAt(route).entries| + 1, audit, t);
    } else {
      KeptSafe(db, db', finished, finished, t);
    }
  }

  lemma DropSafe(db: Store, jobId: string, audit: bool, id: nat, finished: set<Task>, t: Task)
    requires var key := KeyOf(jobId, audit); Seen(db, key, id) && !ReadableBy(MessageAt(db, key, id), audit)
    requires ColonFree(t.job) && Safe(db, finished, t)
    ensures Safe(db.XAck(KeyOf(jobId, audit), id), finished, t)
  {
    var key := KeyOf(jobId, audit);
    AckChanges(db, key, id);
    if audit {
      StreamsApart(t.job, jobId);
    }
    assert !Holds(db.StreamAt(key), id, audit, t) && !Holds(db.StreamAt(key), id, true, t);
    KeptSafe(db, db.XAck(key, id), finished, finished, t);
  }

  lemma FinishSafe(db: Store, key: string, id: nat, finished: set<Task>, t: Task)
    requires Seen(db, key, id) && Safe(db, finished, t)
    ensures Safe(db.XAck(key, id), finished + {TaskOf(MessageAt(db, key, id))}, t)
  {
    if TaskOf(MessageAt(db, key, id)) != t {
      AckChanges(db, key, id);
      OneStreamKeeps(db, key, db.XAck(key, id), id, t);
      KeptSafe(db, db.XAck(key, id), finished, finished + {TaskOf(MessageAt(db, key, id))}, t);
    }
  }

  lemma RetrySafe(db: Store, key: string, id: nat, retryCount: Int64, runAt: int, finished: set<Task>, t: Task)
    requires Seen(db, key, id) && ReadableBy(MessageAt(db, key, id), false) && CleanStream(db.StreamAt(key))
    requires Safe(db, finished, t)
    ensures Safe(Retried(db, key, id, retryCount, runAt), finished, t)
  {
    var v := MessageAt(db, key, id);
    var e := RetryEntry(ParseStreamMessage(0, v).value, retryCount, runAt);
    var added := AddEntry(db, e);
    var db' := added.XAck(key, id);
    ZAddEffect(db, ScheduleKey(e.jobId), e.Member(), e.runAt);
    AckChanges(added, key, id);
    assert added.StreamAt(key) == db.StreamAt(key);
    if Carries(v, false, t) {
      assert v in db.StreamAt(key).entries;
      RetriedMember(v, false, t, retryCount, runAt);
      assert e.Member() in db'.ZSetAt(ScheduleKey(t.job));
    } else {
      AddKeeps(db, e, t);
      KeptSafe(db, added, finished, finished, t);
      assert !Carries(v, true, t);
      OneStreamKeeps(added, key, db', id, t);
      KeptSafe(added, db', finished, finished, t);
    }
  }

  lemma TeardownKeeps(db: Store, jobId: string, t: Task)
    requires ColonFree(jobId) && ColonFree(t.job) && jobId != t.job
    ensures Keeps(db, T.Deleted(db, jobId), t)
  {
    T.KeysApart(jobId, t.job);
  }

  lemma ScheduleSafe(db: Store, e: ScheduleEntry, finished: set<Task>, t: Task)
    requires Safe(db, finished, t)
    ensures Safe(AddEntry(db, e), finished, t)
  {
    AddKeeps(db, e, t);
    KeptSafe(db, AddEntry(db, e), finished, finished, t);
  }

  lemma DropMemberSafe(db: Store, key: string, member: string, score: int, finished: set<Task>, t: Task)
    requires Safe(db, finished, t) && ParseScheduleEntry(member, score).None?
    ensures Safe(db.ZRem(key, member), finished, t)
  {
    MalformedAnyScore(member, score, 0);
    DropMemberKeeps(db, key, member, t);
    KeptSafe(db, db.ZRem(key, member), finished, finished, t);
  }

  lemma PushBackSafe(db: Store, e: ScheduleEntry, score: int, finished: set<Task>, t: Task)
    requires Safe(db, finished, t)
    ensures Safe(db.ZAddXX(ScheduleKey(e.jobId), e.Member(), score), finished, t)
  {
    PushBackKeeps(db, e, score, t);
    KeptSafe(db, db.ZAddXX(ScheduleKey(e.jobId), e.Member(), score), finished, finished, t);
  }

  /** A change of one stream that loses no live id. */
  lemma OneStreamSafe(db: Store, key: string, db': Store, finished: set<Task>, t: Task)
    requires OneStream(db, key, db', 0) && Safe(db, finished, t)
    ensures Safe(db', finished, t)
  {
    OneStreamKeeps(db, key, db', 0, t);
    KeptSafe(db, db', finished, finished, t);
  }

  lemma DeliverSafe(db: Store, key: string, count: nat, now: int, finished: set<Task>, t: Task)
    requires Safe(db, finished, t)
    ensures Safe(db.XReadGroup(key, count, now), finished, t)
  {
    DeliverChanges(db, key, count, now);
    OneStreamSafe(db, key, db.XReadGroup(key, count, now), finished, t);
  }

  lemma RedeliverSafe(db: Store, key: string, start: nat, count: nat, minIdle: int, now: int, finished: set<Task>, t: Task)
    requires Safe(db, finished, t)
    ensures Safe(Reclaimed(db, key, start, count, minIdle, now), finished, t)
  {
    RedeliverChanges(db, key, start, count, minIdle, now);
    OneStreamSafe(db, key, Reclaimed(db, key, start, count, minIdle, now), finished, t);
  }

  lemma TeardownSafe(db: Store, jobId: string, finished: set<Task>, t: Task)
    requires ColonFree(jobId) && ColonFree(t.job) && jobId != t.job && Safe(db, finished, t)
    ensures Safe(T.Deleted(db, jobId), finished, t)
  {
    TeardownKeeps(db, jobId, t);
    KeptSafe(db, T.Deleted(db, jobId), finished, finished, t);
  }

  // ---------- one step ----------

  lemma ReadMemberSafe(s: State, step: Step, s': State, t: Task)
    requires Next(s, step) == Some(s') && Clean(s) && Safe(s.db, s.finished, t) && step.ReadMember?
    ensures Safe(s'.db, s'.finished, t)
  {
    ReadNeedsMember(s, step);
    if ParseScheduleEntry(step.member, step.score).None? {
      DropMemberSafe(s.db, ScheduleKey(step.jobId), step.member, step.score, s.finished, t);
    }
  }

  lemma ReadNeedsMember(s: State, step: Step)
    requires Next(s, step).Some? && step.ReadMember?
    ensures var z := s.db.ZSetAt(ScheduleKey(step.jobId)); step.member in z && z[step.member] == step.score
    ensures Next(s, step) == Some(AfterRead(s, step.jobId, step.member, ParseScheduleEntry(step.member, step.score)))
  {
  }

  lemma SortedSetStepSafe(s: State, step: Step, s': State, t: Task)
    requires Next(s, step) == Some(s') && Clean(s) && Safe(s.db, s.finished, t)
    requires step.ScheduleRow? || step.ReadMember? || step.PublishEntry? || step.PushBack?
    ensures Safe(s'.db, s'.finished, t)
  {
    match step
    case ScheduleRow(_, id, _) => ScheduleSafe(s.db, s.outbox[id].Entry(), s.finished, t);
    case ReadMember(_, _, _) => ReadMemberSafe(s, step, s', t);
    case PublishEntry(e) => PublishSafe(s.db, e, s.finished, t);
    case PushBack(e, score) => PushBackSafe(s.db, e, score, s.finished, t);
  }

  lemma StreamStepSafe(s: State, step: Step, s': State, t: Task)
    requires Next(s, step) == Some(s') && Clean(s) && Safe(s.db, s.finished, t) && ColonFree(t.job)
    requires step.Deliver? || step.Redeliver? || step.DropMalformed? || step.Finish? || step.Retry?
    ensures Safe(s'.db, s'.finished, t)
  {
    match step
    case Deliver(jobId, audit, count, now) => DeliverSafe(s.db, KeyOf(jobId, audit), count, now, s.finished, t);
    case Redeliver(jobId, audit, start, count, minIdle, now) =>
      RedeliverSafe(s.db, KeyOf(jobId, audit), start, count, minIdle, now, s.finished, t);
    case DropMalformed(jobId, audit, id) => DropSafe(s.db, jobId, audit, id, s.finished, t);
    case Finish(jobId, audit, id) => FinishSafe(s.db, KeyOf(jobId, audit), id, s.finished, t);
    case Retry(jobId, id, retryCount, runAt) => RetrySafe(s.db, StreamKey(jobId), id, retryCount, runAt, s.finished, t);
  }

  /** No step loses a task that Redis has, other than by tearing down its job. */
  lemma StepSafe(s: State, step: Step, s': State, t: Task)
    requires Next(s, step) == Some(s') && Clean(s) && Safe(s.db, s.finished, t)
    requires ColonFree(t.job) && t.job !in s'.torn
    ensures Safe(s'.db, s'.finished, t)
  {
    match step
    case ScheduleRow(_, _, _) => SortedSetStepSafe(s, step, s', t);
    case ReadMember(_, _, _) => SortedSetStepSafe(s, step, s', t);
    case PublishEntry(_) => SortedSetStepSafe(s, step, s', t);
    case PushBack(_, _) => SortedSetStepSafe(s, step, s', t);
    case Enqueue(_, _) =>
    case Begin(_, _) =>
    case Commit(_, _, _, _) =>
    case Abort(_) =>
    case Teardown(jobId) => TeardownSafe(s.db, jobId, s.finished, t);
    case Elsewhere(_) =>
    case _ => StreamStepSafe(s, step, s', t);
  }

  lemma PublishClean(db: Store, e: ScheduleEntry, route: string)
    requires CleanStore(db) && e.HasPipeFreeText()
    ensures CleanStore(D.Publish(db, e, route))
  {
    Messages.FieldsReadBack(e);
    D.PublishChanges(db, e, route);
    forall key
      ensures CleanStream(D.Publish(db, e, route).StreamAt(key))
    {
      assert CleanStream(db.StreamAt(key));
    }
  }

  /** No entry was added to any stream, and none was read past the end. */
  ghost predicate SameEntries(db: Store, db': Store) {
    forall key :: db'.StreamAt(key).delivered <= |db'.StreamAt(key).entries| &&
      (db'.StreamAt(key).entries == db.StreamAt(key).entries || db'.StreamAt(key).entries == [])
  }

  lemma EntriesClean(db: Store, db': Store)
    requires CleanStore(db) && SameEntries(db, db')
    ensures CleanStore(db')
  {
    forall key
      ensures CleanStream(db'.StreamAt(key))
    {
      assert CleanStream(db.StreamAt(key));
    }
  }

  lemma OneStreamEntries(db: Store, key: string, db': Store, lost: nat)
    requires CleanStore(db) && OneStream(db, key, db', lost)
    requires db'.StreamAt(key).delivered <= |db'.StreamAt(key).entries|
    ensures SameEntries(db, db')
  {
    forall k
      ensures db.StreamAt(k).delivered <= |db.StreamAt(k).entries|
    {
      assert CleanStream(db.StreamAt(k));
    }
  }

  lemma DeliverEntries(db: Store, key: string, count: nat, now: int)
    requires CleanStore(db)
    ensures SameEntries(db, db.XReadGroup(key, count, now))
  {
    DeliverChanges(db, key, count, now);
    assert CleanStream(db.StreamAt(key));
    OneStreamEntries(db, key, db.XReadGroup(key, count, now), 0);
  }

  lemma PelEntries(db: Store, key: string, pel: seq<PelEntry>)
    requires CleanStore(db)
    ensures SameEntries(db, db.SetPel(key, pel))
  {
    var db' := db.SetPel(key, pel);
    forall k
      ensures db'.StreamAt(k).delivered <= |db'.StreamAt(k).entries| && db'.StreamAt(k).entries == db.StreamAt(k).entries
    {
      assert CleanStream(db.StreamAt(k));
    }
  }

  lemma AckEntries(db: Store, key: string, id: nat)
    requires CleanStore(db)
    ensures SameEntries(db, db.XAck(key, id))
  {
    AckChanges(db, key, id);
    assert CleanStream(db.StreamAt(key));
    OneStreamEntries(db, key, db.XAck(key, id), id);
  }

  lemma RetryEntries(db: Store, e: ScheduleEntry, key: string, id: nat)
    requires CleanStore(db)
    ensures SameEntries(db, AddEntry(db, e).XAck(key, id))
  {
    var added := AddEntry(db, e);
    ZAddEffect(db, ScheduleKey(e.jobId), e.Member(), e.runAt);
    SameStreams(db, added);
    EntriesClean(db, added);
    AckEntries(added, key, id);
    forall k
      ensures added.StreamAt(k) == db.StreamAt(k)
    {
    }
  }

  lemma SameStreams(db: Store, db': Store)
    requires CleanStore(db) && db'.streams == db.streams
    ensures SameEntries(db, db')
  {
    forall k
      ensures db'.StreamAt(k) == db.StreamAt(k) && db.StreamAt(k).delivered <= |db.StreamAt(k).entries|
    {
      assert CleanStream(db.StreamAt(k));
    }
  }

  lemma RemovedEntries(db: Store, jobId: string)
    requires CleanStore(db)
    ensures SameEntries(db, T.Deleted(db, jobId))
  {
    forall k
      ensures var st := T.Deleted(db, jobId).StreamAt(k);
        st.delivered <= |st.entries| && (st.entries == db.StreamAt(k).entries || st.entries == [])
    {
      assert CleanStream(db.StreamAt(k));
    }
  }

  lemma DeliverStepEntries(s: State, step: Step, s': State)
    requires Next(s, step) == Some(s') && CleanStore(s.db) && step.Deliver?
    ensures SameEntries(s.db, s'.db)
  {
    DeliverEntries(s.db, KeyOf(step.jobId, step.audit), step.count, step.now);
  }

  lemma RedeliverStepEntries(s: State, step: Step, s': State)
    requires Next(s, step) == Some(s') && CleanStore(s.db) && step.Redeliver?
    ensures SameEntries(s.db, s'.db)
  {
    var key := KeyOf(step.jobId, step.audit);
    PelEntries(s.db, key, AutoClaim(s.db.StreamAt(key).pel, step.start, step.count, step.minIdle, step.now).pel);
  }

  lemma AckStepEntries(s: State, step: Step, s': State)
    requires Next(s, step) == Some(s') && CleanStore(s.db) && (step.DropMalformed? || step.Finish?)
    ensures SameEntries(s.db, s'.db)
  {
    AckEntries(s.db, KeyOf(step.jobId, step.audit), step.message);
  }

  lemma RetryStepEntries(s: State, step: Step, s': State)
    requires Next(s, step) == Some(s') && CleanStore(s.db) && step.Retry?
    ensures SameEntries(s.db, s'.db)
  {
    var key := StreamKey(step.jobId);
    RetryEntries(s.db, RetryEntry(ParseStreamMessage(0, MessageAt(s.db, key, step.message)).value, step.retryCount, step.runAt), key, step.message);
  }

  lemma SameEntriesStep(s: State, step: Step, s': State)
    requires Next(s, step) == Some(s') && CleanStore(s.db) && !step.PublishEntry?
    ensures SameEntries(s.db, s'.db)
  {
    match step
    case Deliver(_, _, _, _) => DeliverStepEntries(s, step, s');
    case Redeliver(_, _, _, _, _, _) => RedeliverStepEntries(s, step, s');
    case DropMalformed(_, _, _) => AckStepEntries(s, step, s');
    case Finish(_, _, _) => AckStepEntries(s, step, s');
    case Retry(_, _, _, _) => RetryStepEntries(s, step, s');
    case Teardown(jobId) => RemovedEntries(s.db, jobId);
    case ScheduleRow(_, _, _) => SortedSetStepStreams(s, step, s');
    case ReadMember(_, _, _) => SortedSetStepStreams(s, step, s');
    case PushBack(_, _) => SortedSetStepStreams(s, step, s');
    case _ => SameStreams(s.db, s'.db);
  }

  lemma SortedSetStepStreams(s: State, step: Step, s': State)
    requires Next(s, step) == Some(s') && CleanStore(s.db) && (step.ScheduleRow? || step.ReadMember? || step.PushBack?)
    ensures SameEntries(s.db, s'.db)
  {
    SameStreams(s.db, s'.db);
  }

  lemma StepClean(s: State, step: Step, s': State)
    requires Next(s, step) == Some(s') && Clean(s)
    ensures Clean(s')
  {
    if step.PublishEntry? {
      PublishClean(s.db, step.e, D.RouteOf(step.e).value);
    } else {
      SameEntriesStep(s, step, s');
      EntriesClean(s.db, s'.db);
      StepHeld(s, step, s');
    }
  }

  lemma StepHeld(s: State, step: Step, s': State)
    requires Next(s, step) == Some(s') && CleanHeld(s.held)
    ensures CleanHeld(s'.held)
  {
    if step.ReadMember? {
      var parsed := ParseScheduleEntry(step.member, step.score);
      if parsed.Some? {
        ParsedIsPipeFree(step.member, step.score);
      }
      assert s' == AfterRead(s, step.jobId, step.member, parsed);
    } else {
      OnlyReadsHold(s, step, s');
    }
  }

  lemma OnlyReadsHold(s: State, step: Step, s': State)
    requires Next(s, step) == Some(s') && !step.ReadMember?
    ensures s'.held == s.held
  {
  }

  // ---------- the outbox side ----------

  predicate SameRow(a: OutboxRow, b: OutboxRow) {
    a.(attempts := b.attempts, runAt := b.runAt) == b
  }

  /** Sweeps lock live rows, no two the same one, and confirm only rows they locked. */
  ghost predicate TicksApart(outbox: Table, ticks: map<nat, OpenTick>) {
    (forall s :: s in ticks ==> ticks[s].confirmed <= ticks[s].claimed && ticks[s].claimed <= outbox.Keys) &&
    (forall s, r :: s in ticks && r in ticks && s != r ==> ticks[s].claimed !! ticks[r].claimed)
  }

  /** Rows keep their contents while they are in either table, and are in one table at a time. */
  ghost predicate RowsKept(accepted: Table, outbox: Table, dead: Table) {
    outbox.Keys !! dead.Keys &&
    (forall id :: id in outbox ==> id in accepted && SameRow(outbox[id], accepted[id])) &&
    (forall id :: id in dead ==> id in accepted && SameRow(dead[id], accepted[id]))
  }

  function RowTask(row: OutboxRow): Task {
    Task(row.taskId, row.jobId)
  }

  predicate WellFormed(row: OutboxRow) {
    row.Entry().HasPipeFreeText() && row.taskId != "" && row.jobId != "" && row.host != "" && row.path != "" && ColonFree(row.jobId)
  }

  /** Redis has the task of that row, if the row is well-formed and its job has not been torn down. */
  ghost predicate RowSafe(s: State, id: int)
    requires id in s.accepted
  {
    WellFormed(s.accepted[id]) && s.accepted[id].jobId !in s.torn ==> Safe(s.db, s.finished, RowTask(s.accepted[id]))
  }

  /** The row waits in the outbox, lies in the dead-letter table, or Redis has its task. */
  ghost predicate Accounted(s: State, id: int)
    requires id in s.accepted
  {
    id in s.outbox || id in s.dead || RowSafe(s, id)
  }

  ghost predicate AllAccounted(s: State) {
    forall id :: id in s.accepted ==> Accounted(s, id)
  }

  ghost predicate ConfirmedSafe(s: State) {
    forall sweep, id :: sweep in s.ticks && id in s.ticks[sweep].confirmed ==> id in s.accepted && RowSafe(s, id)
  }

  ghost predicate Inv(s: State) {
    Clean(s) && TicksApart(s.outbox, s.ticks) && RowsKept(s.accepted, s.outbox, s.dead) && ConfirmedSafe(s) && AllAccounted(s)
  }

  lemma RowSafeKept(s: State, step: Step, s': State, id: int)
    requires Next(s, step) == Some(s') && Clean(s)
    requires id in s.accepted && RowSafe(s, id) && id in s'.accepted && s'.accepted[id] == s.accepted[id]
    ensures RowSafe(s', id)
  {
    if WellFormed(s.accepted[id]) && s.accepted[id].jobId !in s'.torn {
      assert s.torn <= s'.torn;
      StepSafe(s, step, s', RowTask(s.accepted[id]));
    }
  }

  lemma ScheduledRowSafe(s: State, step: Step, s': State)
    requires Next(s, step) == Some(s') && step.ScheduleRow? && RowsKept(s.accepted, s.outbox, s.dead)
    ensures step.id in s'.accepted && RowSafe(s', step.id)
  {
    var row, first := s.outbox[step.id], s.accepted[step.id];
    if WellFormed(first) {
      assert SameRow(row, first);
      AddKeeps(s.db, row.Entry(), RowTask(first));
    }
  }

  lemma ConfirmedOnlyBySchedule(s: State, step: Step, s': State, sweep: nat, id: int)
    requires Next(s, step) == Some(s') && sweep in s'.ticks && id in s'.ticks[sweep].confirmed
    requires !(step.ScheduleRow? && step.id == id)
    ensures sweep in s.ticks && id in s.ticks[sweep].confirmed
  {
  }

  lemma ConfirmedBefore(s: State, step: Step, s': State, sweep: nat, id: int)
    requires Next(s, step) == Some(s') && Inv(s) && sweep in s'.ticks && id in s'.ticks[sweep].confirmed
    requires !(step.ScheduleRow? && step.id == id)
    ensures id in s.accepted && RowSafe(s, id) && id in s'.accepted && s'.accepted[id] == s.accepted[id]
  {
    ConfirmedOnlyBySchedule(s, step, s', sweep, id);
    AcceptedStays(s, step, s', id);
  }

  lemma AcceptedStays(s: State, step: Step, s': State, id: int)
    requires Next(s, step) == Some(s') && id in s.accepted
    ensures id in s'.accepted && s'.accepted[id] == s.accepted[id]
  {
  }

  lemma StepConfirmed(s: State, step: Step, s': State)
    requires Next(s, step) == Some(s') && Inv(s)
    ensures ConfirmedSafe(s')
  {
    forall sweep, id | sweep in s'.ticks && id in s'.ticks[sweep].confirmed
      ensures id in s'.accepted && RowSafe(s', id)
    {
      if step.ScheduleRow? && step.id == id {
        ScheduledRowSafe(s, step, s');
      } else {
        ConfirmedBefore(s, step, s', sweep, id);
        RowSafeKept(s, step, s', id);
      }
    }
  }

  lemma StepTicks(s: State, step: Step, s': State)
    requires Next(s, step) == Some(s') && TicksApart(s.outbox, s.ticks)
    ensures TicksApart(s'.outbox, s'.ticks)
  {
    if step.Begin? || step.ScheduleRow? || step.Commit? {
      SweepTicks(s, step, s');
    }
  }

  lemma SweepTicks(s: State, step: Step, s': State)
    requires Next(s, step) == Some(s') && TicksApart(s.outbox, s.ticks) && (step.Begin? || step.ScheduleRow? || step.Commit?)
    ensures TicksApart(s'.outbox, s'.ticks)
  {
  }

  lemma StepRows(s: State, step: Step, s': State)
    requires Next(s, step) == Some(s') && RowsKept(s.accepted, s.outbox, s.dead)
    ensures RowsKept(s'.accepted, s'.outbox, s'.dead)
  {
    if step.Enqueue? || step.Commit? {
      TableRows(s, step, s');
    }
  }

  lemma TableRows(s: State, step: Step, s': State)
    requires Next(s, step) == Some(s') && RowsKept(s.accepted, s.outbox, s.dead) && (step.Enqueue? || step.Commit?)
    ensures RowsKept(s'.accepted, s'.outbox, s'.dead)
  {
  }

  /** Rows leave their table only at a commit. */
  lemma RowsStay(s: State, step: Step, s': State, id: int)
    requires Next(s, step) == Some(s') && !step.Commit?
    ensures (id in s.outbox ==> id in s'.outbox) && (id in s.dead ==> id in s'.dead)
    ensures id in s.accepted ==> id in s'.accepted && s'.accepted[id] == s.accepted[id]
    ensures id in s'.accepted && id !in s.accepted ==> id in s'.outbox
  {
  }

  lemma CommitAccounted(s: State, step: Step, s': State, id: int)
    requires Next(s, step) == Some(s') && Inv(s) && step.Commit? && id in s.accepted
    ensures s'.accepted == s.accepted && Accounted(s', id)
  {
    assert Accounted(s, id);
    if id in s.outbox {
      if id in s.ticks[step.sweep].claimed - step.failed {
        RowSafeKept(s, step, s', id);
      }
    } else if id !in s.dead {
      RowSafeKept(s, step, s', id);
    }
  }

  lemma StepAccounted(s: State, step: Step, s': State)
    requires Next(s, step) == Some(s') && Inv(s)
    ensures AllAccounted(s')
  {
    forall id | id in s'.accepted
      ensures Accounted(s', id)
    {
      if step.Commit? {
        CommitAccounted(s, step, s', id);
      } else {
        RowsStay(s, step, s', id);
        if id in s.accepted {
          assert Accounted(s, id);
          if id !in s'.outbox && id !in s'.dead {
            RowSafeKept(s, step, s', id);
          }
        }
      }
    }
  }

  lemma StepInv(s: State, step: Step, s': State)
    requires Next(s, step) == Some(s') && Inv(s)
    ensures Inv(s')
  {
    StepClean(s, step, s');
    StepTicks(s, step, s');
    StepRows(s, step, s');
    StepConfirmed(s, step, s');
    StepAccounted(s, step, s');
  }

  lemma {:induction false} RunInv(run: seq<Step>)
    ensures After(run).Some? ==> Inv(After(run).value)
    decreases |run|
  {
    if run != [] {
      var before := run[..|run| - 1];
      RunInv(before);
      if After(before).Some? && After(run).Some? {
        StepInv(After(before).value, run[|run| - 1], After(run).value);
      }
    }
  }

  /**
   * No task is ever lost: whatever the interleaving, every row ever committed to the outbox with separator-free,
   * non-empty fields is, unless its job has been torn down, still in the outbox, in the dead-letter table, in the
   * job's sorted set, in one of its streams undelivered or unacknowledged, or acknowledged by a worker.
   */
  lemma NoTaskLost(run: seq<Step>, id: int)
    requires After(run).Some? && id in After(run).value.accepted
    requires var row := After(run).value.accepted[id]; WellFormed(row) && row.jobId !in After(run).value.torn
    ensures var s := After(run).value;
      id in s.outbox || id in s.dead || Safe(s.db, s.finished, RowTask(s.accepted[id]))
  {
    RunInv(run);
    assert Accounted(After(run).value, id);
  }

  /** Enqueued, swept into the sorted set, met by a dispatcher, deleted from the outbox. */
  function LosingRun(sweep: nat, id: int, row: OutboxRow, opts: Options): seq<Step> {
    [Enqueue(id, row), Begin(sweep, {id}), ScheduleRow(sweep, id, true),
     ReadMember(row.jobId, row.Entry().Member(), row.runAt), Commit(sweep, {}, opts, row.runAt)]
  }

  /**
   * The separator hypothesis is needed: from any reachable state, a row whose text holds one can be enqueued and
   * then vanish, because the first dispatcher to meet its member drops it as malformed.
   */
  lemma SeparatorLosesTask(s: State, sweep: nat, id: int, row: OutboxRow, opts: Options)
    requires Inv(s) && id !in s.accepted && sweep !in s.ticks
    requires !row.Entry().HasPipeFreeText() && !Safe(s.db, s.finished, RowTask(row))
    ensures var last := From(s, LosingRun(sweep, id, row, opts));
      last.Some? && id in last.value.accepted && last.value.torn == s.torn &&
      id !in last.value.outbox && id !in last.value.dead && !Safe(last.value.db, last.value.finished, RowTask(row))
  {
    var run := LosingRun(sweep, id, row, opts);
    var scheduled := ScheduledOne(s, sweep, id, row, run);
    var dropped := DropOne(s.db, scheduled, row.Entry());
    RunExtends(s, run[..3], run[3], run[..4]);
    RunExtends(s, run[..4], run[4], run);
    CommitOne(dropped, sweep, id, opts, row.runAt);
  }

  lemma ScheduledOne(s: State, sweep: nat, id: int, row: OutboxRow, run: seq<Step>) returns (s': State)
    requires Inv(s) && id !in s.accepted && sweep !in s.ticks && |run| >= 3
    requires run[0] == Enqueue(id, row) && run[1] == Begin(sweep, {id}) && run[2] == ScheduleRow(sweep, id, true)
    ensures s' == s.(db := AddEntry(s.db, row.Entry()), outbox := s.outbox[id := row], accepted := s.accepted[id := row],
                     ticks := s.ticks[sweep := OpenTick({id}, {id})])
    ensures From(s, run[..3]) == Some(s') && id !in s'.dead
  {
    var enqueued := s.(outbox := s.outbox[id := row], accepted := s.accepted[id := row]);
    var begun := enqueued.(ticks := s.ticks[sweep := OpenTick({id}, {})]);
    s' := begun.(db := AddEntry(s.db, row.Entry()), ticks := s.ticks[sweep := OpenTick({id}, {id})]);
    RunExtends(s, [], run[0], run[..1]);
    RunExtends(s, run[..1], run[1], run[..2]);
    RunExtends(s, run[..2], run[2], run[..3]);
    assert Next(s, run[0]) == Some(enqueued);
    assert Next(enqueued, run[1]) == Some(begun);
    assert s.ticks[sweep := OpenTick({id}, {})][sweep := OpenTick({id}, {id})] == s.ticks[sweep := OpenTick({id}, {id})];
    assert {} + {id} == {id};
    assert Next(begun, run[2]) == Some(s');
  }

  lemma DropOne(db: Store, s: State, e: ScheduleEntry) returns (s': State)
    requires s.db == AddEntry(db, e) && !e.HasPipeFreeText() && !Safe(db, s.finished, Task(e.taskId, e.jobId))
    ensures Next(s, ReadMember(e.jobId, e.Member(), e.runAt)) == Some(s') && s' == s.(db := s'.db)
    ensures !Safe(s'.db, s.finished, Task(e.taskId, e.jobId))
  {
    ReadableIffPipeFree(e, e.runAt);
    var key := ScheduleKey(e.jobId);
    ZAddEffect(db, key, e.Member(), e.runAt);
    ZRemEffect(s.db, key, e.Member());
    s' := s.(db := s.db.ZRem(key, e.Member()));
    assert s'.db.streams == db.streams;
    assert forall m :: m in s'.db.ZSetAt(key) ==> m in db.ZSetAt(key);
  }

  lemma CommitOne(s: State, sweep: nat, id: int, opts: Options, now: int)
    requires sweep in s.ticks && s.ticks[sweep] == OpenTick({id}, {id}) && id !in s.dead
    ensures var last := Next(s, Commit(sweep, {}, opts, now));
      last.Some? && last.value == s.(outbox := last.value.outbox, dead := last.value.dead, ticks := last.value.ticks) &&
      id !in last.value.outbox && id !in last.value.dead
  {
  }

  // ---------- a whole tick of the sweeper is such a run ----------

  function ScheduleSteps(sweep: nat, claimed: seq<Claimed>, outcome: PipelineOutcome): seq<Step> {
    if claimed == [] then []
    else
      var n := |claimed| - 1;
      ScheduleSteps(sweep, claimed[..n], outcome) +
      (if IsApplied(outcome, n) then [ScheduleRow(sweep, claimed[n].id, outcome.Executed?)] else [])
  }

  function ConfirmedIds(claimed: seq<Claimed>, outcome: PipelineOutcome): set<int> {
    set i | 0 <= i < |claimed| && IsApplied(outcome, i) && outcome.Executed? :: claimed[i].id
  }

  ghost predicate ClaimsOf(outbox: Table, claimed: seq<Claimed>) {
    forall i :: 0 <= i < |claimed| ==> claimed[i].id in outbox && outbox[claimed[i].id] == claimed[i].row
  }

  /** The state while the sweep is open, with these rows scheduled. */
  ghost function Midway(s: State, sweep: nat, ids: set<int>, claimed: seq<Claimed>, outcome: PipelineOutcome): State {
    s.(db := AddEntries(s.db, EntriesOf(claimed), outcome), ticks := s.ticks[sweep := OpenTick(ids, ConfirmedIds(claimed, outcome))])
  }

  lemma MidwayStarts(s: State, sweep: nat, ids: set<int>, outcome: PipelineOutcome)
    requires Next(s, Begin(sweep, ids)).Some?
    ensures From(s, [Begin(sweep, ids)]) == Some(Midway(s, sweep, ids, [], outcome))
  {
    assert [Begin(sweep, ids)][..0] == [];
    assert ConfirmedIds([], outcome) == {};
  }

  lemma MidwayStep(s: State, sweep: nat, ids: set<int>, claimed: seq<Claimed>, outcome: PipelineOutcome)
    requires claimed != [] && claimed[|claimed| - 1].id in ids && ClaimsOf(s.outbox, claimed)
    ensures var n := |claimed| - 1;
      var before := Midway(s, sweep, ids, claimed[..n], outcome);
      if IsApplied(outcome, n)
      then Next(before, ScheduleRow(sweep, claimed[n].id, outcome.Executed?)) == Some(Midway(s, sweep, ids, claimed, outcome))
      else Midway(s, sweep, ids, claimed, outcome) == before
  {
    var n := |claimed| - 1;
    assert EntriesOf(claimed)[..n] == EntriesOf(claimed[..n]);
    if IsApplied(outcome, n) {
      ConfirmedGrow(claimed, outcome);
      var a, b := OpenTick(ids, ConfirmedIds(claimed[..n], outcome)), OpenTick(ids, ConfirmedIds(claimed, outcome));
      assert b.confirmed == a.confirmed + if outcome.Executed? then {claimed[n].id} else {};
      assert s.ticks[sweep := a][sweep := b] == s.ticks[sweep := b];
      if !outcome.Executed? {
        assert a == b;
      }
      assert AddEntries(s.db, EntriesOf(claimed), outcome) == AddEntry(AddEntries(s.db, EntriesOf(claimed[..n]), outcome), claimed[n].row.Entry());
    } else {
      assert ConfirmedIds(claimed, outcome) == ConfirmedIds(claimed[..n], outcome);
    }
  }

  lemma {:induction false} SchedulingRun(s: State, sweep: nat, ids: set<int>, claimed: seq<Claimed>, outcome: PipelineOutcome)
    requires Next(s, Begin(sweep, ids)).Some? && ClaimsOf(s.outbox, claimed) && IdsOf(claimed) <= ids
    ensures From(s, [Begin(sweep, ids)] + ScheduleSteps(sweep, claimed, outcome)) == Some(Midway(s, sweep, ids, claimed, outcome))
    decreases |claimed|
  {
    if claimed == [] {
      MidwayStarts(s, sweep, ids, outcome);
      assert [Begin(sweep, ids)] + ScheduleSteps(sweep, [], outcome) == [Begin(sweep, ids)];
    } else {
      var n := |claimed| - 1;
      var before, c := claimed[..n], claimed[n];
      assert IdsOf(before) <= IdsOf(claimed) && c.id in IdsOf(claimed);
      SchedulingRun(s, sweep, ids, before, outcome);
      MidwayStep(s, sweep, ids, claimed, outcome);
      var run := [Begin(sweep, ids)] + ScheduleSteps(sweep, before, outcome);
      var longer := [Begin(sweep, ids)] + ScheduleSteps(sweep, claimed, outcome);
      if IsApplied(outcome, n) {
        RunExtends(s, run, ScheduleRow(sweep, c.id, outcome.Executed?), longer);
      } else {
        assert longer == run;
      }
    }
  }

  lemma ConfirmedGrow(claimed: seq<Claimed>, outcome: PipelineOutcome)
    requires claimed != [] && IsApplied(outcome, |claimed| - 1)
    ensures ConfirmedIds(claimed, outcome) ==
      ConfirmedIds(claimed[..|claimed| - 1], outcome) + if outcome.Executed? then {claimed[|claimed| - 1].id} else {}
  {
  }

  lemma RunExtends(s: State, run: seq<Step>, step: Step, longer: seq<Step>)
    requires longer == run + [step]
    ensures From(s, longer) == match From(s, run) case None => None case Some(last) => Next(last, step)
  {
    assert longer[..|longer| - 1] == run;
  }

  /** Sweeper.Tick, committed, does what one run of the machine does: lock, ZADD by ZADD, commit. */
  lemma TickIsARun(s: State, sweep: nat, claimed: seq<Claimed>, outcome: PipelineOutcome, opts: Options, now: int)
    requires Next(s, Begin(sweep, IdsOf(claimed))).Some? && ClaimsOf(s.outbox, claimed)
    ensures var failed := Failures(claimed, outcome);
      From(s, [Begin(sweep, IdsOf(claimed))] + ScheduleSteps(sweep, claimed, outcome) + [Commit(sweep, failed, opts, now)]) ==
      Some(s.(db := AddEntries(s.db, EntriesOf(claimed), outcome),
              outbox := Swept(s.outbox, IdsOf(claimed) - failed, failed, opts, now),
              dead := Buried(s.outbox, s.dead, IdsOf(claimed) - failed, failed, opts, now)))
  {
    var failed, ids := Failures(claimed, outcome), IdsOf(claimed);
    SchedulingRun(s, sweep, ids, claimed, outcome);
    var run := [Begin(sweep, ids)] + ScheduleSteps(sweep, claimed, outcome);
    RunExtends(s, run, Commit(sweep, failed, opts, now), run + [Commit(sweep, failed, opts, now)]);
    FailureIds(claimed, outcome);
    SucceededConfirmed(claimed, outcome);
    CommitNext(From(s, run).value, sweep, ids, ConfirmedIds(claimed, outcome), failed, opts, now);
    assert s.ticks[sweep := OpenTick(ids, ConfirmedIds(claimed, outcome))] - {sweep} == s.ticks;
  }

  lemma CommitNext(s: State, sweep: nat, ids: set<int>, confirmed: set<int>, failed: set<int>, opts: Options, now: int)
    requires sweep in s.ticks && s.ticks[sweep] == OpenTick(ids, confirmed) && failed <= ids && ids - failed <= confirmed
    ensures Next(s, Commit(sweep, failed, opts, now)) ==
      Some(s.(outbox := Swept(s.outbox, ids - failed, failed, opts, now),
              dead := Buried(s.outbox, s.dead, ids - failed, failed, opts, now),
              ticks := s.ticks - {sweep}))
  {
  }

  lemma SucceededConfirmed(claimed: seq<Claimed>, outcome: PipelineOutcome)
    ensures IdsOf(claimed) - Failures(claimed, outcome) <= ConfirmedIds(claimed, outcome)
  {
    forall id | id in IdsOf(claimed) - Failures(claimed, outcome)
      ensures id in ConfirmedIds(claimed, outcome)
    {
      var c :| c in claimed && c.id == id;
      var i :| 0 <= i < |claimed| && claimed[i] == c;
    }
  }
}
