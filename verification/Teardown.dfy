/** Removing the keys of finished jobs (internal/broker/redis.go, internal/broker/reclaim.go, internal/api/admin.go). */
module Teardown {
  import opened Text
  import opened Keys
  import opened Redis
  import opened Scheduler

  const SCHED := PREFIX + "sched:"
  const STREAM := PREFIX + "stream:"
  const FLIGHT := PREFIX + "dom:flight:"
  const LH_SUFFIX := ":lh"

  predicate HasSuffix(s: string, p: string) {
    |p| <= |s| && s[|s| - |p|..] == p
  }

  function TrimSuffix(s: string, p: string): string {
    if HasSuffix(s, p) then s[..|s| - |p|] else s
  }

  // ---------- scanning ----------

  function KeysOf(db: Store): set<string> {
    db.zsets.Keys + db.streams.Keys + db.hashes.Keys + db.configs.Keys + db.gates.Keys
  }

  /** What a full SCAN over an unchanging key space answers: every matching key at least once, page by page. */
  ghost predicate IsScan(db: Store, prefix: string, pages: seq<seq<string>>) {
    forall key :: (exists i :: 0 <= i < |pages| && key in pages[i]) <==> key in Matching(db, prefix)
  }

  function Matching(db: Store, prefix: string): set<string> {
    set key | key in KeysOf(db) && HasPrefix(key, prefix)
  }

  /** The elements of a set in some order. */
  method Listed(s: set<string>) returns (r: seq<string>)
    ensures forall x :: x in r <==> x in s
    ensures forall i, j :: 0 <= i < j < |r| ==> r[i] != r[j]
  {
    r := [];
    var left := s;
    while left != {}
      invariant left <= s && forall x :: x in r <==> x in s && x !in left
      invariant forall i, j :: 0 <= i < j < |r| ==> r[i] != r[j]
      decreases |left|
    {
      var x :| x in left;
      r := r + [x];
      left := left - {x};
    }
  }

  /** The server's side of a scan; its clients only know that the answer is one. */
  method Scan(db: Store, prefix: string) returns (pages: seq<seq<string>>)
    ensures IsScan(db, prefix, pages)
  {
    var all := Listed(Matching(db, prefix));
    pages := [all];
    assert pages[0] == all;
  }

  method ScanAll(db: Store, prefix: string) returns (keys: seq<string>)
    ensures forall key :: key in keys <==> key in Matching(db, prefix)
  {
    var pages := Scan(db, prefix);
    keys := [];
    for i := 0 to |pages|
      invariant forall key :: key in keys <==> exists k :: 0 <= k < i && key in pages[k]
    {
      keys := keys + pages[i];
    }
  }

  // ---------- a job's state ----------

  lemma HDelEffect(db: Store, key: string, field: string)
    ensures var r := db.HDel(key, field);
      r == db.(hashes := r.hashes) && r.HashAt(key) == db.HashAt(key) - {field} && forall k :: k != key ==> r.HashAt(k) == db.HashAt(k)
  {
  }

  /** Everything Redis holds for one job. */
  ghost predicate SameJob(a: Store, b: Store, jobId: string) {
    a.ZSetAt(ScheduleKey(jobId)) == b.ZSetAt(ScheduleKey(jobId)) &&
    a.StreamAt(StreamKey(jobId)) == b.StreamAt(StreamKey(jobId)) &&
    a.StreamAt(LighthouseStreamKey(jobId)) == b.StreamAt(LighthouseStreamKey(jobId)) &&
    forall key :: SameField(a.HashAt(key), b.HashAt(key), jobId)
  }

  ghost predicate SameField(a: Hash, b: Hash, field: string) {
    (field in a <==> field in b) && (field in a ==> a[field] == b[field])
  }

  /** In every hash all fields but one are the same. */
  ghost predicate OnlyField(a: Store, b: Store, field: string) {
    forall key, other :: other != field ==> SameField(a.HashAt(key), b.HashAt(key), other)
  }

  lemma HDelOnly(a: Store, b: Store, key: string, field: string)
    requires OnlyField(a, b, field)
    ensures OnlyField(a, b.HDel(key, field), field)
  {
    var c := b.HDel(key, field);
    HDelEffect(b, key, field);
    forall k, other | other != field
      ensures SameField(a.HashAt(k), c.HashAt(k), other)
    {
      assert SameField(a.HashAt(k), b.HashAt(k), other);
    }
  }

  /** Nothing is left of a job. */
  ghost predicate Gone(db: Store, jobId: string) {
    db.ZSetAt(ScheduleKey(jobId)) == map[] && db.StreamAt(StreamKey(jobId)) == EMPTY_STREAM &&
    db.StreamAt(LighthouseStreamKey(jobId)) == EMPTY_STREAM &&
    jobId !in db.HashAt(RUNNING_COUNTERS) && forall key :: HasPrefix(key, FLIGHT) ==> jobId !in db.HashAt(key)
  }

  lemma GoneStays(a: Store, b: Store, jobId: string)
    requires Gone(a, jobId) && SameJob(a, b, jobId)
    ensures Gone(b, jobId)
  {
    assert SameField(a.HashAt(RUNNING_COUNTERS), b.HashAt(RUNNING_COUNTERS), jobId);
    forall key | HasPrefix(key, FLIGHT)
      ensures jobId !in b.HashAt(key)
    {
      assert SameField(a.HashAt(key), b.HashAt(key), jobId);
    }
  }

  lemma SameJobTrans(a: Store, b: Store, c: Store, jobId: string)
    requires SameJob(a, b, jobId) && SameJob(b, c, jobId)
    ensures SameJob(a, c, jobId)
  {
    forall key
      ensures SameField(a.HashAt(key), c.HashAt(key), jobId)
    {
      assert SameField(a.HashAt(key), b.HashAt(key), jobId) && SameField(b.HashAt(key), c.HashAt(key), jobId);
    }
  }

  lemma HDelSame(db: Store, key: string, field: string, jobId: string)
    requires jobId != field
    ensures SameJob(db, db.HDel(key, field), jobId)
  {
    HDelEffect(db, key, field);
  }

  // ---------- removing one job ----------

  /** XGROUP DESTROY: the entries stay, what was delivered and is pending goes. */
  function GroupDestroyed(db: Store, key: string): Store {
    if key in db.streams then db.(streams := db.streams[key := db.streams[key].(delivered := 0, pel := [])]) else db
  }

  /** DEL of the job's sorted set and both streams. */
  function Deleted(db: Store, jobId: string): Store {
    db.(zsets := db.zsets - {ScheduleKey(jobId)}, streams := db.streams - {StreamKey(jobId), LighthouseStreamKey(jobId)})
  }

  /** No key of one job is a key of another, ids being free of ':'. */
  lemma KeysApart(a: string, b: string)
    requires ColonFree(a) && ColonFree(b) && a != b
    ensures ScheduleKey(a) != ScheduleKey(b) && StreamKey(a) != StreamKey(b) && LighthouseStreamKey(a) != LighthouseStreamKey(b)
    ensures StreamKey(a) != LighthouseStreamKey(b) && LighthouseStreamKey(a) != StreamKey(b)
  {
    StreamsApart(a, b);
    StreamsApart(b, a);
    if ScheduleKey(a) == ScheduleKey(b) {
      ScheduleKeyInjective(a, b);
    }
    if StreamKey(a) == StreamKey(b) {
      StreamKeyInjective(a, b);
    }
    if LighthouseStreamKey(a) == LighthouseStreamKey(b) {
      LighthouseStreamKeyInjective(a, b);
    }
  }

  lemma DestroySame(db: Store, jobId: string, key: string, other: string)
    requires ColonFree(jobId) && ColonFree(other) && jobId != other && (key == StreamKey(jobId) || key == LighthouseStreamKey(jobId))
    ensures SameJob(db, GroupDestroyed(db, key), other)
  {
    KeysApart(jobId, other);
  }

  lemma DeleteSame(db: Store, jobId: string, other: string)
    requires ColonFree(jobId) && ColonFree(other) && jobId != other
    ensures SameJob(db, Deleted(db, jobId), other)
  {
    KeysApart(jobId, other);
  }

  lemma FlightIsApart(jobId: string)
    ensures !HasPrefix(RUNNING_COUNTERS, FLIGHT) && !HasPrefix(ScheduleKey(jobId), FLIGHT)
    ensures !HasPrefix(StreamKey(jobId), FLIGHT) && !HasPrefix(LighthouseStreamKey(jobId), FLIGHT)
  {
    assert FLIGHT[6] == 'd' && RUNNING_COUNTERS[6] == 'r' && ScheduleKey(jobId)[6] == 's';
    assert StreamKey(jobId)[6] == 's' && LighthouseStreamKey(jobId)[6] == 's';
  }

  /** Where Redis lets a removal down; the two pipelined commands are independent of each other. */
  datatype Faults = Faults(crawlGroup: bool, auditGroup: bool, del: bool, hdel: bool, scan: bool, unremoved: set<string>)

  const NO_FAULTS := Faults(false, false, false, false, false, {})

  // ---------- finding jobs ----------

  /** The job a scanned key belongs to. */
  function JobOfKey(key: string): string {
    if HasPrefix(key, SCHED) then key[|SCHED|..]
    else if HasPrefix(key, STREAM) then TrimSuffix(key[|STREAM|..], LH_SUFFIX)
    else ""
  }

  lemma JobOfItsKeys(jobId: string)
    requires ColonFree(jobId)
    ensures JobOfKey(ScheduleKey(jobId)) == jobId && JobOfKey(StreamKey(jobId)) == jobId && JobOfKey(LighthouseStreamKey(jobId)) == jobId
    ensures HasPrefix(ScheduleKey(jobId), SCHED) && HasPrefix(StreamKey(jobId), STREAM) && HasPrefix(LighthouseStreamKey(jobId), STREAM)
  {
    var sched, crawl, audit := ScheduleKey(jobId), StreamKey(jobId), LighthouseStreamKey(jobId);
    assert sched[..|SCHED|] == SCHED && sched[|SCHED|..] == jobId;
    assert crawl[..|STREAM|] == STREAM && crawl[|STREAM|..] == jobId && crawl[7] == 't' && SCHED[7] == 'c';
    assert audit == STREAM + (jobId + LH_SUFFIX) && audit[..|STREAM|] == STREAM && audit[|STREAM|..] == jobId + LH_SUFFIX && audit[7] == 't';
    assert (jobId + LH_SUFFIX)[|jobId|..] == LH_SUFFIX && (jobId + LH_SUFFIX)[..|jobId|] == jobId;
    if HasSuffix(jobId, LH_SUFFIX) {
      SuffixHasColon(jobId);
    }
  }

  lemma SuffixHasColon(s: string)
    requires HasSuffix(s, LH_SUFFIX)
    ensures !ColonFree(s)
  {
    assert s[|s| - 3] == s[|s| - 3..][0] == ':';
  }

  /** Is there a sorted set, a stream or a counter of that job? */
  ghost predicate Present(db: Store, jobId: string) {
    ScheduleKey(jobId) in db.zsets || StreamKey(jobId) in db.streams || LighthouseStreamKey(jobId) in db.streams ||
    jobId in db.HashAt(RUNNING_COUNTERS)
  }

  /** Some scanned key, or a counter, names the job. */
  ghost predicate Named(db: Store, jobId: string) {
    jobId != "" && (jobId in db.HashAt(RUNNING_COUNTERS) || (exists key :: key in ScannedKeys(db) && JobOfKey(key) == jobId))
  }

  function ScannedKeys(db: Store): set<string> {
    Matching(db, SCHED) + Matching(db, STREAM)
  }

  /** The scan misses no job. */
  lemma PresentIsNamed(db: Store, jobId: string)
    requires ColonFree(jobId) && jobId != "" && Present(db, jobId)
    ensures Named(db, jobId)
  {
    JobOfItsKeys(jobId);
    if ScheduleKey(jobId) in db.zsets {
      assert ScheduleKey(jobId) in ScannedKeys(db);
    }
    if StreamKey(jobId) in db.streams {
      assert StreamKey(jobId) in ScannedKeys(db);
    }
    if LighthouseStreamKey(jobId) in db.streams {
      assert LighthouseStreamKey(jobId) in ScannedKeys(db);
    }
  }

  // ---------- deciding which jobs are over ----------

  type Jobs = map<string, string>

  predicate TerminalStatus(status: string) {
    status == "completed" || status == "failed" || status == "cancelled" || status == "archived"
  }

  predicate Over(jobs: Jobs, id: string) {
    id in jobs && TerminalStatus(jobs[id])
  }

  predicate Active(jobs: Jobs, id: string) {
    id in jobs && !TerminalStatus(jobs[id])
  }

  /** A job that is not active is missing or has one of the four statuses that nothing follows. */
  lemma InactiveByName(jobs: Jobs, id: string)
    ensures !Active(jobs, id) <==> id !in jobs || jobs[id] in {"completed", "failed", "cancelled", "archived"}
    ensures Over(jobs, id) <==> id in jobs && !Active(jobs, id)
  {
  }

  /** The rows a query over the given ids answers, in any order. */
  ghost predicate AnswersOver(jobs: Jobs, ids: seq<string>, rows: seq<string>) {
    forall id :: id in rows <==> id in ids && Over(jobs, id)
  }

  ghost predicate AnswersActive(jobs: Jobs, ids: seq<string>, rows: seq<string>) {
    forall id :: id in rows <==> id in ids && Active(jobs, id)
  }

  /** Between the queries no status left the terminal ones. */
  ghost predicate StaysOver(first: Jobs, second: Jobs) {
    forall id :: Over(first, id) && id in second ==> Over(second, id)
  }

  method QueryOver(jobs: Jobs, ids: seq<string>) returns (rows: seq<string>)
    ensures AnswersOver(jobs, ids, rows)
  {
    rows := Listed(set id | id in ids && Over(jobs, id));
  }

  method LookupActiveJobs(jobs: Jobs, ids: seq<string>) returns (rows: seq<string>)
    ensures AnswersActive(jobs, ids, rows)
  {
    rows := Listed(set id | id in ids && Active(jobs, id));
  }

  /**
   * Two queries, between which jobs may change. Provided none leaves the terminal statuses, the answer is exactly
   * the jobs that are over or missing as of the second query.
   */
  method TerminalJobFilter(ids: seq<string>, first: Jobs, second: Jobs) returns (terminal: seq<string>)
    ensures forall id :: id in terminal <==> id in ids && (Over(first, id) || !Active(second, id))
    ensures StaysOver(first, second) ==> forall id :: id in terminal <==> id in ids && !Active(second, id)
  {
    var overRows := QueryOver(first, ids);
    terminal := overRows;
    var known := set id | id in overRows;
    var activeRows := LookupActiveJobs(second, ids);
    var alive := set id | id in activeRows;
    for i := 0 to |ids|
      invariant forall id :: id in terminal <==> id in overRows || exists k :: 0 <= k < i && ids[k] == id && id !in known && id !in alive
    {
      if ids[i] !in known && ids[i] !in alive {
        terminal := terminal + [ids[i]];
      }
    }
  }

  class Broker {
    const rdb: Server

    constructor (rdb: Server)
      ensures this.rdb == rdb
    {
      this.rdb := rdb;
    }

    ghost predicate OthersSame(before: Store, jobId: string)
      reads rdb
    {
      ColonFree(jobId) ==> forall other :: ColonFree(other) && other != jobId ==> SameJob(before, rdb.db, other)
    }

    /** One step of a removal. */
    method Step(ghost before: Store, jobId: string, after: Store)
      requires OthersSame(before, jobId)
      requires ColonFree(jobId) ==> forall other :: ColonFree(other) && other != jobId ==> SameJob(rdb.db, after, other)
      modifies rdb
      ensures rdb.db == after && OthersSame(before, jobId)
    {
      if ColonFree(jobId) {
        forall other | ColonFree(other) && other != jobId
          ensures SameJob(before, after, other)
        {
          SameJobTrans(before, rdb.db, after, other);
        }
      }
      rdb.db := after;
    }

    method DestroyGroup(ghost before: Store, jobId: string, key: string, fails: bool)
      requires key == StreamKey(jobId) || key == LighthouseStreamKey(jobId)
      requires OthersSame(before, jobId)
      modifies rdb
      ensures OthersSame(before, jobId) && rdb.db == if fails then old(rdb.db) else GroupDestroyed(old(rdb.db), key)
    {
      if !fails {
        if ColonFree(jobId) {
          forall other | ColonFree(other) && other != jobId
            ensures SameJob(rdb.db, GroupDestroyed(rdb.db, key), other)
          {
            DestroySame(rdb.db, jobId, key, other);
          }
        }
        Step(before, jobId, GroupDestroyed(rdb.db, key));
      }
    }

    method DeleteField(ghost before: Store, jobId: string, key: string)
      requires OthersSame(before, jobId)
      modifies rdb
      ensures OthersSame(before, jobId) && rdb.db == old(rdb.db).HDel(key, jobId)
    {
      forall other | other != jobId
        ensures SameJob(rdb.db, rdb.db.HDel(key, jobId), other)
      {
        HDelSame(rdb.db, key, jobId, other);
      }
      Step(before, jobId, rdb.db.HDel(key, jobId));
    }

    method CleanupInflightForJob(ghost before: Store, jobId: string, unremoved: set<string>)
      requires OthersSame(before, jobId)
      modifies rdb
      ensures OthersSame(before, jobId)
      ensures rdb.db == old(rdb.db).(hashes := rdb.db.hashes) && rdb.db.HashAt(RUNNING_COUNTERS) == old(rdb.db).HashAt(RUNNING_COUNTERS)
      ensures forall key :: HasPrefix(key, FLIGHT) && key !in unremoved ==> jobId !in rdb.db.HashAt(key)
      ensures forall key :: !HasPrefix(key, FLIGHT) || key in unremoved ==> rdb.db.HashAt(key) == old(rdb.db).HashAt(key)
      ensures OnlyField(old(rdb.db), rdb.db, jobId)
    {
      var keys := ScanAll(rdb.db, FLIGHT);
      FlightIsApart(jobId);
      for i := 0 to |keys|
        invariant OthersSame(before, jobId)
        invariant rdb.db == old(rdb.db).(hashes := rdb.db.hashes)
        invariant forall key :: !HasPrefix(key, FLIGHT) || key in unremoved ==> rdb.db.HashAt(key) == old(rdb.db).HashAt(key)
        invariant OnlyField(old(rdb.db), rdb.db, jobId)
        invariant forall key :: jobId in rdb.db.HashAt(key) ==> jobId in old(rdb.db).HashAt(key)
        invariant forall k :: 0 <= k < i && keys[k] !in unremoved ==> jobId !in rdb.db.HashAt(keys[k])
      {
        assert keys[i] in keys && keys[i] in Matching(old(rdb.db), FLIGHT);
        if keys[i] !in unremoved {
          HDelEffect(rdb.db, keys[i], jobId);
          HDelOnly(old(rdb.db), rdb.db, keys[i], jobId);
          DeleteField(before, jobId, keys[i]);
        }
      }
      forall key | HasPrefix(key, FLIGHT) && key !in unremoved
        ensures jobId !in rdb.db.HashAt(key)
      {
        if key in KeysOf(old(rdb.db)) {
          assert key in Matching(old(rdb.db), FLIGHT);
          assert key in keys;
        }
      }
    }

    /**
     * Whatever fails on the way, no other job is touched; with no fault nothing of the job is left. Trouble with
     * the groups and with the inflight fields is not reported.
     */
    method RemoveJobKeys(jobId: string, f: Faults) returns (ok: bool)
      modifies rdb
      ensures OthersSame(old(rdb.db), jobId)
      ensures ok <==> jobId != "" && !f.del && !f.hdel
      ensures jobId == "" ==> rdb.db == old(rdb.db)
      ensures jobId != "" && f == NO_FAULTS ==> Gone(rdb.db, jobId)
    {
      if jobId == "" {
        return false;
      }
      ghost var before := rdb.db;
      DestroyGroup(before, jobId, StreamKey(jobId), f.crawlGroup);
      DestroyGroup(before, jobId, LighthouseStreamKey(jobId), f.auditGroup);
      if !f.del {
        if ColonFree(jobId) {
          forall other | ColonFree(other) && other != jobId
            ensures SameJob(rdb.db, Deleted(rdb.db, jobId), other)
          {
            DeleteSame(rdb.db, jobId, other);
          }
        }
        Step(before, jobId, Deleted(rdb.db, jobId));
      }
      if !f.hdel {
        HDelEffect(rdb.db, RUNNING_COUNTERS, jobId);
        DeleteField(before, jobId, RUNNING_COUNTERS);
      }
      if f.del || f.hdel {
        return false;
      }
      ok := true;
      if !f.scan {
        CleanupInflightForJob(before, jobId, f.unremoved);
      }
    }

    /** Every job named by a scanned key or a counter, each once. */
    method ListJobIDsInRedis() returns (ids: seq<string>)
      ensures forall id :: id in ids <==> Named(rdb.db, id)
      ensures forall i, j :: 0 <= i < j < |ids| ==> ids[i] != ids[j]
    {
      var sched := ScanAll(rdb.db, SCHED);
      var stream := ScanAll(rdb.db, STREAM);
      var keys := sched + stream;
      assert forall key :: key in keys <==> key in ScannedKeys(rdb.db);
      var seen: set<string> := {};
      for i := 0 to |keys|
        invariant forall id :: id in seen <==> id != "" && exists k :: 0 <= k < i && JobOfKey(keys[k]) == id
      {
        var jobId := JobOfKey(keys[i]);
        if jobId != "" {
          seen := seen + {jobId};
        }
      }
      NamedByKeys(rdb.db, keys, seen);
      seen := seen + (rdb.db.HashAt(RUNNING_COUNTERS).Keys - {""});
      ids := Listed(seen);
    }

    /**
     * The sweep over finished jobs: whatever fails, jobs still active at the filter's second query keep all their
     * state; without faults nothing is left of any job that was found and is over or missing.
     */
    method ReclaimTerminalJobKeys(first: Jobs, second: Jobs, faults: map<string, Faults>) returns (report: Report)
      requires forall id :: Named(rdb.db, id) ==> ColonFree(id)
      modifies rdb
      ensures report.cleaned + report.failed == report.terminalJobs
      ensures StaysOver(first, second) ==> forall id :: ColonFree(id) && Active(second, id) ==> SameJob(old(rdb.db), rdb.db, id)
      ensures StaysOver(first, second) && faults == map[] ==>
        forall id :: ColonFree(id) && id != "" && Present(old(rdb.db), id) && !Active(second, id) ==> Gone(rdb.db, id)
    {
      ghost var before := rdb.db;
      var candidates := ListJobIDsInRedis();
      var terminal := TerminalJobFilter(candidates, first, second);
      report := Report(|candidates|, |terminal|, 0, 0);
      for i := 0 to |terminal|
        invariant report.candidatesScanned == |candidates| && report.terminalJobs == |terminal| && report.cleaned + report.failed == i
        invariant forall id :: id in terminal ==> ColonFree(id) && id != ""
        invariant forall id :: ColonFree(id) && id !in terminal ==> SameJob(before, rdb.db, id)
        invariant faults == map[] ==> forall k :: 0 <= k < i ==> Gone(rdb.db, terminal[k])
      {
        assert terminal[i] in terminal;
        ghost var mid := rdb.db;
        var ok := RemoveJobKeys(terminal[i], if terminal[i] in faults then faults[terminal[i]] else NO_FAULTS);
        RemovalKeeps(before, mid, rdb.db, terminal, i);
        report := if ok then report.(cleaned := report.cleaned + 1) else report.(failed := report.failed + 1);
      }
      forall id | ColonFree(id) && id != "" && Present(before, id) && !Active(second, id) && faults == map[]
        ensures Gone(rdb.db, id)
      {
        PresentIsNamed(before, id);
        var k :| 0 <= k < |terminal| && terminal[k] == id;
      }
    }

    /** Inflight fields of jobs that are not active go, but for the domains whose commands fail; no other field does. */
    method SweepOrphanInflight(activeJobIds: set<string>, failing: set<string>) returns (removed: nat)
      modifies rdb
      ensures rdb.db == old(rdb.db).(hashes := rdb.db.hashes)
      ensures forall key :: SweptOrNot(old(rdb.db).HashAt(key), rdb.db.HashAt(key), activeJobIds, HasPrefix(key, FLIGHT) && key !in failing)
    {
      removed := 0;
      var keys := ScanAll(rdb.db, FLIGHT);
      for i := 0 to |keys|
        invariant SweptSoFar(old(rdb.db), rdb.db, keys[..i], activeJobIds, failing)
      {
        var orphans := rdb.db.HashAt(keys[i]).Keys - activeJobIds;
        SweepStep(old(rdb.db), rdb.db, keys, i, activeJobIds, failing);
        if orphans != {} && keys[i] !in failing {
          rdb.db := rdb.db.PutHash(keys[i], rdb.db.HashAt(keys[i]) - orphans);
          removed := removed + |orphans|;
        }
      }
      SweepDone(old(rdb.db), rdb.db, keys, activeJobIds, failing);
    }
  }

  /** A hash without its fields outside the set, or as it was. */
  ghost predicate SweptOrNot(before: Hash, after: Hash, kept: set<string>, swept: bool) {
    after == if swept then before - (before.Keys - kept) else before
  }

  ghost predicate SweptSoFar(before: Store, db: Store, keys: seq<string>, kept: set<string>, failing: set<string>) {
    db == before.(hashes := db.hashes) &&
    forall key :: SweptOrNot(before.HashAt(key), db.HashAt(key), kept, key in keys && key !in failing)
  }

  lemma SweepStep(before: Store, db: Store, keys: seq<string>, i: nat, kept: set<string>, failing: set<string>)
    requires i < |keys| && SweptSoFar(before, db, keys[..i], kept, failing)
    ensures var orphans := db.HashAt(keys[i]).Keys - kept;
      var after := if orphans != {} && keys[i] !in failing then db.PutHash(keys[i], db.HashAt(keys[i]) - orphans) else db;
      SweptSoFar(before, after, keys[..i + 1], kept, failing)
  {
    var orphans := db.HashAt(keys[i]).Keys - kept;
    var after := if orphans != {} && keys[i] !in failing then db.PutHash(keys[i], db.HashAt(keys[i]) - orphans) else db;
    forall key
      ensures SweptOrNot(before.HashAt(key), after.HashAt(key), kept, key in keys[..i + 1] && key !in failing)
    {
      assert SweptOrNot(before.HashAt(key), db.HashAt(key), kept, key in keys[..i] && key !in failing);
      assert keys[..i + 1] == keys[..i] + [keys[i]];
    }
  }

  lemma SweepDone(before: Store, db: Store, keys: seq<string>, kept: set<string>, failing: set<string>)
    requires SweptSoFar(before, db, keys[..|keys|], kept, failing) && forall key :: key in keys <==> key in Matching(before, FLIGHT)
    ensures forall key :: SweptOrNot(before.HashAt(key), db.HashAt(key), kept, HasPrefix(key, FLIGHT) && key !in failing)
  {
    forall key
      ensures SweptOrNot(before.HashAt(key), db.HashAt(key), kept, HasPrefix(key, FLIGHT) && key !in failing)
    {
      assert keys[..|keys|] == keys;
      assert SweptOrNot(before.HashAt(key), db.HashAt(key), kept, key in keys && key !in failing);
      assert key in Matching(before, FLIGHT) <==> key in KeysOf(before) && HasPrefix(key, FLIGHT);
      if key !in KeysOf(before) {
        assert before.HashAt(key) == map[];
      }
    }
  }

  lemma RemovalKeeps(before: Store, mid: Store, after: Store, terminal: seq<string>, i: nat)
    requires i < |terminal| && forall id :: id in terminal ==> ColonFree(id)
    requires forall other :: ColonFree(other) && other != terminal[i] ==> SameJob(mid, after, other)
    requires forall id :: ColonFree(id) && id !in terminal ==> SameJob(before, mid, id)
    ensures forall id :: ColonFree(id) && id !in terminal ==> SameJob(before, after, id)
    ensures forall k :: 0 <= k < i && Gone(mid, terminal[k]) && terminal[k] != terminal[i] ==> Gone(after, terminal[k])
  {
    assert terminal[i] in terminal;
    forall id | ColonFree(id) && id !in terminal
      ensures SameJob(before, after, id)
    {
      SameJobTrans(before, mid, after, id);
    }
    forall k | 0 <= k < i && Gone(mid, terminal[k]) && terminal[k] != terminal[i]
      ensures Gone(after, terminal[k])
    {
      assert terminal[k] in terminal;
      GoneStays(mid, after, terminal[k]);
    }
  }

  datatype Report = Report(candidatesScanned: nat, terminalJobs: nat, cleaned: nat, failed: nat)

  lemma NamedByKeys(db: Store, keys: seq<string>, seen: set<string>)
    requires forall key :: key in keys <==> key in ScannedKeys(db)
    requires forall id :: id in seen <==> id != "" && exists k :: 0 <= k < |keys| && JobOfKey(keys[k]) == id
    ensures forall id :: id in seen || (id != "" && id in db.HashAt(RUNNING_COUNTERS)) <==> Named(db, id)
  {
    forall id
      ensures id in seen || (id != "" && id in db.HashAt(RUNNING_COUNTERS)) <==> Named(db, id)
    {
      if id in seen {
        var k :| 0 <= k < |keys| && JobOfKey(keys[k]) == id;
        assert keys[k] in keys;
      }
    }
  }
}
