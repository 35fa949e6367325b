/** Delayed scheduling over per-job sorted sets (internal/broker/scheduler.go). */
module Scheduler {
  import opened Text
  import opened Keys
  import opened Schedule
  import opened Redis

  // ---------- the order of a sorted set ----------

  predicate LexLess(a: string, b: string) {
    b != [] && (a == [] || a[0] < b[0] || (a[0] == b[0] && LexLess(a[1..], b[1..])))
  }

  lemma {:induction false} LexTotal(a: string, b: string)
    ensures a == b || LexLess(a, b) || LexLess(b, a)
    ensures !(LexLess(a, b) && LexLess(b, a)) && (a == b ==> !LexLess(a, b))
  {
    if a != [] && b != [] && a[0] == b[0] {
      LexTotal(a[1..], b[1..]);
      assert a == [a[0]] + a[1..] && b == [b[0]] + b[1..];
    }
  }

  lemma {:induction false} LexTransitive(a: string, b: string, c: string)
    requires LexLess(a, b) && LexLess(b, c)
    ensures LexLess(a, c)
  {
    if a != [] && a[0] == b[0] == c[0] {
      LexTransitive(a[1..], b[1..], c[1..]);
    }
  }

  /** Sorted-set order: by score, then by member. */
  predicate Before(z: ZSet, a: string, b: string)
    requires a in z && b in z
  {
    z[a] < z[b] || (z[a] == z[b] && LexLess(a, b))
  }

  ghost predicate Due(z: ZSet, max: int, m: string) {
    m in z && z[m] <= max
  }

  /**
   * What ZRANGEBYSCORE -inf max answers: the due members in order, the first cap of them when a positive
   * limit is given, all of them otherwise.
   */
  ghost predicate IsRange(z: ZSet, max: int, limit: int, r: seq<string>) {
    (forall i :: 0 <= i < |r| ==> Due(z, max, r[i])) &&
    (forall i, j :: 0 <= i < j < |r| ==> Before(z, r[i], r[j])) &&
    (limit > 0 ==> |r| <= limit) &&
    (forall m :: Due(z, max, m) && m !in r ==> limit > 0 && |r| == limit && forall i :: 0 <= i < |r| ==> Before(z, r[i], m))
  }

  lemma {:induction false} LeastMember(z: ZSet, s: set<string>) returns (least: string)
    requires s != {} && s <= z.Keys
    ensures least in s && forall m :: m in s && m != least ==> Before(z, least, m)
    decreases |s|
  {
    var x :| x in s;
    var rest := s - {x};
    if rest == {} {
      assert s == {x};
      least := x;
    } else {
      var y := LeastMember(z, rest);
      LexTotal(x, y);
      least := if Before(z, x, y) then x else y;
      forall m | m in s && m != least
        ensures Before(z, least, m)
      {
        if m != y && m in rest && least == x && LexLess(x, y) && LexLess(y, m) {
          LexTransitive(x, y, m);
        }
      }
    }
  }

  /** Redis always has such an answer to give. */
  lemma {:induction false} RangeExists(z: ZSet, max: int, limit: int) returns (r: seq<string>)
    ensures IsRange(z, max, limit, r)
    decreases |z|
  {
    var due := set m | m in z && z[m] <= max;
    if due == {} {
      r := [];
      forall m
        ensures !Due(z, max, m)
      {
        assert Due(z, max, m) ==> m in due;
      }
    } else {
      var least := LeastMember(z, due);
      if limit == 1 {
        r := [least];
        forall m | Due(z, max, m) && m !in r
          ensures Before(z, least, m)
        {
          assert m in due;
        }
      } else {
        var z' := z - {least};
        assert |z'| < |z| by {
          assert z'.Keys == z.Keys - {least};
        }
        var tail := RangeExists(z', max, if limit > 0 then limit - 1 else limit);
        r := [least] + tail;
        RangeCons(z, max, limit, least, tail);
      }
    }
  }

  lemma RangeCons(z: ZSet, max: int, limit: int, least: string, tail: seq<string>)
    requires limit != 1 && Due(z, max, least) && forall m :: Due(z, max, m) && m != least ==> Before(z, least, m)
    requires IsRange(z - {least}, max, if limit > 0 then limit - 1 else limit, tail)
    ensures IsRange(z, max, limit, [least] + tail)
  {
    var z', r := z - {least}, [least] + tail;
    forall i | 0 <= i < |tail|
      ensures Due(z, max, tail[i]) && tail[i] != least
    {
      assert Due(z', max, tail[i]);
    }
    forall i, j | 0 <= i < j < |r|
      ensures Before(z, r[i], r[j])
    {
      if i > 0 {
        assert Before(z', tail[i - 1], tail[j - 1]);
      }
    }
    forall m | Due(z, max, m) && m !in r
      ensures limit > 0 && |r| == limit && forall i :: 0 <= i < |r| ==> Before(z, r[i], m)
    {
      assert m != least && m !in tail && Due(z', max, m);
      forall i | 0 <= i < |r|
        ensures Before(z, r[i], m)
      {
        if i > 0 {
          assert Before(z', tail[i - 1], m);
        }
      }
    }
  }

  /** A member appears once. */
  lemma RangeDistinct(z: ZSet, max: int, limit: int, r: seq<string>, i: nat, j: nat)
    requires IsRange(z, max, limit, r) && i < j < |r|
    ensures r[i] != r[j]
  {
    LexTotal(r[i], r[j]);
    assert Before(z, r[i], r[j]);
  }

  // ---------- the scheduler ----------

  /** The due entries: the parseable members of Redis's answer, in its order. */
  function Parsed(z: ZSet, reply: seq<string>): seq<ScheduleEntry>
    requires forall i :: 0 <= i < |reply| ==> reply[i] in z
  {
    if reply == [] then []
    else
      var e := ParseScheduleEntry(reply[|reply| - 1], z[reply[|reply| - 1]]);
      Parsed(z, reply[..|reply| - 1]) + (if e.Some? then [e.value] else [])
  }

  /** Malformed members are dropped from the sorted set as they are met. */
  function WithoutMalformed(z: ZSet, reply: seq<string>): ZSet {
    if reply == [] then z
    else
      var rest := WithoutMalformed(z, reply[..|reply| - 1]);
      if ParseScheduleEntry(reply[|reply| - 1], 0).None? then rest - {reply[|reply| - 1]} else rest
  }

  lemma MalformedAnyScore(member: string, a: int, b: int)
    ensures ParseScheduleEntry(member, a).None? <==> ParseScheduleEntry(member, b).None?
  {
  }

  lemma ParsedStep(z: ZSet, reply: seq<string>, i: nat)
    requires i < |reply| && forall k :: 0 <= k < |reply| ==> reply[k] in z
    ensures var e := ParseScheduleEntry(reply[i], z[reply[i]]);
      Parsed(z, reply[..i + 1]) == Parsed(z, reply[..i]) + (if e.Some? then [e.value] else []) &&
      WithoutMalformed(z, reply[..i + 1]) == if e.None? then WithoutMalformed(z, reply[..i]) - {reply[i]} else WithoutMalformed(z, reply[..i])
  {
    assert reply[..i + 1][..i] == reply[..i];
    MalformedAnyScore(reply[i], z[reply[i]], 0);
  }

  /** The entries are the readable members of the reply; of the members only the unreadable ones of the reply leave. */
  ghost predicate DueExactly(z: ZSet, reply: seq<string>, entries: seq<ScheduleEntry>, z': ZSet)
    requires forall i :: 0 <= i < |reply| ==> reply[i] in z
  {
    (forall e :: e in entries <==> ReadsAs(z, reply, e)) &&
    (forall m :: m in z' <==> m in z && !(m in reply && ParseScheduleEntry(m, z[m]).None?)) &&
    forall m :: m in z' ==> z'[m] == z[m]
  }

  ghost predicate ReadsAs(z: ZSet, reply: seq<string>, e: ScheduleEntry)
    requires forall i :: 0 <= i < |reply| ==> reply[i] in z
  {
    exists i :: 0 <= i < |reply| && ParseScheduleEntry(reply[i], z[reply[i]]) == Some(e)
  }

  lemma {:induction false} ParsedMembers(z: ZSet, reply: seq<string>, e: ScheduleEntry)
    requires forall i :: 0 <= i < |reply| ==> reply[i] in z
    ensures e in Parsed(z, reply) <==> ReadsAs(z, reply, e)
  {
    hide ParseScheduleEntry;
    if reply != [] {
      var n := |reply| - 1;
      var rest := reply[..n];
      assert forall i :: 0 <= i < n ==> rest[i] == reply[i];
      ParsedMembers(z, rest, e);
      if i :| 0 <= i < n && ParseScheduleEntry(rest[i], z[rest[i]]) == Some(e) {
        assert ParseScheduleEntry(reply[i], z[reply[i]]) == Some(e);
      }
      if i :| 0 <= i < |reply| && ParseScheduleEntry(reply[i], z[reply[i]]) == Some(e) {
        assert i < n ==> ParseScheduleEntry(rest[i], z[rest[i]]) == Some(e);
      }
    }
  }

  lemma {:induction false} MalformedLeave(z: ZSet, reply: seq<string>, m: string)
    ensures var z' := WithoutMalformed(z, reply);
      (m in z' <==> m in z && !(m in reply && ParseScheduleEntry(m, 0).None?)) && (m in z' ==> z'[m] == z[m])
  {
    hide ParseScheduleEntry;
    if reply != [] {
      var n := |reply| - 1;
      MalformedLeave(z, reply[..n], m);
      assert reply == reply[..n] + [reply[n]];
    }
  }

  lemma DueAreExact(z: ZSet, reply: seq<string>)
    requires forall i :: 0 <= i < |reply| ==> reply[i] in z
    ensures DueExactly(z, reply, Parsed(z, reply), WithoutMalformed(z, reply))
  {
    var z' := WithoutMalformed(z, reply);
    forall e
      ensures e in Parsed(z, reply) <==> ReadsAs(z, reply, e)
    {
      ParsedMembers(z, reply, e);
    }
    forall m
      ensures m in z' <==> m in z && !(m in reply && ParseScheduleEntry(m, z[m]).None?)
      ensures m in z' ==> z'[m] == z[m]
    {
      MalformedLeave(z, reply, m);
      if m in z {
        MalformedAnyScore(m, z[m], 0);
      }
    }
  }

  /** And they come in the order of the reply. */
  lemma {:induction false} ParsedInOrder(z: ZSet, first: seq<string>, more: seq<string>)
    requires forall i :: 0 <= i < |first + more| ==> (first + more)[i] in z
    requires (forall i :: 0 <= i < |first| ==> first[i] in z) && forall i :: 0 <= i < |more| ==> more[i] in z
    ensures Parsed(z, first + more) == Parsed(z, first) + Parsed(z, more)
    decreases |more|
  {
    hide ParseScheduleEntry;
    var all := first + more;
    if more == [] {
      assert all == first;
    } else {
      var n := |more| - 1;
      assert all[..|all| - 1] == first + more[..n] && all[|all| - 1] == more[n];
      ParsedInOrder(z, first, more[..n]);
    }
  }

  ghost predicate OnlyZSetChanged(before: Store, key: string, after: Store) {
    after == before.(zsets := after.zsets) && forall other :: other != key ==> after.ZSetAt(other) == before.ZSetAt(other)
  }

  lemma ZRemChangesOne(before: Store, key: string, db: Store, member: string)
    requires OnlyZSetChanged(before, key, db)
    ensures OnlyZSetChanged(before, key, db.ZRem(key, member)) && db.ZRem(key, member).ZSetAt(key) == db.ZSetAt(key) - {member}
  {
  }

  datatype PipelineOutcome =
    | Executed(failed: set<nat>)   // the pipeline ran; these commands failed
    | Broken(applied: set<nat>)    // the pipeline itself failed; these commands had been applied

  datatype BatchResult = BatchOk | BatchError(failed: set<nat>) | PipelineError

  predicate IsApplied(outcome: PipelineOutcome, i: nat) {
    match outcome
    case Executed(failed) => i !in failed
    case Broken(applied) => i in applied
  }

  function AddEntries(db: Store, entries: seq<ScheduleEntry>, outcome: PipelineOutcome): Store {
    if entries == [] then db
    else
      var n := |entries| - 1;
      var before := AddEntries(db, entries[..n], outcome);
      if IsApplied(outcome, n) then AddEntry(before, entries[n]) else before
  }

  function AddEntry(db: Store, e: ScheduleEntry): Store {
    db.ZAdd(ScheduleKey(e.jobId), e.Member(), e.runAt)
  }

  lemma AddEntriesSnoc(db: Store, entries: seq<ScheduleEntry>, outcome: PipelineOutcome, n: nat)
    requires n < |entries|
    ensures var before := AddEntries(db, entries[..n], outcome);
      AddEntries(db, entries[..n + 1], outcome) == if IsApplied(outcome, n) then AddEntry(before, entries[n]) else before
  {
    assert entries[..n + 1][..n] == entries[..n];
  }

  /** One of the first n commands put the member there. */
  ghost predicate AddedBy(entries: seq<ScheduleEntry>, outcome: PipelineOutcome, n: nat, key: string, m: string) {
    exists i :: 0 <= i < |entries| && i < n && AddsAt(entries, outcome, i, key, m)
  }

  predicate AddsAt(entries: seq<ScheduleEntry>, outcome: PipelineOutcome, i: nat, key: string, m: string)
    requires i < |entries|
  {
    (if outcome.Executed? then i !in outcome.failed else i in outcome.applied) &&
    key == ScheduleKey(entries[i].jobId) && m == entries[i].Member()
  }

  /** The score is the run time of the last command that put the member there. */
  ghost predicate LastAdd(entries: seq<ScheduleEntry>, outcome: PipelineOutcome, n: nat, i: nat, key: string, m: string)
    requires n <= |entries|
  {
    i < n && AddsAt(entries, outcome, i, key, m) && forall j :: i < j < n ==> !AddsAt(entries, outcome, j, key, m)
  }

  /** Every sorted set afterwards: what was there, and the members of the applied commands with the latest run time. */
  lemma {:induction false} BatchAdds(db: Store, entries: seq<ScheduleEntry>, outcome: PipelineOutcome, n: nat, key: string, m: string)
    requires n <= |entries|
    ensures var z, z' := db.ZSetAt(key), AddEntries(db, entries[..n], outcome).ZSetAt(key);
      (m in z' <==> m in z || AddedBy(entries, outcome, n, key, m)) &&
      (!AddedBy(entries, outcome, n, key, m) && m in z ==> z'[m] == z[m]) &&
      (forall i :: 0 <= i < n && LastAdd(entries, outcome, n, i, key, m) ==> m in z' && z'[m] == entries[i].runAt)
    decreases n
  {
    hide IntStr, Fixed4;
    if n == 0 {
      assert entries[..0] == [];
    } else {
      BatchAdds(db, entries, outcome, n - 1, key, m);
      AddEntriesSnoc(db, entries, outcome, n - 1);
      ZAddEffect(AddEntries(db, entries[..n - 1], outcome), ScheduleKey(entries[n - 1].jobId), entries[n - 1].Member(), entries[n - 1].runAt);
      AddedNext(entries, outcome, n, key, m);
      forall i | 0 <= i < n && LastAdd(entries, outcome, n, i, key, m)
        ensures i == n - 1 || LastAdd(entries, outcome, n - 1, i, key, m)
        ensures i < n - 1 ==> !AddsAt(entries, outcome, n - 1, key, m)
      {
      }
    }
  }

  lemma AddedNext(entries: seq<ScheduleEntry>, outcome: PipelineOutcome, n: nat, key: string, m: string)
    requires 0 < n <= |entries|
    ensures AddedBy(entries, outcome, n, key, m) <==> AddedBy(entries, outcome, n - 1, key, m) || AddsAt(entries, outcome, n - 1, key, m)
  {
  }

  /** Nothing but sorted sets changes. */
  lemma {:induction false} BatchAddsOnly(db: Store, entries: seq<ScheduleEntry>, outcome: PipelineOutcome)
    ensures var r := AddEntries(db, entries, outcome); r == db.(zsets := r.zsets)
  {
    if entries != [] {
      BatchAddsOnly(db, entries[..|entries| - 1], outcome);
    }
  }

  datatype Exec = Applied | AppliedUnseen | NotApplied

  class Scheduler {
    const rdb: Server

    constructor (rdb: Server)
      ensures this.rdb == rdb
    {
      this.rdb := rdb;
    }

    /** One ZADD an entry in one pipeline; the caller learns which failed, or that the pipeline did. */
    method ScheduleBatch(entries: seq<ScheduleEntry>, outcome: PipelineOutcome) returns (r: BatchResult)
      modifies rdb
      ensures rdb.db == AddEntries(old(rdb.db), entries, outcome)
      ensures r.PipelineError? <==> entries != [] && outcome.Broken?
      ensures r.BatchOk? <==> entries == [] || (outcome.Executed? && forall i :: 0 <= i < |entries| ==> i !in outcome.failed)
      ensures r.BatchError? ==> forall i :: i in r.failed <==> i < |entries| && i in outcome.failed
    {
      if entries == [] {
        return BatchOk;
      }
      for i := 0 to |entries|
        invariant rdb.db == AddEntries(old(rdb.db), entries[..i], outcome)
      {
        assert entries[..i + 1][..i] == entries[..i];
        if IsApplied(outcome, i) {
          rdb.db := rdb.db.ZAdd(ScheduleKey(entries[i].jobId), entries[i].Member(), entries[i].runAt);
        }
      }
      assert entries[..|entries|] == entries;
      if outcome.Broken? {
        return PipelineError;
      }
      var failed := set i | 0 <= i < |entries| && i in outcome.failed;
      r := if failed == {} then BatchOk else BatchError(failed);
      assert forall i :: 0 <= i < |entries| && i in outcome.failed ==> i in failed;
    }

    /** The retry is enqueued and the old message acknowledged in one MULTI/EXEC, or neither happens. */
    method ScheduleAndAck(entry: ScheduleEntry, ackJobId: string, messageId: nat, exec: Exec) returns (ok: bool)
      modifies rdb
      ensures rdb.db == if exec.NotApplied? then old(rdb.db) else AddEntry(old(rdb.db), entry).XAck(StreamKey(ackJobId), messageId)
      ensures ok <==> exec.Applied?
    {
      if !exec.NotApplied? {
        rdb.db := rdb.db.ZAdd(ScheduleKey(entry.jobId), entry.Member(), entry.runAt);
        rdb.db := rdb.db.XAck(StreamKey(ackJobId), messageId);
      }
      ok := exec.Applied?;
    }

    /** reply is Redis's answer to the range query. */
    method DueItems(jobId: string, now: int, limit: int, reply: seq<string>) returns (entries: seq<ScheduleEntry>)
      requires IsRange(rdb.db.ZSetAt(ScheduleKey(jobId)), now, limit, reply)
      modifies rdb
      ensures entries == Parsed(old(rdb.db.ZSetAt(ScheduleKey(jobId))), reply)
      ensures rdb.db.ZSetAt(ScheduleKey(jobId)) == WithoutMalformed(old(rdb.db.ZSetAt(ScheduleKey(jobId))), reply)
      ensures (forall i :: 0 <= i < |reply| ==> reply[i] in old(rdb.db.ZSetAt(ScheduleKey(jobId)))) &&
        DueExactly(old(rdb.db.ZSetAt(ScheduleKey(jobId))), reply, entries, rdb.db.ZSetAt(ScheduleKey(jobId)))
      ensures OnlyZSetChanged(old(rdb.db), ScheduleKey(jobId), rdb.db)
    {
      forall i | 0 <= i < |reply|
        ensures reply[i] in rdb.db.ZSetAt(ScheduleKey(jobId))
      {
        assert Due(rdb.db.ZSetAt(ScheduleKey(jobId)), now, reply[i]);
      }
      DueAreExact(rdb.db.ZSetAt(ScheduleKey(jobId)), reply);
      entries := ParseReply(ScheduleKey(jobId), reply);
    }

    method ParseReply(key: string, reply: seq<string>) returns (entries: seq<ScheduleEntry>)
      requires forall i :: 0 <= i < |reply| ==> reply[i] in rdb.db.ZSetAt(key)
      modifies rdb
      ensures entries == Parsed(old(rdb.db.ZSetAt(key)), reply)
      ensures rdb.db.ZSetAt(key) == WithoutMalformed(old(rdb.db.ZSetAt(key)), reply)
      ensures OnlyZSetChanged(old(rdb.db), key, rdb.db)
    {
      ghost var start := rdb.db;
      var z := rdb.db.ZSetAt(key);
      entries := [];
      for i := 0 to |reply|
        invariant entries == Parsed(z, reply[..i])
        invariant rdb.db.ZSetAt(key) == WithoutMalformed(z, reply[..i])
        invariant OnlyZSetChanged(start, key, rdb.db)
      {
        ParsedStep(z, reply, i);
        var e := ParseScheduleEntry(reply[i], z[reply[i]]);
        if e.None? {
          ZRemChangesOne(start, key, rdb.db, reply[i]);
          rdb.db := rdb.db.ZRem(key, reply[i]);
        } else {
          entries := entries + [e.value];
        }
      }
      assert reply[..|reply|] == reply;
    }

    /** ZADD XX: moves the member if it is still there and never brings one back. */
    method RescheduleZSet(entry: ScheduleEntry, newRunAt: int)
      modifies rdb
      ensures rdb.db == old(rdb.db).ZAddXX(ScheduleKey(entry.jobId), entry.Member(), newRunAt)
      ensures rdb.db.ZSetAt(ScheduleKey(entry.jobId)).Keys == old(rdb.db).ZSetAt(ScheduleKey(entry.jobId)).Keys
    {
      rdb.db := rdb.db.ZAddXX(ScheduleKey(entry.jobId), entry.Member(), newRunAt);
    }
  }
}
