/** The per-job running counters (internal/broker/counters.go). */
module Counters {
  import opened Text
  import opened Keys
  import opened Redis

  /** Exactly the positive counts, but for the jobs left out. */
  ghost predicate PositiveOf(h: Hash, counts: Hash, left: set<string>) {
    (forall job :: job in h <==> job in counts && job !in left && counts[job] > 0) && forall job :: job in h ==> h[job] == counts[job]
  }

  class RunningCounters {
    const rdb: Server

    constructor (rdb: Server)
      ensures this.rdb == rdb
    {
      this.rdb := rdb;
    }

    method Increment(jobId: string) returns (value: int)
      modifies rdb
      ensures rdb.db == old(rdb.db).HIncrBy(RUNNING_COUNTERS, jobId, 1)
      ensures value == old(rdb.db).HGet(RUNNING_COUNTERS, jobId) + 1
    {
      rdb.db := rdb.db.HIncrBy(RUNNING_COUNTERS, jobId, 1);
      value := rdb.db.HGet(RUNNING_COUNTERS, jobId);
    }

    /** HINCRBY -1, then HDEL when nothing is left: two commands, here with nothing in between. */
    method Decrement(jobId: string) returns (value: int)
      modifies rdb
      ensures var was := old(rdb.db).HGet(RUNNING_COUNTERS, jobId);
        value == (if was <= 1 then 0 else was - 1) && rdb.db.HGet(RUNNING_COUNTERS, jobId) == value
      ensures forall other :: other != jobId ==> rdb.db.HGet(RUNNING_COUNTERS, other) == old(rdb.db).HGet(RUNNING_COUNTERS, other)
    {
      rdb.db := rdb.db.HIncrBy(RUNNING_COUNTERS, jobId, -1);
      value := rdb.db.HGet(RUNNING_COUNTERS, jobId);
      if value <= 0 {
        rdb.db := rdb.db.HDel(RUNNING_COUNTERS, jobId);
        value := 0;
      }
    }

    /** The stored counters become exactly the positive ones given, whatever was there. */
    method Reconcile(counts: Hash)
      modifies rdb
      ensures PositiveOf(rdb.db.HashAt(RUNNING_COUNTERS), counts, {})
      ensures forall key :: key != RUNNING_COUNTERS ==> rdb.db.HashAt(key) == old(rdb.db).HashAt(key)
      ensures rdb.db == old(rdb.db).(hashes := rdb.db.hashes)
    {
      var args: Hash := map[];
      var left := counts.Keys;
      while left != {}
        invariant left <= counts.Keys
        invariant PositiveOf(args, counts, left)
        decreases |left|
      {
        var job :| job in left;
        if counts[job] > 0 {
          args := args[job := counts[job]];
        }
        left := left - {job};
      }
      rdb.db := rdb.db.PutHash(RUNNING_COUNTERS, args);
    }
  }

  // ---------- interleaved decrements ----------

  /**
   * One job's field while several workers finish tasks: a worker whose HINCRBY returned a value of at most
   * zero still owes an HDEL.
   */
  datatype Field = Field(value: Option<int>, owed: nat)

  datatype Event = Increment | DecrementStarts | DeleteRuns

  function Value(f: Field): int {
    if f.value.Some? then f.value.value else 0
  }

  predicate Enabled(f: Field, e: Event) {
    e.DeleteRuns? ==> f.owed > 0
  }

  function Step(f: Field, e: Event): Field
    requires Enabled(f, e)
  {
    match e
    case Increment => f.(value := Some(Value(f) + 1))
    case DecrementStarts => Field(Some(Value(f) - 1), if Value(f) - 1 <= 0 then f.owed + 1 else f.owed)
    case DeleteRuns => Field(None, f.owed - 1)
  }

  ghost predicate Possible(f: Field, run: seq<Event>)
    decreases |run|
  {
    run != [] ==> Enabled(f, run[0]) && Possible(Step(f, run[0]), run[1..])
  }

  ghost function After(f: Field, run: seq<Event>): Field
    requires Possible(f, run)
    decreases |run|
  {
    if run == [] then f else After(Step(f, run[0]), run[1..])
  }

  function Count(run: seq<Event>, e: Event): nat {
    if run == [] then 0 else (if run[0] == e then 1 else 0) + Count(run[1..], e)
  }

  /** What HDELs took away from a count that had grown again meanwhile, and what they added to a negative one. */
  ghost function Erased(f: Field, run: seq<Event>): nat
    requires Possible(f, run)
    decreases |run|
  {
    if run == [] then 0
    else (if run[0].DeleteRuns? && Value(f) > 0 then Value(f) else 0) + Erased(Step(f, run[0]), run[1..])
  }

  ghost function Reset(f: Field, run: seq<Event>): nat
    requires Possible(f, run)
    decreases |run|
  {
    if run == [] then 0
    else (if run[0].DeleteRuns? && Value(f) < 0 then -Value(f) else 0) + Reset(Step(f, run[0]), run[1..])
  }

  /** The ledger: nothing else ever moves the stored value. */
  lemma {:induction false} Ledger(f: Field, run: seq<Event>)
    requires Possible(f, run)
    ensures Value(After(f, run)) ==
      Value(f) + Count(run, Increment) - Count(run, DecrementStarts) - Erased(f, run) + Reset(f, run)
    decreases |run|
  {
    if run != [] {
      Ledger(Step(f, run[0]), run[1..]);
    }
  }

  /** What the counter stands for: the start, plus increments, less decrements. */
  function TrueCount(start: int, run: seq<Event>): int {
    start + Count(run, Increment) - Count(run, DecrementStarts)
  }

  function Delta(e: Event): int {
    match e
    case Increment => 1
    case DecrementStarts => -1
    case DeleteRuns => 0
  }

  /** Every HDEL of the run comes when the true count is zero, whatever is stored. */
  ghost predicate DeletesAtZero(start: int, run: seq<Event>) {
    forall i :: 0 <= i < |run| && run[i].DeleteRuns? ==> TrueCount(start, run[..i]) == 0
  }

  lemma TrueCountCons(start: int, run: seq<Event>, i: nat)
    requires 0 < i <= |run|
    ensures TrueCount(start, run[..i]) == TrueCount(start + Delta(run[0]), run[1..][..i - 1])
  {
    var first, rest := run[..i], run[1..][..i - 1];
    assert first[0] == run[0] && first[1..] == rest;
    assert Count(first, Increment) == (if run[0].Increment? then 1 else 0) + Count(rest, Increment);
    assert Count(first, DecrementStarts) == (if run[0].DecrementStarts? then 1 else 0) + Count(rest, DecrementStarts);
  }

  lemma DeletesAtZeroCons(start: int, run: seq<Event>)
    requires run != []
    ensures DeletesAtZero(start, run) <==> (run[0].DeleteRuns? ==> start == 0) && DeletesAtZero(start + Delta(run[0]), run[1..])
  {
    var start' := start + Delta(run[0]);
    assert run[..0] == [];
    if DeletesAtZero(start, run) {
      forall i | 0 <= i < |run[1..]| && run[1..][i].DeleteRuns?
        ensures TrueCount(start', run[1..][..i]) == 0
      {
        assert run[i + 1].DeleteRuns?;
        TrueCountCons(start, run, i + 1);
      }
    }
    if (run[0].DeleteRuns? ==> start == 0) && DeletesAtZero(start', run[1..]) {
      forall i | 0 <= i < |run| && run[i].DeleteRuns?
        ensures TrueCount(start, run[..i]) == 0
      {
        if i > 0 {
          assert run[1..][i - 1].DeleteRuns?;
          TrueCountCons(start, run, i);
        }
      }
    }
  }

  /** The stored value is the true count at every moment of the run. */
  ghost predicate ExactThroughout(f: Field, run: seq<Event>, count: int)
    requires Possible(f, run)
    decreases |run|
  {
    Value(f) == count && (run != [] ==> ExactThroughout(Step(f, run[0]), run[1..], count + Delta(run[0])))
  }

  /** The counter is exact at every moment if and only if each HDEL lands while the true count is zero. */
  lemma {:induction false} ExactIffDeletesAtZero(f: Field, run: seq<Event>)
    requires Possible(f, run)
    ensures ExactThroughout(f, run, Value(f)) <==> DeletesAtZero(Value(f), run)
    decreases |run|
  {
    if run != [] {
      DeletesAtZeroCons(Value(f), run);
      ExactIffDeletesAtZero(Step(f, run[0]), run[1..]);
    }
  }

  /** A decrement pair that runs uninterrupted, after its own increment. */
  ghost predicate Uninterrupted(value: int, run: seq<Event>)
    decreases |run|
  {
    run != [] ==>
      match run[0]
      case Increment => Uninterrupted(value + 1, run[1..])
      case DecrementStarts =>
        value >= 1 && (if value == 1 then |run| > 1 && run[1].DeleteRuns? && Uninterrupted(0, run[2..]) else Uninterrupted(value - 1, run[1..]))
      case DeleteRuns => false
  }

  /** Such runs keep the count exact at every moment and never end negative. */
  lemma UninterruptedIsExact(f: Field, run: seq<Event>)
    requires f.owed == 0 && Value(f) >= 0 && Uninterrupted(Value(f), run)
    ensures Possible(f, run) && DeletesAtZero(Value(f), run) && ExactThroughout(f, run, Value(f))
    ensures Value(After(f, run)) == TrueCount(Value(f), run) >= 0
  {
    UninterruptedCounts(f, run);
    UninterruptedDeletes(Value(f), run);
    ExactIffDeletesAtZero(f, run);
  }

  lemma {:induction false} UninterruptedDeletes(value: int, run: seq<Event>)
    requires Uninterrupted(value, run)
    ensures DeletesAtZero(value, run)
    decreases |run|
  {
    if run != [] {
      DeletesAtZeroCons(value, run);
      if run[0].DecrementStarts? && value == 1 {
        assert run[1..][1..] == run[2..] && run[1..][0] == run[1];
        DeletesAtZeroCons(0, run[1..]);
        UninterruptedDeletes(0, run[2..]);
      } else {
        UninterruptedDeletes(value + Delta(run[0]), run[1..]);
      }
    }
  }

  lemma {:induction false} UninterruptedCounts(f: Field, run: seq<Event>)
    requires f.owed == 0 && Value(f) >= 0 && Uninterrupted(Value(f), run)
    ensures Possible(f, run) && Value(After(f, run)) == TrueCount(Value(f), run) >= 0
    decreases |run|
  {
    if run != [] {
      var g := Step(f, run[0]);
      if run[0].DecrementStarts? && Value(f) == 1 {
        var h := Step(g, run[1]);
        assert run[1..][1..] == run[2..] && run[1..][0] == run[1];
        UninterruptedCounts(h, run[2..]);
        assert Possible(g, run[1..]) && After(g, run[1..]) == After(h, run[2..]);
        assert Count(run[1..], Increment) == Count(run[2..], Increment);
        assert Count(run[1..], DecrementStarts) == Count(run[2..], DecrementStarts);
      } else {
        UninterruptedCounts(g, run[1..]);
      }
    }
  }

  function Increments(n: nat): seq<Event> {
    if n == 0 then [] else [Increment] + Increments(n - 1)
  }

  /** Increments between the two commands of the last decrement are lost, however many there are. */
  lemma LateDeleteLosesIncrements(f: Field, n: nat)
    requires Value(f) == 1
    ensures var run := [DecrementStarts] + Increments(n) + [DeleteRuns];
      Possible(f, run) && Value(After(f, run)) == 0 && TrueCount(1, run) == n
  {
    var run := [DecrementStarts] + Increments(n) + [DeleteRuns];
    assert run[1..] == Increments(n) + [DeleteRuns];
    IncrementsThenDelete(Step(f, DecrementStarts), n);
  }

  lemma {:induction false} IncrementsThenDelete(f: Field, n: nat)
    requires f.owed > 0
    ensures var run := Increments(n) + [DeleteRuns];
      Possible(f, run) && Value(After(f, run)) == 0 && Count(run, Increment) == n && Count(run, DecrementStarts) == 0
    decreases n
  {
    var run := Increments(n) + [DeleteRuns];
    if n == 0 {
      assert run[1..] == [];
    } else {
      assert run[1..] == Increments(n - 1) + [DeleteRuns];
      IncrementsThenDelete(Step(f, Increment), n - 1);
    }
  }
}
