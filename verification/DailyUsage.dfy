/** Daily usage per organisation (internal/db/batch.go, incrementDailyUsageForTasks). */
module DailyUsage {
  import opened Text
  import opened TaskTable

  type Counts = map<string, int>

  function CountOf(c: Counts, key: string): int {
    if key in c then c[key] else 0
  }

  /** How many of the tasks belong to one of the jobs. */
  function CountIn(tasks: seq<Task>, jobs: set<string>): nat {
    if tasks == [] then 0
    else CountIn(tasks[..|tasks| - 1], jobs) + (if tasks[|tasks| - 1].jobId in jobs then 1 else 0)
  }

  predicate BelongsTo(t: Task, organisations: map<string, string>, org: string) {
    t.jobId in organisations && organisations[t.jobId] == org
  }

  /** How many of the tasks have a job of that organisation. */
  function CountOrg(tasks: seq<Task>, organisations: map<string, string>, org: string): nat {
    if tasks == [] then 0
    else CountOrg(tasks[..|tasks| - 1], organisations, org) + (if BelongsTo(tasks[|tasks| - 1], organisations, org) then 1 else 0)
  }

  function JobsOf(jobs: set<string>, organisations: map<string, string>, org: string): set<string> {
    set job | job in jobs && job in organisations && organisations[job] == org
  }

  lemma {:induction false} CountSplit(tasks: seq<Task>, a: set<string>, b: set<string>)
    requires a !! b
    ensures CountIn(tasks, a + b) == CountIn(tasks, a) + CountIn(tasks, b)
  {
    if tasks != [] {
      CountSplit(tasks[..|tasks| - 1], a, b);
    }
  }

  lemma {:induction false} OrgIsItsJobs(tasks: seq<Task>, jobs: set<string>, organisations: map<string, string>, org: string)
    requires forall t :: t in tasks ==> t.jobId in jobs
    ensures CountIn(tasks, JobsOf(jobs, organisations, org)) == CountOrg(tasks, organisations, org)
  {
    if tasks != [] {
      OrgIsItsJobs(tasks[..|tasks| - 1], jobs, organisations, org);
    }
  }

  lemma {:induction false} NoJobs(tasks: seq<Task>)
    ensures CountIn(tasks, {}) == 0
  {
    if tasks != [] {
      NoJobs(tasks[..|tasks| - 1]);
    }
  }

  predicate Finishes(t: Task) {
    t.status == "completed" || t.status == "failed" || t.status == "blocked"
  }

  /** How many of a batch's updates finish a task of that organisation. */
  function Finished(tasks: seq<Task>, organisations: map<string, string>, org: string): nat {
    if tasks == [] then 0
    else
      var t := tasks[|tasks| - 1];
      Finished(tasks[..|tasks| - 1], organisations, org) + (if Finishes(t) && BelongsTo(t, organisations, org) then 1 else 0)
  }

  lemma FinishesRank(t: Task)
    ensures Finishes(t) <==> Rank(t.status) == 1 || Rank(t.status) == 2
  {
  }

  lemma CountSnoc(a: seq<Task>, t: Task, organisations: map<string, string>, org: string)
    ensures CountOrg(a + [t], organisations, org) == CountOrg(a, organisations, org) + if BelongsTo(t, organisations, org) then 1 else 0
  {
    assert (a + [t])[..|a|] == a;
  }

  lemma {:induction false} CountAppend(a: seq<Task>, b: seq<Task>, organisations: map<string, string>, org: string)
    ensures CountOrg(a + b, organisations, org) == CountOrg(a, organisations, org) + CountOrg(b, organisations, org)
  {
    if b == [] {
      assert a + b == a;
    } else {
      CountAppend(a, b[..|b| - 1], organisations, org);
      assert (a + b)[..|a + b| - 1] == a + b[..|b| - 1];
    }
  }

  /** The two buckets the usage is counted from hold exactly those updates. */
  lemma {:induction false} BucketsFinish(tasks: seq<Task>, organisations: map<string, string>, org: string)
    ensures CountOrg(Bucket(tasks, 1) + Bucket(tasks, 2), organisations, org) == Finished(tasks, organisations, org)
  {
    CountAppend(Bucket(tasks, 1), Bucket(tasks, 2), organisations, org);
    if tasks != [] {
      var rest, last := tasks[..|tasks| - 1], tasks[|tasks| - 1];
      BucketsFinish(rest, organisations, org);
      CountAppend(Bucket(rest, 1), Bucket(rest, 2), organisations, org);
      FinishesRank(last);
      CountSnoc(Bucket(rest, 1), last, organisations, org);
      CountSnoc(Bucket(rest, 2), last, organisations, org);
      BucketSnoc(tasks, 1);
      BucketSnoc(tasks, 2);
    }
  }

  lemma BucketSnoc(tasks: seq<Task>, rank: nat)
    requires tasks != []
    ensures var last := tasks[|tasks| - 1];
      Bucket(tasks, rank) == if Rank(last.status) == rank then Bucket(tasks[..|tasks| - 1], rank) + [last] else Bucket(tasks[..|tasks| - 1], rank)
  {
  }

  ghost predicate CountsJobs(c: Counts, tasks: seq<Task>) {
    (forall t :: t in tasks ==> t.jobId in c) && forall job :: CountOf(c, job) == CountIn(tasks, {job})
  }

  lemma OneMoreTask(c: Counts, tasks: seq<Task>, t: Task)
    requires CountsJobs(c, tasks)
    ensures CountsJobs(c[t.jobId := CountOf(c, t.jobId) + 1], tasks + [t])
  {
    assert (tasks + [t])[..|tasks|] == tasks;
  }

  ghost predicate CountsOrgs(c: Counts, tasks: seq<Task>, jobs: set<string>, organisations: map<string, string>) {
    forall org :: CountOf(c, org) == CountIn(tasks, JobsOf(jobs, organisations, org))
  }

  lemma OneMoreJob(c: Counts, tasks: seq<Task>, jobs: set<string>, organisations: map<string, string>, job: string, count: int)
    requires CountsOrgs(c, tasks, jobs, organisations) && job !in jobs && job in organisations && count == CountIn(tasks, {job})
    ensures CountsOrgs(c[organisations[job] := CountOf(c, organisations[job]) + count], tasks, jobs + {job}, organisations)
  {
    var c' := c[organisations[job] := CountOf(c, organisations[job]) + count];
    forall org
      ensures CountOf(c', org) == CountIn(tasks, JobsOf(jobs + {job}, organisations, org))
    {
      if org == organisations[job] {
        assert JobsOf(jobs + {job}, organisations, org) == JobsOf(jobs, organisations, org) + {job};
        CountSplit(tasks, JobsOf(jobs, organisations, org), {job});
      } else {
        assert JobsOf(jobs + {job}, organisations, org) == JobsOf(jobs, organisations, org);
      }
    }
  }

  lemma NothingCounted(tasks: seq<Task>, organisations: map<string, string>)
    ensures CountsJobs(map[], []) && CountsOrgs(map[], tasks, {}, organisations)
  {
    forall org
      ensures CountIn(tasks, JobsOf({}, organisations, org)) == 0
    {
      assert JobsOf({}, organisations, org) == {};
      NoJobs(tasks);
    }
  }

  /** The tables a flush writes. */
  class Database {
    var tasks: Tasks
    var usage: Counts
    /** The organisation of each job that has one. */
    var organisations: map<string, string>

    constructor (tasks: Tasks, organisations: map<string, string>)
      ensures this.tasks == tasks && usage == map[] && this.organisations == organisations
    {
      this.tasks, usage, this.organisations := tasks, map[], organisations;
    }

    /** One grouped UPDATE: every matched row is computed from what it was before the statement. */
    method RunStatement(bucket: seq<Task>)
      requires forall t :: t in bucket ==> Rank(t.status) > 0
      modifies this`tasks
      ensures IsStatement(old(tasks), bucket, tasks)
    {
      var before := tasks;
      NoStatement(before);
      for i := 0 to |bucket|
        invariant IsStatement(before, bucket[..i], tasks)
      {
        var t := bucket[i];
        OneMoreMatch(before, bucket[..i], tasks, t);
        assert bucket[..i] + [t] == bucket[..i + 1];
        if t.id in before {
          tasks := tasks[t.id := Updated(before[t.id], t)];
        }
      }
      assert bucket[..|bucket|] == bucket;
    }

    /** The transaction of a flush: five statements, then the usage. */
    method RunFlush(updates: seq<Task>, buckets: seq<seq<Task>>)
      requires AreBuckets(updates, buckets)
      modifies this`tasks, this`usage
      ensures IsFlush(old(tasks), updates, tasks)
      ensures forall org :: CountOf(usage, org) == CountOf(old(usage), org) + Finished(updates, organisations, org)
    {
      ghost var stages := [tasks];
      for rank := 1 to 6
        invariant |stages| == rank && stages[0] == old(tasks) && stages[rank - 1] == tasks && usage == old(usage)
        invariant forall r :: 1 <= r < rank ==> IsStatement(stages[r - 1], Bucket(updates, r), stages[r])
      {
        RunStatement(buckets[rank]);
        stages := stages + [tasks];
      }
      assert AreStatements(updates, stages);
      IncrementDailyUsageForTasks(buckets[1], buckets[2]);
      forall org
        ensures CountOrg(buckets[1] + buckets[2], organisations, org) == Finished(updates, organisations, org)
      {
        BucketsFinish(updates, organisations, org);
      }
    }

    /** A transaction with the statement for one task; the usage is not touched. */
    method UpdateOne(t: Task)
      requires Rank(t.status) > 0
      modifies this`tasks
      ensures tasks == ApplyOne(old(tasks), t)
    {
      if t.id in tasks {
        tasks := tasks[t.id := Updated(tasks[t.id], t)];
      }
    }

    method CountTasks(counts: Counts, ghost before: seq<Task>, more: seq<Task>) returns (c: Counts)
      requires CountsJobs(counts, before)
      ensures CountsJobs(c, before + more)
    {
      c := counts;
      assert before + more[..0] == before;
      for i := 0 to |more|
        invariant CountsJobs(c, before + more[..i])
      {
        OneMoreTask(c, before + more[..i], more[i]);
        assert before + more[..i] + [more[i]] == before + more[..i + 1];
        c := c[more[i].jobId := CountOf(c, more[i].jobId) + 1];
      }
      assert before + more[..|more|] == before + more;
    }

    /** The jobs' organisations, row by row in any order; jobs without one are left out. */
    method CountOrganisations(jobCounts: Counts, ghost all: seq<Task>) returns (orgCounts: Counts)
      requires CountsJobs(jobCounts, all)
      ensures forall org :: CountOf(orgCounts, org) == CountOrg(all, organisations, org)
    {
      NothingCounted(all, organisations);
      orgCounts := map[];
      var rows := jobCounts.Keys * organisations.Keys;
      var left := rows;
      assert rows - left == {};
      while left != {}
        invariant left <= rows && CountsOrgs(orgCounts, all, rows - left, organisations)
        decreases |left|
      {
        var job :| job in left;
        assert CountOf(jobCounts, job) == CountIn(all, {job});
        OneMoreJob(orgCounts, all, rows - left, organisations, job, jobCounts[job]);
        assert rows - (left - {job}) == rows - left + {job};
        orgCounts := orgCounts[organisations[job] := CountOf(orgCounts, organisations[job]) + jobCounts[job]];
        left := left - {job};
      }
      assert rows - {} == rows;
      AllOrgs(orgCounts, jobCounts, all, organisations);
    }

    method AddUsage(orgCounts: Counts)
      modifies this`usage
      ensures forall org :: CountOf(usage, org) == CountOf(old(usage), org) + CountOf(orgCounts, org)
    {
      var orgs := orgCounts.Keys;
      while orgs != {}
        invariant orgs <= orgCounts.Keys
        invariant forall org :: CountOf(usage, org) == CountOf(old(usage), org) + (if org in orgs then 0 else CountOf(orgCounts, org))
        decreases |orgs|
      {
        var org :| org in orgs;
        usage := usage[org := CountOf(usage, org) + orgCounts[org]];
        orgs := orgs - {org};
      }
    }

    /** Each organisation's usage rises by the number of these tasks whose job belongs to it. */
    method IncrementDailyUsageForTasks(completed: seq<Task>, failed: seq<Task>)
      modifies this`usage
      ensures forall org :: CountOf(usage, org) == CountOf(old(usage), org) + CountOrg(completed + failed, organisations, org)
    {
      NothingCounted([], organisations);
      var jobCounts := CountTasks(map[], [], completed);
      assert [] + completed == completed;
      jobCounts := CountTasks(jobCounts, completed, failed);
      var orgCounts := CountOrganisations(jobCounts, completed + failed);
      AddUsage(orgCounts);
    }
  }

  lemma AllOrgs(orgCounts: Counts, jobCounts: Counts, all: seq<Task>, organisations: map<string, string>)
    requires CountsJobs(jobCounts, all) && CountsOrgs(orgCounts, all, jobCounts.Keys * organisations.Keys, organisations)
    ensures forall org :: CountOf(orgCounts, org) == CountOrg(all, organisations, org)
  {
    forall org
      ensures CountOf(orgCounts, org) == CountOrg(all, organisations, org)
    {
      assert JobsOf(jobCounts.Keys * organisations.Keys, organisations, org) == JobsOf(jobCounts.Keys, organisations, org);
      OrgIsItsJobs(all, jobCounts.Keys, organisations, org);
    }
  }
}
