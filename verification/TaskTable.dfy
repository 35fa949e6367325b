/** Task updates as SQL statements: grouped by status or one at a time (internal/db/batch.go). */
module TaskTable {
  import opened Text

  /** Go's zero time; the database can also hold NULL. */
  const ZERO_TIME := 0

  /** The response columns, one of each kind: copied, defaulted JSON, kept when empty, kept when not positive. */
  datatype Response = Response(statusCode: int, headers: string, htmlPath: string, htmlSize: int)

  datatype Task = Task(
    id: string, jobId: string, status: string, startedAt: int, completedAt: int, error: string, retryCount: int,
    response: Response, diagnostics: string)

  datatype TaskRow = TaskRow(
    status: string, startedAt: Option<int>, completedAt: Option<int>, error: string, retryCount: int,
    response: Response, diagnostics: string)

  type Tasks = map<string, TaskRow>

  /** The place of a status in the order of the five statements; zero for a status no statement takes. */
  function Rank(status: string): (r: nat)
    ensures r <= 5
  {
    if status == "completed" then 1
    else if status == "failed" || status == "blocked" then 2
    else if status == "skipped" then 3
    else if status == "pending" then 4
    else if status == "waiting" then 5
    else 0
  }

  function JsonOf(text: string): string {
    if text == "" then "{}" else text
  }

  function Coalesce(column: Option<int>, value: int): Option<int> {
    if column.Some? then column else Some(value)
  }

  /** When the task was dispatched, or else when it completed. */
  function Started(t: Task): int {
    if t.startedAt != ZERO_TIME then t.startedAt else t.completedAt
  }

  function Stored(r: Response, row: Response): Response {
    Response(r.statusCode, JsonOf(r.headers), if r.htmlPath == "" then row.htmlPath else r.htmlPath,
             if r.htmlSize > 0 then r.htmlSize else row.htmlSize)
  }

  /** The SET clause of the statement that takes the task. */
  function Updated(row: TaskRow, t: Task): TaskRow
    requires Rank(t.status) > 0
  {
    match Rank(t.status)
    case 1 =>
      row.(status := "completed", startedAt := Coalesce(row.startedAt, Started(t)), completedAt := Some(t.completedAt),
           response := Stored(t.response, row.response), retryCount := t.retryCount, diagnostics := JsonOf(t.diagnostics))
    case 2 =>
      row.(status := t.status, startedAt := Coalesce(row.startedAt, Started(t)), completedAt := Some(t.completedAt),
           error := t.error, retryCount := t.retryCount, diagnostics := JsonOf(t.diagnostics))
    case 3 => row.(status := "skipped")
    case 4 => row.(status := "pending", retryCount := t.retryCount, startedAt := Some(t.startedAt))
    case _ => row.(status := t.status, startedAt := None, error := t.error, retryCount := t.retryCount, diagnostics := JsonOf(t.diagnostics))
  }

  lemma UpdatedStatus(row: TaskRow, t: Task)
    requires Rank(t.status) > 0
    ensures Updated(row, t).status == t.status
  {
  }

  // ---------- one statement ----------

  /** The tasks the statement of that rank takes, in queue order. */
  function Bucket(tasks: seq<Task>, rank: nat): (r: seq<Task>)
    ensures forall t :: t in r <==> t in tasks && Rank(t.status) == rank
  {
    if tasks == [] then []
    else
      var last := tasks[|tasks| - 1];
      Bucket(tasks[..|tasks| - 1], rank) + (if Rank(last.status) == rank then [last] else [])
  }

  /** Buckets 1 to 5 hold what the statements take; 0 is for unknown statuses. */
  ghost predicate AreBuckets(tasks: seq<Task>, buckets: seq<seq<Task>>) {
    |buckets| == 6 && forall rank :: 1 <= rank <= 5 ==> buckets[rank] == Bucket(tasks, rank)
  }

  ghost predicate Mentions(tasks: seq<Task>, id: string) {
    exists t :: t in tasks && t.id == id
  }

  ghost predicate WrittenBy(before: TaskRow, tasks: seq<Task>, id: string, after: TaskRow) {
    exists t :: t in tasks && t.id == id && Rank(t.status) > 0 && after == Updated(before, t)
  }

  /** UPDATE ... FROM unnest(...): a row that several updates match takes any one of them. */
  ghost predicate IsStatement(before: Tasks, tasks: seq<Task>, after: Tasks) {
    after.Keys == before.Keys &&
    forall id :: id in before ==> if Mentions(tasks, id) then WrittenBy(before[id], tasks, id, after[id]) else after[id] == before[id]
  }

  /** The five statements of a flush, in their fixed order. */
  ghost predicate AreStatements(tasks: seq<Task>, stages: seq<Tasks>) {
    |stages| == 6 && forall rank :: 1 <= rank <= 5 ==> IsStatement(stages[rank - 1], Bucket(tasks, rank), stages[rank])
  }

  ghost predicate IsFlush(before: Tasks, tasks: seq<Task>, after: Tasks) {
    exists stages :: AreStatements(tasks, stages) && stages[0] == before && stages[5] == after
  }

  // ---------- one at a time ----------

  function ApplyOne(table: Tasks, t: Task): (r: Tasks)
    ensures r.Keys == table.Keys
  {
    if t.id in table && Rank(t.status) > 0 then table[t.id := Updated(table[t.id], t)] else table
  }

  function OneByOne(table: Tasks, tasks: seq<Task>): (r: Tasks)
    ensures r.Keys == table.Keys
  {
    if tasks == [] then table else ApplyOne(OneByOne(table, tasks[..|tasks| - 1]), tasks[|tasks| - 1])
  }

  // ---------- when the two agree ----------

  /** Updates of one task come in the order of the statements that take them, at most one for each. */
  ghost predicate InStatementOrder(tasks: seq<Task>) {
    forall i, j :: 0 <= i < j < |tasks| && tasks[i].id == tasks[j].id && Rank(tasks[i].status) > 0 && Rank(tasks[j].status) > 0 ==>
      Rank(tasks[i].status) < Rank(tasks[j].status)
  }

  ghost predicate DistinctIds(tasks: seq<Task>) {
    forall i, j :: 0 <= i < j < |tasks| ==> tasks[i].id != tasks[j].id
  }

  lemma DistinctAreOrdered(tasks: seq<Task>)
    requires DistinctIds(tasks)
    ensures InStatementOrder(tasks)
  {
  }

  /** The last update of that task taken by the statement of that rank. */
  function Latest(tasks: seq<Task>, id: string, rank: nat): (r: Option<Task>)
    ensures r.Some? ==> r.value in tasks && r.value.id == id && Rank(r.value.status) == rank
    ensures r.None? ==> forall t :: t in tasks ==> !(t.id == id && Rank(t.status) == rank)
  {
    if tasks == [] then None
    else
      var last := tasks[|tasks| - 1];
      if last.id == id && Rank(last.status) == rank then Some(last) else Latest(tasks[..|tasks| - 1], id, rank)
  }

  /** One row after the statements up to a rank. */
  function ByRank(row: TaskRow, tasks: seq<Task>, id: string, rank: nat): TaskRow {
    if rank == 0 then row
    else
      var before := ByRank(row, tasks, id, rank - 1);
      var t := Latest(tasks, id, rank);
      if t.Some? then Updated(before, t.value) else before
  }

  lemma {:induction false} ByRankSnoc(row: TaskRow, tasks: seq<Task>, id: string, rank: nat)
    requires tasks != [] && InStatementOrder(tasks) && rank <= 5
    ensures var last := tasks[|tasks| - 1];
      ByRank(row, tasks, id, rank) ==
      if last.id == id && 0 < Rank(last.status) <= rank then Updated(ByRank(row, tasks[..|tasks| - 1], id, rank), last)
      else ByRank(row, tasks[..|tasks| - 1], id, rank)
    decreases rank
  {
    if rank > 0 {
      ByRankSnoc(row, tasks, id, rank - 1);
      var rest, last := tasks[..|tasks| - 1], tasks[|tasks| - 1];
      if last.id == id && 0 < Rank(last.status) <= rank {
        NoneAtOrAbove(tasks, id, rank);
      }
    }
  }

  lemma NoneAtOrAbove(tasks: seq<Task>, id: string, rank: nat)
    requires tasks != [] && InStatementOrder(tasks)
    requires tasks[|tasks| - 1].id == id && 0 < Rank(tasks[|tasks| - 1].status) <= rank
    ensures Latest(tasks[..|tasks| - 1], id, rank).None?
  {
    forall t | t in tasks[..|tasks| - 1]
      ensures !(t.id == id && Rank(t.status) == rank)
    {
      var i :| 0 <= i < |tasks| - 1 && tasks[i] == t;
    }
  }

  lemma {:induction false} QueueOrderIsRankOrder(table: Tasks, tasks: seq<Task>, id: string)
    requires InStatementOrder(tasks) && id in table
    ensures OneByOne(table, tasks)[id] == ByRank(table[id], tasks, id, 5)
    decreases |tasks|
  {
    if tasks == [] {
      NothingByRank(table[id], id, 5);
    } else {
      QueueOrderIsRankOrder(table, tasks[..|tasks| - 1], id);
      ByRankSnoc(table[id], tasks, id, 5);
    }
  }

  lemma {:induction false} NothingByRank(row: TaskRow, id: string, rank: nat)
    ensures ByRank(row, [], id, rank) == row
  {
    if rank > 0 {
      NothingByRank(row, id, rank - 1);
    }
  }

  lemma OnlyOne(tasks: seq<Task>, id: string, rank: nat, t: Task)
    requires InStatementOrder(tasks) && rank > 0 && t in tasks && t.id == id && Rank(t.status) == rank
    ensures Latest(tasks, id, rank) == Some(t)
  {
    var i :| 0 <= i < |tasks| && tasks[i] == t;
    var u := Latest(tasks, id, rank).value;
    var j :| 0 <= j < |tasks| && tasks[j] == u;
  }

  lemma StatementByRank(before: Tasks, tasks: seq<Task>, rank: nat, after: Tasks, row: TaskRow, id: string)
    requires InStatementOrder(tasks) && rank > 0 && IsStatement(before, Bucket(tasks, rank), after)
    requires id in before && before[id] == ByRank(row, tasks, id, rank - 1)
    ensures id in after && after[id] == ByRank(row, tasks, id, rank)
  {
    var bucket, latest := Bucket(tasks, rank), Latest(tasks, id, rank);
    assert latest.Some? ==> latest.value in bucket;
    if Mentions(bucket, id) {
      var t :| t in bucket && t.id == id && Rank(t.status) > 0 && after[id] == Updated(before[id], t);
      OnlyOne(tasks, id, rank, t);
    }
  }

  lemma {:induction false} StagesByRank(tasks: seq<Task>, stages: seq<Tasks>, id: string, rank: nat)
    requires AreStatements(tasks, stages) && InStatementOrder(tasks) && rank <= 5 && id in stages[0]
    ensures id in stages[rank] && stages[rank][id] == ByRank(stages[0][id], tasks, id, rank)
    decreases rank
  {
    if rank > 0 {
      StagesByRank(tasks, stages, id, rank - 1);
      StatementByRank(stages[rank - 1], tasks, rank, stages[rank], stages[0][id], id);
    }
  }

  lemma {:induction false} StageKeys(tasks: seq<Task>, stages: seq<Tasks>, rank: nat)
    requires AreStatements(tasks, stages) && rank <= 5
    ensures stages[rank].Keys == stages[0].Keys
    decreases rank
  {
    if rank > 0 {
      StageKeys(tasks, stages, rank - 1);
      assert IsStatement(stages[rank - 1], Bucket(tasks, rank), stages[rank]);
    }
  }

  /** In statement order, and so with distinct ids, the grouped flush is the updates applied one by one. */
  lemma FlushIsOneByOne(before: Tasks, tasks: seq<Task>, after: Tasks)
    requires InStatementOrder(tasks) && IsFlush(before, tasks, after)
    ensures after == OneByOne(before, tasks)
  {
    var stages :| AreStatements(tasks, stages) && stages[0] == before && stages[5] == after;
    StageKeys(tasks, stages, 5);
    forall id | id in before
      ensures after[id] == OneByOne(before, tasks)[id]
    {
      StagesByRank(tasks, stages, id, 5);
      QueueOrderIsRankOrder(before, tasks, id);
    }
  }

  /** And such a flush is always possible. */
  lemma OneByOneIsFlush(before: Tasks, tasks: seq<Task>)
    requires InStatementOrder(tasks)
    ensures IsFlush(before, tasks, OneByOne(before, tasks))
  {
    var stages := seq(6, rank requires 0 <= rank < 6 => Stage(before, tasks, rank));
    forall rank | 1 <= rank <= 5
      ensures IsStatement(stages[rank - 1], Bucket(tasks, rank), stages[rank])
    {
      BucketStatement(Stage(before, tasks, rank - 1), tasks, rank);
    }
    hide OneByOne, Bucket, Stage, InStatementOrder;
    assert AreStatements(tasks, stages) && stages[0] == before;
    FlushIsOneByOne(before, tasks, stages[5]);
  }

  /** With distinct ids a grouped flush has exactly one outcome: the updates applied one by one in queue order. */
  lemma DistinctFlushIsOneByOne(before: Tasks, tasks: seq<Task>, after: Tasks)
    requires DistinctIds(tasks)
    ensures IsFlush(before, tasks, after) <==> after == OneByOne(before, tasks)
  {
    DistinctAreOrdered(tasks);
    OneByOneIsFlush(before, tasks);
    if IsFlush(before, tasks, after) {
      FlushIsOneByOne(before, tasks, after);
    }
  }

  function Stage(before: Tasks, tasks: seq<Task>, rank: nat): Tasks {
    if rank == 0 then before else OneByOne(Stage(before, tasks, rank - 1), Bucket(tasks, rank))
  }

  lemma BucketStatement(before: Tasks, tasks: seq<Task>, rank: nat)
    requires InStatementOrder(tasks) && rank > 0
    ensures IsStatement(before, Bucket(tasks, rank), OneByOne(before, Bucket(tasks, rank)))
  {
    BucketDistinct(tasks, rank);
    DistinctIsStatement(before, Bucket(tasks, rank));
  }

  lemma {:induction false} BucketDistinct(tasks: seq<Task>, rank: nat)
    requires InStatementOrder(tasks) && rank > 0
    ensures DistinctIds(Bucket(tasks, rank))
    decreases |tasks|
  {
    if tasks != [] {
      var n := |tasks| - 1;
      var rest, last := Bucket(tasks[..n], rank), tasks[n];
      BucketDistinct(tasks[..n], rank);
      if Rank(last.status) == rank {
        forall i | 0 <= i < |rest|
          ensures rest[i].id != last.id
        {
          assert rest[i] in rest;
          var j :| 0 <= j < n && tasks[j] == rest[i];
        }
      }
    }
  }

  lemma {:induction false} DistinctIsStatement(before: Tasks, tasks: seq<Task>)
    requires DistinctIds(tasks) && forall t :: t in tasks ==> Rank(t.status) > 0
    ensures IsStatement(before, tasks, OneByOne(before, tasks))
    decreases |tasks|
  {
    if tasks != [] {
      var n := |tasks| - 1;
      var rest, last := tasks[..n], tasks[n];
      DistinctIsStatement(before, rest);
      assert tasks == rest + [last];
      forall t | t in rest
        ensures t.id != last.id
      {
        var i :| 0 <= i < n && tasks[i] == t;
      }
      StatementSnoc(before, rest, OneByOne(before, rest), last);
    }
  }

  lemma StatementSnoc(before: Tasks, rest: seq<Task>, mid: Tasks, last: Task)
    requires IsStatement(before, rest, mid) && Rank(last.status) > 0 && forall t :: t in rest ==> t.id != last.id
    ensures IsStatement(before, rest + [last], ApplyOne(mid, last))
  {
    forall id | id in before
      ensures if Mentions(rest + [last], id) then WrittenBy(before[id], rest + [last], id, ApplyOne(mid, last)[id])
              else ApplyOne(mid, last)[id] == before[id]
    {
      assert last in rest + [last];
      if id != last.id && Mentions(rest + [last], id) {
        var t :| t in rest + [last] && t.id == id;
        assert Mentions(rest, id);
      }
    }
  }

  // ---------- when they disagree ----------

  ghost predicate NoneAbove(tasks: seq<Task>, id: string, rank: nat) {
    forall t :: t in tasks && t.id == id ==> Rank(t.status) <= rank
  }

  /** After a flush the row has the status of an update that the last statement to take one of its updates took. */
  lemma LastStatementWins(before: Tasks, tasks: seq<Task>, after: Tasks, t: Task)
    requires IsFlush(before, tasks, after) && t in tasks && t.id in before
    requires Rank(t.status) > 0 && NoneAbove(tasks, t.id, Rank(t.status))
    ensures t.id in after && exists u :: u in Bucket(tasks, Rank(t.status)) && u.id == t.id && after[t.id].status == u.status
  {
    var stages :| AreStatements(tasks, stages) && stages[0] == before && stages[5] == after;
    var rank := Rank(t.status);
    StageKeys(tasks, stages, rank);
    StageKeys(tasks, stages, rank - 1);
    assert IsStatement(stages[rank - 1], Bucket(tasks, rank), stages[rank]);
    assert t in Bucket(tasks, rank) && Mentions(Bucket(tasks, rank), t.id);
    var was: Tasks, now: Tasks := stages[rank - 1], stages[rank];
    var u :| u in Bucket(tasks, rank) && u.id == t.id && Rank(u.status) > 0 && now[t.id] == Updated(was[t.id], u);
    UpdatedStatus(was[t.id], u);
    QuietStages(tasks, stages, t.id, rank, 5);
  }

  lemma {:induction false} QuietStages(tasks: seq<Task>, stages: seq<Tasks>, id: string, rank: nat, end: nat)
    requires AreStatements(tasks, stages) && rank <= end <= 5 && NoneAbove(tasks, id, rank) && id in stages[rank]
    ensures id in stages[end] && stages[end][id] == stages[rank][id]
    decreases end
  {
    if rank < end {
      QuietStages(tasks, stages, id, rank, end - 1);
      assert IsStatement(stages[end - 1], Bucket(tasks, end), stages[end]);
    }
  }

  /** No update behind the i-th is taken for the same task. */
  ghost predicate IsLast(tasks: seq<Task>, i: nat) {
    i < |tasks| && Rank(tasks[i].status) > 0 && forall j :: i < j < |tasks| && tasks[j].id == tasks[i].id ==> Rank(tasks[j].status) == 0
  }

  lemma {:induction false} LastUpdateWins(before: Tasks, tasks: seq<Task>, i: nat)
    requires IsLast(tasks, i) && tasks[i].id in before
    ensures OneByOne(before, tasks)[tasks[i].id].status == tasks[i].status
    decreases |tasks|
  {
    var n := |tasks| - 1;
    if i == n {
      UpdatedStatus(OneByOne(before, tasks[..n])[tasks[i].id], tasks[i]);
    } else {
      LastUpdateWins(before, tasks[..n], i);
    }
  }

  lemma NoStatement(before: Tasks)
    ensures IsStatement(before, [], before)
  {
  }

  lemma OneMoreMatch(before: Tasks, tasks: seq<Task>, mid: Tasks, t: Task)
    requires IsStatement(before, tasks, mid) && Rank(t.status) > 0
    ensures IsStatement(before, tasks + [t], if t.id in before then mid[t.id := Updated(before[t.id], t)] else mid)
  {
    assert t in tasks + [t];
    forall id | id in before && id != t.id
      ensures Mentions(tasks + [t], id) <==> Mentions(tasks, id)
      ensures WrittenBy(before[id], tasks, id, mid[id]) ==> WrittenBy(before[id], tasks + [t], id, mid[id])
    {
      if Mentions(tasks, id) {
        var u :| u in tasks && u.id == id;
        assert u in tasks + [t];
      }
    }
  }

  /** The outcome of a statement in which the last of several matching updates is the one taken. */
  function LastWins(before: Tasks, tasks: seq<Task>): Tasks
    requires forall t :: t in tasks ==> Rank(t.status) > 0
  {
    if tasks == [] then before
    else
      var t, rest := tasks[|tasks| - 1], LastWins(before, tasks[..|tasks| - 1]);
      if t.id in before then rest[t.id := Updated(before[t.id], t)] else rest
  }

  lemma {:induction false} LastWinsIsStatement(before: Tasks, tasks: seq<Task>)
    requires forall t :: t in tasks ==> Rank(t.status) > 0
    ensures IsStatement(before, tasks, LastWins(before, tasks))
    decreases |tasks|
  {
    if tasks == [] {
      NoStatement(before);
    } else {
      var n := |tasks| - 1;
      LastWinsIsStatement(before, tasks[..n]);
      OneMoreMatch(before, tasks[..n], LastWins(before, tasks[..n]), tasks[n]);
      assert tasks[..n] + [tasks[n]] == tasks;
    }
  }

  /** The bucket of a rank, with an update of that rank moved to where it is the one taken. */
  function Preferring(tasks: seq<Task>, rank: nat, u: Task): seq<Task> {
    if Rank(u.status) == rank then Bucket(tasks, rank) + [u] else Bucket(tasks, rank)
  }

  lemma SameMembers(before: Tasks, a: seq<Task>, b: seq<Task>, after: Tasks)
    requires IsStatement(before, a, after) && forall t :: t in a <==> t in b
    ensures IsStatement(before, b, after)
  {
    forall id
      ensures Mentions(a, id) <==> Mentions(b, id)
    {
    }
    forall id | id in before
      ensures WrittenBy(before[id], a, id, after[id]) <==> WrittenBy(before[id], b, id, after[id])
    {
    }
  }

  function StagePreferring(before: Tasks, tasks: seq<Task>, rank: nat, u: Task): Tasks
    requires u in tasks
  {
    if rank == 0 then before else LastWins(StagePreferring(before, tasks, rank - 1, u), Preferring(tasks, rank, u))
  }

  lemma PreferringIsStatement(before: Tasks, tasks: seq<Task>, rank: nat, u: Task)
    requires u in tasks && rank > 0
    ensures IsStatement(before, Bucket(tasks, rank), LastWins(before, Preferring(tasks, rank, u)))
  {
    var list := Preferring(tasks, rank, u);
    LastWinsIsStatement(before, list);
    SameMembers(before, list, Bucket(tasks, rank), LastWins(before, list));
  }

  lemma PreferredIsTaken(before: Tasks, tasks: seq<Task>, u: Task)
    requires u in tasks && u.id in before && Rank(u.status) > 0
    ensures var after := LastWins(before, Preferring(tasks, Rank(u.status), u)); u.id in after && after[u.id].status == u.status
  {
    var list := Preferring(tasks, Rank(u.status), u);
    assert list[|list| - 1] == u;
    PreferringIsStatement(before, tasks, Rank(u.status), u);
    UpdatedStatus(before[u.id], u);
  }

  function PreferringStages(before: Tasks, tasks: seq<Task>, u: Task): (stages: seq<Tasks>)
    requires u in tasks
    ensures |stages| == 6 && forall rank :: 0 <= rank < 6 ==> stages[rank] == StagePreferring(before, tasks, rank, u)
  {
    seq(6, rank requires 0 <= rank < 6 => StagePreferring(before, tasks, rank, u))
  }

  lemma PreferringStatements(before: Tasks, tasks: seq<Task>, u: Task)
    requires u in tasks
    ensures AreStatements(tasks, PreferringStages(before, tasks, u))
  {
    var stages := PreferringStages(before, tasks, u);
    forall rank | 1 <= rank <= 5
      ensures IsStatement(stages[rank - 1], Bucket(tasks, rank), stages[rank])
    {
      PreferringIsStatement(StagePreferring(before, tasks, rank - 1, u), tasks, rank, u);
    }
  }

  /** Of the updates that the last statement for a task takes, a flush may take any. */
  lemma FlushTaking(before: Tasks, tasks: seq<Task>, u: Task) returns (after: Tasks)
    requires u in tasks && u.id in before && Rank(u.status) > 0 && NoneAbove(tasks, u.id, Rank(u.status))
    ensures IsFlush(before, tasks, after) && u.id in after && after[u.id].status == u.status
  {
    var stages, rank := PreferringStages(before, tasks, u), Rank(u.status);
    PreferringStatements(before, tasks, u);
    after := stages[5];
    StageKeys(tasks, stages, rank - 1);
    PreferredIsTaken(StagePreferring(before, tasks, rank - 1, u), tasks, u);
    QuietStages(tasks, stages, u.id, rank, 5);
  }

  /** Every update of the task whose statement does not come before that of t has the same status as t. */
  ghost predicate StatusIsLast(tasks: seq<Task>, t: Task) {
    forall u :: u in tasks && u.id == t.id && Rank(u.status) >= Rank(t.status) ==> u.status == t.status
  }

  /**
   * For every task of a batch, whatever a grouped flush makes of repeated ids, it leaves the status that queue order
   * would leave exactly when all updates from the last one's statement on agree with the last one.
   */
  lemma StatusSurvivesIff(before: Tasks, tasks: seq<Task>, i: nat)
    requires IsLast(tasks, i) && tasks[i].id in before
    ensures var id := tasks[i].id;
      (forall after: Tasks :: IsFlush(before, tasks, after) ==> id in after && after[id].status == OneByOne(before, tasks)[id].status) <==>
      StatusIsLast(tasks, tasks[i])
  {
    var t := tasks[i];
    LastUpdateWins(before, tasks, i);
    if StatusIsLast(tasks, t) {
      forall after: Tasks | IsFlush(before, tasks, after)
        ensures t.id in after && after[t.id].status == t.status
      {
        LastStatementWins(before, tasks, after, t);
      }
    } else {
      var u :| u in tasks && u.id == t.id && Rank(u.status) >= Rank(t.status) && u.status != t.status;
      var top := Highest(tasks, u);
      var taken := if Rank(top.status) > Rank(t.status) then top else u;
      var after := FlushTaking(before, tasks, taken);
    }
  }

  /** An update of the same task whose statement comes last. */
  lemma {:induction false} Highest(tasks: seq<Task>, t: Task) returns (top: Task)
    requires t in tasks
    ensures top in tasks && top.id == t.id && NoneAbove(tasks, t.id, Rank(top.status)) && Rank(top.status) >= Rank(t.status)
    decreases 5 - Rank(t.status)
  {
    if NoneAbove(tasks, t.id, Rank(t.status)) {
      top := t;
    } else {
      var u :| u in tasks && u.id == t.id && Rank(u.status) > Rank(t.status);
      top := Highest(tasks, u);
    }
  }

  // ---------- what a flush records, by the name of the status ----------

  ghost predicate HasStatus(tasks: seq<Task>, id: string, status: string) {
    exists t :: t in tasks && t.id == id && t.status == status
  }

  ghost predicate NoneKnown(tasks: seq<Task>, id: string) {
    !HasStatus(tasks, id, "completed") && !HasStatus(tasks, id, "failed") && !HasStatus(tasks, id, "blocked") &&
    !HasStatus(tasks, id, "skipped") && !HasStatus(tasks, id, "pending") && !HasStatus(tasks, id, "waiting")
  }

  /** Among the task's updates none has a status that wins over this one. */
  ghost predicate Wins(tasks: seq<Task>, id: string, status: string) {
    HasStatus(tasks, id, status) &&
    if HasStatus(tasks, id, "waiting") then status == "waiting"
    else if HasStatus(tasks, id, "pending") then status == "pending"
    else if HasStatus(tasks, id, "skipped") then status == "skipped"
    else if HasStatus(tasks, id, "failed") || HasStatus(tasks, id, "blocked") then status == "failed" || status == "blocked"
    else status == "completed"
  }

  /**
   * Whatever order the updates of a task were queued in, waiting wins over pending, pending over skipped, skipped over
   * failed and blocked, and these over completed; a task with none of them keeps its row.
   */
  lemma StatusAfterFlush(before: Tasks, tasks: seq<Task>, after: Tasks, id: string)
    requires IsFlush(before, tasks, after) && id in before
    ensures id in after && (Wins(tasks, id, after[id].status) || (NoneKnown(tasks, id) && after[id] == before[id]))
  {
    if t :| t in tasks && t.id == id && Rank(t.status) > 0 {
      var top := Topmost(tasks, id, t);
      LastStatementWins(before, tasks, after, top);
      var u :| u in Bucket(tasks, Rank(top.status)) && u.id == id && after[id].status == u.status;
      assert HasStatus(tasks, id, u.status) && Rank(u.status) == Rank(top.status);
      TopmostWins(tasks, id, u.status);
    } else {
      NoUpdateNoChange(before, tasks, after, id);
      NoneTaken(tasks, id);
    }
  }

  lemma NoneTaken(tasks: seq<Task>, id: string)
    requires forall t :: t in tasks && t.id == id ==> Rank(t.status) == 0
    ensures NoneKnown(tasks, id)
  {
  }

  lemma TopmostWins(tasks: seq<Task>, id: string, status: string)
    requires HasStatus(tasks, id, status) && Rank(status) > 0 && NoneAbove(tasks, id, Rank(status))
    ensures Wins(tasks, id, status)
  {
    forall other | HasStatus(tasks, id, other)
      ensures Rank(other) <= Rank(status)
    {
    }
  }

  lemma {:induction false} Topmost(tasks: seq<Task>, id: string, t: Task) returns (top: Task)
    requires t in tasks && t.id == id && Rank(t.status) > 0
    ensures top in tasks && top.id == id && Rank(top.status) >= Rank(t.status) && NoneAbove(tasks, id, Rank(top.status))
    decreases 5 - Rank(t.status)
  {
    if NoneAbove(tasks, id, Rank(t.status)) {
      top := t;
    } else {
      var u :| u in tasks && u.id == id && Rank(u.status) > Rank(t.status);
      top := Topmost(tasks, id, u);
    }
  }

  lemma NoUpdateNoChange(before: Tasks, tasks: seq<Task>, after: Tasks, id: string)
    requires IsFlush(before, tasks, after) && id in before && forall t :: t in tasks && t.id == id ==> Rank(t.status) == 0
    ensures id in after && after[id] == before[id]
  {
    var stages :| AreStatements(tasks, stages) && stages[0] == before && stages[5] == after;
    UntouchedStages(tasks, stages, id, 5);
  }

  lemma {:induction false} UntouchedStages(tasks: seq<Task>, stages: seq<Tasks>, id: string, rank: nat)
    requires AreStatements(tasks, stages) && rank <= 5 && id in stages[0]
    requires forall t :: t in tasks && t.id == id ==> Rank(t.status) == 0
    ensures id in stages[rank] && stages[rank][id] == stages[0][id]
    decreases rank
  {
    if rank > 0 {
      UntouchedStages(tasks, stages, id, rank - 1);
      assert IsStatement(stages[rank - 1], Bucket(tasks, rank), stages[rank]);
      assert !Mentions(Bucket(tasks, rank), id);
    }
  }

  /** The columns an update sets: a first start is never moved but by pending and waiting, empty values keep or default. */
  ghost predicate Records(row: TaskRow, t: Task, row': TaskRow) {
    var start := if row.startedAt.Some? then row.startedAt else Some(if t.startedAt != ZERO_TIME then t.startedAt else t.completedAt);
    var diagnostics := if t.diagnostics == "" then "{}" else t.diagnostics;
    if t.status == "completed" then
      row'.status == "completed" && row'.startedAt == start && row'.completedAt == Some(t.completedAt) && row'.error == row.error &&
      row'.retryCount == t.retryCount && row'.diagnostics == diagnostics && row'.response.statusCode == t.response.statusCode &&
      row'.response.headers == (if t.response.headers == "" then "{}" else t.response.headers) &&
      row'.response.htmlPath == (if t.response.htmlPath == "" then row.response.htmlPath else t.response.htmlPath) &&
      row'.response.htmlSize == (if t.response.htmlSize <= 0 then row.response.htmlSize else t.response.htmlSize)
    else if t.status == "failed" || t.status == "blocked" then
      row'.status == t.status && row'.startedAt == start && row'.completedAt == Some(t.completedAt) && row'.error == t.error &&
      row'.retryCount == t.retryCount && row'.diagnostics == diagnostics && row'.response == row.response
    else if t.status == "skipped" then row' == row.(status := "skipped")
    else if t.status == "pending" then row' == row.(status := "pending", retryCount := t.retryCount, startedAt := Some(t.startedAt))
    else if t.status == "waiting" then
      row' == row.(status := "waiting", startedAt := None, error := t.error, retryCount := t.retryCount, diagnostics := diagnostics)
    else row' == row
  }

  /** With distinct ids each row of the table holds after a flush what its one update records, and other rows are as before. */
  lemma RowAfterFlush(before: Tasks, tasks: seq<Task>, after: Tasks, id: string)
    requires IsFlush(before, tasks, after) && DistinctIds(tasks) && id in before
    ensures id in after
    ensures forall t :: t in tasks && t.id == id ==> Records(before[id], t, after[id])
    ensures !Mentions(tasks, id) ==> after[id] == before[id]
  {
    DistinctAreOrdered(tasks);
    FlushIsOneByOne(before, tasks, after);
    QueueOrderIsRankOrder(before, tasks, id);
    if t :| t in tasks && t.id == id {
      ByRankOnly(before[id], tasks, t, 5);
      forall u | u in tasks && u.id == id
        ensures u == t
      {
        SameIdSameTask(tasks, t, u);
      }
    } else {
      NoUpdateNoChange(before, tasks, after, id);
    }
  }

  lemma SameIdSameTask(tasks: seq<Task>, t: Task, u: Task)
    requires DistinctIds(tasks) && t in tasks && u in tasks && t.id == u.id
    ensures t == u
  {
    var i :| 0 <= i < |tasks| && tasks[i] == t;
    var j :| 0 <= j < |tasks| && tasks[j] == u;
  }

  lemma {:induction false} ByRankOnly(row: TaskRow, tasks: seq<Task>, t: Task, rank: nat)
    requires DistinctIds(tasks) && t in tasks && rank <= 5
    ensures ByRank(row, tasks, t.id, rank) == if 0 < Rank(t.status) <= rank then Updated(row, t) else row
    decreases rank
  {
    if rank > 0 {
      ByRankOnly(row, tasks, t, rank - 1);
      var latest := Latest(tasks, t.id, rank);
      if latest.Some? {
        SameIdSameTask(tasks, t, latest.value);
      }
    }
  }
}
