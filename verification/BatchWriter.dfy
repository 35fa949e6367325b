/** The batch manager: channel, overflow, retained batch, fallback and shutdown (internal/db/batch.go). */
module BatchWriter {
  import opened Text
  import opened TaskTable
  import opened DailyUsage

  const MAX_CONSECUTIVE_FAILURES: nat := 3
  const MAX_SHUTDOWN_RETRIES: nat := 5

  /** An update handed to the manager; the number tells updates with equal contents apart. */
  datatype Update = Update(serial: nat, task: Task)

  /** A database error: a PostgreSQL error with its class, or any other. */
  datatype DbError = Postgres(errorClass: string) | Other

  /** Only bad data is not worth retrying: integrity violations and data exceptions. */
  predicate IsRetryable(e: DbError) {
    e.Other? || (e.errorClass != "23" && e.errorClass != "22")
  }

  /** How a flush transaction ends: its commit may also succeed with the reply lost. */
  datatype Reply = Committed | CommittedUnseen(error: DbError) | RolledBack(error: DbError)

  /** What the world does to one flush: bad are the positions whose single update fails too. */
  datatype World = World(now: int, reply: Reply, bad: set<nat>)

  /** Completed and failed tasks without a completion time get one, in place; blocked ones do not. */
  function StampedTask(t: Task, now: int): (r: Task)
    ensures r.(completedAt := t.completedAt) == t && (t.completedAt != ZERO_TIME ==> r == t)
    ensures (t.status == "completed" || t.status == "failed") && t.completedAt == ZERO_TIME ==> r.completedAt == now
    ensures t.status != "completed" && t.status != "failed" ==> r == t
  {
    if (t.status == "completed" || t.status == "failed") && t.completedAt == ZERO_TIME then t.(completedAt := now) else t
  }

  function Stamped(us: seq<Update>, now: int): (r: seq<Update>)
    ensures |r| == |us| && forall i :: 0 <= i < |us| ==> r[i] == us[i].(task := StampedTask(us[i].task, now))
  {
    seq(|us|, i requires 0 <= i < |us| => us[i].(task := StampedTask(us[i].task, now)))
  }

  function TasksOf(us: seq<Update>): (r: seq<Task>)
    ensures |r| == |us| && forall i :: 0 <= i < |us| ==> r[i] == us[i].task
  {
    seq(|us|, i requires 0 <= i < |us| => us[i].task)
  }

  // ---------- the ledger ----------

  /** How often the update with that serial occurs. */
  function Times(us: seq<Update>, s: nat): nat {
    if us == [] then 0 else Times(us[..|us| - 1], s) + (if us[|us| - 1].serial == s then 1 else 0)
  }

  function Serials(us: seq<Update>): set<nat> {
    set i | 0 <= i < |us| :: us[i].serial
  }

  lemma {:induction false} TimesAppend(a: seq<Update>, b: seq<Update>, s: nat)
    ensures Times(a + b, s) == Times(a, s) + Times(b, s)
  {
    if b == [] {
      assert a + b == a;
    } else {
      TimesAppend(a, b[..|b| - 1], s);
      assert (a + b)[..|a + b| - 1] == a + b[..|b| - 1];
    }
  }

  lemma TimesSnoc(us: seq<Update>, u: Update, s: nat)
    ensures Times(us + [u], s) == Times(us, s) + if u.serial == s then 1 else 0
  {
    assert (us + [u])[..|us|] == us;
  }

  lemma {:induction false} TimesSerials(us: seq<Update>, s: nat)
    ensures s in Serials(us) <==> Times(us, s) > 0
  {
    if us != [] {
      var n := |us| - 1;
      TimesSerials(us[..n], s);
      assert Serials(us) == Serials(us[..n]) + {us[n].serial};
    }
  }

  lemma {:induction false} TimesStamped(us: seq<Update>, now: int, s: nat)
    ensures Times(Stamped(us, now), s) == Times(us, s)
  {
    if us != [] {
      TimesStamped(us[..|us| - 1], now, s);
      assert Stamped(us, now)[..|us| - 1] == Stamped(us[..|us| - 1], now);
    }
  }

  /** The updates at the given positions, in order. */
  function Picked(us: seq<Update>, which: set<nat>): seq<Update> {
    if us == [] then []
    else Picked(us[..|us| - 1], which) + (if |us| - 1 in which then [us[|us| - 1]] else [])
  }

  lemma TimesPickedStep(us: seq<Update>, which: set<nat>, s: nat)
    requires us != []
    ensures var n := |us| - 1;
      Times(Picked(us, which), s) == Times(Picked(us[..n], which), s) + if n in which && us[n].serial == s then 1 else 0
  {
    var n := |us| - 1;
    if n in which {
      TimesSnoc(Picked(us[..n], which), us[n], s);
    } else {
      assert Picked(us, which) == Picked(us[..n], which);
    }
  }

  lemma {:induction false} TimesPicked(us: seq<Update>, which: set<nat>, others: set<nat>, s: nat)
    requires forall i :: 0 <= i < |us| ==> (i in which <==> i !in others)
    ensures Times(us, s) == Times(Picked(us, which), s) + Times(Picked(us, others), s)
  {
    if us != [] {
      var n := |us| - 1;
      TimesPicked(us[..n], which, others, s);
      TimesPickedStep(us, which, s);
      TimesPickedStep(us, others, s);
    }
  }

  /** Positions of updates that some statement takes. */
  function Known(us: seq<Update>): set<nat> {
    set i | 0 <= i < |us| && Rank(us[i].task.status) > 0
  }

  function Unknown(us: seq<Update>): set<nat> {
    set i | 0 <= i < |us| && Rank(us[i].task.status) == 0
  }

  /** Positions that the one-by-one fallback saves. */
  function Savable(us: seq<Update>, bad: set<nat>): set<nat> {
    Known(us) - bad
  }

  /** It saves the updates of the six known statuses that do not fail on their own. */
  lemma SavableIff(us: seq<Update>, bad: set<nat>, i: nat)
    ensures i in Savable(us, bad) <==>
      i < |us| && i !in bad && us[i].task.status in {"completed", "failed", "blocked", "skipped", "pending", "waiting"}
  {
  }

  function Lost(us: seq<Update>, bad: set<nat>): set<nat> {
    set i | 0 <= i < |us| && i !in Savable(us, bad)
  }

  type Overflow = map<string, Update>

  function Parked(o: Overflow): set<nat> {
    set id | id in o :: o[id].serial
  }

  /** Entries are filed under their task's id, and no two are the same update. */
  ghost predicate Filed(o: Overflow) {
    (forall id :: id in o ==> o[id].task.id == id) && forall a, b :: a in o && b in o && o[a].serial == o[b].serial ==> a == b
  }

  lemma ParkedPut(o: Overflow, id: string, u: Update)
    requires Filed(o) && u.task.id == id && u.serial !in Parked(o)
    ensures Filed(o[id := u])
    ensures Parked(o[id := u]) == (if id in o then Parked(o) - {o[id].serial} else Parked(o)) + {u.serial}
  {
    var o' := o[id := u];
    assert id in o' && o'[id] == u;
    forall s | s in Parked(o')
      ensures s == u.serial || (s in Parked(o) && (id in o ==> s != o[id].serial))
    {
      var k :| k in o' && o'[k].serial == s;
    }
    forall s | s in Parked(o) && (id in o ==> s != o[id].serial)
      ensures s in Parked(o')
    {
      var k :| k in o && o[k].serial == s;
      assert k in o' && o'[k] == o[k];
    }
  }

  lemma ParkedDrop(o: Overflow, id: string)
    requires Filed(o) && id in o
    ensures Filed(o - {id})
    ensures o[id].serial !in Parked(o - {id}) && Parked(o) == Parked(o - {id}) + {o[id].serial}
  {
    var o' := o - {id};
    forall s | s in Parked(o)
      ensures s in Parked(o') || s == o[id].serial
    {
      var k :| k in o && o[k].serial == s;
      assert k == id || (k in o' && o'[k] == o[k]);
    }
  }

  // ---------- when the fallback runs ----------

  datatype Flush = Succeeded | Postponed | BadData

  /** The counter after a history of flushes. */
  function Fails(history: seq<Flush>): (n: nat)
    ensures n < MAX_CONSECUTIVE_FAILURES
    decreases |history|
  {
    if history == [] then 0 else NextFails(Fails(history[..|history| - 1]), history[|history| - 1])
  }

  function NextFails(fails: nat, kind: Flush): nat {
    match kind
    case Succeeded => 0
    case Postponed => fails
    case BadData => if fails + 1 >= MAX_CONSECUTIVE_FAILURES then 0 else fails + 1
  }

  /** Does the k-th flush fall back to single updates? */
  predicate FallsBack(history: seq<Flush>, k: nat)
    requires k < |history|
  {
    history[k].BadData? && Fails(history[..k]) + 1 >= MAX_CONSECUTIVE_FAILURES
  }

  function CountBad(history: seq<Flush>): nat
    decreases |history|
  {
    if history == [] then 0 else CountBad(history[..|history| - 1]) + (if history[|history| - 1].BadData? then 1 else 0)
  }

  /** No success and no fallback from flush r up to flush k, and r is the first flush or follows one of those. */
  ghost predicate Since(history: seq<Flush>, r: nat, k: nat) {
    r <= k <= |history| &&
    (forall i :: r <= i < k ==> !history[i].Succeeded? && !FallsBack(history, i)) &&
    (r > 0 ==> history[r - 1].Succeeded? || FallsBack(history, r - 1))
  }

  lemma {:induction false} CounterSince(history: seq<Flush>, r: nat, k: nat)
    requires Since(history, r, k)
    ensures Fails(history[..k]) == CountBad(history[r..k])
    decreases k
  {
    if k > r {
      CounterSince(history, r, k - 1);
      assert history[..k][..k - 1] == history[..k - 1] && history[r..k][..k - 1 - r] == history[r..k - 1];
    } else if r > 0 {
      assert history[..r][..r - 1] == history[..r - 1];
    }
  }

  /**
   * The fallback runs at a data failure exactly when it is the third since the last success or fallback,
   * however many infrastructure failures came in between.
   */
  lemma FallbackOnThird(history: seq<Flush>, r: nat, k: nat)
    requires Since(history, r, k) && k < |history|
    ensures FallsBack(history, k) <==> history[k].BadData? && CountBad(history[r..k]) == 2
  {
    CounterSince(history, r, k);
  }

  // ---------- the balance ----------

  /** Where updates end up for good. */
  datatype Ledger = Ledger(
    persisted: set<nat>, superseded: set<nat>, dropped: set<nat>,
    committed: set<nat>) // those a flush settled whose success was seen, among the persisted and the dropped

  function One(b: bool): nat {
    if b then 1 else 0
  }

  /** In how many places the update is. */
  ghost function Places(l: Ledger, channel: seq<Update>, overflow: Overflow, batch: seq<Update>, s: nat): nat {
    One(s in l.persisted) + One(s in l.superseded) + One(s in l.dropped) +
    Times(channel, s) + One(s in Parked(overflow)) + Times(batch, s)
  }

  /** Each of the n updates queued so far is in exactly one place. */
  ghost predicate Balances(n: nat, l: Ledger, channel: seq<Update>, overflow: Overflow, batch: seq<Update>) {
    forall s: nat :: Places(l, channel, overflow, batch, s) == One(s < n)
  }

  lemma QueueBalances(n: nat, l: Ledger, channel: seq<Update>, overflow: Overflow, batch: seq<Update>, u: Update)
    requires Balances(n, l, channel, overflow, batch) && u.serial == n
    ensures Balances(n + 1, l, channel + [u], overflow, batch)
  {
    var channel' := channel + [u];
    forall s: nat
      ensures Places(l, channel', overflow, batch, s) == One(s < n + 1)
    {
      assert Places(l, channel, overflow, batch, s) == One(s < n);
      TimesSnoc(channel, u, s);
    }
  }

  function Superseding(l: Ledger, overflow: Overflow, id: string): Ledger {
    if id in overflow then l.(superseded := l.superseded + {overflow[id].serial}) else l
  }

  lemma ParkBalances(n: nat, l: Ledger, channel: seq<Update>, overflow: Overflow, batch: seq<Update>, u: Update)
    requires Balances(n, l, channel, overflow, batch) && u.serial == n && Filed(overflow)
    ensures Filed(overflow[u.task.id := u])
    ensures Balances(n + 1, Superseding(l, overflow, u.task.id), channel, overflow[u.task.id := u], batch)
  {
    var id := u.task.id;
    assert Places(l, channel, overflow, batch, n) == 0;
    ParkedPut(overflow, id, u);
    var l', overflow' := Superseding(l, overflow, id), overflow[id := u];
    forall s: nat
      ensures Places(l', channel, overflow', batch, s) == One(s < n + 1)
    {
      assert Places(l, channel, overflow, batch, s) == One(s < n);
      if id in overflow {
        assert overflow[id].serial in Parked(overflow);
      }
    }
  }

  /** Updates move from the channel or the overflow to the batch. */
  lemma MoveBalances(n: nat, l: Ledger, channel: seq<Update>, channel': seq<Update>, overflow: Overflow, overflow': Overflow,
                     batch: seq<Update>, moved: seq<Update>)
    requires Balances(n, l, channel, overflow, batch)
    requires forall s: nat :: Times(channel, s) + One(s in Parked(overflow)) == Times(channel', s) + One(s in Parked(overflow')) + Times(moved, s)
    ensures Balances(n, l, channel', overflow', batch + moved)
  {
    forall s: nat
      ensures Places(l, channel', overflow', batch + moved, s) == One(s < n)
    {
      assert Places(l, channel, overflow, batch, s) == One(s < n);
      TimesAppend(batch, moved, s);
    }
  }

  function Settling(l: Ledger, batch: seq<Update>, saved: set<nat>, lost: set<nat>): Ledger {
    l.(persisted := l.persisted + Serials(Picked(batch, saved)), dropped := l.dropped + Serials(Picked(batch, lost)))
  }

  /** A seen commit persists the whole batch, but for updates no statement takes. */
  function Committing(l: Ledger, batch: seq<Update>): Ledger {
    Settling(l, batch, Known(batch), Unknown(batch)).(committed := l.committed + Serials(batch))
  }

  /** The batch is settled: some of it persisted, the rest dropped. */
  lemma SettleBalances(n: nat, l: Ledger, channel: seq<Update>, overflow: Overflow, batch: seq<Update>, saved: set<nat>, lost: set<nat>)
    requires Balances(n, l, channel, overflow, batch)
    requires forall i :: 0 <= i < |batch| ==> (i in saved <==> i !in lost)
    ensures Balances(n, Settling(l, batch, saved, lost), channel, overflow, [])
  {
    forall s: nat
      ensures Places(Settling(l, batch, saved, lost), channel, overflow, [], s) == One(s < n)
    {
      assert Places(l, channel, overflow, batch, s) == One(s < n);
      TimesPicked(batch, saved, lost, s);
      TimesSerials(Picked(batch, saved), s);
      TimesSerials(Picked(batch, lost), s);
    }
  }

  lemma CommitBalances(n: nat, l: Ledger, channel: seq<Update>, overflow: Overflow, batch: seq<Update>)
    requires Balances(n, l, channel, overflow, batch)
    ensures Balances(n, Committing(l, batch), channel, overflow, [])
  {
    SettleBalances(n, l, channel, overflow, batch, Known(batch), Unknown(batch));
    forall s: nat
      ensures Places(Committing(l, batch), channel, overflow, [], s) == One(s < n)
    {
      assert Places(Settling(l, batch, Known(batch), Unknown(batch)), channel, overflow, [], s) == One(s < n);
    }
  }

  lemma StampBalances(n: nat, l: Ledger, channel: seq<Update>, overflow: Overflow, batch: seq<Update>, now: int)
    requires Balances(n, l, channel, overflow, batch)
    ensures Balances(n, l, channel, overflow, Stamped(batch, now))
  {
    forall s: nat
      ensures Places(l, channel, overflow, Stamped(batch, now), s) == One(s < n)
    {
      assert Places(l, channel, overflow, batch, s) == One(s < n);
      TimesStamped(batch, now, s);
    }
  }

  // ---------- what reaches the database ----------

  /** A committed flush transaction, its reply seen or lost, or the single updates of a fallback. */
  datatype Write = Commit(updates: seq<Update>, seen: bool) | Rescue(updates: seq<Update>)

  ghost predicate OneWrite(before: Tasks, w: Write, after: Tasks) {
    match w
    case Commit(us, _) => IsFlush(before, TasksOf(us), after)
    case Rescue(us) => after == OneByOne(before, TasksOf(us))
  }

  /** The task table goes from one state to another by these writes. */
  ghost predicate Reaches(before: Tasks, writes: seq<Write>, after: Tasks)
    decreases |writes|
  {
    if writes == [] then before == after
    else
      var rest, last := writes[..|writes| - 1], writes[|writes| - 1];
      exists mid :: Reaches(before, rest, mid) && OneWrite(mid, last, after)
  }

  /** What the commits among the writes charge an organisation. */
  function ChargedTo(writes: seq<Write>, organisations: map<string, string>, org: string): nat
    decreases |writes|
  {
    if writes == [] then 0
    else
      var w := writes[|writes| - 1];
      ChargedTo(writes[..|writes| - 1], organisations, org) + (if w.Commit? then Finished(TasksOf(w.updates), organisations, org) else 0)
  }

  ghost predicate Charges(before: Counts, writes: seq<Write>, organisations: map<string, string>, after: Counts) {
    forall org :: CountOf(after, org) == CountOf(before, org) + ChargedTo(writes, organisations, org)
  }

  /** The tables go from one state to another by these writes. */
  ghost predicate Writing(tasks: Tasks, usage: Counts, organisations: map<string, string>, writes: seq<Write>, tasks': Tasks, usage': Counts) {
    Reaches(tasks, writes, tasks') && Charges(usage, writes, organisations, usage')
  }

  lemma NoWrites(tasks: Tasks, usage: Counts, organisations: map<string, string>, writes: seq<Write>)
    ensures Writing(tasks, usage, organisations, writes[|writes|..], tasks, usage)
  {
  }

  lemma MoreWrites(organisations: map<string, string>, a: seq<Write>, b: seq<Write>, c: seq<Write>,
                   ta: Tasks, ua: Counts, tb: Tasks, ub: Counts, tc: Tasks, uc: Counts)
    requires a <= b <= c
    requires Writing(ta, ua, organisations, b[|a|..], tb, ub) && Writing(tb, ub, organisations, c[|b|..], tc, uc)
    ensures Writing(ta, ua, organisations, c[|a|..], tc, uc)
  {
    assert c[|a|..] == b[|a|..] + c[|b|..];
    ReachesAppend(ta, b[|a|..], tb, c[|b|..], tc);
    ChargesAppend(ua, b[|a|..], ub, c[|b|..], uc, organisations);
  }

  lemma ReachesSnoc(a: Tasks, writes: seq<Write>, b: Tasks, w: Write, c: Tasks)
    requires Reaches(a, writes, b) && OneWrite(b, w, c)
    ensures Reaches(a, writes + [w], c)
  {
    var all := writes + [w];
    var rest, last := all[..|all| - 1], all[|all| - 1];
    assert rest == writes && last == w;
  }

  lemma {:induction false} ReachesAppend(a: Tasks, first: seq<Write>, b: Tasks, more: seq<Write>, c: Tasks)
    requires Reaches(a, first, b) && Reaches(b, more, c)
    ensures Reaches(a, first + more, c)
    decreases |more|
  {
    var all := first + more;
    if more == [] {
      assert all == first;
    } else {
      var n := |more| - 1;
      var mid :| Reaches(b, more[..n], mid) && OneWrite(mid, more[n], c);
      ReachesAppend(a, first, b, more[..n], mid);
      assert all == first + more[..n] + [more[n]];
      ReachesSnoc(a, first + more[..n], mid, more[n], c);
    }
  }

  lemma {:induction false} ChargedAppend(first: seq<Write>, more: seq<Write>, organisations: map<string, string>, org: string)
    ensures ChargedTo(first + more, organisations, org) == ChargedTo(first, organisations, org) + ChargedTo(more, organisations, org)
    decreases |more|
  {
    var all := first + more;
    if more == [] {
      assert all == first;
    } else {
      var n := |more| - 1;
      ChargedAppend(first, more[..n], organisations, org);
      assert all[..|all| - 1] == first + more[..n] && all[|all| - 1] == more[n];
    }
  }

  lemma ChargesAppend(a: Counts, first: seq<Write>, b: Counts, more: seq<Write>, c: Counts, organisations: map<string, string>)
    requires Charges(a, first, organisations, b) && Charges(b, more, organisations, c)
    ensures Charges(a, first + more, organisations, c)
  {
    forall org
      ensures CountOf(c, org) == CountOf(a, org) + ChargedTo(first + more, organisations, org)
    {
      ChargedAppend(first, more, organisations, org);
    }
  }

  lemma CommitWrites(tasks: Tasks, usage: Counts, organisations: map<string, string>, c: Write, writes: seq<Write>, tasks': Tasks, usage': Counts)
    requires c.Commit? && IsFlush(tasks, TasksOf(c.updates), tasks')
    requires forall org :: CountOf(usage', org) == CountOf(usage, org) + Finished(TasksOf(c.updates), organisations, org)
    ensures Writing(tasks, usage, organisations, (writes + [c])[|writes|..], tasks', usage')
  {
    assert (writes + [c])[|writes|..] == [c] && [] + [c] == [c];
    ReachesSnoc(tasks, [], tasks, c, tasks');
    forall org
      ensures ChargedTo([c], organisations, org) == Finished(TasksOf(c.updates), organisations, org)
    {
      ChargedOne([c], organisations, org);
    }
  }

  lemma RescueWrites(tasks: Tasks, usage: Counts, organisations: map<string, string>, r: Write, writes: seq<Write>, tasks': Tasks)
    requires r.Rescue? && tasks' == OneByOne(tasks, TasksOf(r.updates))
    ensures Writing(tasks, usage, organisations, (writes + [r])[|writes|..], tasks', usage)
  {
    assert (writes + [r])[|writes|..] == [r] && [] + [r] == [r];
    ReachesSnoc(tasks, [], tasks, r, tasks');
    forall org
      ensures ChargedTo([r], organisations, org) == 0
    {
      ChargedOne([r], organisations, org);
    }
  }

  /** How often an update was part of a commit, counting those whose reply was seen or those whose reply was lost. */
  function CommitTimes(writes: seq<Write>, seen: bool, s: nat): nat
    decreases |writes|
  {
    if writes == [] then 0
    else
      var w := writes[|writes| - 1];
      CommitTimes(writes[..|writes| - 1], seen, s) + (if w.Commit? && w.seen == seen then Times(w.updates, s) else 0)
  }

  /** An update is in one seen commit if a seen flush settled it, and in none otherwise. */
  ghost predicate CommitsFit(l: Ledger, writes: seq<Write>) {
    l.committed <= l.persisted + l.dropped && forall s: nat :: CommitTimes(writes, true, s) == One(s in l.committed)
  }

  /** Whatever counts as persisted was part of a commit or of a fallback. */
  ghost predicate PersistedWritten(l: Ledger, writes: seq<Write>) {
    forall s: nat :: s in l.persisted ==> InWrites(writes, s)
  }

  ghost predicate InWrites(writes: seq<Write>, s: nat) {
    exists i :: 0 <= i < |writes| && s in Serials(writes[i].updates)
  }

  lemma WrittenStays(l: Ledger, writes: seq<Write>, more: seq<Write>)
    requires PersistedWritten(l, writes)
    ensures PersistedWritten(l, writes + more)
  {
    forall s: nat | s in l.persisted
      ensures InWrites(writes + more, s)
    {
      var i :| 0 <= i < |writes| && s in Serials(writes[i].updates);
      assert (writes + more)[i] == writes[i];
    }
  }

  lemma SettledWritten(l: Ledger, writes: seq<Write>, batch: seq<Update>, saved: set<nat>, lost: set<nat>, w: Write)
    requires PersistedWritten(l, writes) && Serials(Picked(batch, saved)) <= Serials(w.updates)
    ensures PersistedWritten(Settling(l, batch, saved, lost), writes + [w])
  {
    WrittenStays(l, writes, [w]);
    forall s: nat | s in Serials(Picked(batch, saved))
      ensures InWrites(writes + [w], s)
    {
      assert (writes + [w])[|writes|] == w;
    }
  }

  lemma PickedSerials(us: seq<Update>, which: set<nat>)
    ensures Serials(Picked(us, which)) <= Serials(us)
  {
    var others := set i | 0 <= i < |us| && i !in which;
    forall s | s in Serials(Picked(us, which))
      ensures s in Serials(us)
    {
      TimesSerials(Picked(us, which), s);
      TimesPicked(us, which, others, s);
      TimesSerials(us, s);
    }
  }

  ghost predicate InLostCommit(writes: seq<Write>, s: nat) {
    exists i :: 0 <= i < |writes| && IsLostCommit(writes[i], s)
  }

  predicate IsLostCommit(w: Write, s: nat) {
    w.Commit? && !w.seen && Times(w.updates, s) > 0
  }

  lemma {:induction false} LostTimes(writes: seq<Write>, s: nat)
    ensures CommitTimes(writes, false, s) > 0 <==> InLostCommit(writes, s)
    decreases |writes|
  {
    if writes != [] {
      var n := |writes| - 1;
      LostTimes(writes[..n], s);
      if InLostCommit(writes[..n], s) {
        var i :| 0 <= i < n && IsLostCommit(writes[..n][i], s);
        assert IsLostCommit(writes[i], s);
      }
      if InLostCommit(writes, s) && !IsLostCommit(writes[n], s) {
        var i :| 0 <= i < |writes| && IsLostCommit(writes[i], s);
        assert IsLostCommit(writes[..n][i], s);
      }
    }
  }

  /**
   * An update that a seen flush settled is in exactly one commit if and only if no commit containing it lost its reply.
   * Any other, such as one saved by the fallback, is in none, so never charged, if and only if that holds.
   */
  lemma ChargedOnceIff(l: Ledger, writes: seq<Write>, s: nat)
    requires CommitsFit(l, writes)
    ensures CommitTimes(writes, true, s) + CommitTimes(writes, false, s) == One(s in l.committed) <==> !InLostCommit(writes, s)
  {
    LostTimes(writes, s);
  }

  /** What commits whose reply was lost charge beyond those that were seen. */
  function Overcharge(writes: seq<Write>, organisations: map<string, string>, org: string): nat
    decreases |writes|
  {
    if writes == [] then 0
    else
      var w := writes[|writes| - 1];
      Overcharge(writes[..|writes| - 1], organisations, org) +
      (if w.Commit? && !w.seen then Finished(TasksOf(w.updates), organisations, org) else 0)
  }

  function SeenOnly(writes: seq<Write>): seq<Write>
    decreases |writes|
  {
    if writes == [] then []
    else SeenOnly(writes[..|writes| - 1]) + (if writes[|writes| - 1] == Commit(writes[|writes| - 1].updates, false) then [] else [writes[|writes| - 1]])
  }

  /** An organisation's charge is what its seen commits charge it, plus all of what the lost ones do. */
  lemma {:induction false} OverchargeIsLost(writes: seq<Write>, organisations: map<string, string>, org: string)
    ensures ChargedTo(writes, organisations, org) ==
      ChargedTo(SeenOnly(writes), organisations, org) + Overcharge(writes, organisations, org)
    decreases |writes|
  {
    if writes != [] {
      var n := |writes| - 1;
      OverchargeIsLost(writes[..n], organisations, org);
      var rest, w := SeenOnly(writes[..n]), writes[n];
      assert (rest + [w])[..|rest|] == rest;
      assert rest + [] == rest;
    }
  }

  ghost predicate LostFinishes(writes: seq<Write>, organisations: map<string, string>, org: string) {
    exists i :: 0 <= i < |writes| && FinishesUnseen(writes[i], organisations, org)
  }

  predicate FinishesUnseen(w: Write, organisations: map<string, string>, org: string) {
    w.Commit? && !w.seen && Finished(TasksOf(w.updates), organisations, org) > 0
  }

  /** An organisation is charged more than its seen commits charge it if and only if a lost commit finished a task of its jobs. */
  lemma {:induction false} OverchargedIff(writes: seq<Write>, organisations: map<string, string>, org: string)
    ensures ChargedTo(writes, organisations, org) > ChargedTo(SeenOnly(writes), organisations, org) <==> LostFinishes(writes, organisations, org)
    decreases |writes|
  {
    OverchargeIsLost(writes, organisations, org);
    if writes != [] {
      var n := |writes| - 1;
      OverchargedIff(writes[..n], organisations, org);
      OverchargeIsLost(writes[..n], organisations, org);
      if LostFinishes(writes[..n], organisations, org) {
        var i :| 0 <= i < n && FinishesUnseen(writes[..n][i], organisations, org);
        assert FinishesUnseen(writes[i], organisations, org);
      }
      if LostFinishes(writes, organisations, org) && !FinishesUnseen(writes[n], organisations, org) {
        var i :| 0 <= i < |writes| && FinishesUnseen(writes[i], organisations, org);
        assert FinishesUnseen(writes[..n][i], organisations, org);
      }
    }
  }

  // ---------- the manager ----------

  /** How the manager judges a flush. */
  function Kind(w: World): Flush {
    match w.reply
    case Committed => Succeeded
    case CommittedUnseen(e) => if IsRetryable(e) then Postponed else BadData
    case RolledBack(e) => if IsRetryable(e) then Postponed else BadData
  }

  /** Does the flush give up on the batch as a whole? */
  predicate Gives(fails: nat, w: World) {
    Kind(w).BadData? && fails + 1 >= MAX_CONSECUTIVE_FAILURES
  }

  /** The batch and ledger a flush leaves: kept for another try, settled, or settled one by one. */
  function Flushed(batch: seq<Update>, l: Ledger, fails: nat, w: World): (seq<Update>, Ledger) {
    if batch == [] then (batch, l)
    else
      var s := Stamped(batch, w.now);
      match Kind(w)
      case Succeeded => ([], Committing(l, s))
      case Postponed => (s, l)
      case BadData => if Gives(fails, w) then ([], Settling(l, s, Savable(s, w.bad), Lost(s, w.bad))) else (s, l)
  }

  /** What the transaction of a flush writes. */
  function Transaction(s: seq<Update>, w: World): seq<Write> {
    if w.reply.RolledBack? then [] else [Commit(s, w.reply.Committed?)]
  }

  /** What a flush writes: its transaction unless rolled back, seen or not, then the fallback if it comes to that. */
  function WritesOf(batch: seq<Update>, fails: nat, w: World): seq<Write> {
    if batch == [] then []
    else
      var s := Stamped(batch, w.now);
      Transaction(s, w) + (if Gives(fails, w) then [Rescue(Picked(s, Savable(s, w.bad)))] else [])
  }

  /** The tables after one flush of a batch, for each way it can end. */
  lemma AfterFlush(batch: seq<Update>, fails: nat, w: World, organisations: map<string, string>,
                   tasks: Tasks, usage: Counts, tasks': Tasks, usage': Counts)
    requires batch != [] && Writing(tasks, usage, organisations, WritesOf(batch, fails, w), tasks', usage')
    ensures var updates := TasksOf(Stamped(batch, w.now));
      forall org :: CountOf(usage', org) == CountOf(usage, org) + if w.reply.RolledBack? then 0 else Finished(updates, organisations, org)
    ensures var s := Stamped(batch, w.now);
      var rescued := TasksOf(Picked(s, Savable(s, w.bad)));
      if w.reply.RolledBack? then tasks' == if Gives(fails, w) then OneByOne(tasks, rescued) else tasks
      else if Gives(fails, w) then exists mid :: IsFlush(tasks, TasksOf(s), mid) && tasks' == OneByOne(mid, rescued)
      else IsFlush(tasks, TasksOf(s), tasks')
  {
    var s := Stamped(batch, w.now);
    var first, second := Transaction(s, w), if Gives(fails, w) then [Rescue(Picked(s, Savable(s, w.bad)))] else [];
    assert WritesOf(batch, fails, w) == first + second;
    var mid := ReachesVia(tasks, first, second, tasks');
    ReachesOne(tasks, first, mid);
    ReachesOne(mid, second, tasks');
    forall org
      ensures CountOf(usage', org) == CountOf(usage, org) + if w.reply.RolledBack? then 0 else Finished(TasksOf(s), organisations, org)
    {
      ChargedAppend(first, second, organisations, org);
      ChargedOne(first, organisations, org);
      ChargedOne(second, organisations, org);
    }
  }

  lemma ReachesLast(a: Tasks, writes: seq<Write>, last: Write, c: Tasks) returns (b: Tasks)
    requires Reaches(a, writes + [last], c)
    ensures Reaches(a, writes, b) && OneWrite(b, last, c)
  {
    var all := writes + [last];
    assert all[..|all| - 1] == writes && all[|all| - 1] == last;
    b :| Reaches(a, writes, b) && OneWrite(b, last, c);
  }

  lemma {:induction false} ReachesVia(a: Tasks, first: seq<Write>, more: seq<Write>, c: Tasks) returns (b: Tasks)
    requires Reaches(a, first + more, c)
    ensures Reaches(a, first, b) && Reaches(b, more, c)
    decreases |more|
  {
    var all := first + more;
    if more == [] {
      assert all == first;
      b := c;
    } else {
      var n := |more| - 1;
      assert all == first + more[..n] + [more[n]];
      var mid := ReachesLast(a, first + more[..n], more[n], c);
      b := ReachesVia(a, first, more[..n], mid);
    }
  }

  lemma ReachesOne(a: Tasks, writes: seq<Write>, b: Tasks)
    requires |writes| <= 1 && Reaches(a, writes, b)
    ensures if writes == [] then a == b else OneWrite(a, writes[0], b)
  {
    if writes != [] {
      assert writes[..0] == [];
    }
  }

  lemma ChargedOne(writes: seq<Write>, organisations: map<string, string>, org: string)
    requires |writes| <= 1
    ensures ChargedTo(writes, organisations, org) ==
      if writes != [] && writes[0].Commit? then Finished(TasksOf(writes[0].updates), organisations, org) else 0
  {
    if writes != [] {
      assert writes[..0] == [];
    }
  }

  lemma CommitTimesSnoc(writes: seq<Write>, w: Write, seen: bool, s: nat)
    ensures CommitTimes(writes + [w], seen, s) == CommitTimes(writes, seen, s) + if w.Commit? && w.seen == seen then Times(w.updates, s) else 0
  {
    assert (writes + [w])[..|writes|] == writes;
  }

  lemma UnseenFits(l: Ledger, writes: seq<Write>, w: Write)
    requires CommitsFit(l, writes) && !(w.Commit? && w.seen)
    ensures CommitsFit(l, writes + [w])
  {
    forall s: nat
      ensures CommitTimes(writes + [w], true, s) == One(s in l.committed)
    {
      CommitTimesSnoc(writes, w, true, s);
    }
  }

  lemma RescueFits(l: Ledger, writes: seq<Write>, batch: seq<Update>, saved: set<nat>, lost: set<nat>)
    requires CommitsFit(l, writes)
    ensures CommitsFit(Settling(l, batch, saved, lost), writes + [Rescue(Picked(batch, saved))])
  {
    UnseenFits(l, writes, Rescue(Picked(batch, saved)));
  }

  /** A batch holds nothing that a seen commit has settled. */
  lemma SeenFits(n: nat, l: Ledger, channel: seq<Update>, overflow: Overflow, batch: seq<Update>, writes: seq<Write>)
    requires CommitsFit(l, writes) && Balances(n, l, channel, overflow, batch)
    ensures CommitsFit(Committing(l, batch), writes + [Commit(batch, true)])
  {
    var l', writes' := Committing(l, batch), writes + [Commit(batch, true)];
    forall s: nat
      ensures CommitTimes(writes', true, s) == One(s in l'.committed)
    {
      CommitTimesSnoc(writes, Commit(batch, true), true, s);
      assert Places(l, channel, overflow, batch, s) == One(s < n);
      TimesSerials(batch, s);
    }
    CommittedIsSettled(l, batch);
  }

  lemma CommittedIsSettled(l: Ledger, batch: seq<Update>)
    requires l.committed <= l.persisted + l.dropped
    ensures var l' := Committing(l, batch); l'.committed <= l'.persisted + l'.dropped
  {
    forall s | s in Serials(batch)
      ensures s in Serials(Picked(batch, Known(batch))) || s in Serials(Picked(batch, Unknown(batch)))
    {
      TimesSerials(batch, s);
      TimesPicked(batch, Known(batch), Unknown(batch), s);
      TimesSerials(Picked(batch, Known(batch)), s);
      TimesSerials(Picked(batch, Unknown(batch)), s);
    }
  }

  lemma TransactionFits(n: nat, l: Ledger, channel: seq<Update>, overflow: Overflow, s: seq<Update>, writes: seq<Write>, w: World)
    requires CommitsFit(l, writes) && Balances(n, l, channel, overflow, s)
    ensures CommitsFit(if w.reply.Committed? then Committing(l, s) else l, writes + Transaction(s, w))
  {
    if w.reply.Committed? {
      SeenFits(n, l, channel, overflow, s, writes);
    } else if w.reply.CommittedUnseen? {
      UnseenFits(l, writes, Commit(s, false));
    } else {
      assert writes + [] == writes;
    }
  }

  lemma FlushedFits(n: nat, l: Ledger, channel: seq<Update>, overflow: Overflow, batch: seq<Update>, writes: seq<Write>, fails: nat, w: World)
    requires CommitsFit(l, writes) && Balances(n, l, channel, overflow, batch)
    ensures CommitsFit(Flushed(batch, l, fails, w).1, writes + WritesOf(batch, fails, w))
  {
    if batch == [] {
      assert writes + [] == writes;
    } else {
      var s := Stamped(batch, w.now);
      StampBalances(n, l, channel, overflow, batch, w.now);
      TransactionFits(n, l, channel, overflow, s, writes, w);
      var first := writes + Transaction(s, w);
      assert first + [] == first;
      if Gives(fails, w) {
        RescueFits(l, first, s, Savable(s, w.bad), Lost(s, w.bad));
        assert first + [Rescue(Picked(s, Savable(s, w.bad)))] == writes + WritesOf(batch, fails, w);
      } else {
        assert first == writes + WritesOf(batch, fails, w);
      }
    }
  }

  lemma FlushedWritten(l: Ledger, batch: seq<Update>, writes: seq<Write>, fails: nat, w: World)
    requires PersistedWritten(l, writes)
    ensures PersistedWritten(Flushed(batch, l, fails, w).1, writes + WritesOf(batch, fails, w))
  {
    if batch == [] {
      assert writes + [] == writes;
    } else {
      var s := Stamped(batch, w.now);
      var first := writes + Transaction(s, w);
      WrittenStays(l, writes, Transaction(s, w));
      if Gives(fails, w) {
        var rescue := Rescue(Picked(s, Savable(s, w.bad)));
        SettledWritten(l, first, s, Savable(s, w.bad), Lost(s, w.bad), rescue);
        assert first + [rescue] == writes + WritesOf(batch, fails, w);
      } else {
        assert first == writes + WritesOf(batch, fails, w);
        if w.reply.Committed? {
          CommittedWritten(l, s, writes);
        }
      }
    }
  }

  lemma CommittedWritten(l: Ledger, s: seq<Update>, writes: seq<Write>)
    requires PersistedWritten(l, writes)
    ensures PersistedWritten(Committing(l, s), writes + [Commit(s, true)])
  {
    PickedSerials(s, Known(s));
    SettledWritten(l, writes, s, Known(s), Unknown(s), Commit(s, true));
  }

  lemma FlushedBalances(n: nat, l: Ledger, channel: seq<Update>, overflow: Overflow, batch: seq<Update>, fails: nat, w: World)
    requires Balances(n, l, channel, overflow, batch)
    ensures var r := Flushed(batch, l, fails, w); Balances(n, r.1, channel, overflow, r.0)
  {
    var s := Stamped(batch, w.now);
    StampBalances(n, l, channel, overflow, batch, w.now);
    CommitBalances(n, l, channel, overflow, s);
    SettleBalances(n, l, channel, overflow, s, Savable(s, w.bad), Lost(s, w.bad));
  }

  /** Updates no statement takes make no difference to the fallback, and with none failing it saves all others. */
  lemma {:induction false} FallbackSkipsUnknown(table: Tasks, us: seq<Update>, which: set<nat>)
    requires forall i :: 0 <= i < |us| && Rank(us[i].task.status) > 0 ==> i in which
    ensures OneByOne(table, TasksOf(Picked(us, which))) == OneByOne(table, TasksOf(us))
  {
    if us != [] {
      var n := |us| - 1;
      FallbackSkipsUnknown(table, us[..n], which);
      PickStep(table, us, which, n);
      assert us[..n + 1] == us;
      OneByOneSnoc(table, us);
    }
  }

  lemma OneByOneSnoc(table: Tasks, us: seq<Update>)
    requires us != []
    ensures var n := |us| - 1; OneByOne(table, TasksOf(us)) == ApplyOne(OneByOne(table, TasksOf(us[..n])), us[n].task)
  {
    assert TasksOf(us)[..|us| - 1] == TasksOf(us[..|us| - 1]);
  }

  /** In statement order, and so with distinct ids, a fallback in which nothing fails leaves what a flush would have left. */
  lemma FallbackIsFlush(before: Tasks, us: seq<Update>, after: Tasks)
    requires InStatementOrder(TasksOf(us)) && IsFlush(before, TasksOf(us), after)
    ensures OneByOne(before, TasksOf(Picked(us, Savable(us, {})))) == after
  {
    FallbackSkipsUnknown(before, us, Savable(us, {}));
    FlushIsOneByOne(before, TasksOf(us), after);
  }

  /** One round of the manager's select loop, or an update arriving from outside. */
  datatype Event = Arrive(task: Task) | Receive(flush: World) | Tick(flush: World)

  predicate HasStatement(u: Update) {
    Rank(u.task.status) > 0
  }

  ghost predicate AllTaken(us: seq<Update>) {
    forall i :: 0 <= i < |us| ==> HasStatement(us[i])
  }

  /** An event that cannot lose anything: a known status, and no bad data. */
  predicate Harmless(e: Event) {
    if e.Arrive? then Rank(e.task.status) > 0 else !Kind(e.flush).BadData?
  }

  ghost predicate AllHarmless(script: seq<Event>) {
    forall i :: 0 <= i < |script| ==> Harmless(script[i])
  }

  lemma NothingUnknown(us: seq<Update>)
    requires AllTaken(us)
    ensures Picked(us, Unknown(us)) == []
  {
    assert forall i :: i in Unknown(us) ==> 0 <= i < |us| && !HasStatement(us[i]);
    assert Unknown(us) == {};
    PickNone(us);
  }

  lemma {:induction false} PickNone(us: seq<Update>)
    ensures Picked(us, {}) == []
  {
    if us != [] {
      PickNone(us[..|us| - 1]);
    }
  }

  /** Without bad data and unknown statuses a flush drops nothing. */
  lemma FlushedDropsNothing(batch: seq<Update>, l: Ledger, fails: nat, w: World)
    requires AllTaken(batch) && !Kind(w).BadData?
    ensures var r := Flushed(batch, l, fails, w); AllTaken(r.0) && r.1.dropped == l.dropped
  {
    var s := Stamped(batch, w.now);
    forall i | 0 <= i < |s|
      ensures HasStatement(s[i])
    {
      assert HasStatement(batch[i]);
    }
    NothingUnknown(s);
    assert Serials([]) == {};
  }

  // ---------- the manager's life, step by step ----------

  datatype Snapshot = Snapshot(
    channel: seq<Update>, overflow: Overflow, batch: seq<Update>, fails: nat, queued: nat, ledger: Ledger, writes: seq<Write>)

  /** The batch, grown to that, is flushed. */
  ghost predicate FlushStep(s: Snapshot, grown: seq<Update>, w: World, s': Snapshot) {
    (s'.batch, s'.ledger) == Flushed(grown, s.ledger, s.fails, w) && s'.writes == s.writes + WritesOf(grown, s.fails, w) &&
    s'.fails == if grown == [] then s.fails else NextFails(s.fails, Kind(w))
  }

  /** An update finds room in the channel, or takes the place of its task's parked one. */
  ghost predicate ArriveStep(size: nat, s: Snapshot, task: Task, s': Snapshot) {
    var u := Update(s.queued, task);
    s'.queued == s.queued + 1 &&
    if |s.channel| < size then s' == s.(channel := s.channel + [u], queued := s'.queued)
    else
      s' == s.(overflow := s.overflow[task.id := u], ledger := s'.ledger, queued := s'.queued) &&
      s'.ledger == s.ledger.(superseded := if task.id in s.overflow then s.ledger.superseded + {s.overflow[task.id].serial} else s.ledger.superseded)
  }

  ghost predicate ReceiveStep(max: nat, s: Snapshot, w: World, s': Snapshot) {
    if s.channel == [] then s' == s
    else
      var grown := s.batch + [s.channel[0]];
      s'.channel == s.channel[1..] && s'.overflow == s.overflow && s'.queued == s.queued &&
      if |grown| >= max then FlushStep(s, grown, w, s') else s' == s.(channel := s.channel[1..], batch := grown)
  }

  /** As many parked updates as there is room for join the batch as they are, and the batch is flushed. */
  ghost predicate TickStep(max: nat, s: Snapshot, w: World, s': Snapshot, more: seq<Update>) {
    var room := if |s.batch| < max then max - |s.batch| else 0;
    |more| == (if |s.overflow| <= room then |s.overflow| else room) &&
    |s'.overflow| + |more| == |s.overflow| && Unchanged(s.overflow, s'.overflow, more) &&
    s'.channel == s.channel && s'.queued == s.queued && FlushStep(s, s.batch + more, w, s')
  }

  ghost predicate RoundStep(size: nat, max: nat, s: Snapshot, e: Event, s': Snapshot) {
    match e
    case Arrive(task) => ArriveStep(size, s, task, s')
    case Receive(w) => ReceiveStep(max, s, w, s')
    case Tick(w) => exists more :: TickStep(max, s, w, s', more)
  }

  /** The manager goes through these states, one for each event of the script. */
  ghost predicate Life(size: nat, max: nat, states: seq<Snapshot>, script: seq<Event>) {
    |states| == |script| + 1 && forall i :: 0 <= i < |script| ==> RoundStep(size, max, states[i], script[i], states[i + 1])
  }

  lemma LifeGoesOn(size: nat, max: nat, states: seq<Snapshot>, script: seq<Event>, n: nat, next: Snapshot)
    requires n < |script| && Life(size, max, states, script[..n]) && RoundStep(size, max, states[n], script[n], next)
    ensures Life(size, max, states + [next], script[..n + 1])
  {
    var longer := states + [next];
    forall i | 0 <= i < n + 1
      ensures RoundStep(size, max, longer[i], script[..n + 1][i], longer[i + 1])
    {
      assert script[..n + 1][i] == script[i];
      if i < n {
        assert RoundStep(size, max, states[i], script[..n][i], states[i + 1]);
      }
    }
  }

  function Arrivals(script: seq<Event>): nat {
    if script == [] then 0 else Arrivals(script[..|script| - 1]) + (if script[|script| - 1].Arrive? then 1 else 0)
  }

  /** Every arrival counts, and nothing else does. */
  lemma {:induction false} EveryArrivalCounts(size: nat, max: nat, states: seq<Snapshot>, script: seq<Event>)
    requires Life(size, max, states, script)
    ensures states[|script|].queued == states[0].queued + Arrivals(script)
    decreases |script|
  {
    if script != [] {
      var n := |script| - 1;
      forall i | 0 <= i < n
        ensures RoundStep(size, max, states[..n + 1][i], script[..n][i], states[..n + 1][i + 1])
      {
        assert RoundStep(size, max, states[i], script[i], states[i + 1]);
      }
      EveryArrivalCounts(size, max, states[..n + 1], script[..n]);
      assert RoundStep(size, max, states[n], script[n], states[n + 1]);
    }
  }

  /** What a flush leaves behind, by the class of its error, counting the data failures so far. */
  lemma FlushByReply(s: Snapshot, grown: seq<Update>, w: World, s': Snapshot)
    requires FlushStep(s, grown, w, s') && grown != []
    ensures w.reply.Committed? ==>
      s'.batch == [] && s'.fails == 0 && s'.ledger.committed == s.ledger.committed + Serials(grown) &&
      s'.writes == s.writes + [Commit(Stamped(grown, w.now), true)]
    ensures !w.reply.Committed? ==>
      var e := w.reply.error;
      var badData := e.Postgres? && (e.errorClass == "22" || e.errorClass == "23");
      s'.ledger.committed == s.ledger.committed &&
      if !badData then s'.batch == Stamped(grown, w.now) && s'.fails == s.fails && s'.ledger == s.ledger
      else if s.fails + 1 < 3 then s'.batch == Stamped(grown, w.now) && s'.fails == s.fails + 1 && s'.ledger == s.ledger
      else s'.batch == [] && s'.fails == 0
  {
    StampedSerials(grown, w.now);
  }

  lemma StampedSerials(us: seq<Update>, now: int)
    ensures Serials(Stamped(us, now)) == Serials(us)
  {
    forall s: nat
      ensures s in Serials(Stamped(us, now)) <==> s in Serials(us)
    {
      TimesSerials(us, s);
      TimesSerials(Stamped(us, now), s);
      TimesStamped(us, now, s);
    }
  }

  /** After a script that ends with a tick whose commit was seen the batch is empty and all that was in it is committed. */
  lemma LastTickCommits(size: nat, max: nat, states: seq<Snapshot>, script: seq<Event>)
    requires Life(size, max, states, script) && script != [] && script[|script| - 1].Tick? && script[|script| - 1].flush.reply.Committed?
    ensures var before, last := states[|script| - 1], states[|script|];
      last.batch == [] && Serials(before.batch) <= last.ledger.committed &&
      |last.overflow| == (if |before.overflow| + |before.batch| <= max then 0 else if |before.batch| <= max then |before.overflow| + |before.batch| - max else |before.overflow|)
  {
    var n := |script| - 1;
    assert RoundStep(size, max, states[n], script[n], states[n + 1]);
    var w := script[n].flush;
    var more :| TickStep(max, states[n], w, states[n + 1], more);
    var grown := states[n].batch + more;
    if grown != [] {
      FlushByReply(states[n], grown, w, states[n + 1]);
    }
    forall s | s in Serials(states[n].batch)
      ensures s in Serials(grown)
    {
      var i :| 0 <= i < |states[n].batch| && states[n].batch[i].serial == s;
      assert grown[i].serial == s;
    }
  }

  class BatchManager {
    const channelSize: nat
    const maxBatchSize: nat
    const database: Database
    var channel: seq<Update>
    var overflow: Overflow
    var batch: seq<Update>
    var consecutiveFails: nat
    var queued: nat
    ghost var ledger: Ledger
    ghost var history: seq<Flush>
    ghost var writes: seq<Write>

    ghost predicate Valid()
      reads this
    {
      maxBatchSize > 0 && |channel| <= channelSize && Filed(overflow) && consecutiveFails == Fails(history) &&
      Balances(queued, ledger, channel, overflow, batch) && CommitsFit(ledger, writes) && PersistedWritten(ledger, writes)
    }

    ghost function Snap(): Snapshot
      reads this
    {
      Snapshot(channel, overflow, batch, consecutiveFails, queued, ledger, writes)
    }

    /** The writes since those, and nothing else, happened to the database since it had those tables. */
    ghost predicate Wrote(tasks: Tasks, usage: Counts, organisations: map<string, string>, before: seq<Write>)
      reads this`writes, database
    {
      before <= writes && database.organisations == organisations &&
      Writing(tasks, usage, organisations, writes[|before|..], database.tasks, database.usage)
    }

    constructor (channelSize: nat, maxBatchSize: nat, database: Database)
      requires maxBatchSize > 0
      ensures Valid() && this.database == database && channel == [] && overflow == map[] && batch == [] && queued == 0
      ensures ledger == Ledger({}, {}, {}, {}) && history == [] && writes == []
    {
      this.channelSize, this.maxBatchSize, this.database := channelSize, maxBatchSize, database;
      channel, overflow, batch, consecutiveFails, queued := [], map[], [], 0, 0;
      ledger, history, writes := Ledger({}, {}, {}, {}), [], [];
    }

    /** Never blocks: an update that finds the channel full replaces the parked one of its task. */
    method QueueTaskUpdate(task: Task)
      requires Valid()
      modifies this`channel, this`overflow, this`queued, this`ledger
      ensures Valid() && queued == old(queued) + 1
      ensures |old(channel)| < channelSize ==>
        channel == old(channel) + [Update(old(queued), task)] && overflow == old(overflow) && ledger == old(ledger)
      ensures |old(channel)| == channelSize ==> channel == old(channel) && overflow == old(overflow)[task.id := Update(old(queued), task)]
      ensures |old(channel)| == channelSize ==> ledger == Superseding(old(ledger), old(overflow), task.id)
    {
      var u := Update(queued, task);
      if |channel| < channelSize {
        QueueBalances(queued, ledger, channel, overflow, batch, u);
        channel := channel + [u];
      } else {
        ParkBalances(queued, ledger, channel, overflow, batch, u);
        ledger := Superseding(ledger, overflow, task.id);
        overflow := overflow[task.id := u];
      }
      queued := queued + 1;
    }

    /** Takes parked updates in no particular order, at most limit of them, none for a limit that is not positive. */
    method PopOverflowBatch(limit: int) returns (updates: seq<Update>)
      requires Filed(overflow)
      modifies this`overflow
      ensures Filed(overflow) && |updates| <= (if limit > 0 then limit else 0)
      ensures limit > 0 && |updates| < limit ==> overflow == map[]
      ensures |overflow| + |updates| == |old(overflow)|
      ensures Unchanged(old(overflow), overflow, updates)
      ensures forall s: nat :: One(s in Parked(old(overflow))) == One(s in Parked(overflow)) + Times(updates, s)
    {
      updates := [];
      if limit <= 0 {
        return;
      }
      while overflow != map[] && |updates| < limit
        invariant Filed(overflow) && |updates| <= limit && |overflow| + |updates| == |old(overflow)|
        invariant Unchanged(old(overflow), overflow, updates)
        invariant forall s: nat :: One(s in Parked(old(overflow))) == One(s in Parked(overflow)) + Times(updates, s)
        decreases limit - |updates|
      {
        var id :| id in overflow;
        PopStep(old(overflow), overflow, updates, id);
        updates := updates + [overflow[id]];
        overflow := overflow - {id};
      }
    }
  
    /** Sorts the batch into the statements' buckets, stamping tasks in place as it goes. */
    method GroupByStatus(now: int) returns (buckets: seq<seq<Task>>)
      modifies this`batch
      ensures batch == Stamped(old(batch), now) && AreBuckets(TasksOf(batch), buckets)
    {
      ghost var start := batch;
      buckets := [[], [], [], [], [], []];
      GroupStart(start, now, buckets);
      for i := 0 to |batch|
        invariant |batch| == |start| && Grouped(start, now, i, batch, buckets)
      {
        GroupStep(start, now, i, batch, buckets);
        var t := StampedTask(batch[i].task, now);
        var rank := Rank(t.status);
        batch := batch[i := batch[i].(task := t)];
        buckets := buckets[rank := buckets[rank] + [t]];
      }
      GroupEnd(start, now, batch, buckets);
    }

    /** One transaction over the whole batch; an error the caller sees may still have been a commit. */
    method FlushTaskUpdates(w: World) returns (err: Option<DbError>)
      modifies this`batch, this`writes, database
      ensures batch == Stamped(old(batch), w.now)
      ensures err == ErrorOf(w)
      ensures writes == old(writes) + Transaction(batch, w)
      ensures Wrote(old(database.tasks), old(database.usage), old(database.organisations), old(writes))
    {
      var buckets := GroupByStatus(w.now);
      if w.reply.RolledBack? {
        NoWrites(database.tasks, database.usage, database.organisations, writes);
      } else {
        database.RunFlush(TasksOf(batch), buckets);
        CommitWrites(old(database.tasks), old(database.usage), database.organisations, Commit(batch, w.reply.Committed?), writes, database.tasks, database.usage);
        writes := writes + [Commit(batch, w.reply.Committed?)];
      }
      err := ErrorOf(w);
    }

    /** Every update in a transaction of its own; those that fail are skipped. */
    method FlushIndividualUpdates(bad: set<nat>) returns (success: nat, skipped: nat)
      modifies database
      ensures database.tasks == OneByOne(old(database.tasks), TasksOf(Picked(batch, Savable(batch, bad))))
      ensures database.usage == old(database.usage) && database.organisations == old(database.organisations)
      ensures success == |Picked(batch, Savable(batch, bad))| && success + skipped == |batch|
    {
      success, skipped := 0, 0;
      for i := 0 to |batch|
        invariant database.tasks == OneByOne(old(database.tasks), TasksOf(Picked(batch[..i], Savable(batch, bad))))
        invariant database.usage == old(database.usage) && database.organisations == old(database.organisations)
        invariant success == |Picked(batch[..i], Savable(batch, bad))| && success + skipped == i
      {
        PickStep(old(database.tasks), batch, Savable(batch, bad), i);
        var t := batch[i].task;
        if Rank(t.status) == 0 || i in bad {
          skipped := skipped + 1;
        } else {
          database.UpdateOne(t);
          success := success + 1;
        }
      }
      assert batch[..|batch|] == batch;
    }
  
    /** The fallback of the third data failure: whatever single updates cannot save is given up. */
    method FallBack(bad: set<nat>)
      modifies this`batch, this`ledger, this`writes, database
      ensures batch == [] && ledger == Settling(old(ledger), old(batch), Savable(old(batch), bad), Lost(old(batch), bad))
      ensures writes == old(writes) + [Rescue(Picked(old(batch), Savable(old(batch), bad)))]
      ensures Wrote(old(database.tasks), old(database.usage), old(database.organisations), old(writes))
    {
      var _, _ := FlushIndividualUpdates(bad);
      ghost var rescue := Rescue(Picked(batch, Savable(batch, bad)));
      RescueWrites(old(database.tasks), database.usage, database.organisations, rescue, writes, database.tasks);
      writes := writes + [rescue];
      ledger := Settling(ledger, batch, Savable(batch, bad), Lost(batch, bad));
      batch := [];
    }

    /** A data failure, the third of which brings on the fallback. */
    method CountFailure(bad: set<nat>)
      modifies this`batch, this`consecutiveFails, this`ledger, this`writes, database
      ensures consecutiveFails == NextFails(old(consecutiveFails), BadData)
      ensures (batch, ledger) == if old(consecutiveFails) + 1 < MAX_CONSECUTIVE_FAILURES then old((batch, ledger))
        else ([], Settling(old(ledger), old(batch), Savable(old(batch), bad), Lost(old(batch), bad)))
      ensures writes == old(writes) +
        if old(consecutiveFails) + 1 < MAX_CONSECUTIVE_FAILURES then [] else [Rescue(Picked(old(batch), Savable(old(batch), bad)))]
      ensures Wrote(old(database.tasks), old(database.usage), old(database.organisations), old(writes))
    {
      consecutiveFails := consecutiveFails + 1;
      if consecutiveFails >= MAX_CONSECUTIVE_FAILURES {
        FallBack(bad);
        consecutiveFails := 0;
      } else {
        NoWrites(database.tasks, database.usage, database.organisations, writes);
      }
    }

    /** One attempt at a batch: written, kept for another try, or after the third data failure saved one by one. */
    method FlushBatch(w: World)
      requires batch != []
      modifies this`batch, this`consecutiveFails, this`ledger, this`history, this`writes, database
      ensures (batch, ledger) == Flushed(old(batch), old(ledger), old(consecutiveFails), w)
      ensures history == old(history) + [Kind(w)] && consecutiveFails == NextFails(old(consecutiveFails), Kind(w))
      ensures writes == old(writes) + WritesOf(old(batch), old(consecutiveFails), w)
      ensures Wrote(old(database.tasks), old(database.usage), old(database.organisations), old(writes))
    {
      var err := FlushTaskUpdates(w);
      if err.Some? {
        if IsRetryable(err.value) {
          history := history + [Postponed];
          return;
        }
        ghost var tasks, usage, first := database.tasks, database.usage, writes;
        CountFailure(w.bad);
        MoreWrites(database.organisations, old(writes), first, writes, old(database.tasks), old(database.usage), tasks, usage, database.tasks, database.usage);
        history := history + [BadData];
        return;
      }
      ledger := Committing(ledger, batch);
      batch := [];
      consecutiveFails := 0;
      history := history + [Succeeded];
    }

    /** A flush of whatever is in the batch; its writes are exactly those of its reply, also where a commit's reply was lost. */
    method Flush(w: World)
      requires Valid()
      modifies this`batch, this`consecutiveFails, this`ledger, this`history, this`writes, database
      ensures Valid()
      ensures (batch, ledger) == Flushed(old(batch), old(ledger), old(consecutiveFails), w)
      ensures history == if old(batch) == [] then old(history) else old(history) + [Kind(w)]
      ensures consecutiveFails == if old(batch) == [] then old(consecutiveFails) else NextFails(old(consecutiveFails), Kind(w))
      ensures writes == old(writes) + WritesOf(old(batch), old(consecutiveFails), w)
      ensures Wrote(old(database.tasks), old(database.usage), old(database.organisations), old(writes))
    {
      FlushedBalances(queued, ledger, channel, overflow, batch, consecutiveFails, w);
      FlushedFits(queued, ledger, channel, overflow, batch, writes, consecutiveFails, w);
      FlushedWritten(ledger, batch, writes, consecutiveFails, w);
      if batch == [] {
        NoWrites(database.tasks, database.usage, database.organisations, writes);
        return;
      }
      HistorySnoc(history, Kind(w));
      FlushBatch(w);
    }

    /** Every update still held has a status some statement takes. */
    ghost predicate NothingOdd()
      reads this
    {
      AllTaken(channel) && AllTaken(batch) && forall id :: id in overflow ==> HasStatement(overflow[id])
    }

    /** An update arrives in the batch, which is flushed when full. */
    method OnUpdate(w: World)
      requires Valid() && channel != []
      modifies this`channel, this`batch, this`consecutiveFails, this`ledger, this`history, this`writes, database
      ensures Valid() && channel == old(channel)[1..]
      ensures Wrote(old(database.tasks), old(database.usage), old(database.organisations), old(writes))
      ensures ReceiveStep(maxBatchSize, old(Snap()), w, Snap())
      ensures history == if |old(batch)| + 1 >= maxBatchSize then old(history) + [Kind(w)] else old(history)
      ensures old(NothingOdd()) && !Kind(w).BadData? ==> NothingOdd() && ledger.dropped == old(ledger.dropped)
    {
      var u := channel[0];
      ReceiveBalances(queued, ledger, channel, overflow, batch);
      batch := batch + [u];
      channel := channel[1..];
      if |batch| >= maxBatchSize {
        ghost var grown, before := batch, ledger;
        ghost var fails := consecutiveFails;
        Flush(w);
        if old(NothingOdd()) && !Kind(w).BadData? {
          FlushedDropsNothing(grown, before, fails, w);
        }
      } else {
        NoWrites(database.tasks, database.usage, database.organisations, writes);
      }
    }

    /** At each tick the batch is topped up from the overflow and flushed, full or not. */
    method OnTick(w: World)
      requires Valid()
      modifies this`overflow, this`batch, this`consecutiveFails, this`ledger, this`history, this`writes, database
      ensures Valid()
      ensures exists more :: TickStep(maxBatchSize, old(Snap()), w, Snap(), more)
      ensures Wrote(old(database.tasks), old(database.usage), old(database.organisations), old(writes))
      ensures old(NothingOdd()) && !Kind(w).BadData? ==> NothingOdd() && ledger.dropped == old(ledger.dropped)
    {
      ghost var parked := overflow;
      var more := PopOverflowBatch(maxBatchSize - |batch|);
      MoveBalances(queued, ledger, channel, channel, parked, overflow, batch, more);
      ghost var grown, before := batch + more, ledger;
      ghost var fails := consecutiveFails;
      batch := batch + more;
      Flush(w);
      if old(NothingOdd()) && !Kind(w).BadData? {
        TakenWithMore(old(batch), more, parked, overflow);
        FlushedDropsNothing(grown, before, fails, w);
      }
      assert TickStep(maxBatchSize, old(Snap()), w, Snap(), more);
    }

    method Round(e: Event)
      requires Valid()
      modifies this`channel, this`overflow, this`queued, this`batch, this`consecutiveFails, this`ledger, this`history, this`writes, database
      ensures Valid()
      ensures Wrote(old(database.tasks), old(database.usage), old(database.organisations), old(writes))
      ensures RoundStep(channelSize, maxBatchSize, old(Snap()), e, Snap())
      ensures old(NothingOdd()) && Harmless(e) ==> NothingOdd() && ledger.dropped == old(ledger.dropped)
    {
      match e {
        case Arrive(task) =>
          QueueTaskUpdate(task);
          NoWrites(database.tasks, database.usage, database.organisations, writes);
        case Receive(w) =>
          if channel != [] {
            OnUpdate(w);
          } else {
            NoWrites(database.tasks, database.usage, database.organisations, writes);
          }
        case Tick(w) => OnTick(w);
      }
    }

    /** The manager's life up to shutdown, whatever happens in whatever order. */
    method ProcessUpdateBatches(script: seq<Event>) returns (ghost states: seq<Snapshot>)
      requires Valid()
      modifies this`channel, this`overflow, this`queued, this`batch, this`consecutiveFails, this`ledger, this`history, this`writes, database
      ensures Valid()
      ensures Wrote(old(database.tasks), old(database.usage), old(database.organisations), old(writes))
      ensures Life(channelSize, maxBatchSize, states, script) && states[0] == old(Snap()) && states[|script|] == Snap()
      ensures queued == old(queued) + Arrivals(script)
      ensures script != [] && script[|script| - 1].Tick? && script[|script| - 1].flush.reply.Committed? ==> batch == []
      ensures old(NothingOdd()) && AllHarmless(script) ==> NothingOdd() && ledger.dropped == old(ledger.dropped)
    {
      states := [Snap()];
      NoWrites(database.tasks, database.usage, database.organisations, writes);
      for i := 0 to |script|
        invariant Life(channelSize, maxBatchSize, states, script[..i]) && states[0] == old(Snap()) && states[i] == Snap()
        invariant Valid()
        invariant Wrote(old(database.tasks), old(database.usage), old(database.organisations), old(writes))
        invariant old(NothingOdd()) && AllHarmless(script) ==> NothingOdd() && ledger.dropped == old(ledger.dropped)
      {
        ghost var tasks, usage, before := database.tasks, database.usage, writes;
        Round(script[i]);
        LifeGoesOn(channelSize, maxBatchSize, states, script, i, Snap());
        states := states + [Snap()];
        assert AllHarmless(script) ==> Harmless(script[i]);
        MoreWrites(database.organisations, old(writes), before, writes, old(database.tasks), old(database.usage), tasks, usage, database.tasks, database.usage);
      }
      assert script[..|script|] == script;
      EveryArrivalCounts(channelSize, maxBatchSize, states, script);
      if script != [] && script[|script| - 1].Tick? && script[|script| - 1].flush.reply.Committed? {
        LastTickCommits(channelSize, maxBatchSize, states, script);
      }
    }

    /** Everything still queued or parked joins the batch, however large it grows. */
    method Drain()
      requires Valid()
      modifies this`channel, this`overflow, this`batch
      ensures Valid() && channel == [] && overflow == map[]
      ensures old(NothingOdd()) ==> NothingOdd()
    {
      while channel != []
        invariant Valid() && (old(NothingOdd()) ==> NothingOdd())
        decreases |channel|
      {
        ReceiveBalances(queued, ledger, channel, overflow, batch);
        batch := batch + [channel[0]];
        channel := channel[1..];
      }
      while overflow != map[]
        invariant Valid() && channel == [] && (old(NothingOdd()) ==> NothingOdd())
        decreases |overflow|
      {
        ghost var parked, before := overflow, batch;
        ghost var sound := NothingOdd();
        var limit := maxBatchSize - |batch|;
        var more := PopOverflowBatch(if limit <= 0 then maxBatchSize else limit);
        MoveBalances(queued, ledger, channel, channel, parked, overflow, batch, more);
        batch := batch + more;
        if sound {
          TakenWithMore(before, more, parked, overflow);
        }
      }
    }

    /**
     * Shutdown: the rest is flushed in at most five attempts; the one-by-one fallback is kept for bad data, and
     * updates that infrastructure trouble keeps from the database are not counted as dropped but stay in the batch.
     */
    method Stop(worlds: seq<World>, bad: set<nat>)
      requires Valid() && |worlds| == 5
      modifies this`channel, this`overflow, this`batch, this`ledger, this`writes, database
      ensures Valid() && channel == [] && overflow == map[]
      ensures Wrote(old(database.tasks), old(database.usage), old(database.organisations), old(writes))
      ensures (exists i :: 0 <= i < |worlds| && Kind(worlds[i]).Succeeded?) || Kind(worlds[|worlds| - 1]).BadData? ==> batch == []
      ensures batch == [] ==> forall s: nat :: s < queued ==> s in ledger.persisted || s in ledger.superseded || s in ledger.dropped
      ensures (exists i :: 0 <= i < |worlds| && worlds[i].reply.Committed?) ==>
        forall s: nat :: Held(old(channel), old(overflow), old(batch), s) ==> s in ledger.committed
      ensures old(NothingOdd()) && !Kind(worlds[|worlds| - 1]).BadData? ==> ledger.dropped == old(ledger.dropped)
    {
      Drain();
      DrainedIsHeld(queued, ledger, old(channel), old(overflow), old(batch), batch);
      var lastError := RetryFlush(worlds);
      if batch != [] && lastError.Some? && !IsRetryable(lastError.value) {
        SettleBalances(queued, ledger, channel, overflow, batch, Savable(batch, bad), Lost(batch, bad));
        RescueFits(ledger, writes, batch, Savable(batch, bad), Lost(batch, bad));
        SettledWritten(ledger, writes, batch, Savable(batch, bad), Lost(batch, bad), Rescue(Picked(batch, Savable(batch, bad))));
        ghost var tasks, usage, before := database.tasks, database.usage, writes;
        FallBack(bad);
        MoreWrites(database.organisations, old(writes), before, writes, old(database.tasks), old(database.usage), tasks, usage, database.tasks, database.usage);
      }
      forall i | 0 <= i < |worlds| && Kind(worlds[i]).Succeeded?
        ensures !Unsuccessful(worlds, |worlds|)
      {
        SomeSucceeds(worlds, |worlds|, i);
      }
      Settled(queued, ledger, channel, overflow, batch);
    }

    /** Up to five attempts, each at what the ones before have left. */
    method RetryFlush(worlds: seq<World>) returns (lastError: Option<DbError>)
      requires Valid() && |worlds| == MAX_SHUTDOWN_RETRIES
      modifies this`batch, this`ledger, this`writes, database
      ensures Valid()
      ensures Wrote(old(database.tasks), old(database.usage), old(database.organisations), old(writes))
      ensures batch != [] ==> lastError == ErrorOf(worlds[|worlds| - 1]) && Unsuccessful(worlds, |worlds|)
      ensures batch == [] ==> Serials(old(batch)) <= ledger.committed
      ensures old(NothingOdd()) ==> NothingOdd() && ledger.dropped == old(ledger.dropped)
    {
      assert batch == [] ==> Serials(batch) == {};
      hide Committing, Writing, Stamped, Serials, Kind;
      NoWrites(database.tasks, database.usage, database.organisations, writes);
      lastError := None;
      var attempt: nat := 0;
      while attempt < MAX_SHUTDOWN_RETRIES && batch != []
        invariant attempt <= MAX_SHUTDOWN_RETRIES && Valid()
        invariant Wrote(old(database.tasks), old(database.usage), old(database.organisations), old(writes))
        invariant batch != [] ==> Unsuccessful(worlds, attempt) && Serials(batch) == Serials(old(batch))
        invariant batch == [] ==> Serials(old(batch)) <= ledger.committed
        invariant batch != [] && attempt > 0 ==> lastError == ErrorOf(worlds[attempt - 1])
        invariant old(NothingOdd()) ==> NothingOdd() && ledger.dropped == old(ledger.dropped)
      {
        lastError := TryFlush(worlds[attempt], old(database.tasks), old(database.usage), old(writes));
        attempt := attempt + 1;
      }
    }

    /** One attempt, after certain writes of earlier ones. */
    method TryFlush(w: World, ghost tasks: Tasks, ghost usage: Counts, ghost before: seq<Write>) returns (err: Option<DbError>)
      requires Valid() && batch != [] && Wrote(tasks, usage, database.organisations, before)
      modifies this`batch, this`ledger, this`writes, database
      ensures Valid()
      ensures batch == (if Kind(w).Succeeded? then [] else Stamped(old(batch), w.now)) && err == ErrorOf(w)
      ensures Serials(Stamped(old(batch), w.now)) == Serials(old(batch))
      ensures ledger == if Kind(w).Succeeded? then Committing(old(ledger), Stamped(old(batch), w.now)) else old(ledger)
      ensures Kind(w).Succeeded? ==> Serials(old(batch)) <= ledger.committed
      ensures writes == old(writes) + Transaction(Stamped(old(batch), w.now), w)
      ensures Wrote(tasks, usage, old(database.organisations), before)
      ensures old(NothingOdd()) ==> NothingOdd() && ledger.dropped == old(ledger.dropped)
    {
      StampBalances(queued, ledger, channel, overflow, batch, w.now);
      StampedSerials(batch, w.now);
      ghost var start := batch;
      err := FlushTaskUpdates(w);
      MoreWrites(database.organisations, before, old(writes), writes, tasks, usage, old(database.tasks), old(database.usage), database.tasks, database.usage);
      if old(NothingOdd()) {
        StampTaken(start, w.now);
        NothingUnknown(batch);
        assert Serials([]) == {};
      }
      TransactionFits(queued, ledger, channel, overflow, batch, old(writes), w);
      WrittenStays(ledger, old(writes), Transaction(batch, w));
      if err.None? {
        CommittedWritten(ledger, batch, old(writes));
        CommitBalances(queued, ledger, channel, overflow, batch);
        ledger := Committing(ledger, batch);
        batch := [];
      }
    }
  }

  /** None of the first n attempts succeeds. */
  predicate Unsuccessful(worlds: seq<World>, n: nat)
    requires n <= |worlds|
  {
    n == 0 || (Unsuccessful(worlds, n - 1) && !Kind(worlds[n - 1]).Succeeded?)
  }

  lemma {:induction false} SomeSucceeds(worlds: seq<World>, n: nat, i: nat)
    requires i < n <= |worlds| && Kind(worlds[i]).Succeeded?
    ensures !Unsuccessful(worlds, n)
  {
    if i < n - 1 {
      SomeSucceeds(worlds, n - 1, i);
    }
  }

  function ErrorOf(w: World): Option<DbError> {
    match w.reply
    case Committed => None
    case CommittedUnseen(e) => Some(e)
    case RolledBack(e) => Some(e)
  }

  /** Held in the channel, the overflow or the batch. */
  ghost predicate Held(channel: seq<Update>, overflow: Overflow, batch: seq<Update>, s: nat) {
    s in Serials(channel) || s in Parked(overflow) || s in Serials(batch)
  }

  /** Draining moves everything held into the batch. */
  lemma DrainedIsHeld(n: nat, l: Ledger, channel: seq<Update>, overflow: Overflow, batch: seq<Update>, drained: seq<Update>)
    requires Balances(n, l, channel, overflow, batch) && Balances(n, l, [], map[], drained)
    ensures forall s: nat :: Held(channel, overflow, batch, s) <==> s in Serials(drained)
  {
    forall s: nat
      ensures Held(channel, overflow, batch, s) <==> s in Serials(drained)
    {
      assert Places(l, channel, overflow, batch, s) == One(s < n) == Places(l, [], map[], drained, s);
      TimesSerials(channel, s);
      TimesSerials(batch, s);
      TimesSerials(drained, s);
    }
  }

  lemma StampTaken(us: seq<Update>, now: int)
    requires AllTaken(us)
    ensures AllTaken(Stamped(us, now))
  {
    forall i | 0 <= i < |us|
      ensures HasStatement(Stamped(us, now)[i])
    {
      assert HasStatement(us[i]);
    }
  }

  /** With nothing held back, every update ever queued has been accounted for. */
  lemma Settled(n: nat, l: Ledger, channel: seq<Update>, overflow: Overflow, batch: seq<Update>)
    requires Balances(n, l, channel, overflow, batch) && channel == [] && overflow == map[]
    ensures batch == [] ==> forall s: nat :: s < n ==> s in l.persisted || s in l.superseded || s in l.dropped
  {
    forall s: nat | s < n && batch == []
      ensures s in l.persisted || s in l.superseded || s in l.dropped
    {
      assert Places(l, channel, overflow, batch, s) == One(s < n);
    }
  }

  lemma ReceiveBalances(n: nat, l: Ledger, channel: seq<Update>, overflow: Overflow, batch: seq<Update>)
    requires Balances(n, l, channel, overflow, batch) && channel != []
    ensures Balances(n, l, channel[1..], overflow, batch + [channel[0]])
  {
    var rest, moved := channel[1..], [channel[0]];
    forall s: nat
      ensures Times(channel, s) == Times(rest, s) + Times(moved, s)
    {
      TimesAppend(moved, rest, s);
      assert moved + rest == channel;
    }
    MoveBalances(n, l, channel, rest, overflow, overflow, batch, moved);
  }

  lemma TakenWithMore(batch: seq<Update>, more: seq<Update>, before: Overflow, after: Overflow)
    requires AllTaken(batch) && Unchanged(before, after, more) && forall id :: id in before ==> HasStatement(before[id])
    ensures AllTaken(batch + more) && forall id :: id in after ==> HasStatement(after[id])
  {
    forall i | 0 <= i < |more|
      ensures HasStatement(more[i])
    {
      assert more[i] in more;
    }
  }

  lemma HistorySnoc(history: seq<Flush>, kind: Flush)
    ensures Fails(history + [kind]) == NextFails(Fails(history), kind)
  {
    assert (history + [kind])[..|history|] == history;
  }

  /** The first i updates are stamped and sorted. */
  ghost predicate Grouped(start: seq<Update>, now: int, i: nat, batch: seq<Update>, buckets: seq<seq<Task>>)
    requires i <= |start|
  {
    batch == Stamped(start, now)[..i] + start[i..] && AreBuckets(TasksOf(Stamped(start, now))[..i], buckets)
  }

  lemma GroupStart(start: seq<Update>, now: int, buckets: seq<seq<Task>>)
    requires buckets == [[], [], [], [], [], []]
    ensures Grouped(start, now, 0, start, buckets)
  {
    assert TasksOf(Stamped(start, now))[..0] == [];
  }

  lemma GroupEnd(start: seq<Update>, now: int, batch: seq<Update>, buckets: seq<seq<Task>>)
    requires Grouped(start, now, |start|, batch, buckets)
    ensures batch == Stamped(start, now) && AreBuckets(TasksOf(batch), buckets)
  {
    assert TasksOf(Stamped(start, now))[..|start|] == TasksOf(Stamped(start, now));
  }

  lemma GroupStep(start: seq<Update>, now: int, i: nat, batch: seq<Update>, buckets: seq<seq<Task>>)
    requires i < |start| == |batch| && Grouped(start, now, i, batch, buckets)
    ensures var t := StampedTask(start[i].task, now);
      batch[i] == start[i] && Grouped(start, now, i + 1, batch[i := batch[i].(task := t)], buckets[Rank(t.status) := buckets[Rank(t.status)] + [t]])
  {
    var t, tasks := StampedTask(start[i].task, now), TasksOf(Stamped(start, now));
    SortStep(tasks, i, buckets);
    assert tasks[i] == t;
    assert batch[i := batch[i].(task := t)] == Stamped(start, now)[..i + 1] + start[i + 1..];
  }

  lemma SortStep(tasks: seq<Task>, i: nat, buckets: seq<seq<Task>>)
    requires i < |tasks| && AreBuckets(tasks[..i], buckets)
    ensures var r := Rank(tasks[i].status); AreBuckets(tasks[..i + 1], buckets[r := buckets[r] + [tasks[i]]])
  {
    var r, after := Rank(tasks[i].status), tasks[..i + 1];
    var sorted := buckets[r := buckets[r] + [tasks[i]]];
    assert after[..i] == tasks[..i];
    forall rank | 1 <= rank <= 5
      ensures sorted[rank] == Bucket(after, rank)
    {
      BucketSnoc(after, rank);
    }
  }

  lemma PickStep(table: Tasks, us: seq<Update>, which: set<nat>, i: nat)
    requires i < |us|
    ensures var before, after := Picked(us[..i], which), Picked(us[..i + 1], which);
      after == (if i in which then before + [us[i]] else before) &&
      OneByOne(table, TasksOf(after)) == if i in which then ApplyOne(OneByOne(table, TasksOf(before)), us[i].task) else OneByOne(table, TasksOf(before))
  {
    assert us[..i + 1][..i] == us[..i];
    var before, after := Picked(us[..i], which), Picked(us[..i + 1], which);
    if i in which {
      assert TasksOf(after)[..|before|] == TasksOf(before);
    } else {
      assert after == before;
    }
  }

  /** What was taken or left is as it was parked. */
  ghost predicate Unchanged(before: Overflow, after: Overflow, taken: seq<Update>) {
    (forall u :: u in taken ==> u.task.id in before && before[u.task.id] == u) &&
    (forall id :: id in after ==> id in before && after[id] == before[id])
  }

  lemma PopStep(start: Overflow, o: Overflow, updates: seq<Update>, id: string)
    requires Filed(o) && id in o
    requires forall s: nat :: One(s in Parked(start)) == One(s in Parked(o)) + Times(updates, s)
    ensures Filed(o - {id}) && |o - {id}| + 1 == |o|
    ensures var updates', o' := updates + [o[id]], o - {id};
      forall s: nat :: One(s in Parked(start)) == One(s in Parked(o')) + Times(updates', s)
  {
    ParkedDrop(o, id);
    assert (o - {id}).Keys == o.Keys - {id};
    var updates', o' := updates + [o[id]], o - {id};
    forall s: nat
      ensures One(s in Parked(start)) == One(s in Parked(o')) + Times(updates', s)
    {
      TimesSnoc(updates, o[id], s);
    }
  }
}
