/**
 * Several dispatchers over one pipeline: the machine of module Pipeline, with what each dispatcher has read and not
 * yet dealt with kept apart. When is a member sent more than once?
 */
module Dispatchers {
  import opened Text
  import opened Keys
  import opened Schedule
  import opened Redis
  import opened Messages
  import opened Scheduler
  import opened Outbox
  import P = Pipeline
  import D = Dispatcher

  /** A dispatcher is about to deal with a member it has read. */
  datatype Hold = Hold(dispatcher: nat, key: string, member: string)

  datatype State = State(p: P.State, holds: set<Hold>)

  datatype Step =
    | By(dispatcher: nat, step: P.Step)
    | Forget(hold: Hold) // an error, a lack of capacity or a crash: the dispatcher never comes back to it

  function HoldOf(dispatcher: nat, e: ScheduleEntry): Hold {
    Hold(dispatcher, ScheduleKey(e.jobId), e.Member())
  }

  /** The entry a read hands out. */
  function ReadOf(step: P.Step): Option<ScheduleEntry> {
    if step.ReadMember? then ParseScheduleEntry(step.member, step.score) else None
  }

  /** The entry a dispatcher is done with. */
  function DoneWith(step: P.Step): Option<ScheduleEntry> {
    if step.PublishEntry? || step.PushBack? then Some(step.e) else None
  }

  /** A dispatcher deals with what it holds, once, and does not read again what it holds. */
  ghost function Next(s: State, step: Step): Option<State> {
    match step
    case Forget(h) => Some(s.(holds := s.holds - {h}))
    case By(d, inner) =>
      var p := P.Next(s.p, inner);
      if p.None? then None
      else if ReadOf(inner).Some? then
        var h := HoldOf(d, ReadOf(inner).value);
        if h in s.holds then None else Some(State(p.value, s.holds + {h}))
      else if DoneWith(inner).Some? then
        var h := HoldOf(d, DoneWith(inner).value);
        if h in s.holds then Some(State(p.value, s.holds - {h})) else None
      else Some(State(p.value, s.holds))
  }

  const START := State(P.START, {})

  /** A run with the states it goes through. */
  ghost predicate Behaviour(states: seq<State>, steps: seq<Step>) {
    |states| == |steps| + 1 && states[0] == START && forall i :: 0 <= i < |steps| ==> Next(states[i], steps[i]) == Some(states[i + 1])
  }

  // ---------- what happens to one member ----------

  predicate Reads(step: Step, h: Hold) {
    step.By? && ReadOf(step.step).Some? && HoldOf(step.dispatcher, ReadOf(step.step).value) == h
  }

  predicate Sends(step: Step, h: Hold) {
    step.By? && step.step.PublishEntry? && HoldOf(step.dispatcher, step.step.e) == h
  }

  /** The dispatcher sends it, pushes it back or forgets about it. */
  predicate Ends(step: Step, h: Hold) {
    match step
    case Forget(x) => x == h
    case By(d, inner) => DoneWith(inner).Some? && HoldOf(d, DoneWith(inner).value) == h
  }

  /** The entry a step adds to its job's sorted set: a sweeper's row or a worker's retry. */
  function AddedBy(p: P.State, step: P.Step): Option<ScheduleEntry> {
    match step
    case ScheduleRow(_, id, _) => if id in p.outbox then Some(p.outbox[id].Entry()) else None
    case Retry(jobId, id, retryCount, runAt) =>
      if P.Seen(p.db, StreamKey(jobId), id) && P.ReadableBy(P.MessageAt(p.db, StreamKey(jobId), id), false)
      then Some(RetryEntry(ParseStreamMessage(0, P.MessageAt(p.db, StreamKey(jobId), id)).value, retryCount, runAt))
      else None
    case _ => None
  }

  /** A ZADD of the member. */
  predicate Adds(s: State, step: Step, key: string, m: string) {
    step.By? && AddedBy(s.p, step.step).Some? &&
    ScheduleKey(AddedBy(s.p, step.step).value.jobId) == key && AddedBy(s.p, step.step).value.Member() == m
  }

  ghost predicate AddedBetween(states: seq<State>, steps: seq<Step>, i: nat, j: nat, key: string, m: string)
    requires |states| == |steps| + 1 && j <= |steps|
  {
    exists k :: i < k < j && Adds(states[k], steps[k], key, m)
  }

  /** Between any two copies sent of the member it was added again: no ZADD is followed by a second copy. */
  ghost predicate OncePerAdd(states: seq<State>, steps: seq<Step>, key: string, m: string)
    requires |states| == |steps| + 1
  {
    forall i, j, c, d :: 0 <= i < j < |steps| && Sends(steps[i], Hold(c, key, m)) && Sends(steps[j], Hold(d, key, m)) ==>
      AddedBetween(states, steps, i, j, key, m)
  }

  /** The dispatcher reads the member at r and deals with it at j. */
  ghost predicate HeldFrom(steps: seq<Step>, r: nat, j: nat, h: Hold) {
    r < j <= |steps| && Reads(steps[r], h) && forall k :: r < k < j ==> !Ends(steps[k], h)
  }

  /** Dispatcher d read the member before c sent it, and sends it after that. */
  ghost predicate SendsStale(steps: seq<Step>, r: nat, i: nat, j: nat, c: nat, d: nat, key: string, m: string) {
    r < i < j < |steps| && HeldFrom(steps, r, j, Hold(d, key, m)) && Sends(steps[j], Hold(d, key, m)) && Sends(steps[i], Hold(c, key, m))
  }

  /** Nobody sends a member he read before another sent it, unless it was added again in between. */
  ghost predicate NoStaleSend(states: seq<State>, steps: seq<Step>, key: string, m: string)
    requires |states| == |steps| + 1
  {
    forall r, i, j, c, d :: SendsStale(steps, r, i, j, c, d, key, m) ==> AddedBetween(states, steps, i, j, key, m)
  }

  // ---------- members are printed entries ----------

  ghost predicate PrintedAt(key: string, m: string) {
    exists e: ScheduleEntry :: key == ScheduleKey(e.jobId) && m == e.Member()
  }

  ghost predicate AllPrinted(db: Store) {
    forall key, m :: m in db.ZSetAt(key) ==> PrintedAt(key, m)
  }

  lemma AddingStep(p: P.State, step: P.Step, p': P.State, key: string, m: string)
    requires P.Next(p, step) == Some(p') && (step.ScheduleRow? || step.Retry?)
    ensures AddedBy(p, step).Some?
    ensures var e := AddedBy(p, step).value;
      m in p'.db.ZSetAt(key) <==> m in p.db.ZSetAt(key) || (key == ScheduleKey(e.jobId) && m == e.Member())
  {
    AddsItsEntry(p, step, p');
    var e := AddedBy(p, step).value;
    ZAddEffect(p.db, ScheduleKey(e.jobId), e.Member(), e.runAt);
    assert p'.db.ZSetAt(key) == AddEntry(p.db, e).ZSetAt(key);
  }

  lemma AddsItsEntry(p: P.State, step: P.Step, p': P.State)
    requires P.Next(p, step) == Some(p') && (step.ScheduleRow? || step.Retry?)
    ensures AddedBy(p, step).Some? && p'.db.zsets == AddEntry(p.db, AddedBy(p, step).value).zsets
  {
  }

  lemma MovingStep(p: P.State, step: P.Step, p': P.State, key: string, m: string)
    requires P.Next(p, step) == Some(p') && DoneWith(step).Some?
    ensures var gone := step.PublishEntry? && key == ScheduleKey(step.e.jobId) && m == step.e.Member();
      m in p'.db.ZSetAt(key) <==> m in p.db.ZSetAt(key) && !gone
  {
    if step.PublishEntry? {
      D.PublishChanges(p.db, step.e, D.RouteOf(step.e).value);
    } else {
      ZAddEffect(p.db, ScheduleKey(step.e.jobId), step.e.Member(), step.score);
    }
  }

  lemma OutboxStep(p: P.State, step: P.Step, p': P.State)
    requires P.Next(p, step) == Some(p') && (step.Enqueue? || step.Begin? || step.Commit? || step.Abort?)
    ensures p'.db == p.db
  {
  }

  lemma StreamStep(p: P.State, step: P.Step, p': P.State)
    requires P.Next(p, step) == Some(p')
    requires step.Deliver? || step.Redeliver? || step.DropMalformed? || step.Finish? || step.Elsewhere?
    ensures p'.db.zsets == p.db.zsets
  {
  }

  lemma OtherStep(p: P.State, step: P.Step, p': P.State, key: string, m: string)
    requires P.Next(p, step) == Some(p') && !step.ScheduleRow? && !step.Retry? && DoneWith(step).None?
    ensures m in p'.db.ZSetAt(key) ==> m in p.db.ZSetAt(key)
  {
    if step.Enqueue? || step.Begin? || step.Commit? || step.Abort? {
      OutboxStep(p, step, p');
    } else if step.ReadMember? {
      ZRemEffect(p.db, ScheduleKey(step.jobId), step.member);
    } else if !step.Teardown? {
      StreamStep(p, step, p');
    }
  }

  /** A step brings a member into a sorted set only by adding its entry, and sending takes it out. */
  lemma OnlyAdded(p: P.State, step: P.Step, p': P.State, key: string, m: string)
    requires P.Next(p, step) == Some(p')
    ensures m in p'.db.ZSetAt(key) && m !in p.db.ZSetAt(key) ==>
      var e := AddedBy(p, step); e.Some? && key == ScheduleKey(e.value.jobId) && m == e.value.Member()
    ensures step.PublishEntry? && key == ScheduleKey(step.e.jobId) && m == step.e.Member() ==> m !in p'.db.ZSetAt(key)
  {
    if step.ScheduleRow? || step.Retry? {
      AddingStep(p, step, p', key, m);
    } else if DoneWith(step).Some? {
      MovingStep(p, step, p', key, m);
    } else {
      OtherStep(p, step, p', key, m);
    }
  }

  lemma PrintedStep(p: P.State, step: P.Step, p': P.State)
    requires P.Next(p, step) == Some(p') && AllPrinted(p.db)
    ensures AllPrinted(p'.db)
  {
    forall key, m | m in p'.db.ZSetAt(key)
      ensures PrintedAt(key, m)
    {
      OnlyAdded(p, step, p', key, m);
    }
  }

  lemma {:induction false} AlwaysPrinted(states: seq<State>, steps: seq<Step>, i: nat)
    requires Behaviour(states, steps) && i <= |steps|
    ensures AllPrinted(states[i].p.db)
  {
    if i > 0 {
      AlwaysPrinted(states, steps, i - 1);
      assert Next(states[i - 1], steps[i - 1]) == Some(states[i]);
      if steps[i - 1].By? {
        PrintedStep(states[i - 1].p, steps[i - 1].step, states[i].p);
      }
    }
  }

  /** What a dispatcher holds after a read is the member that was in the sorted set. */
  lemma ReadsWhatIsThere(states: seq<State>, steps: seq<Step>, r: nat, h: Hold)
    requires Behaviour(states, steps) && r < |steps| && Reads(steps[r], h)
    ensures h.member in states[r].p.db.ZSetAt(h.key) && h !in states[r].holds && h in states[r + 1].holds
  {
    AlwaysPrinted(states, steps, r);
    ReadFindsMember(states[r], steps[r], states[r + 1], h);
    var step := steps[r].step;
    PrintedReads(states[r].p.db, step.jobId, step.member, step.score, ReadOf(step).value);
  }

  lemma ReadFindsMember(s: State, step: Step, s': State, h: Hold)
    requires Next(s, step) == Some(s') && Reads(step, h)
    ensures step.step.ReadMember? && step.step.member in s.p.db.ZSetAt(ScheduleKey(step.step.jobId))
    ensures h !in s.holds && h in s'.holds
  {
    P.ReadNeedsMember(s.p, step.step);
  }

  lemma PrintedReads(db: Store, jobId: string, m: string, score: int, e: ScheduleEntry)
    requires AllPrinted(db) && m in db.ZSetAt(ScheduleKey(jobId)) && ParseScheduleEntry(m, score) == Some(e)
    ensures e.Member() == m && e.jobId == jobId
  {
    assert PrintedAt(ScheduleKey(jobId), m);
    var x: ScheduleEntry :| ScheduleKey(jobId) == ScheduleKey(x.jobId) && m == x.Member();
    ReadableIffPipeFree(x, score);
    ParseAfterPrint(x, score);
    PrintParsePrint(x, score);
    ScheduleKeyInjective(jobId, x.jobId);
  }

  // ---------- holds ----------

  lemma HoldsStep(s: State, step: Step, s': State, h: Hold)
    requires Next(s, step) == Some(s')
    ensures h in s'.holds ==> Reads(step, h) || (h in s.holds && !Ends(step, h))
    ensures Sends(step, h) ==> h in s.holds
  {
  }

  /** A hold goes back to a read after which the dispatcher has not dealt with the member. */
  lemma HoldHasRead(states: seq<State>, steps: seq<Step>, j: nat, h: Hold) returns (r: nat)
    requires Behaviour(states, steps) && j <= |steps| && h in states[j].holds
    ensures HeldFrom(steps, r, j, h)
  {
    forall k | 0 <= k < |steps| && Holds(states[k + 1], h)
      ensures Keeps(states[k], steps[k], h)
    {
      HoldsStep(states[k], steps[k], states[k + 1], h);
    }
    r := KeptHasRead(states, steps, j, h);
  }

  predicate Holds(s: State, h: Hold) {
    h in s.holds
  }

  predicate Keeps(s: State, step: Step, h: Hold) {
    Reads(step, h) || (Holds(s, h) && !Ends(step, h))
  }

  lemma {:induction false} KeptHasRead(states: seq<State>, steps: seq<Step>, j: nat, h: Hold) returns (r: nat)
    requires |states| == |steps| + 1 && j <= |steps| && Holds(states[j], h) && !Holds(states[0], h)
    requires forall k :: 0 <= k < |steps| && Holds(states[k + 1], h) ==> Keeps(states[k], steps[k], h)
    ensures HeldFrom(steps, r, j, h)
  {
    hide Ends, Reads;
    assert Holds(states[j - 1 + 1], h);
    assert Keeps(states[j - 1], steps[j - 1], h);
    if Reads(steps[j - 1], h) {
      r := j - 1;
    } else {
      r := KeptHasRead(states, steps, j - 1, h);
      HeldLonger(steps, r, j - 1, h);
    }
  }

  lemma HeldLonger(steps: seq<Step>, r: nat, j: nat, h: Hold)
    requires HeldFrom(steps, r, j, h) && j < |steps| && !Ends(steps[j], h)
    ensures HeldFrom(steps, r, j + 1, h)
  {
    hide Ends, Reads;
  }

  lemma SenderHolds(states: seq<State>, steps: seq<Step>, j: nat, h: Hold)
    requires Behaviour(states, steps) && j < |steps| && Sends(steps[j], h)
    ensures h in states[j].holds && Absent(states[j + 1], h.key, h.member)
  {
    HoldsStep(states[j], steps[j], states[j + 1], h);
    OnlyAdded(states[j].p, steps[j].step, states[j + 1].p, h.key, h.member);
  }

  predicate Absent(s: State, key: string, m: string) {
    m !in s.p.db.ZSetAt(key)
  }

  /** Once sent, a member stays out of the sorted set until it is added again. */
  lemma AbsentUntilAdded(states: seq<State>, steps: seq<Step>, i: nat, r: nat, h: Hold)
    requires Behaviour(states, steps) && i < r <= |steps| && Sends(steps[i], h)
    requires !AddedBetween(states, steps, i, r, h.key, h.member)
    ensures Absent(states[r], h.key, h.member)
  {
    SenderHolds(states, steps, i, h);
    forall k | i < k < r && Absent(states[k], h.key, h.member)
      ensures Absent(states[k + 1], h.key, h.member)
    {
      NotAddedAt(states, steps, i, k, r, h.key, h.member);
      AbsentStep(states[k], steps[k], states[k + 1], h.key, h.member);
    }
    StaysAbsent(states, i + 1, r, h.key, h.member);
  }

  lemma {:induction false} StaysAbsent(states: seq<State>, i: nat, r: nat, key: string, m: string)
    requires i <= r < |states| && Absent(states[i], key, m)
    requires forall k :: i <= k < r && Absent(states[k], key, m) ==> Absent(states[k + 1], key, m)
    ensures Absent(states[r], key, m)
    decreases r
  {
    if r > i {
      StaysAbsent(states, i, r - 1, key, m);
      assert Absent(states[r - 1 + 1], key, m);
    }
  }

  lemma NotAddedAt(states: seq<State>, steps: seq<Step>, i: nat, k: nat, r: nat, key: string, m: string)
    requires |states| == |steps| + 1 && i < k < r <= |steps| && !AddedBetween(states, steps, i, r, key, m)
    ensures !Adds(states[k], steps[k], key, m)
  {
  }

  lemma AbsentStep(s: State, step: Step, s': State, key: string, m: string)
    requires Next(s, step) == Some(s') && !Adds(s, step, key, m) && Absent(s, key, m)
    ensures Absent(s', key, m)
  {
    if step.By? {
      OnlyAdded(s.p, step.step, s'.p, key, m);
    }
  }

  // ---------- sends are copies ----------

  lemma {:induction false} AlwaysClean(states: seq<State>, steps: seq<Step>, i: nat)
    requires Behaviour(states, steps) && i <= |steps|
    ensures P.Clean(states[i].p)
  {
    if i > 0 {
      AlwaysClean(states, steps, i - 1);
      CleanStep(states[i - 1], steps[i - 1], states[i]);
    }
  }

  lemma CleanStep(s: State, step: Step, s': State)
    requires Next(s, step) == Some(s') && P.Clean(s.p)
    ensures P.Clean(s'.p)
  {
    if step.By? {
      P.StepClean(s.p, step.step, s'.p);
    }
  }

  /** Sending appends one copy of the entry to its own stream; nothing else that happens ever appends to a stream. */
  lemma SendsAreCopies(states: seq<State>, steps: seq<Step>, i: nat, key: string)
    requires Behaviour(states, steps) && i < |steps|
    ensures var before, after := states[i].p.db.StreamAt(key).entries, states[i + 1].p.db.StreamAt(key).entries;
      if SendsTo(steps[i], key) then after == before + [StreamValues(steps[i].step.e)] else after == before || after == []
  {
    AlwaysClean(states, steps, i);
    StepCopies(states[i], steps[i], states[i + 1], key);
  }

  predicate SendsTo(step: Step, key: string) {
    step.By? && step.step.PublishEntry? && D.RouteOf(step.step.e) == Some(key)
  }

  lemma StepCopies(s: State, step: Step, s': State, key: string)
    requires Next(s, step) == Some(s') && P.Clean(s.p)
    ensures var before, after := s.p.db.StreamAt(key).entries, s'.p.db.StreamAt(key).entries;
      if SendsTo(step, key) then after == before + [StreamValues(step.step.e)] else after == before || after == []
  {
    if step.By? {
      if step.step.PublishEntry? {
        D.PublishChanges(s.p.db, step.step.e, D.RouteOf(step.step.e).value);
      } else {
        P.SameEntriesStep(s.p, step.step, s'.p);
      }
    }
  }

  // ---------- the theorems ----------

  /** A second copy of one ZADD is always sent by a dispatcher that read the member before the first was sent. */
  lemma SecondCopyIsStale(states: seq<State>, steps: seq<Step>, i: nat, j: nat, c: nat, d: nat, key: string, m: string) returns (r: nat)
    requires Behaviour(states, steps) && i < j < |steps|
    requires Sends(steps[i], Hold(c, key, m)) && Sends(steps[j], Hold(d, key, m)) && !AddedBetween(states, steps, i, j, key, m)
    ensures r < i && HeldFrom(steps, r, j, Hold(d, key, m))
  {
    SenderHolds(states, steps, j, Hold(d, key, m));
    r := HoldHasRead(states, steps, j, Hold(d, key, m));
    ReadsWhatIsThere(states, steps, r, Hold(d, key, m));
    assert r != i;
    if r > i {
      NoneInShorterGap(states, steps, i, r, j, key, m);
      AbsentUntilAdded(states, steps, i, r, Hold(c, key, m));
    }
  }

  lemma NoneInShorterGap(states: seq<State>, steps: seq<Step>, i: nat, r: nat, j: nat, key: string, m: string)
    requires |states| == |steps| + 1 && i < r <= j <= |steps| && !AddedBetween(states, steps, i, j, key, m)
    ensures !AddedBetween(states, steps, i, r, key, m)
  {
  }

  /**
   * Over every run, with any number of dispatchers: each ZADD of a member is followed by at most one copy in a
   * stream exactly when nobody sends the member who read it before another sent it.
   */
  lemma OncePerAddIff(states: seq<State>, steps: seq<Step>, key: string, m: string)
    requires Behaviour(states, steps)
    ensures OncePerAdd(states, steps, key, m) <==> NoStaleSend(states, steps, key, m)
  {
    if NoStaleSend(states, steps, key, m) {
      forall i, j, c, d | 0 <= i < j < |steps| && Sends(steps[i], Hold(c, key, m)) && Sends(steps[j], Hold(d, key, m))
        ensures AddedBetween(states, steps, i, j, key, m)
      {
        if !AddedBetween(states, steps, i, j, key, m) {
          var r := SecondCopyIsStale(states, steps, i, j, c, d, key, m);
          assert SendsStale(steps, r, i, j, c, d, key, m);
        }
      }
    }
  }

  /** Nobody reads the member between another's read and its sending. */
  ghost predicate ReadsApart(steps: seq<Step>, key: string, m: string) {
    forall r: nat, q: nat, j: nat, c, d ::
      r < q < j < |steps| && c != d && HeldFrom(steps, r, j, Hold(d, key, m)) && Sends(steps[j], Hold(d, key, m)) ==> !Reads(steps[q], Hold(c, key, m))
  }

  lemma StaleSendOverlaps(states: seq<State>, steps: seq<Step>, r: nat, i: nat, j: nat, c: nat, d: nat, key: string, m: string)
    requires Behaviour(states, steps) && SendsStale(steps, r, i, j, c, d, key, m)
    ensures !ReadsApart(steps, key, m)
  {
    SenderHolds(states, steps, i, Hold(c, key, m));
    var q := HoldHasRead(states, steps, i, Hold(c, key, m));
    assert c != d by {
      assert !Ends(steps[i], Hold(d, key, m));
    }
    if q < r {
      assert HeldFrom(steps, q, i, Hold(c, key, m)) && Reads(steps[r], Hold(d, key, m));
    } else {
      assert q != r;
      assert HeldFrom(steps, r, j, Hold(d, key, m)) && Reads(steps[q], Hold(c, key, m));
    }
  }

  /** That is enough; so a single dispatcher never sends a second copy. */
  lemma ReadsApartSendOnce(states: seq<State>, steps: seq<Step>, key: string, m: string)
    requires Behaviour(states, steps) && ReadsApart(steps, key, m)
    ensures OncePerAdd(states, steps, key, m)
  {
    if !NoStaleSend(states, steps, key, m) {
      var r, i, j, c, d :| SendsStale(steps, r, i, j, c, d, key, m) && !AddedBetween(states, steps, i, j, key, m);
      StaleSendOverlaps(states, steps, r, i, j, c, d, key, m);
    }
    OncePerAddIff(states, steps, key, m);
  }

  lemma OneDispatcherReadsApart(steps: seq<Step>, only: nat, key: string, m: string)
    requires forall k :: 0 <= k < |steps| && steps[k].By? ==> steps[k].dispatcher == only
    ensures ReadsApart(steps, key, m)
  {
  }

  /**
   * And it is what every scheduling needs: once a dispatcher has read an entry that another holds, letting both
   * send it breaks the promise.
   */
  lemma OverlapCanSendTwice(states: seq<State>, steps: seq<Step>, c: nat, d: nat, e: ScheduleEntry)
    returns (states': seq<State>, steps': seq<Step>)
    requires Behaviour(states, steps) && c != d && D.RouteOf(e).Some?
    requires var last := states[|steps|]; e in last.p.held && HoldOf(c, e) in last.holds && HoldOf(d, e) in last.holds
    ensures Behaviour(states', steps') && steps' == steps + [By(c, P.PublishEntry(e)), By(d, P.PublishEntry(e))]
    ensures !OncePerAdd(states', steps', ScheduleKey(e.jobId), e.Member())
  {
    var last := states[|steps|];
    var one, two := By(c, P.PublishEntry(e)), By(d, P.PublishEntry(e));
    SendNext(last, c, e);
    var first := Next(last, one).value;
    SendNext(first, d, e);
    var second := Next(first, two).value;
    Extend(states, steps, one, first);
    Extend(states + [first], steps + [one], two, second);
    steps' := steps + [one, two];
    states' := states + [first, second];
    assert steps + [one] + [two] == steps' && states + [first] + [second] == states';
    TwoSends(states', steps', |steps|, c, d, e);
  }

  lemma SendNext(s: State, d: nat, e: ScheduleEntry)
    requires e in s.p.held && D.RouteOf(e).Some? && HoldOf(d, e) in s.holds
    ensures Next(s, By(d, P.PublishEntry(e))) == Some(State(s.p.(db := D.Publish(s.p.db, e, D.RouteOf(e).value)), s.holds - {HoldOf(d, e)}))
  {
  }

  lemma ReadNext(s: State, c: nat, e: ScheduleEntry, score: int)
    requires ParseScheduleEntry(e.Member(), score) == Some(e) && HoldOf(c, e) !in s.holds
    requires var z := s.p.db.ZSetAt(ScheduleKey(e.jobId)); e.Member() in z && z[e.Member()] == score
    ensures Next(s, By(c, P.ReadMember(e.jobId, e.Member(), score))) == Some(State(s.p.(held := s.p.held + {e}), s.holds + {HoldOf(c, e)}))
  {
    var read := P.ReadMember(e.jobId, e.Member(), score);
    ReadInner(s.p, e.jobId, e.Member(), score, e);
    assert Next(s, By(c, read)) == Some(State(P.Next(s.p, read).value, s.holds + {HoldOf(c, e)}));
  }

  lemma ReadInner(p: P.State, jobId: string, m: string, score: int, e: ScheduleEntry)
    requires ParseScheduleEntry(m, score) == Some(e)
    requires var z := p.db.ZSetAt(ScheduleKey(jobId)); m in z && z[m] == score
    ensures P.Next(p, P.ReadMember(jobId, m, score)) == Some(p.(held := p.held + {e}))
    ensures ReadOf(P.ReadMember(jobId, m, score)) == Some(e)
  {
    hide ParseScheduleEntry;
    var step := P.ReadMember(jobId, m, score);
    assert ReadOf(step) == Some(e);
  }

  lemma TwoSends(states: seq<State>, steps: seq<Step>, n: nat, c: nat, d: nat, e: ScheduleEntry)
    requires |states| == |steps| + 1 && n + 2 == |steps| && steps[n] == By(c, P.PublishEntry(e)) && steps[n + 1] == By(d, P.PublishEntry(e))
    ensures !OncePerAdd(states, steps, ScheduleKey(e.jobId), e.Member())
  {
    assert Sends(steps[n], HoldOf(c, e)) && Sends(steps[n + 1], HoldOf(d, e));
  }

  /** A second read of an entry that another dispatcher holds, followed by both sending it. */
  lemma SecondReadCanSendTwice(states: seq<State>, steps: seq<Step>, c: nat, d: nat, e: ScheduleEntry, score: int)
    returns (states': seq<State>, steps': seq<Step>)
    requires Behaviour(states, steps) && D.RouteOf(e).Some? && ParseScheduleEntry(e.Member(), score) == Some(e)
    requires var last := states[|steps|];
      HoldOf(d, e) in last.holds && HoldOf(c, e) !in last.holds &&
      e.Member() in last.p.db.ZSetAt(ScheduleKey(e.jobId)) && last.p.db.ZSetAt(ScheduleKey(e.jobId))[e.Member()] == score
    ensures Behaviour(states', steps') && !OncePerAdd(states', steps', ScheduleKey(e.jobId), e.Member())
    ensures steps' == steps + [By(c, P.ReadMember(e.jobId, e.Member(), score)), By(c, P.PublishEntry(e)), By(d, P.PublishEntry(e))]
  {
    var read := By(c, P.ReadMember(e.jobId, e.Member(), score));
    var last := states[|steps|];
    ReadNext(last, c, e, score);
    var next := State(last.p.(held := last.p.held + {e}), last.holds + {HoldOf(c, e)});
    Extend(states, steps, read, next);
    states', steps' := OverlapCanSendTwice(states + [next], steps + [read], c, d, e);
  }

  lemma Extend(states: seq<State>, steps: seq<Step>, step: Step, next: State)
    requires Behaviour(states, steps) && Next(states[|steps|], step) == Some(next)
    ensures Behaviour(states + [next], steps + [step])
  {
    var longer, more := states + [next], steps + [step];
    forall i | 0 <= i < |more|
      ensures Next(longer[i], more[i]) == Some(longer[i + 1])
    {
      if i < |steps| {
        assert longer[i] == states[i] && longer[i + 1] == states[i + 1] && more[i] == steps[i];
      }
    }
  }

  /** Such a run exists for every row that can be routed: two dispatchers read its member, and both send it. */
  lemma TwoDispatchersSendTwice(row: OutboxRow) returns (states: seq<State>, steps: seq<Step>)
    requires row.Entry().HasPipeFreeText() && D.RouteOf(row.Entry()).Some?
    ensures Behaviour(states, steps) && !OncePerAdd(states, steps, ScheduleKey(row.jobId), row.Entry().Member())
  {
    var e := row.Entry().Stored(row.runAt);
    ParseAfterPrint(row.Entry(), row.runAt);
    PrintParsePrint(row.Entry(), row.runAt);
    var scheduled := OneScheduled(row);
    steps := [By(0, P.Enqueue(1, row)), By(0, P.Begin(0, {1})), By(0, P.ScheduleRow(0, 1, false))];
    ReadNext(scheduled[3], 1, e, row.runAt);
    var read := By(1, P.ReadMember(e.jobId, e.Member(), row.runAt));
    var next := Next(scheduled[3], read).value;
    Extend(scheduled, steps, read, next);
    states, steps := SecondReadCanSendTwice(scheduled + [next], steps + [read], 2, 1, e, row.runAt);
  }

  lemma OneScheduled(row: OutboxRow) returns (states: seq<State>)
    ensures Behaviour(states, [By(0, P.Enqueue(1, row)), By(0, P.Begin(0, {1})), By(0, P.ScheduleRow(0, 1, false))])
    ensures states[3].p.db == AddEntry(P.START.db, row.Entry()) && states[3].holds == {}
  {
    var a := P.START.(outbox := map[1 := row], accepted := map[1 := row]);
    var b := a.(ticks := map[0 := P.OpenTick({1}, {})]);
    var c := b.(db := AddEntry(b.db, row.Entry()));
    assert P.Next(P.START, P.Enqueue(1, row)) == Some(a);
    assert P.Next(a, P.Begin(0, {1})) == Some(b);
    assert P.Next(b, P.ScheduleRow(0, 1, false)) == Some(c);
    states := [START, State(a, {}), State(b, {}), State(c, {})];
  }
}
