/** The self-heal trigger of the dispatcher (internal/broker/dispatcher.go). */
module SelfHeal {
  import opened Text

  /** What the dispatcher remembers of one job. */
  datatype Heal = Heal(stuckSince: Option<int>, lastTrigger: Option<int>)

  const CALM := Heal(None, None)

  /** A tick at which the job had due work but no capacity, or one that disproved the suspicion. */
  datatype Tick = Stuck(now: int) | Cleared

  predicate Fires(h: Heal, now: int, threshold: int) {
    h.stuckSince.Some? && now - h.stuckSince.value >= threshold &&
    (h.lastTrigger.None? || now - h.lastTrigger.value >= 2 * threshold)
  }

  function Next(h: Heal, t: Tick, threshold: int): Heal {
    match t
    case Cleared => h.(stuckSince := None)
    case Stuck(now) =>
      if h.stuckSince.None? then h.(stuckSince := Some(now))
      else if Fires(h, now, threshold) then h.(lastTrigger := Some(now))
      else h
  }

  function After(run: seq<Tick>, threshold: int): Heal {
    if run == [] then CALM else Next(After(run[..|run| - 1], threshold), run[|run| - 1], threshold)
  }

  /** Does the k-th tick of the run trigger a reconcile? */
  predicate Triggers(run: seq<Tick>, k: nat, threshold: int)
    requires k < |run|
  {
    run[k].Stuck? && Fires(After(run[..k], threshold), run[k].now, threshold)
  }

  ghost predicate Chronological(run: seq<Tick>) {
    forall i, j :: 0 <= i < j < |run| && run[i].Stuck? && run[j].Stuck? ==> run[i].now <= run[j].now
  }

  /** Tick i opens the stuck period that is still uninterrupted after the run. */
  ghost predicate OpensPeriod(run: seq<Tick>, i: nat) {
    i < |run| && (forall k :: i <= k < |run| ==> run[k].Stuck?) && (i > 0 ==> run[i - 1].Cleared?)
  }

  lemma {:induction false} RememberedPeriod(run: seq<Tick>, threshold: int)
    ensures var s := After(run, threshold).stuckSince;
      (s.None? <==> run == [] || run[|run| - 1].Cleared?) &&
      (s.Some? ==> exists i: nat :: OpensPeriod(run, i) && run[i].now == s.value)
  {
    if run != [] {
      var rest, n := run[..|run| - 1], |run| - 1;
      RememberedPeriod(rest, threshold);
      if run[n].Stuck? {
        if rest == [] || rest[n - 1].Cleared? {
          assert OpensPeriod(run, n);
        } else {
          var i: nat :| OpensPeriod(rest, i) && rest[i].now == After(rest, threshold).stuckSince.value;
          assert run[i] == rest[i];
          assert OpensPeriod(run, i);
        }
      }
    }
  }

  lemma PeriodOpenerUnique(run: seq<Tick>, i: nat, j: nat)
    requires OpensPeriod(run, i) && OpensPeriod(run, j)
    ensures i == j
  {
  }

  /** The latest trigger before tick k is tick m. */
  ghost predicate IsLastTrigger(run: seq<Tick>, k: nat, m: nat, threshold: int)
    requires k <= |run|
  {
    m < k && Triggers(run, m, threshold) && forall l :: m < l < k ==> !Triggers(run, l, threshold)
  }

  /** lastTrigger is the time of the latest trigger, if there was one. */
  lemma {:induction false} RememberedTrigger(run: seq<Tick>, k: nat, threshold: int)
    requires k <= |run|
    ensures var l := After(run[..k], threshold).lastTrigger;
      (l.None? ==> forall m :: 0 <= m < k ==> !Triggers(run, m, threshold)) &&
      (l.Some? ==> exists m: nat :: IsLastTrigger(run, k, m, threshold) && run[m].now == l.value)
  {
    if k > 0 {
      RememberedTrigger(run, k - 1, threshold);
      assert run[..k][..k - 1] == run[..k - 1];
      if Triggers(run, k - 1, threshold) {
        assert IsLastTrigger(run, k, k - 1, threshold);
      } else if After(run[..k - 1], threshold).lastTrigger.Some? {
        var m: nat :| IsLastTrigger(run, k - 1, m, threshold) && run[m].now == After(run[..k - 1], threshold).lastTrigger.value;
        assert IsLastTrigger(run, k, m, threshold);
      }
    }
  }

  ghost predicate StuckLongEnough(run: seq<Tick>, k: nat, threshold: int)
    requires k < |run| && run[k].Stuck?
  {
    exists i: nat :: OpensPeriod(run[..k], i) && run[k].now - run[..k][i].now >= threshold
  }

  ghost predicate LastTriggerLongAgo(run: seq<Tick>, k: nat, threshold: int)
    requires k < |run| && run[k].Stuck?
  {
    forall m: nat :: IsLastTrigger(run, k, m, threshold) ==> run[k].now - run[m].now >= 2 * threshold
  }

  /**
   * A tick triggers exactly when the job has been stuck without interruption for the threshold and the last
   * trigger, if any, lies twice the threshold back.
   */
  lemma TriggerCondition(run: seq<Tick>, k: nat, threshold: int)
    requires k < |run| && run[k].Stuck?
    ensures Triggers(run, k, threshold) <==> StuckLongEnough(run, k, threshold) && LastTriggerLongAgo(run, k, threshold)
  {
    RememberedPeriod(run[..k], threshold);
    RememberedTrigger(run, k, threshold);
    var h := After(run[..k], threshold);
    if h.stuckSince.Some? {
      var i: nat :| OpensPeriod(run[..k], i) && run[..k][i].now == h.stuckSince.value;
      forall j: nat | OpensPeriod(run[..k], j)
        ensures j == i
      {
        PeriodOpenerUnique(run[..k], i, j);
      }
    }
  }

  /** Triggers of one job are at least twice the threshold apart, whatever cleared the suspicion in between. */
  lemma TriggersApart(run: seq<Tick>, j: nat, k: nat, threshold: int)
    requires j < k < |run| && Triggers(run, j, threshold) && Triggers(run, k, threshold)
    requires threshold >= 0 && Chronological(run)
    ensures run[k].now - run[j].now >= 2 * threshold
  {
    LastTriggerReaches(run, j, k, threshold);
  }

  lemma {:induction false} LastTriggerReaches(run: seq<Tick>, j: nat, k: nat, threshold: int)
    requires j < k <= |run| && Triggers(run, j, threshold) && Chronological(run)
    ensures var l := After(run[..k], threshold).lastTrigger; l.Some? && l.value >= run[j].now
    decreases k
  {
    assert run[..k][..k - 1] == run[..k - 1];
    if k > j + 1 {
      LastTriggerReaches(run, j, k - 1, threshold);
    }
  }

  /** Each trigger follows a stuck period of at least the threshold that nothing interrupted. */
  lemma TriggerFollowsPeriod(run: seq<Tick>, k: nat, threshold: int) returns (i: nat)
    requires k < |run| && Triggers(run, k, threshold)
    ensures i < k && (forall m :: i <= m <= k ==> run[m].Stuck?) && run[k].now - run[i].now >= threshold
  {
    RememberedPeriod(run[..k], threshold);
    i :| OpensPeriod(run[..k], i) && run[..k][i].now == After(run[..k], threshold).stuckSince.value;
    assert run[i] == run[..k][i];
    forall m | i <= m < k
      ensures run[m].Stuck?
    {
      assert run[m] == run[..k][m];
    }
  }
}

/** Moving due entries from sorted sets to streams (internal/broker/dispatcher.go). */
module Dispatcher {
  import opened Text
  import opened Keys
  import opened Schedule
  import opened Redis
  import opened Messages
  import opened Scheduler
  import opened Pacer
  import opened Counters
  import opened SelfHeal

  // ---------- one entry ----------

  /** The stream an entry goes to; unknown task types and lighthouse tasks without a run id have none. */
  function RouteOf(e: ScheduleEntry): Option<string> {
    if e.TaskTypeOrDefault() == "crawl" then Some(StreamKey(e.jobId))
    else if e.TaskTypeOrDefault() == "lighthouse" && e.lighthouseRunId > 0 then Some(LighthouseStreamKey(e.jobId))
    else None
  }

  /** XADD and ZREM in one MULTI/EXEC; the ZREM result is not looked at. */
  function Publish(db: Store, e: ScheduleEntry, route: string): Store {
    db.XAdd(route, StreamValues(e)).ZRem(ScheduleKey(e.jobId), e.Member())
  }

  datatype Capacity = Yes | No | Unknown

  /** What the world answers while one entry is handled. */
  datatype World = World(capacity: Capacity, redisNow: int, pacerFails: bool, rescheduleFails: bool, exec: Exec, countFails: bool, inflightFails: bool)

  /** What became of a due entry. */
  datatype Fate =
    | Published(route: string, counted: bool) // in the stream and out of the sorted set
    | PublishedUnseen(route: string)          // the same, but the reply was lost
    | Paced(score: int)                       // pushed back by the domain gate
    | Kept                                    // an error or no route: left where it was
    | Unreached                               // the pass stopped before it

  /** The state and fate after one entry for which there was capacity. */
  function Handle(db: Store, jobId: string, now: int, minPushback: int, e: ScheduleEntry, w: World): (Store, Fate) {
    if w.pacerFails then (db, Kept)
    else
      var gated := AcquireGate(db, e.host, w.redisNow);
      if !MayPass(db, e.host, w.redisNow) then
        var score := now + PushBack(db, e.host, w.redisNow, minPushback);
        if w.rescheduleFails then (gated, Kept)
        else (gated.ZAddXX(ScheduleKey(e.jobId), e.Member(), score), Paced(score))
      else if RouteOf(e).None? || w.exec.NotApplied? then (gated, Kept)
      else
        var published := Publish(gated, e, RouteOf(e).value);
        if w.exec.AppliedUnseen? then (published, PublishedUnseen(RouteOf(e).value))
        else
          var counted := if w.countFails then published else published.HIncrBy(RUNNING_COUNTERS, jobId, 1);
          (if w.inflightFails then counted else counted.HIncrBy(DomainInflightKey(e.host), jobId, 1),
           Published(RouteOf(e).value, !w.countFails))
  }

  /** A whole pass over the due entries of a job: it stops at the first entry without capacity. */
  function Pass(db: Store, jobId: string, now: int, minPushback: int, entries: seq<ScheduleEntry>, worlds: seq<World>): (Store, seq<Fate>)
    requires |worlds| == |entries|
    decreases |entries|
  {
    if entries == [] then (db, [])
    else if !worlds[0].capacity.Yes? then (db, AllUnreached(|entries|))
    else
      var one := Handle(db, jobId, now, minPushback, entries[0], worlds[0]);
      var rest := Pass(one.0, jobId, now, minPushback, entries[1..], worlds[1..]);
      (rest.0, [one.1] + rest.1)
  }

  // ---------- the dispatcher ----------

  class Dispatcher {
    const rdb: Server
    const scheduler: Scheduler
    const pacer: DomainPacer
    const counters: RunningCounters
    const stuckThreshold: int
    const batchSize: int
    /** Per job: since when stuck, and when last triggered. */
    var heals: map<string, Heal>
    /** Every reconcile asked for, with its time. */
    var reconciles: seq<(string, int)>

    ghost predicate Wired() {
      scheduler.rdb == rdb && pacer.rdb == rdb && counters.rdb == rdb
    }

    function HealOf(jobId: string): Heal
      reads this
    {
      if jobId in heals then heals[jobId] else CALM
    }

    constructor (rdb: Server, scheduler: Scheduler, pacer: DomainPacer, counters: RunningCounters, stuckThreshold: int, batchSize: int)
      requires scheduler.rdb == rdb && pacer.rdb == rdb && counters.rdb == rdb
      ensures Wired() && heals == map[] && reconciles == []
      ensures this.stuckThreshold == stuckThreshold && this.batchSize == batchSize && this.pacer == pacer && this.rdb == rdb
    {
      this.rdb, this.scheduler, this.pacer, this.counters := rdb, scheduler, pacer, counters;
      this.stuckThreshold, this.batchSize := stuckThreshold, batchSize;
      heals, reconciles := map[], [];
    }

    method ClearStuck(jobId: string)
      modifies this`heals
      ensures HealOf(jobId) == Next(old(HealOf(jobId)), Cleared, stuckThreshold)
      ensures forall other :: other != jobId ==> HealOf(other) == old(HealOf(other))
    {
      if jobId in heals {
        heals := heals[jobId := heals[jobId].(stuckSince := None)];
      }
    }

    /** Records a stuck tick and asks for a reconcile when it is time. A non-positive threshold switches this off. */
    method MaybeTriggerReconcile(jobId: string, now: int)
      modifies this`heals, this`reconciles
      ensures stuckThreshold <= 0 ==> heals == old(heals) && reconciles == old(reconciles)
      ensures stuckThreshold > 0 ==> HealOf(jobId) == Next(old(HealOf(jobId)), Stuck(now), stuckThreshold)
      ensures stuckThreshold > 0 ==>
        reconciles == if Fires(old(HealOf(jobId)), now, stuckThreshold) then old(reconciles) + [(jobId, now)] else old(reconciles)
      ensures forall other :: other != jobId ==> HealOf(other) == old(HealOf(other))
    {
      if stuckThreshold <= 0 {
        return;
      }
      var h := HealOf(jobId);
      if h.stuckSince.None? {
        heals := heals[jobId := h.(stuckSince := Some(now))];
        return;
      }
      if now - h.stuckSince.value < stuckThreshold {
        return;
      }
      if h.lastTrigger.Some? && now - h.lastTrigger.value < 2 * stuckThreshold {
        return;
      }
      heals := heals[jobId := h.(lastTrigger := Some(now))];
      reconciles := reconciles + [(jobId, now)];
    }

    method PublishAndRemove(e: ScheduleEntry, exec: Exec) returns (ok: bool)
      modifies rdb
      ensures rdb.db == if RouteOf(e).None? || exec.NotApplied? then old(rdb.db) else Publish(old(rdb.db), e, RouteOf(e).value)
      ensures ok <==> RouteOf(e).Some? && exec.Applied?
    {
      var taskType := if e.taskType == "" then "crawl" else e.taskType;
      var streamKey;
      if taskType == "crawl" {
        streamKey := StreamKey(e.jobId);
      } else if taskType == "lighthouse" {
        if e.lighthouseRunId <= 0 {
          return false;
        }
        streamKey := LighthouseStreamKey(e.jobId);
      } else {
        return false;
      }
      if exec.NotApplied? {
        return false;
      }
      rdb.db := rdb.db.XAdd(streamKey, StreamValues(e));
      rdb.db := rdb.db.ZRem(ScheduleKey(e.jobId), e.Member());
      ok := exec.Applied?;
    }

    /** One entry for which there is capacity. */
    method HandleEntry(jobId: string, now: int, e: ScheduleEntry, w: World) returns (ghost fate: Fate, dispatched: bool)
      requires Wired()
      modifies rdb
      ensures (rdb.db, fate) == Handle(old(rdb.db), jobId, now, pacer.minPushback, e, w)
      ensures FateFits(GateOf(old(rdb.db), e.host), DelayFor(old(rdb.db), e.host), now, pacer.minPushback, e, w, fate)
      ensures dispatched <==> fate.Published?
    {
      HandleFate(rdb.db, jobId, now, pacer.minPushback, e, w);
      dispatched, fate := false, Kept;
      if w.pacerFails {
        return;
      }
      var acquired, retryAfter := pacer.TryAcquire(e.host, w.redisNow);
      if !acquired {
        if !w.rescheduleFails {
          scheduler.RescheduleZSet(e, now + retryAfter);
          fate := Paced(now + retryAfter);
        }
        return;
      }
      var ok := PublishAndRemove(e, w.exec);
      if !ok {
        if RouteOf(e).Some? && w.exec.AppliedUnseen? {
          fate := PublishedUnseen(RouteOf(e).value);
        }
        return;
      }
      if !w.countFails {
        var _ := counters.Increment(jobId);
      }
      if !w.inflightFails {
        pacer.IncrementInflight(e.host, jobId);
      }
      dispatched, fate := true, Published(RouteOf(e).value, !w.countFails);
    }

    /** reply is Redis's answer to the due query; a failing query ends the pass at once. */
    method DispatchJob(jobId: string, now: int, queryFails: bool, reply: seq<string>, worlds: seq<World>)
      returns (dispatched: nat, ghost entries: seq<ScheduleEntry>, ghost fates: seq<Fate>)
      requires Wired() && |worlds| == |reply|
      requires IsRange(rdb.db.ZSetAt(ScheduleKey(jobId)), now, batchSize, reply)
      modifies rdb, this
      ensures queryFails ==> rdb.db == old(rdb.db) && entries == [] && fates == [] && heals == old(heals)
      ensures !queryFails ==> entries == Parsed(old(rdb.db.ZSetAt(ScheduleKey(jobId))), reply) && |entries| <= |reply|
      ensures !queryFails ==> exists cleaned: Store ::
        OnlyZSetChanged(old(rdb.db), ScheduleKey(jobId), cleaned) &&
        cleaned.ZSetAt(ScheduleKey(jobId)) == WithoutMalformed(old(rdb.db.ZSetAt(ScheduleKey(jobId))), reply) &&
        (rdb.db, fates) == Pass(cleaned, jobId, now, pacer.minPushback, entries, worlds[..|entries|])
      ensures !queryFails && AllWellPlaced(old(rdb.db.ZSetAt(ScheduleKey(jobId))), jobId, reply) ==>
        ExactPass(old(rdb.db), jobId, now, reply, entries, rdb.db, fates)
      ensures !queryFails ==> FatesFit(old(rdb.db), now, pacer.minPushback, entries, worlds[..|entries|], fates)
      ensures !queryFails ==> HashesRise(old(rdb.db), jobId, entries, worlds[..|entries|], rdb.db, fates)
      ensures !queryFails ==> HealOf(jobId) == if entries == [] then Next(old(HealOf(jobId)), Cleared, stuckThreshold)
        else HealPass(old(HealOf(jobId)), worlds[..|entries|], now, stuckThreshold)
      ensures dispatched == CountPublished(fates)
    {
      dispatched, entries, fates := 0, [], [];
      if queryFails {
        return;
      }
      var due := scheduler.DueItems(jobId, now, batchSize, reply);
      entries := due;
      ParsedLength(old(rdb.db.ZSetAt(ScheduleKey(jobId))), reply);
      ghost var cleaned := rdb.db;
      PassFromInputs(old(rdb.db), cleaned, jobId, now, pacer.minPushback, entries, worlds[..|entries|]);
      if due == [] {
        ClearStuck(jobId);
        if AllWellPlaced(old(rdb.db.ZSetAt(ScheduleKey(jobId))), jobId, reply) {
          CleanPassIsExact(old(rdb.db), cleaned, jobId, now, batchSize, pacer.minPushback, reply, worlds);
        }
        return;
      }
      dispatched, fates := RunPass(jobId, now, due, worlds[..|due|]);
      assert OnlyZSetChanged(old(rdb.db), ScheduleKey(jobId), cleaned);
      if AllWellPlaced(old(rdb.db.ZSetAt(ScheduleKey(jobId))), jobId, reply) {
        CleanPassIsExact(old(rdb.db), cleaned, jobId, now, batchSize, pacer.minPushback, reply, worlds);
      }
    }

    /** Entry i of a pass, there being capacity for it. */
    method DispatchEntry(jobId: string, now: int, due: seq<ScheduleEntry>, worlds: seq<World>, i: nat,
                         ghost all: (Store, seq<Fate>), ghost fates: seq<Fate>)
      returns (ghost fate: Fate, dispatched: bool)
      requires Wired() && i < |due| == |worlds| && worlds[i].capacity.Yes?
      requires Remains(all, fates, rdb.db, jobId, now, pacer.minPushback, due, worlds, i)
      modifies rdb, this`heals
      ensures Remains(all, fates + [fate], rdb.db, jobId, now, pacer.minPushback, due, worlds, i + 1)
      ensures HealOf(jobId) == Next(old(HealOf(jobId)), Cleared, stuckThreshold)
      ensures dispatched <==> fate.Published?
    {
      ghost var before := rdb.db;
      ClearStuck(jobId);
      fate, dispatched := HandleEntry(jobId, now, due[i], worlds[i]);
      RemainsNext(all, fates, before, jobId, now, pacer.minPushback, due, worlds, i, rdb.db, fate);
    }

    /** A pass stops at entry i, for which there is no capacity. */
    method StopPass(jobId: string, now: int, worlds: seq<World>, i: nat)
      requires i < |worlds| && !worlds[i].capacity.Yes?
      modifies this`heals, this`reconciles
      ensures HealOf(jobId) == HealPass(old(HealOf(jobId)), worlds[i..], now, stuckThreshold)
    {
      HealUnfolds(HealOf(jobId), worlds, i, now, stuckThreshold);
      if worlds[i].capacity.No? {
        MaybeTriggerReconcile(jobId, now);
      }
    }

    method RunPass(jobId: string, now: int, due: seq<ScheduleEntry>, worlds: seq<World>) returns (dispatched: nat, ghost fates: seq<Fate>)
      requires Wired() && |worlds| == |due|
      modifies rdb, this
      ensures (rdb.db, fates) == Pass(old(rdb.db), jobId, now, pacer.minPushback, due, worlds)
      ensures dispatched == CountPublished(fates)
      ensures HealOf(jobId) == HealPass(old(HealOf(jobId)), worlds, now, stuckThreshold)
    {
      dispatched, fates := 0, [];
      ghost var all := Pass(rdb.db, jobId, now, pacer.minPushback, due, worlds);
      ghost var healed := HealPass(HealOf(jobId), worlds, now, stuckThreshold);
      assert worlds[0..] == worlds;
      RemainsStarts(rdb.db, jobId, now, pacer.minPushback, due, worlds);
      for i := 0 to |due|
        invariant dispatched == CountPublished(fates)
        invariant Remains(all, fates, rdb.db, jobId, now, pacer.minPushback, due, worlds, i)
        invariant Heals(healed, HealOf(jobId), worlds, i, now, stuckThreshold)
      {
        if !worlds[i].capacity.Yes? {
          RemainsStops(all, fates, rdb.db, jobId, now, pacer.minPushback, due, worlds, i);
          StopPass(jobId, now, worlds, i);
          UnreachedUncounted(fates, |due| - i);
          fates := fates + AllUnreached(|due| - i);
          return;
        }
        HealsNext(healed, HealOf(jobId), worlds, i, now, stuckThreshold);
        ghost var fate;
        var done;
        fate, done := DispatchEntry(jobId, now, due, worlds, i, all, fates);
        CountSnoc(fates, fate);
        fates := fates + [fate];
        if done {
          dispatched := dispatched + 1;
        }
      }
      RemainsStops(all, fates, rdb.db, jobId, now, pacer.minPushback, due, worlds, |due|);
    }
  }

  /** The self-heal memory is on its way to what the whole pass makes of it. */
  ghost predicate Heals(healed: Heal, h: Heal, worlds: seq<World>, i: nat, now: int, threshold: int)
    requires i <= |worlds|
  {
    HealPass(h, worlds[i..], now, threshold) == healed
  }

  lemma HealsNext(healed: Heal, h: Heal, worlds: seq<World>, i: nat, now: int, threshold: int)
    requires i < |worlds| && worlds[i].capacity.Yes? && Heals(healed, h, worlds, i, now, threshold)
    ensures Heals(healed, Next(h, Cleared, threshold), worlds, i + 1, now, threshold)
  {
    HealUnfolds(h, worlds, i, now, threshold);
  }

  /** What a pass does to the job's self-heal memory: every entry with capacity clears it, a refusal marks it. */
  function HealPass(h: Heal, worlds: seq<World>, now: int, threshold: int): Heal
    decreases worlds
  {
    if worlds == [] then h
    else match worlds[0].capacity
      case Yes => HealPass(Next(h, Cleared, threshold), worlds[1..], now, threshold)
      case No => if threshold > 0 then Next(h, Stuck(now), threshold) else h
      case Unknown => h
  }

  lemma HealUnfolds(h: Heal, worlds: seq<World>, i: nat, now: int, threshold: int)
    requires i < |worlds|
    ensures HealPass(h, worlds[i..], now, threshold) ==
      match worlds[i].capacity
      case Yes => HealPass(Next(h, Cleared, threshold), worlds[i + 1..], now, threshold)
      case No => if threshold > 0 then Next(h, Stuck(now), threshold) else h
      case Unknown => h
  {
    assert worlds[i..][1..] == worlds[i + 1..];
  }

  function AllUnreached(n: nat): seq<Fate> {
    seq(n, i => Unreached)
  }

  /** What a whole pass amounts to, split into the fates so far and the pass over the entries from i on. */
  ghost predicate Remains(all: (Store, seq<Fate>), done: seq<Fate>, db: Store, jobId: string, now: int, minPushback: int,
                          entries: seq<ScheduleEntry>, worlds: seq<World>, i: nat)
    requires i <= |entries| == |worlds|
  {
    var rest := Pass(db, jobId, now, minPushback, entries[i..], worlds[i..]);
    all.0 == rest.0 && all.1 == done + rest.1
  }

  lemma RemainsStarts(db: Store, jobId: string, now: int, minPushback: int, entries: seq<ScheduleEntry>, worlds: seq<World>)
    requires |entries| == |worlds|
    ensures Remains(Pass(db, jobId, now, minPushback, entries, worlds), [], db, jobId, now, minPushback, entries, worlds, 0)
  {
    assert entries[0..] == entries && worlds[0..] == worlds;
  }

  lemma RemainsStops(all: (Store, seq<Fate>), done: seq<Fate>, db: Store, jobId: string, now: int, minPushback: int,
                     entries: seq<ScheduleEntry>, worlds: seq<World>, i: nat)
    requires i <= |entries| == |worlds| && (i < |entries| ==> !worlds[i].capacity.Yes?)
    requires Remains(all, done, db, jobId, now, minPushback, entries, worlds, i)
    ensures all == (db, if i < |entries| then done + AllUnreached(|entries| - i) else done)
  {
    if i < |entries| {
      PassUnfolds(db, jobId, now, minPushback, entries, worlds, i);
    } else {
      assert entries[i..] == [] && worlds[i..] == [];
      assert all.1 == done + [] == done;
    }
  }

  lemma RemainsNext(all: (Store, seq<Fate>), done: seq<Fate>, db: Store, jobId: string, now: int, minPushback: int,
                    entries: seq<ScheduleEntry>, worlds: seq<World>, i: nat, after: Store, fate: Fate)
    requires i < |entries| == |worlds| && worlds[i].capacity.Yes?
    requires Remains(all, done, db, jobId, now, minPushback, entries, worlds, i)
    requires (after, fate) == Handle(db, jobId, now, minPushback, entries[i], worlds[i])
    ensures Remains(all, done + [fate], after, jobId, now, minPushback, entries, worlds, i + 1)
  {
    PassUnfolds(db, jobId, now, minPushback, entries, worlds, i);
    var next := Pass(after, jobId, now, minPushback, entries[i + 1..], worlds[i + 1..]);
    assert done + ([fate] + next.1) == done + [fate] + next.1;
  }

  lemma PassUnfolds(db: Store, jobId: string, now: int, minPushback: int, entries: seq<ScheduleEntry>, worlds: seq<World>, i: nat)
    requires i < |entries| == |worlds|
    ensures var rest := Pass(db, jobId, now, minPushback, entries[i..], worlds[i..]);
      if worlds[i].capacity.Yes? then
        var one := Handle(db, jobId, now, minPushback, entries[i], worlds[i]);
        var next := Pass(one.0, jobId, now, minPushback, entries[i + 1..], worlds[i + 1..]);
        rest == (next.0, [one.1] + next.1)
      else rest == (db, AllUnreached(|entries| - i))
  {
    assert entries[i..][1..] == entries[i + 1..] && worlds[i..][1..] == worlds[i + 1..];
  }

  ghost function CountPublished(fates: seq<Fate>): nat {
    if fates == [] then 0 else CountPublished(fates[..|fates| - 1]) + (if fates[|fates| - 1].Published? then 1 else 0)
  }

  lemma CountSnoc(fates: seq<Fate>, fate: Fate)
    ensures CountPublished(fates + [fate]) == CountPublished(fates) + (if fate.Published? then 1 else 0)
  {
    assert (fates + [fate])[..|fates|] == fates;
  }

  lemma {:induction false} UnreachedUncounted(fates: seq<Fate>, n: nat)
    ensures CountPublished(fates + AllUnreached(n)) == CountPublished(fates)
  {
    if n == 0 {
      assert fates + AllUnreached(0) == fates;
    } else {
      UnreachedUncounted(fates, n - 1);
      assert (fates + AllUnreached(n))[..|fates| + n - 1] == fates + AllUnreached(n - 1);
    }
  }

  lemma {:induction false} ParsedLength(z: ZSet, reply: seq<string>)
    requires forall i :: 0 <= i < |reply| ==> reply[i] in z
    ensures |Parsed(z, reply)| <= |reply|
  {
    if reply != [] {
      ParsedLength(z, reply[..|reply| - 1]);
    }
  }

  // ---------- a pass is exact ----------

  predicate Sent(fate: Fate) {
    fate.Published? || fate.PublishedUnseen?
  }

  /** The messages a pass appends to one stream, in the order of the entries. */
  ghost function SentMessages(entries: seq<ScheduleEntry>, fates: seq<Fate>, key: string): seq<Fields>
    requires |entries| == |fates|
  {
    if entries == [] then []
    else SentTo(entries[0], fates[0], key) + SentMessages(entries[1..], fates[1..], key)
  }

  ghost function CountCounted(fates: seq<Fate>): nat {
    if fates == [] then 0 else Counted(fates[0]) + CountCounted(fates[1..])
  }

  ghost function AfterFate(z: ZSet, m: string, fate: Fate): ZSet {
    if Sent(fate) then z - {m}
    else if fate.Paced? && m in z then z[m := fate.score]
    else z
  }

  ghost function AfterFates(z: ZSet, members: seq<string>, fates: seq<Fate>): ZSet
    requires |members| == |fates|
  {
    if members == [] then z else AfterFates(AfterFate(z, members[0], fates[0]), members[1..], fates[1..])
  }

  /** The members a list of entries prints to. */
  ghost function Printed(entries: seq<ScheduleEntry>): (r: seq<string>)
    ensures |r| == |entries|
  {
    if entries == [] then [] else [entries[0].Member()] + Printed(entries[1..])
  }

  lemma {:induction false} PrintedSnoc(entries: seq<ScheduleEntry>, e: ScheduleEntry)
    ensures Printed(entries + [e]) == Printed(entries) + [e.Member()]
  {
    if entries == [] {
      assert entries + [e] == [e];
    } else {
      PrintedSnoc(entries[1..], e);
      assert (entries + [e])[1..] == entries[1..] + [e];
    }
  }

  lemma InflightIsNotRunning(domain: string)
    ensures DomainInflightKey(domain) != RUNNING_COUNTERS
  {
    assert DomainInflightKey(domain)[6] == 'd' && RUNNING_COUNTERS[6] == 'r';
  }

  /** How a handled entry shows in the sorted sets, the streams and the job's counter. */
  ghost predicate Effect(db: Store, jobId: string, e: ScheduleEntry, after: Store, fate: Fate) {
    after.ZSetAt(ScheduleKey(jobId)) == AfterFate(db.ZSetAt(ScheduleKey(jobId)), e.Member(), fate) &&
    (forall key :: key != ScheduleKey(jobId) ==> after.ZSetAt(key) == db.ZSetAt(key)) &&
    (forall key :: after.StreamAt(key) == Appended(db.StreamAt(key), SentTo(e, fate, key))) &&
    after.HGet(RUNNING_COUNTERS, jobId) == db.HGet(RUNNING_COUNTERS, jobId) + Counted(fate)
  }

  function Appended(s: Stream, values: seq<Fields>): Stream {
    s.(entries := s.entries + values)
  }

  function SentTo(e: ScheduleEntry, fate: Fate, key: string): seq<Fields> {
    if Sent(fate) && fate.route == key then [StreamValues(e)] else []
  }

  function Counted(fate: Fate): nat {
    if fate.Published? && fate.counted then 1 else 0
  }

  lemma HandleEffect(db: Store, jobId: string, now: int, minPushback: int, e: ScheduleEntry, w: World)
    requires e.jobId == jobId
    ensures var r := Handle(db, jobId, now, minPushback, e, w);
      Effect(db, jobId, e, r.0, r.1) && (r.1.Paced? ==> r.1.score > now) && (Sent(r.1) ==> RouteOf(e) == Some(r.1.route))
  {
    var gated := AcquireGate(db, e.host, w.redisNow);
    if w.pacerFails {
      KeptEffect(db, jobId, e, gated);
    } else if !MayPass(db, e.host, w.redisNow) {
      RefusedEffect(db, jobId, now, minPushback, e, w, gated);
    } else {
      PassedEffect(db, jobId, now, minPushback, e, w, gated);
    }
  }

  lemma RefusedEffect(db: Store, jobId: string, now: int, minPushback: int, e: ScheduleEntry, w: World, gated: Store)
    requires e.jobId == jobId && !w.pacerFails && !MayPass(db, e.host, w.redisNow) && gated == AcquireGate(db, e.host, w.redisNow)
    ensures var r := Handle(db, jobId, now, minPushback, e, w);
      Effect(db, jobId, e, r.0, r.1) && (r.1.Kept? || (r.1.Paced? && r.1.score > now))
  {
    if w.rescheduleFails {
      KeptEffect(db, jobId, e, gated);
    } else {
      PacedEffect(db, jobId, e, gated, now + PushBack(db, e.host, w.redisNow, minPushback));
    }
  }

  lemma PassedEffect(db: Store, jobId: string, now: int, minPushback: int, e: ScheduleEntry, w: World, gated: Store)
    requires e.jobId == jobId && !w.pacerFails && MayPass(db, e.host, w.redisNow) && gated == AcquireGate(db, e.host, w.redisNow)
    ensures var r := Handle(db, jobId, now, minPushback, e, w);
      Effect(db, jobId, e, r.0, r.1) && (r.1.Kept? || (Sent(r.1) && RouteOf(e) == Some(r.1.route)))
  {
    if RouteOf(e).None? || w.exec.NotApplied? {
      KeptEffect(db, jobId, e, gated);
    } else {
      var route := RouteOf(e).value;
      SentEffect(db, jobId, e, gated, route);
      CountEffect(db, jobId, e, Publish(gated, e, route), route, w.countFails, w.inflightFails);
    }
  }

  lemma KeptEffect(db: Store, jobId: string, e: ScheduleEntry, gated: Store)
    requires gated == db.(gates := gated.gates)
    ensures Effect(db, jobId, e, gated, Kept) && Effect(db, jobId, e, db, Kept)
  {
    forall key
      ensures db.StreamAt(key) == Appended(db.StreamAt(key), [])
    {
      assert db.StreamAt(key).entries + [] == db.StreamAt(key).entries;
    }
  }

  lemma PacedEffect(db: Store, jobId: string, e: ScheduleEntry, gated: Store, score: int)
    requires e.jobId == jobId && gated == db.(gates := gated.gates)
    ensures Effect(db, jobId, e, gated.ZAddXX(ScheduleKey(jobId), e.Member(), score), Paced(score))
  {
    KeptEffect(db, jobId, e, gated);
    ZAddEffect(gated, ScheduleKey(jobId), e.Member(), score);
  }

  lemma SentEffect(db: Store, jobId: string, e: ScheduleEntry, gated: Store, route: string)
    requires e.jobId == jobId && gated == db.(gates := gated.gates)
    ensures Effect(db, jobId, e, Publish(gated, e, route), PublishedUnseen(route))
  {
    KeptEffect(db, jobId, e, gated);
    PublishChanges(gated, e, route);
  }

  lemma PublishChanges(db: Store, e: ScheduleEntry, route: string)
    ensures var r := Publish(db, e, route);
      r.ZSetAt(ScheduleKey(e.jobId)) == db.ZSetAt(ScheduleKey(e.jobId)) - {e.Member()} && r.hashes == db.hashes &&
      (forall key :: key != ScheduleKey(e.jobId) ==> r.ZSetAt(key) == db.ZSetAt(key)) &&
      (forall key :: r.StreamAt(key) == if key == route then Appended(db.StreamAt(key), [StreamValues(e)]) else db.StreamAt(key))
  {
    XAddEffect(db, route, StreamValues(e));
    ZRemEffect(db.XAdd(route, StreamValues(e)), ScheduleKey(e.jobId), e.Member());
  }

  lemma CountEffect(db: Store, jobId: string, e: ScheduleEntry, published: Store, route: string, countFails: bool, inflightFails: bool)
    requires Effect(db, jobId, e, published, PublishedUnseen(route))
    ensures var counted := if countFails then published else published.HIncrBy(RUNNING_COUNTERS, jobId, 1);
      Effect(db, jobId, e, if inflightFails then counted else counted.HIncrBy(DomainInflightKey(e.host), jobId, 1), Published(route, !countFails))
  {
    var counted := if countFails then published else published.HIncrBy(RUNNING_COUNTERS, jobId, 1);
    HIncrByEffect(published, RUNNING_COUNTERS, jobId, 1);
    HIncrByEffect(counted, DomainInflightKey(e.host), jobId, 1);
    InflightIsNotRunning(e.host);
    var last := if inflightFails then counted else counted.HIncrBy(DomainInflightKey(e.host), jobId, 1);
    CountedEffect(db, jobId, e, published, route, last, !countFails);
  }

  lemma CountedEffect(db: Store, jobId: string, e: ScheduleEntry, published: Store, route: string, last: Store, counted: bool)
    requires Effect(db, jobId, e, published, PublishedUnseen(route))
    requires last.zsets == published.zsets && last.streams == published.streams
    requires last.HGet(RUNNING_COUNTERS, jobId) == published.HGet(RUNNING_COUNTERS, jobId) + (if counted then 1 else 0)
    ensures Effect(db, jobId, e, last, Published(route, counted))
  {
  }

  /** The same for a whole pass. */
  ghost predicate PassEffects(db: Store, jobId: string, entries: seq<ScheduleEntry>, after: Store, fates: seq<Fate>) {
    |fates| == |entries| &&
    after.ZSetAt(ScheduleKey(jobId)) == AfterFates(db.ZSetAt(ScheduleKey(jobId)), Printed(entries), fates) &&
    (forall key :: key != ScheduleKey(jobId) ==> after.ZSetAt(key) == db.ZSetAt(key)) &&
    (forall key :: after.StreamAt(key) == Appended(db.StreamAt(key), SentMessages(entries, fates, key))) &&
    after.HGet(RUNNING_COUNTERS, jobId) == db.HGet(RUNNING_COUNTERS, jobId) + CountCounted(fates)
  }

  /** A pass removes exactly what it appends, in order, and nothing else moves. */
  lemma {:induction false} PassEffect(db: Store, jobId: string, now: int, minPushback: int, entries: seq<ScheduleEntry>, worlds: seq<World>)
    requires |worlds| == |entries| && forall i :: 0 <= i < |entries| ==> entries[i].jobId == jobId
    ensures var r := Pass(db, jobId, now, minPushback, entries, worlds);
      PassEffects(db, jobId, entries, r.0, r.1) && PacedPast(r.1, now)
    decreases |entries|
  {
    if entries == [] {
      NoEffect(db, jobId, entries);
    } else if worlds[0].capacity.Yes? {
      var one := Handle(db, jobId, now, minPushback, entries[0], worlds[0]);
      HandleEffect(db, jobId, now, minPushback, entries[0], worlds[0]);
      PassEffect(one.0, jobId, now, minPushback, entries[1..], worlds[1..]);
      var rest := Pass(one.0, jobId, now, minPushback, entries[1..], worlds[1..]);
      EffectCons(db, jobId, entries, one.0, one.1, rest.0, rest.1);
    } else {
      NoEffect(db, jobId, entries);
    }
  }

  ghost predicate PacedPast(fates: seq<Fate>, now: int) {
    forall i :: 0 <= i < |fates| && fates[i].Paced? ==> fates[i].score > now
  }

  lemma EffectCons(db: Store, jobId: string, entries: seq<ScheduleEntry>, mid: Store, fate: Fate, after: Store, fates: seq<Fate>)
    requires entries != [] && Effect(db, jobId, entries[0], mid, fate) && PassEffects(mid, jobId, entries[1..], after, fates)
    ensures PassEffects(db, jobId, entries, after, [fate] + fates)
  {
    var all := [fate] + fates;
    assert all[1..] == fates && all[0] == fate;
    assert Printed(entries)[1..] == Printed(entries[1..]);
    forall key
      ensures after.StreamAt(key) == Appended(db.StreamAt(key), SentMessages(entries, all, key))
    {
      AppendedTwice(db.StreamAt(key), SentTo(entries[0], fate, key), SentMessages(entries[1..], fates, key));
      SentCons(entries, fate, fates, key);
    }
  }

  lemma AppendedTwice(s: Stream, one: seq<Fields>, rest: seq<Fields>)
    ensures Appended(Appended(s, one), rest) == Appended(s, one + rest)
  {
    assert s.entries + one + rest == s.entries + (one + rest);
  }

  lemma SentCons(entries: seq<ScheduleEntry>, fate: Fate, fates: seq<Fate>, key: string)
    requires |entries| == |fates| + 1
    ensures SentMessages(entries, [fate] + fates, key) == SentTo(entries[0], fate, key) + SentMessages(entries[1..], fates, key)
  {
    assert ([fate] + fates)[1..] == fates;
  }

  lemma NoEffect(db: Store, jobId: string, entries: seq<ScheduleEntry>)
    ensures PassEffects(db, jobId, entries, db, AllUnreached(|entries|))
  {
    NothingUnreached(db.ZSetAt(ScheduleKey(jobId)), entries);
    forall key
      ensures db.StreamAt(key) == Appended(db.StreamAt(key), [])
    {
      assert db.StreamAt(key).entries + [] == db.StreamAt(key).entries;
    }
  }

  lemma {:induction false} NothingUnreached(z: ZSet, entries: seq<ScheduleEntry>)
    ensures AfterFates(z, Printed(entries), AllUnreached(|entries|)) == z
    ensures forall key :: SentMessages(entries, AllUnreached(|entries|), key) == []
    ensures CountCounted(AllUnreached(|entries|)) == 0
  {
    if entries != [] {
      assert AllUnreached(|entries|)[1..] == AllUnreached(|entries| - 1);
      NothingUnreached(z, entries[1..]);
    }
  }

  /** What became of one due member. */
  ghost predicate Settled(z: ZSet, z': ZSet, m: string, fate: Fate)
    requires m in z
  {
    if Sent(fate) then m !in z'
    else m in z' && z'[m] == (if fate.Paced? then fate.score else z[m])
  }

  ghost predicate Untouched(z: ZSet, z': ZSet, m: string) {
    (m in z' <==> m in z) && (m in z ==> z'[m] == z[m])
  }

  /** Member by member: sent ones are gone, paced ones moved, all others as they were. */
  lemma {:induction false} FatesPointwise(z: ZSet, members: seq<string>, fates: seq<Fate>)
    requires |members| == |fates| && forall i :: 0 <= i < |members| ==> members[i] in z
    requires forall i, j :: 0 <= i < j < |members| ==> members[i] != members[j]
    ensures var z' := AfterFates(z, members, fates);
      (forall i :: 0 <= i < |members| ==> Settled(z, z', members[i], fates[i])) &&
      (forall m :: m !in members ==> Untouched(z, z', m))
  {
    if members != [] {
      var first, rest := members[0], members[1..];
      var z1, z' := AfterFate(z, first, fates[0]), AfterFates(z, members, fates);
      FatesPointwise(z1, rest, fates[1..]);
      assert first !in rest;
      assert Untouched(z1, z', first);
      forall i | 0 <= i < |members|
        ensures Settled(z, z', members[i], fates[i])
      {
        if i > 0 {
          assert Settled(z1, z', rest[i - 1], fates[1..][i - 1]);
        }
      }
      forall m | m !in members
        ensures Untouched(z, z', m)
      {
        assert m !in rest && Untouched(z1, z', m);
      }
    }
  }

  /** A due member that is canonical and carries its job's id. */
  ghost predicate WellPlaced(z: ZSet, jobId: string, m: string) {
    m in z && CanonicalMember(m) && ParseScheduleEntry(m, z[m]).Some? && ParseScheduleEntry(m, z[m]).value.jobId == jobId
  }

  ghost predicate AllWellPlaced(z: ZSet, jobId: string, reply: seq<string>) {
    forall i {:trigger WellPlaced(z, jobId, reply[i])} :: 0 <= i < |reply| ==> WellPlaced(z, jobId, reply[i])
  }

  ghost predicate OfJob(entries: seq<ScheduleEntry>, jobId: string) {
    forall i :: 0 <= i < |entries| ==> entries[i].jobId == jobId
  }

  lemma {:induction false} CanonicalReply(z: ZSet, jobId: string, reply: seq<string>, n: nat)
    requires n <= |reply| && AllWellPlaced(z, jobId, reply) && forall i :: 0 <= i < |reply| ==> reply[i] in z
    ensures Printed(Parsed(z, reply[..n])) == reply[..n] && OfJob(Parsed(z, reply[..n]), jobId)
  {
    hide IntStr, Fixed4, ParseScheduleEntry;
    if n == 0 {
      assert Parsed(z, reply[..0]) == [];
    } else {
      CanonicalReply(z, jobId, reply, n - 1);
      var e := OneCanonical(z, jobId, reply, n - 1);
      PrintedNext(Parsed(z, reply[..n - 1]), e, reply, n, jobId);
    }
  }

  lemma {:induction false} NothingMalformed(z: ZSet, jobId: string, reply: seq<string>, n: nat)
    requires n <= |reply| && AllWellPlaced(z, jobId, reply) && forall i :: 0 <= i < |reply| ==> reply[i] in z
    ensures WithoutMalformed(z, reply[..n]) == z
  {
    if n > 0 {
      NothingMalformed(z, jobId, reply, n - 1);
      var _ := OneCanonical(z, jobId, reply, n - 1);
    }
  }

  lemma OneCanonical(z: ZSet, jobId: string, reply: seq<string>, i: nat) returns (e: ScheduleEntry)
    requires i < |reply| && AllWellPlaced(z, jobId, reply) && forall k :: 0 <= k < |reply| ==> reply[k] in z
    ensures e.Member() == reply[i] && e.jobId == jobId
    ensures Parsed(z, reply[..i + 1]) == Parsed(z, reply[..i]) + [e]
    ensures WithoutMalformed(z, reply[..i + 1]) == WithoutMalformed(z, reply[..i])
  {
    assert WellPlaced(z, jobId, reply[i]);
    PrintAfterParse(reply[i], z[reply[i]]);
    ParsedStep(z, reply, i);
    e := ParseScheduleEntry(reply[i], z[reply[i]]).value;
  }

  lemma PrintedNext(entries: seq<ScheduleEntry>, e: ScheduleEntry, reply: seq<string>, n: nat, jobId: string)
    requires 0 < n <= |reply| && Printed(entries) == reply[..n - 1] && OfJob(entries, jobId)
    requires e.Member() == reply[n - 1] && e.jobId == jobId
    ensures Printed(entries + [e]) == reply[..n] && OfJob(entries + [e], jobId)
  {
    PrintedSnoc(entries, e);
    assert reply[..n] == reply[..n - 1] + [reply[n - 1]];
  }

  /** What a pass over canonical members does to the job's sorted set, its streams and its counter. */
  ghost predicate ExactPass(db: Store, jobId: string, now: int, reply: seq<string>, entries: seq<ScheduleEntry>, after: Store, fates: seq<Fate>) {
    var z, z' := db.ZSetAt(ScheduleKey(jobId)), after.ZSetAt(ScheduleKey(jobId));
    |fates| == |reply| == |entries| &&
    (forall i :: 0 <= i < |reply| ==> reply[i] in z && Settled(z, z', reply[i], fates[i])) &&
    (forall m :: m !in reply ==> Untouched(z, z', m)) &&
    (forall key :: key != ScheduleKey(jobId) ==> after.ZSetAt(key) == db.ZSetAt(key)) &&
    (forall key :: after.StreamAt(key) == Appended(db.StreamAt(key), SentMessages(entries, fates, key))) &&
    after.HGet(RUNNING_COUNTERS, jobId) == db.HGet(RUNNING_COUNTERS, jobId) + CountCounted(fates) &&
    PacedPast(fates, now)
  }

  /**
   * One pass over canonical members: what is sent leaves the sorted set and reaches its stream in due order,
   * what is paced moves strictly past now, all else stays, and the counter rises by the sends counted.
   */
  lemma PassIsExact(db: Store, jobId: string, now: int, limit: int, minPushback: int, reply: seq<string>, worlds: seq<World>)
    requires IsRange(db.ZSetAt(ScheduleKey(jobId)), now, limit, reply) && |worlds| == |reply|
    requires AllWellPlaced(db.ZSetAt(ScheduleKey(jobId)), jobId, reply)
    ensures var entries := Parsed(db.ZSetAt(ScheduleKey(jobId)), reply);
      |entries| == |reply| && WithoutMalformed(db.ZSetAt(ScheduleKey(jobId)), reply) == db.ZSetAt(ScheduleKey(jobId)) &&
      var r := Pass(db, jobId, now, minPushback, entries, worlds);
      ExactPass(db, jobId, now, reply, entries, r.0, r.1) &&
      FatesFit(db, now, minPushback, entries, worlds, r.1) && HashesRise(db, jobId, entries, worlds, r.0, r.1)
  {
    var z := db.ZSetAt(ScheduleKey(jobId));
    assert reply[..|reply|] == reply;
    forall i | 0 <= i < |reply|
      ensures reply[i] in z
    {
      assert Due(z, now, reply[i]);
    }
    CanonicalReply(z, jobId, reply, |reply|);
    NothingMalformed(z, jobId, reply, |reply|);
    forall i, j | 0 <= i < j < |reply|
      ensures reply[i] != reply[j]
    {
      RangeDistinct(z, now, limit, reply, i, j);
    }
    ReadPassIsExact(db, jobId, now, minPushback, reply, Parsed(z, reply), worlds);
    PassFromInputs(db, db, jobId, now, minPushback, Parsed(z, reply), worlds);
  }

  /** The same for the state in which DueItems found nothing to clean up. */
  lemma CleanPassIsExact(before: Store, cleaned: Store, jobId: string, now: int, limit: int, minPushback: int, reply: seq<string>, worlds: seq<World>)
    requires IsRange(before.ZSetAt(ScheduleKey(jobId)), now, limit, reply) && |worlds| == |reply|
    requires AllWellPlaced(before.ZSetAt(ScheduleKey(jobId)), jobId, reply)
    requires OnlyZSetChanged(before, ScheduleKey(jobId), cleaned)
    requires cleaned.ZSetAt(ScheduleKey(jobId)) == WithoutMalformed(before.ZSetAt(ScheduleKey(jobId)), reply)
    ensures var entries := Parsed(before.ZSetAt(ScheduleKey(jobId)), reply);
      |entries| == |reply| &&
      var r := Pass(cleaned, jobId, now, minPushback, entries, worlds[..|entries|]);
      ExactPass(before, jobId, now, reply, entries, r.0, r.1)
  {
    PassIsExact(before, jobId, now, limit, minPushback, reply, worlds);
    assert worlds[..|reply|] == worlds;
    PassIsExact(cleaned, jobId, now, limit, minPushback, reply, worlds);
    var entries := Parsed(before.ZSetAt(ScheduleKey(jobId)), reply);
    var r := Pass(cleaned, jobId, now, minPushback, entries, worlds);
    ExactFromEqual(before, cleaned, jobId, now, reply, entries, r.0, r.1);
  }

  lemma ExactFromEqual(before: Store, cleaned: Store, jobId: string, now: int, reply: seq<string>, entries: seq<ScheduleEntry>, after: Store, fates: seq<Fate>)
    requires OnlyZSetChanged(before, ScheduleKey(jobId), cleaned) && cleaned.ZSetAt(ScheduleKey(jobId)) == before.ZSetAt(ScheduleKey(jobId))
    requires ExactPass(cleaned, jobId, now, reply, entries, after, fates)
    ensures ExactPass(before, jobId, now, reply, entries, after, fates)
  {
    forall key
      ensures cleaned.ZSetAt(key) == before.ZSetAt(key) && cleaned.StreamAt(key) == before.StreamAt(key)
    {
    }
  }

  lemma ReadPassIsExact(db: Store, jobId: string, now: int, minPushback: int, reply: seq<string>, entries: seq<ScheduleEntry>, worlds: seq<World>)
    requires Printed(entries) == reply && OfJob(entries, jobId) && |worlds| == |reply|
    requires forall i :: 0 <= i < |reply| ==> reply[i] in db.ZSetAt(ScheduleKey(jobId))
    requires forall i, j :: 0 <= i < j < |reply| ==> reply[i] != reply[j]
    ensures var r := Pass(db, jobId, now, minPushback, entries, worlds); ExactPass(db, jobId, now, reply, entries, r.0, r.1)
  {
    PassEffect(db, jobId, now, minPushback, entries, worlds);
    FatesPointwise(db.ZSetAt(ScheduleKey(jobId)), reply, Pass(db, jobId, now, minPushback, entries, worlds).1);
  }

  // ---------- fates from the inputs ----------

  /** The gate keeps an attempt out at that time. */
  ghost predicate Refuses(gate: Gate, delay: int, now: int) {
    delay > 0 && gate.Some? && now <= gate.value
  }

  /** The gate's remaining time, or the whole delay where none remains, but never less than the floor. */
  ghost function WaitAt(gate: Gate, delay: int, now: int, minPushback: int): int
    requires gate.Some?
  {
    var wait := if now < gate.value then gate.value - now else delay;
    if wait >= minPushback then wait else minPushback
  }

  ghost predicate Routes(e: ScheduleEntry, route: string) {
    ((e.taskType == "" || e.taskType == "crawl") && route == StreamKey(e.jobId)) ||
    (e.taskType == "lighthouse" && e.lighthouseRunId > 0 && route == LighthouseStreamKey(e.jobId))
  }

  /** What becomes of an entry for which there is capacity, its host's gate and delay being these. */
  ghost predicate FateFits(gate: Gate, delay: int, now: int, minPushback: int, e: ScheduleEntry, w: World, fate: Fate) {
    var passes := !w.pacerFails && !Refuses(gate, delay, w.redisNow);
    (fate.Published? <==> passes && w.exec.Applied? && exists route :: Routes(e, route)) &&
    (fate.PublishedUnseen? <==> passes && w.exec.AppliedUnseen? && exists route :: Routes(e, route)) &&
    (fate.Published? || fate.PublishedUnseen? ==> Routes(e, fate.route)) &&
    (fate.Published? ==> fate.counted == !w.countFails) &&
    (fate.Paced? <==> !w.pacerFails && Refuses(gate, delay, w.redisNow) && !w.rescheduleFails) &&
    (fate.Paced? ==> fate.score == now + WaitAt(gate, delay, w.redisNow, minPushback)) &&
    !fate.Unreached?
  }

  /** A host's gate after an entry: set again by an attempt of that host that it does not keep out. */
  ghost function GateNext(gate: Gate, delay: int, host: string, e: ScheduleEntry, w: World): Gate {
    if e.host == host && !w.pacerFails && delay > 0 && !Refuses(gate, delay, w.redisNow) then Some(w.redisNow + delay) else gate
  }

  /** A host's gate when the pass comes to entry i. */
  ghost function GateBefore(gate: Gate, delay: int, host: string, entries: seq<ScheduleEntry>, worlds: seq<World>, i: nat): Gate
    requires i <= |entries| == |worlds|
    decreases i
  {
    if i == 0 then gate else GateBefore(GateNext(gate, delay, host, entries[0], worlds[0]), delay, host, entries[1..], worlds[1..], i - 1)
  }

  /** There is capacity for the entries up to i. */
  ghost predicate Reaches(worlds: seq<World>, i: nat)
    requires i < |worlds|
  {
    forall k :: 0 <= k <= i ==> worlds[k].capacity.Yes?
  }

  ghost function DelayFor(db: Store, host: string): int {
    DelayOf(db.ConfigAt(DomainConfigKey(host)))
  }

  ghost predicate FateFitsAt(db: Store, now: int, minPushback: int, entries: seq<ScheduleEntry>, worlds: seq<World>, fates: seq<Fate>, i: nat)
    requires i < |entries| == |worlds| == |fates|
  {
    var host := entries[i].host;
    if Reaches(worlds, i)
    then FateFits(GateBefore(GateOf(db, host), DelayFor(db, host), host, entries, worlds, i), DelayFor(db, host), now, minPushback,
                  entries[i], worlds[i], fates[i])
    else fates[i].Unreached?
  }

  /** The fates of a whole pass, from nothing but the gates it met and what the world answered. */
  ghost predicate FatesFit(db: Store, now: int, minPushback: int, entries: seq<ScheduleEntry>, worlds: seq<World>, fates: seq<Fate>) {
    |entries| == |worlds| == |fates| && forall i :: 0 <= i < |entries| ==> FateFitsAt(db, now, minPushback, entries, worlds, fates, i)
  }

  lemma RouteRoutes(e: ScheduleEntry, route: string)
    ensures RouteOf(e) == Some(route) <==> Routes(e, route)
  {
  }

  lemma HandleFate(db: Store, jobId: string, now: int, minPushback: int, e: ScheduleEntry, w: World)
    ensures FateFits(GateOf(db, e.host), DelayFor(db, e.host), now, minPushback, e, w, Handle(db, jobId, now, minPushback, e, w).1)
  {
    forall route
      ensures RouteOf(e) == Some(route) <==> Routes(e, route)
    {
      RouteRoutes(e, route);
    }
    if RouteOf(e).Some? {
      assert Routes(e, RouteOf(e).value);
    }
  }

  /** Handling an entry moves no gate but its host's. */
  lemma HandleGates(db: Store, jobId: string, now: int, minPushback: int, e: ScheduleEntry, w: World, host: string)
    ensures var after := Handle(db, jobId, now, minPushback, e, w).0;
      after.configs == db.configs && GateOf(after, host) == GateNext(GateOf(db, host), DelayFor(db, host), host, e, w)
  {
    if DomainGateKey(host) == DomainGateKey(e.host) {
      DomainGateKeyInjective(host, e.host);
    }
    HandleKeepsGates(db, jobId, now, minPushback, e, w);
  }

  lemma HandleKeepsGates(db: Store, jobId: string, now: int, minPushback: int, e: ScheduleEntry, w: World)
    ensures var after := Handle(db, jobId, now, minPushback, e, w).0;
      after.configs == db.configs && after.gates == if w.pacerFails then db.gates else AcquireGate(db, e.host, w.redisNow).gates
  {
    hide RouteOf, Publish, PushBack, DelayOf;
    if RouteOf(e).Some? {
      PublishKeepsGates(AcquireGate(db, e.host, w.redisNow), e, RouteOf(e).value);
    }
  }

  lemma PublishKeepsGates(db: Store, e: ScheduleEntry, route: string)
    ensures Publish(db, e, route).gates == db.gates && Publish(db, e, route).configs == db.configs
  {
    hide IntStr, Fixed4, StreamValues;
  }

  lemma {:induction false} PassFates(db: Store, jobId: string, now: int, minPushback: int, entries: seq<ScheduleEntry>, worlds: seq<World>)
    requires |entries| == |worlds|
    ensures FatesFit(db, now, minPushback, entries, worlds, Pass(db, jobId, now, minPushback, entries, worlds).1)
    decreases |entries|
  {
    if entries != [] && worlds[0].capacity.Yes? {
      var one := Handle(db, jobId, now, minPushback, entries[0], worlds[0]);
      var rest := Pass(one.0, jobId, now, minPushback, entries[1..], worlds[1..]);
      HandleFate(db, jobId, now, minPushback, entries[0], worlds[0]);
      PassFates(one.0, jobId, now, minPushback, entries[1..], worlds[1..]);
      forall i | 0 <= i < |entries|
        ensures FateFitsAt(db, now, minPushback, entries, worlds, [one.1] + rest.1, i)
      {
        if i > 0 {
          HandleGates(db, jobId, now, minPushback, entries[0], worlds[0], entries[i].host);
          LaterFate(db, one.0, now, minPushback, entries, worlds, one.1, rest.1, i);
        }
      }
    } else if entries != [] {
      forall i | 0 <= i < |entries|
        ensures FateFitsAt(db, now, minPushback, entries, worlds, AllUnreached(|entries|), i)
      {
        assert !Reaches(worlds, i);
      }
    }
  }

  lemma LaterFate(db: Store, next: Store, now: int, minPushback: int, entries: seq<ScheduleEntry>, worlds: seq<World>,
                  fate: Fate, fates: seq<Fate>, i: nat)
    requires 0 < i < |entries| == |worlds| == |fates| + 1 && worlds[0].capacity.Yes? && next.configs == db.configs
    requires GateOf(next, entries[i].host) ==
      GateNext(GateOf(db, entries[i].host), DelayFor(db, entries[i].host), entries[i].host, entries[0], worlds[0])
    requires FateFitsAt(next, now, minPushback, entries[1..], worlds[1..], fates, i - 1)
    ensures FateFitsAt(db, now, minPushback, entries, worlds, [fate] + fates, i)
  {
    var rest := worlds[1..];
    assert entries[1..][i - 1] == entries[i] && rest[i - 1] == worlds[i] && ([fate] + fates)[i] == fates[i - 1];
    if Reaches(worlds, i) {
      assert Reaches(rest, i - 1);
    }
    if Reaches(rest, i - 1) {
      forall k | 0 <= k <= i
        ensures worlds[k].capacity.Yes?
      {
        if k > 0 {
          assert rest[k - 1].capacity.Yes?;
        }
      }
    }
  }

  // ---------- what a pass counts ----------

  predicate Lifts(e: ScheduleEntry, w: World, fate: Fate, key: string) {
    fate.Published? && !w.inflightFails && DomainInflightKey(e.host) == key
  }

  /** The published entries of a host whose in-flight increment did not fail. */
  ghost function Lifted(entries: seq<ScheduleEntry>, worlds: seq<World>, fates: seq<Fate>, key: string): nat
    requires |entries| == |worlds| == |fates|
  {
    if entries == [] then 0
    else (if Lifts(entries[0], worlds[0], fates[0], key) then 1 else 0) + Lifted(entries[1..], worlds[1..], fates[1..], key)
  }

  ghost function Risen(jobId: string, entries: seq<ScheduleEntry>, worlds: seq<World>, fates: seq<Fate>, key: string, field: string): nat
    requires |entries| == |worlds| == |fates|
  {
    if field != jobId then 0
    else (if key == RUNNING_COUNTERS then CountCounted(fates) else 0) + Lifted(entries, worlds, fates, key)
  }

  /** Each host's in-flight count of the job rises by those, the running counter by the counted ones, and no other field moves. */
  ghost predicate HashesRise(db: Store, jobId: string, entries: seq<ScheduleEntry>, worlds: seq<World>, after: Store, fates: seq<Fate>) {
    |entries| == |worlds| == |fates| &&
    forall key, field :: after.HGet(key, field) == db.HGet(key, field) + Risen(jobId, entries, worlds, fates, key, field)
  }

  lemma CountedHashes(db: Store, jobId: string, host: string, countFails: bool, inflightFails: bool, key: string, field: string)
    ensures var counted := if countFails then db else db.HIncrBy(RUNNING_COUNTERS, jobId, 1);
      var last := if inflightFails then counted else counted.HIncrBy(DomainInflightKey(host), jobId, 1);
      last.HGet(key, field) == db.HGet(key, field) + if field != jobId then 0
        else (if key == RUNNING_COUNTERS && !countFails then 1 else 0) + (if key == DomainInflightKey(host) && !inflightFails then 1 else 0)
  {
    var counted := if countFails then db else db.HIncrBy(RUNNING_COUNTERS, jobId, 1);
    InflightIsNotRunning(host);
    IncrementHashes(db, RUNNING_COUNTERS, jobId, key, field);
    IncrementHashes(counted, DomainInflightKey(host), jobId, key, field);
  }

  lemma IncrementHashes(db: Store, hash: string, jobId: string, key: string, field: string)
    ensures db.HIncrBy(hash, jobId, 1).HGet(key, field) == db.HGet(key, field) + if key == hash && field == jobId then 1 else 0
  {
    HIncrByEffect(db, hash, jobId, 1);
    if (key, field) != (hash, jobId) {
      assert db.HIncrBy(hash, jobId, 1).HGet(key, field) == db.HGet(key, field);
    }
  }

  predicate Publishes(db: Store, e: ScheduleEntry, w: World) {
    !w.pacerFails && MayPass(db, e.host, w.redisNow) && RouteOf(e).Some? && !w.exec.NotApplied?
  }

  lemma UnsentHashes(db: Store, jobId: string, now: int, minPushback: int, e: ScheduleEntry, w: World)
    requires !Publishes(db, e, w)
    ensures var r := Handle(db, jobId, now, minPushback, e, w); r.0.hashes == db.hashes && !r.1.Published?
  {
    GatedHashes(db, e.host, w.redisNow, ScheduleKey(e.jobId), e.Member(), now + PushBack(db, e.host, w.redisNow, minPushback));
    hide RouteOf, Publish, PushBack, DelayOf, MayPass, AcquireGate, IntStr, Fixed4;
  }

  lemma GatedHashes(db: Store, host: string, redisNow: int, key: string, m: string, score: int)
    ensures var gated := AcquireGate(db, host, redisNow); gated.hashes == db.hashes && gated.ZAddXX(key, m, score).hashes == db.hashes
  {
  }

  lemma SentHashes(db: Store, jobId: string, now: int, minPushback: int, e: ScheduleEntry, w: World)
    requires Publishes(db, e, w)
    ensures var r := Handle(db, jobId, now, minPushback, e, w);
      var published := Publish(AcquireGate(db, e.host, w.redisNow), e, RouteOf(e).value);
      var counted := if w.countFails then published else published.HIncrBy(RUNNING_COUNTERS, jobId, 1);
      published.hashes == db.hashes &&
      r == if w.exec.AppliedUnseen? then (published, PublishedUnseen(RouteOf(e).value))
        else (if w.inflightFails then counted else counted.HIncrBy(DomainInflightKey(e.host), jobId, 1), Published(RouteOf(e).value, !w.countFails))
  {
    PublishChanges(AcquireGate(db, e.host, w.redisNow), e, RouteOf(e).value);
    hide RouteOf, Publish, PushBack, DelayOf, MayPass;
  }

  lemma HandleHashes(db: Store, jobId: string, now: int, minPushback: int, e: ScheduleEntry, w: World, key: string, field: string)
    ensures var r := Handle(db, jobId, now, minPushback, e, w);
      r.0.HGet(key, field) == db.HGet(key, field) + if field != jobId then 0
        else (if key == RUNNING_COUNTERS then Counted(r.1) else 0) + (if Lifts(e, w, r.1, key) then 1 else 0)
  {
    if Publishes(db, e, w) {
      SentHashes(db, jobId, now, minPushback, e, w);
      var published := Publish(AcquireGate(db, e.host, w.redisNow), e, RouteOf(e).value);
      CountedHashes(published, jobId, e.host, w.countFails, w.inflightFails, key, field);
    } else {
      UnsentHashes(db, jobId, now, minPushback, e, w);
    }
  }

  lemma {:induction false} PassHashes(db: Store, jobId: string, now: int, minPushback: int, entries: seq<ScheduleEntry>, worlds: seq<World>,
                                      key: string, field: string)
    requires |entries| == |worlds|
    ensures var r := Pass(db, jobId, now, minPushback, entries, worlds);
      |r.1| == |entries| && r.0.HGet(key, field) == db.HGet(key, field) + Risen(jobId, entries, worlds, r.1, key, field)
    decreases |entries|
  {
    if entries != [] && worlds[0].capacity.Yes? {
      var one := Handle(db, jobId, now, minPushback, entries[0], worlds[0]);
      var rest := Pass(one.0, jobId, now, minPushback, entries[1..], worlds[1..]);
      HandleHashes(db, jobId, now, minPushback, entries[0], worlds[0], key, field);
      PassHashes(one.0, jobId, now, minPushback, entries[1..], worlds[1..], key, field);
      assert ([one.1] + rest.1)[1..] == rest.1;
    } else {
      NothingUnreached(map[], entries);
      NothingLifted(entries, worlds, key);
    }
  }

  /** What a pass makes of its inputs, in the state in which DueItems left the store. */
  lemma PassFromInputs(before: Store, cleaned: Store, jobId: string, now: int, minPushback: int, entries: seq<ScheduleEntry>, worlds: seq<World>)
    requires |entries| == |worlds| && cleaned == before.(zsets := cleaned.zsets)
    ensures var r := Pass(cleaned, jobId, now, minPushback, entries, worlds);
      FatesFit(before, now, minPushback, entries, worlds, r.1) && HashesRise(before, jobId, entries, worlds, r.0, r.1)
  {
    var r := Pass(cleaned, jobId, now, minPushback, entries, worlds);
    PassFates(cleaned, jobId, now, minPushback, entries, worlds);
    forall i | 0 <= i < |entries|
      ensures FateFitsAt(before, now, minPushback, entries, worlds, r.1, i)
    {
      assert FateFitsAt(cleaned, now, minPushback, entries, worlds, r.1, i);
    }
    forall key, field
      ensures r.0.HGet(key, field) == before.HGet(key, field) + Risen(jobId, entries, worlds, r.1, key, field)
    {
      PassHashes(cleaned, jobId, now, minPushback, entries, worlds, key, field);
      assert before.HGet(key, field) == cleaned.HGet(key, field);
    }
  }

  lemma {:induction false} NothingLifted(entries: seq<ScheduleEntry>, worlds: seq<World>, key: string)
    requires |entries| == |worlds|
    ensures Lifted(entries, worlds, AllUnreached(|entries|), key) == 0
  {
    if entries != [] {
      assert AllUnreached(|entries|)[1..] == AllUnreached(|entries| - 1);
      NothingLifted(entries[1..], worlds[1..], key);
    }
  }

  /** A publish moves its member, rather than sending one more copy, exactly when the member is still in the sorted set. */
  lemma PublishMovesIff(db: Store, e: ScheduleEntry, route: string)
    ensures var key := ScheduleKey(e.jobId);
      Publish(db, e, route).ZSetAt(key) != db.ZSetAt(key) <==> e.Member() in db.ZSetAt(key)
  {
    PublishChanges(db, e, route);
    assert e.Member() !in db.ZSetAt(ScheduleKey(e.jobId)) ==> db.ZSetAt(ScheduleKey(e.jobId)) - {e.Member()} == db.ZSetAt(ScheduleKey(e.jobId));
  }

  /** A stored member leaves with its publish exactly when it is canonical. */
  lemma PublishRemovesIffCanonical(db: Store, e: ScheduleEntry, member: string, score: int, route: string)
    requires ParseScheduleEntry(member, score) == Some(e) && member in db.ZSetAt(ScheduleKey(e.jobId))
    ensures member !in Publish(db, e, route).ZSetAt(ScheduleKey(e.jobId)) <==> CanonicalMember(member)
  {
    PrintAfterParse(member, score);
    PublishChanges(db, e, route);
  }

  /** A legacy member is sent on its own route and yet stays as it was, for the next pass to read the same entry again. */
  lemma LegacyIsSentAgain(db: Store, e: ScheduleEntry, member: string, score: int)
    requires ParseScheduleEntry(member, score) == Some(e) && |SplitN(member, 11)| == 9 && RouteOf(e).Some?
    requires member in db.ZSetAt(ScheduleKey(e.jobId)) && db.ZSetAt(ScheduleKey(e.jobId))[member] == score
    ensures var after := Publish(db, e, RouteOf(e).value);
      after.StreamAt(RouteOf(e).value) == Appended(db.StreamAt(RouteOf(e).value), [StreamValues(e)]) &&
      member in after.ZSetAt(ScheduleKey(e.jobId)) && after.ZSetAt(ScheduleKey(e.jobId))[member] == score &&
      Parsed(after.ZSetAt(ScheduleKey(e.jobId)), [member]) == [e]
  {
    var route, z := RouteOf(e).value, Publish(db, e, RouteOf(e).value).ZSetAt(ScheduleKey(e.jobId));
    PublishRemovesIffCanonical(db, e, member, score, route);
    PublishChanges(db, e, route);
    assert [member][..0] == [] && Parsed(z, []) == [];
  }
}
