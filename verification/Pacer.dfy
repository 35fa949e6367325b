/** Per-domain pacing (internal/broker/pacer.go and the Lua scripts of pacer_lua.go). */
module Pacer {
  import opened Text
  import opened Keys
  import opened Redis

  // ---------- the time gate ----------

  /** A held gate's deadline, if the key exists. */
  type Gate = Option<int>

  predicate Held(gate: Gate, now: int) {
    gate.Some? && now <= gate.value
  }

  /** SET NX PX with the larger of the two delays; with no delay the gate is not consulted at all. */
  function Passes(gate: Gate, delay: int, now: int): bool {
    delay <= 0 || !Held(gate, now)
  }

  function GateAfter(gate: Gate, delay: int, now: int): Gate {
    if delay > 0 && !Held(gate, now) then Some(now + delay) else gate
  }

  /** One call of the acquire script at a Redis time, with the delay then configured. */
  datatype Attempt = Attempt(now: int, delay: int)

  /** The times of the successful attempts of a run. */
  ghost function Successes(gate: Gate, run: seq<Attempt>): seq<int>
    decreases run
  {
    if run == [] then []
    else
      (if Passes(gate, run[0].delay, run[0].now) then [run[0].now] else []) +
      Successes(GateAfter(gate, run[0].delay, run[0].now), run[1..])
  }

  ghost predicate Chronological(run: seq<Attempt>) {
    forall i, j :: 0 <= i < j < |run| ==> run[i].now <= run[j].now
  }

  /** Neighbouring successes are more than bound apart, and none comes before an open deadline. */
  lemma {:induction false} NeighboursApart(gate: Gate, run: seq<Attempt>, bound: int)
    requires bound > 0 && Chronological(run) && forall i :: 0 <= i < |run| ==> run[i].delay >= bound
    ensures var s := Successes(gate, run);
      (forall i :: 0 <= i < |s| - 1 ==> s[i + 1] > s[i] + bound) &&
      (s != [] && gate.Some? ==> s[0] > gate.value) && (s != [] ==> s[0] >= run[0].now)
    decreases run
  {
    if run != [] {
      var after := GateAfter(gate, run[0].delay, run[0].now);
      var rest := Successes(after, run[1..]);
      NeighboursApart(after, run[1..], bound);
      var s := Successes(gate, run);
      if Passes(gate, run[0].delay, run[0].now) {
        assert s == [run[0].now] + rest;
        assert rest != [] ==> rest[0] > run[0].now + bound;
      } else {
        assert s == rest;
      }
    }
  }

  lemma {:induction false} ManyApart(s: seq<int>, bound: int, i: nat, j: nat)
    requires i <= j < |s| && bound > 0 && forall k :: 0 <= k < |s| - 1 ==> s[k + 1] > s[k] + bound
    ensures s[j] >= s[i] + (j - i) * bound
    decreases j
  {
    if i < j {
      ManyApart(s, bound, i, j - 1);
      assert (j - i) * bound == (j - 1 - i) * bound + bound;
    }
  }

  /**
   * The rate bound: while every configured delay is at least bound, successes are more than bound apart and
   * any window of the given length holds at most 1 + length / bound of them.
   */
  lemma RateBound(gate: Gate, run: seq<Attempt>, bound: int, window: nat, i: nat, j: nat)
    requires bound > 0 && Chronological(run) && forall k :: 0 <= k < |run| ==> run[k].delay >= bound
    requires i <= j < |Successes(gate, run)|
    ensures i < j ==> Successes(gate, run)[j] - Successes(gate, run)[i] > bound
    ensures Successes(gate, run)[j] - Successes(gate, run)[i] <= window ==> j - i + 1 <= 1 + window / bound
  {
    NeighboursApart(gate, run, bound);
    PairApart(Successes(gate, run), bound, window, i, j);
  }

  lemma PairApart(s: seq<int>, bound: int, window: nat, i: nat, j: nat)
    requires i <= j < |s| && bound > 0 && forall k :: 0 <= k < |s| - 1 ==> s[k + 1] > s[k] + bound
    ensures i < j ==> s[j] - s[i] > bound
    ensures s[j] - s[i] <= window ==> j - i + 1 <= 1 + window / bound
  {
    ManyApart(s, bound, i, j);
    if i < j {
      ManyApart(s, bound, i + 1, j);
      TimesAtLeast(j - (i + 1), bound);
    }
    QuotientBound(j - i, bound, window);
  }

  lemma TimesAtLeast(n: nat, m: int)
    requires m > 0
    ensures n * m >= 0
  {
  }

  lemma QuotientBound(n: nat, bound: int, window: nat)
    requires bound > 0
    ensures n * bound <= window ==> n <= window / bound
  {
    TimesOver(n, window / bound, bound);
  }

  lemma TimesOver(n: int, q: int, m: int)
    requires m > 0
    ensures n >= q + 1 ==> n * m >= q * m + m
    ensures n <= q - 1 ==> n * m <= q * m - m
  {
    if n >= q + 1 {
      TimesAtLeast(n - q - 1, m);
      TimesMinus(n, q, m);
    }
    if n <= q - 1 {
      TimesAtLeast(q - 1 - n, m);
      TimesMinus(q, n, m);
    }
  }

  lemma TimesMinus(n: int, q: int, m: int)
    ensures (n - q - 1) * m == n * m - q * m - m
  {
  }

  function Times(run: seq<Attempt>): (r: seq<int>)
    ensures |r| == |run| && forall i :: 0 <= i < |run| ==> r[i] == run[i].now
  {
    if run == [] then [] else [run[0].now] + Times(run[1..])
  }

  /** While no delay is positive nothing is spaced: every attempt succeeds, whatever gate an earlier delay left. */
  lemma {:induction false} NoDelayNoSpacing(gate: Gate, run: seq<Attempt>)
    requires forall i :: 0 <= i < |run| ==> run[i].delay <= 0
    ensures Successes(gate, run) == Times(run)
    decreases run
  {
    if run != [] {
      NoDelayNoSpacing(gate, run[1..]);
    }
  }

  ghost predicate Constant(run: seq<Attempt>, delay: int) {
    forall i :: 0 <= i < |run| ==> run[i].delay == delay
  }

  /** Neighbouring successes of the run are more than bound apart. */
  ghost predicate Spaced(gate: Gate, run: seq<Attempt>, bound: int) {
    var s := Successes(gate, run);
    forall i :: 0 <= i < |s| - 1 ==> s[i + 1] > s[i] + bound
  }

  /** A bound is kept by every run under a constant delay if and only if the delay is at least the bound. */
  lemma SpacedIff(delay: int, bound: int)
    requires bound > 0
    ensures (forall gate: Gate, run :: Chronological(run) && Constant(run, delay) ==> Spaced(gate, run, bound)) <==> delay >= bound
  {
    if delay >= bound {
      forall gate: Gate, run | Chronological(run) && Constant(run, delay)
        ensures Spaced(gate, run, bound)
      {
        NeighboursApart(gate, run, bound);
      }
    } else {
      var run := [Attempt(0, delay), Attempt(if delay <= 0 then 0 else delay + 1, delay)];
      TwoSuccesses(run[0], run[1]);
      var s := Successes(None, run);
      assert s == [run[0].now, run[1].now] && s[0 + 1] <= s[0] + bound;
      assert Chronological(run) && Constant(run, delay) && !Spaced(None, run, bound);
    }
  }

  lemma TwoSuccesses(a: Attempt, b: Attempt)
    requires a.delay <= 0 || b.now > a.now + a.delay
    ensures Successes(None, [a, b]) == [a.now, b.now]
  {
    assert [a, b][1..] == [b] && [b][1..] == [];
    var after := GateAfter(None, a.delay, a.now);
    assert Successes(after, [b]) == [b.now];
  }

  /** Does attempt i of the run succeed? */
  ghost predicate Succeeds(gate: Gate, run: seq<Attempt>, i: nat)
    requires i < |run|
    decreases i
  {
    if i == 0 then Passes(gate, run[0].delay, run[0].now)
    else Succeeds(GateAfter(gate, run[0].delay, run[0].now), run[1..], i - 1)
  }

  /** No success before attempt i lies within the delay, and neither does the gate that was there at first. */
  ghost predicate Clear(gate: Gate, run: seq<Attempt>, delay: int, i: nat)
    requires i < |run|
  {
    (gate.None? || run[i].now > gate.value) &&
    forall j :: 0 <= j < i && Succeeds(gate, run, j) ==> run[i].now > run[j].now + delay
  }

  /** Under a constant positive delay an attempt succeeds if and only if no earlier success lies within the delay. */
  lemma {:induction false} SucceedsIff(gate: Gate, run: seq<Attempt>, delay: int, i: nat)
    requires delay > 0 && Constant(run, delay) && Chronological(run) && i < |run|
    ensures Succeeds(gate, run, i) <==> Clear(gate, run, delay, i)
    decreases i
  {
    if i > 0 {
      var after, rest := GateAfter(gate, delay, run[0].now), run[1..];
      assert run[0].delay == delay && run[0].now <= run[i].now;
      SucceedsIff(after, rest, delay, i - 1);
      forall j | 0 < j < i
        ensures Succeeds(gate, run, j) <==> Succeeds(after, rest, j - 1)
        ensures run[j] == rest[j - 1]
      {
      }
      if Clear(gate, run, delay, i) {
        assert Succeeds(gate, run, 0) ==> run[i].now > run[0].now + delay;
        forall k | 0 <= k < i - 1 && Succeeds(after, rest, k)
          ensures rest[i - 1].now > rest[k].now + delay
        {
          assert Succeeds(gate, run, k + 1);
        }
      }
      if Clear(after, rest, delay, i - 1) {
        forall j | 0 <= j < i && Succeeds(gate, run, j)
          ensures run[i].now > run[j].now + delay
        {
          if j > 0 {
            assert Succeeds(after, rest, j - 1);
          }
        }
      }
    }
  }

  /** The successes listed above are these. */
  lemma {:induction false} SuccessesAreThose(gate: Gate, run: seq<Attempt>, t: int)
    ensures t in Successes(gate, run) <==> exists i :: 0 <= i < |run| && Succeeds(gate, run, i) && run[i].now == t
    decreases |run|
  {
    if run != [] {
      var after, rest := GateAfter(gate, run[0].delay, run[0].now), run[1..];
      SuccessesAreThose(after, rest, t);
      if i :| 0 <= i < |run| && Succeeds(gate, run, i) && run[i].now == t {
        assert i > 0 ==> Succeeds(after, rest, i - 1) && rest[i - 1].now == t;
      }
      if k :| 0 <= k < |rest| && Succeeds(after, rest, k) && rest[k].now == t {
        assert Succeeds(gate, run, k + 1) && run[k + 1].now == t;
      }
      if Passes(gate, run[0].delay, run[0].now) && run[0].now == t {
        assert Succeeds(gate, run, 0);
      }
    }
  }

  // ---------- adaptive delay ----------

  datatype Tuning = Tuning(threshold: int, stepUp: int, stepDown: int, maxDelay: int) {
    /** pacer.go falls back to the step up when no step down is configured. */
    function StepDown(): int {
      if stepDown <= 0 then stepUp else stepDown
    }
  }

  function OnSuccess(c: Config, t: Tuning): Config {
    var streak, delay, floor := OrZero(c.successStreak) + 1, OrZero(c.adaptiveDelay), OrZero(c.floor);
    if streak >= t.threshold && delay > floor then
      c.(errorStreak := Some(0), successStreak := Some(0),
         adaptiveDelay := Some(if floor >= delay - t.StepDown() then floor else delay - t.StepDown()))
    else
      c.(errorStreak := Some(0), successStreak := Some(streak))
  }

  function OnError(c: Config, t: Tuning): Config {
    var delay := OrZero(c.adaptiveDelay) + t.stepUp;
    c.(errorStreak := Some(OrZero(c.errorStreak) + 1), successStreak := Some(0),
       adaptiveDelay := Some(if t.maxDelay <= delay then t.maxDelay else delay))
  }

  function AfterOutcomes(c: Config, t: Tuning, outcomes: seq<bool>): Config {
    if outcomes == [] then c
    else
      var before := AfterOutcomes(c, t, outcomes[..|outcomes| - 1]);
      if outcomes[|outcomes| - 1] then OnSuccess(before, t) else OnError(before, t)
  }

  ghost predicate InBand(c: Config, t: Tuning) {
    OrZero(c.floor) <= OrZero(c.adaptiveDelay) <= t.maxDelay &&
    (OrZero(c.adaptiveDelay) > OrZero(c.floor) ==> OrZero(c.successStreak) < t.threshold)
  }

  /** Every sequence of successes and rate-limit errors keeps the delay between floor and maximum. */
  lemma {:induction false} DelayStaysInBand(c: Config, t: Tuning, outcomes: seq<bool>)
    requires InBand(c, t) && t.threshold >= 1 && t.stepUp >= 0
    ensures InBand(AfterOutcomes(c, t, outcomes), t) && AfterOutcomes(c, t, outcomes).floor == c.floor
  {
    if outcomes != [] {
      DelayStaysInBand(c, t, outcomes[..|outcomes| - 1]);
    }
  }

  function Repeat(n: nat): (r: seq<bool>)
    ensures |r| == n
  {
    if n == 0 then [] else Repeat(n - 1) + [true]
  }

  function RateLimits(n: nat): (r: seq<bool>)
    ensures |r| == n
  {
    if n == 0 then [] else RateLimits(n - 1) + [false]
  }

  /** n rate limits in a row raise the delay by a step each, up to the maximum, and end the success streak. */
  lemma {:induction false} StraightErrors(c: Config, t: Tuning, n: nat)
    requires t.stepUp >= 0 && OrZero(c.adaptiveDelay) <= t.maxDelay
    ensures var r, raised := AfterOutcomes(c, t, RateLimits(n)), OrZero(c.adaptiveDelay) + n * t.stepUp;
      OrZero(r.adaptiveDelay) == (if raised <= t.maxDelay then raised else t.maxDelay) &&
      OrZero(r.errorStreak) == OrZero(c.errorStreak) + n && (n > 0 ==> r.successStreak == Some(0)) &&
      r.floor == c.floor && r.baseDelay == c.baseDelay
  {
    if n > 0 {
      StraightErrors(c, t, n - 1);
      LastError(c, t, n);
      OneStepMore(n, t.stepUp);
      OneError(AfterOutcomes(c, t, RateLimits(n - 1)), t, OrZero(c.adaptiveDelay) + (n - 1) * t.stepUp);
    }
  }

  lemma LastError(c: Config, t: Tuning, n: nat)
    requires n >= 1
    ensures AfterOutcomes(c, t, RateLimits(n)) == OnError(AfterOutcomes(c, t, RateLimits(n - 1)), t)
  {
    assert RateLimits(n)[..n - 1] == RateLimits(n - 1) && !RateLimits(n)[n - 1];
  }

  /** One rate limit when the delay so far is raised, or else at the maximum. */
  lemma OneError(before: Config, t: Tuning, raised: int)
    requires t.stepUp >= 0 && OrZero(before.adaptiveDelay) == if raised <= t.maxDelay then raised else t.maxDelay
    ensures var r := OnError(before, t);
      OrZero(r.adaptiveDelay) == (if raised + t.stepUp <= t.maxDelay then raised + t.stepUp else t.maxDelay) &&
      OrZero(r.errorStreak) == OrZero(before.errorStreak) + 1 && r.successStreak == Some(0) &&
      r.floor == before.floor && r.baseDelay == before.baseDelay
  {
  }

  lemma OneStepMore(n: nat, step: int)
    requires n > 0
    ensures n * step == (n - 1) * step + step
  {
  }

  /** The configured delay less one step down for each full streak among n further successes. */
  ghost function Lowered(c: Config, t: Tuning, n: nat): int
    requires t.threshold >= 1
  {
    OrZero(c.adaptiveDelay) - t.StepDown() * ((OrZero(c.successStreak) + n) / t.threshold)
  }

  ghost function StreakAt(c: Config, t: Tuning, n: nat): int
    requires t.threshold >= 1
  {
    (OrZero(c.successStreak) + n) % t.threshold
  }

  /** n successes in a row lower the delay by one step each full streak, down to the floor. */
  lemma {:induction false} StraightSuccesses(c: Config, t: Tuning, n: nat)
    requires t.threshold >= 1 && t.StepDown() > 0
    requires OrZero(c.adaptiveDelay) > OrZero(c.floor) && 0 <= OrZero(c.successStreak) < t.threshold
    ensures var r := AfterOutcomes(c, t, Repeat(n));
      r.floor == c.floor &&
      OrZero(r.adaptiveDelay) == (if Lowered(c, t, n) >= OrZero(c.floor) then Lowered(c, t, n) else OrZero(c.floor)) &&
      (Lowered(c, t, n) > OrZero(c.floor) ==> OrZero(r.successStreak) == StreakAt(c, t, n))
  {
    if n == 0 {
      SmallQuotient(OrZero(c.successStreak), t.threshold);
    } else {
      StraightSuccesses(c, t, n - 1);
      LastSuccess(c, t, n);
      NextLowered(c, t, n);
      OneSuccess(AfterOutcomes(c, t, Repeat(n - 1)), t, Lowered(c, t, n - 1), StreakAt(c, t, n - 1));
    }
  }

  lemma LastSuccess(c: Config, t: Tuning, n: nat)
    requires n >= 1
    ensures AfterOutcomes(c, t, Repeat(n)) == OnSuccess(AfterOutcomes(c, t, Repeat(n - 1)), t)
  {
    assert Repeat(n)[..n - 1] == Repeat(n - 1);
  }

  lemma NextLowered(c: Config, t: Tuning, n: nat)
    requires t.threshold >= 1 && n >= 1 && OrZero(c.successStreak) >= 0
    ensures 0 <= StreakAt(c, t, n - 1) < t.threshold
    ensures if StreakAt(c, t, n - 1) + 1 == t.threshold
      then Lowered(c, t, n) == Lowered(c, t, n - 1) - t.StepDown() && StreakAt(c, t, n) == 0
      else Lowered(c, t, n) == Lowered(c, t, n - 1) && StreakAt(c, t, n) == StreakAt(c, t, n - 1) + 1
  {
    var a := OrZero(c.successStreak) + n;
    NextQuotient(a - 1, t.threshold);
    StepsMonotone(t.StepDown(), (a - 1) / t.threshold, a / t.threshold);
  }

  /** One success when the delay so far is low, or else at the floor. */
  lemma OneSuccess(before: Config, t: Tuning, low: int, streak: int)
    requires 0 <= streak < t.threshold && t.StepDown() > 0
    requires OrZero(before.adaptiveDelay) == (if low >= OrZero(before.floor) then low else OrZero(before.floor))
    requires low > OrZero(before.floor) ==> OrZero(before.successStreak) == streak
    ensures var r := OnSuccess(before, t);
      var low' := if streak + 1 == t.threshold then low - t.StepDown() else low;
      r.floor == before.floor &&
      OrZero(r.adaptiveDelay) == (if low' >= OrZero(before.floor) then low' else OrZero(before.floor)) &&
      (low' > OrZero(before.floor) ==> OrZero(r.successStreak) == if streak + 1 == t.threshold then 0 else streak + 1)
  {
  }

  lemma SmallQuotient(a: nat, m: int)
    requires a < m
    ensures a / m == 0 && a % m == a
  {
  }

  lemma NextQuotient(a: nat, m: int)
    requires m >= 1
    ensures if a % m + 1 == m then (a + 1) / m == a / m + 1 && (a + 1) % m == 0
      else (a + 1) / m == a / m && (a + 1) % m == a % m + 1
  {
    if a % m + 1 == m {
      DivisionIs(a + 1, m, a / m + 1, 0);
    } else {
      DivisionIs(a + 1, m, a / m, a % m + 1);
    }
  }

  lemma DivisionIs(a: int, m: int, q: int, r: int)
    requires m >= 1 && a == q * m + r && 0 <= r < m
    ensures a / m == q && a % m == r
  {
    TimesOver(q, a / m, m);
  }

  lemma StepsMonotone(step: int, a: int, b: int)
    requires b == a || b == a + 1
    ensures step * b == (if b == a then step * a else step * a + step)
  {
  }

  // ---------- the pacer ----------

  /** What the acquire script takes as the delay. */
  function DelayOf(c: Config): int {
    if OrZero(c.adaptiveDelay) > OrZero(c.baseDelay) then OrZero(c.adaptiveDelay) else OrZero(c.baseDelay)
  }

  lemma DelayIsLarger(c: Config)
    ensures DelayOf(c) >= OrZero(c.baseDelay) && DelayOf(c) >= OrZero(c.adaptiveDelay)
    ensures DelayOf(c) == OrZero(c.baseDelay) || DelayOf(c) == OrZero(c.adaptiveDelay)
  {
  }

  function GateOf(db: Store, domain: string): Gate {
    var key := DomainGateKey(domain);
    if key in db.gates then Some(db.gates[key]) else None
  }

  function WithGate(db: Store, domain: string, gate: Gate): Store {
    if gate.Some? then db.(gates := db.gates[DomainGateKey(domain) := gate.value]) else db
  }

  function AcquireGate(db: Store, domain: string, now: int): Store {
    WithGate(db, domain, GateAfter(GateOf(db, domain), DelayOf(db.ConfigAt(DomainConfigKey(domain))), now))
  }

  predicate MayPass(db: Store, domain: string, now: int) {
    Passes(GateOf(db, domain), DelayOf(db.ConfigAt(DomainConfigKey(domain))), now)
  }

  /** How far a refused attempt is pushed back: the gate's remaining time, else the whole delay, at least the floor. */
  function PushBack(db: Store, domain: string, now: int, minPushback: int): (wait: int)
    ensures !MayPass(db, domain, now) ==>
      wait > 0 && wait >= minPushback && now + wait >= db.gates[DomainGateKey(domain)]
  {
    var gate, delay := GateOf(db, domain), DelayOf(db.ConfigAt(DomainConfigKey(domain)));
    if Passes(gate, delay, now) then 0
    else
      var wait := if gate.value <= now then delay else gate.value - now;
      if wait < minPushback then minPushback else wait
  }

  function SetIfMissing(x: Option<int>, value: int): Option<int> {
    if x.Some? then x else Some(value)
  }

  function Seeded(c: Config, base: int, adaptive: int, floor: int): (r: Config)
    ensures c == NO_CONFIG ==> r == Config(Some(base), Some(adaptive), Some(floor), Some(0), Some(0))
    ensures c.baseDelay.Some? && c.adaptiveDelay.Some? && c.floor.Some? && c.successStreak.Some? && c.errorStreak.Some? ==> r == c
  {
    Config(SetIfMissing(c.baseDelay, base), SetIfMissing(c.adaptiveDelay, adaptive), SetIfMissing(c.floor, floor),
           SetIfMissing(c.successStreak, 0), SetIfMissing(c.errorStreak, 0))
  }

  /** Seeding twice is seeding once: what adaptation has learnt survives a re-seed with any values. */
  lemma ReseedChangesNothing(c: Config, t: Tuning, outcomes: seq<bool>, a: (int, int, int), b: (int, int, int))
    ensures var running := AfterOutcomes(Seeded(c, a.0, a.1, a.2), t, outcomes);
      Seeded(running, b.0, b.1, b.2) == running
  {
    FieldsStayPresent(Seeded(c, a.0, a.1, a.2), t, outcomes);
  }

  lemma {:induction false} FieldsStayPresent(c: Config, t: Tuning, outcomes: seq<bool>)
    requires c.baseDelay.Some? && c.adaptiveDelay.Some? && c.floor.Some? && c.successStreak.Some? && c.errorStreak.Some?
    ensures var r := AfterOutcomes(c, t, outcomes);
      r.baseDelay.Some? && r.adaptiveDelay.Some? && r.floor.Some? && r.successStreak.Some? && r.errorStreak.Some?
  {
    if outcomes != [] {
      FieldsStayPresent(c, t, outcomes[..|outcomes| - 1]);
    }
  }

  /** How a command ends: it may also take effect with its reply lost. */
  datatype Reply = Done | NotDone | Unseen

  datatype Faults = Faults(script: Reply, incr: Reply, del: Reply)

  predicate ScriptFailed(success: bool, rateLimited: bool, faults: Faults) {
    (success || rateLimited) && !faults.script.Done?
  }

  /** The in-flight hash after a slot was given back: one less for this job, nothing at zero, other jobs as before. */
  function SlotReturned(h: Hash, jobId: string, faults: Faults): (r: Hash)
    ensures forall other :: other != jobId ==> (other in r <==> other in h) && (other in h ==> r[other] == h[other])
    ensures faults.incr.Done? && faults.del.Done? ==> (jobId in r <==> jobId in h && h[jobId] > 1) && (jobId in r ==> r[jobId] == h[jobId] - 1)
  {
    if faults.incr.NotDone? then h
    else
      var left := (if jobId in h then h[jobId] else 0) - 1;
      if faults.incr.Done? && left <= 0 && !faults.del.NotDone? then h - {jobId} else h[jobId := left]
  }

  /** Every slot taken by HINCRBY 1 and given back without a fault leaves the hash as it was, if it held only positive counts. */
  lemma TakeAndReturn(h: Hash, jobId: string)
    requires jobId in h ==> h[jobId] > 0
    ensures SlotReturned(h[jobId := (if jobId in h then h[jobId] else 0) + 1], jobId, Faults(Done, Done, Done)) == h
  {
    if jobId !in h {
      assert h[jobId := 1] - {jobId} == h;
    }
  }

  class DomainPacer {
    const rdb: Server
    const tuning: Tuning
    const minPushback: int

    constructor (rdb: Server, tuning: Tuning, minPushback: int)
      ensures this.rdb == rdb && this.tuning == tuning && this.minPushback == minPushback
    {
      this.rdb, this.tuning, this.minPushback := rdb, tuning, minPushback;
    }

    method Seed(domain: string, base: int, adaptive: int, floor: int)
      modifies rdb
      ensures rdb.db == old(rdb.db).(configs := old(rdb.db).configs[DomainConfigKey(domain) :=
        Seeded(old(rdb.db).ConfigAt(DomainConfigKey(domain)), base, adaptive, floor)])
    {
      var key := DomainConfigKey(domain);
      rdb.db := rdb.db.(configs := rdb.db.configs[key := Seeded(rdb.db.ConfigAt(key), base, adaptive, floor)]);
    }

    /** The acquire script at a Redis time, and the push-back computed from its reply. */
    method TryAcquire(domain: string, now: int) returns (acquired: bool, retryAfter: int)
      modifies rdb
      ensures rdb.db == AcquireGate(old(rdb.db), domain, now)
      ensures acquired <==> MayPass(old(rdb.db), domain, now)
      ensures retryAfter == PushBack(old(rdb.db), domain, now, minPushback)
      ensures var gate, delay := GateOf(old(rdb.db), domain), DelayOf(old(rdb.db).ConfigAt(DomainConfigKey(domain)));
        (acquired <==> delay <= 0 || gate.None? || now > gate.value) &&
        GateOf(rdb.db, domain) == (if acquired && delay > 0 then Some(now + delay) else gate) &&
        (!acquired ==> retryAfter == var left := if now < gate.value then gate.value - now else delay;
          if left >= minPushback then left else minPushback)
    {
      var delay := DelayOf(rdb.db.ConfigAt(DomainConfigKey(domain)));
      var key := DomainGateKey(domain);
      acquired, retryAfter := true, 0;
      if delay <= 0 {
        return;
      }
      if !rdb.db.GateHeld(key, now) {
        rdb.db := rdb.db.(gates := rdb.db.gates[key := now + delay]);
        return;
      }
      acquired := false;
      var ttl := rdb.db.gates[key] - now;
      if ttl <= 0 {
        ttl := delay;
      }
      retryAfter := if ttl < minPushback then minPushback else ttl;
    }

    method IncrementInflight(domain: string, jobId: string)
      modifies rdb
      ensures rdb.db == old(rdb.db).HIncrBy(DomainInflightKey(domain), jobId, 1)
    {
      rdb.db := rdb.db.HIncrBy(DomainInflightKey(domain), jobId, 1);
    }

    /** HINCRBY -1, then HDEL when nothing is left; a failed HDEL is only logged. */
    method DecrementInflight(domain: string, jobId: string, faults: Faults) returns (ok: bool)
      modifies rdb
      ensures ok == faults.incr.Done?
      ensures rdb.db == old(rdb.db).(hashes := rdb.db.hashes)
      ensures forall key :: key != DomainInflightKey(domain) ==> rdb.db.HashAt(key) == old(rdb.db).HashAt(key)
      ensures rdb.db.HashAt(DomainInflightKey(domain)) == SlotReturned(old(rdb.db).HashAt(DomainInflightKey(domain)), jobId, faults)
    {
      var key := DomainInflightKey(domain);
      if !faults.incr.NotDone? {
        rdb.db := rdb.db.HIncrBy(key, jobId, -1);
      }
      ok := faults.incr.Done?;
      if ok && rdb.db.HGet(key, jobId) <= 0 && !faults.del.NotDone? {
        rdb.db := rdb.db.HDel(key, jobId);
      }
    }

    /** Adapts the delay to the outcome, then gives the in-flight slot back, unless the script's reply was an error. */
    method Release(domain: string, jobId: string, success: bool, rateLimited: bool, faults: Faults) returns (ok: bool)
      modifies rdb
      ensures ok == (!ScriptFailed(success, rateLimited, faults) && faults.incr.Done?)
      ensures forall key :: key != DomainInflightKey(domain) ==> rdb.db.HashAt(key) == old(rdb.db).HashAt(key)
      ensures var was := old(rdb.db).HashAt(DomainInflightKey(domain));
        rdb.db.HashAt(DomainInflightKey(domain)) == if ScriptFailed(success, rateLimited, faults) then was else SlotReturned(was, jobId, faults)
      ensures rdb.db == old(rdb.db).(hashes := rdb.db.hashes, configs := rdb.db.configs)
      ensures rdb.db.configs == (
        var key := DomainConfigKey(domain);
        var c := old(rdb.db).ConfigAt(key);
        if success && !faults.script.NotDone? then old(rdb.db).configs[key := OnSuccess(c, tuning)]
        else if !success && rateLimited && !faults.script.NotDone? then old(rdb.db).configs[key := OnError(c, tuning)]
        else old(rdb.db).configs)
    {
      var key := DomainConfigKey(domain);
      if success {
        if !faults.script.NotDone? {
          rdb.db := rdb.db.(configs := rdb.db.configs[key := OnSuccess(rdb.db.ConfigAt(key), tuning)]);
        }
        if !faults.script.Done? {
          return false;
        }
      } else if rateLimited {
        if !faults.script.NotDone? {
          rdb.db := rdb.db.(configs := rdb.db.configs[key := OnError(rdb.db.ConfigAt(key), tuning)]);
        }
        if !faults.script.Done? {
          return false;
        }
      }
      ok := DecrementInflight(domain, jobId, faults);
    }
  }
}
