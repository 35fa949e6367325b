/** Reclaiming stale messages (internal/broker/consumer.go). */
module Consumer {
  import opened Text
  import opened Keys
  import opened Redis
  import opened Messages

  // ---------- one-shot reference: what a sweep over a stretch of the pending list amounts to ----------

  datatype Verdict = Fresh | Malformed | Reclaim | DeadLetter

  /** What a sweep at time now decides about a pending entry, its claim counting as one more delivery. */
  datatype Policy = Policy(readable: map<nat, StreamMessage>, minIdle: int, maxDeliveries: int, now: int) {
    function Read(id: nat): Option<StreamMessage> {
      if id in readable then Some(readable[id]) else None
    }

    function VerdictOf(e: PelEntry): Verdict {
      if !Stale(e, minIdle, now) then Fresh
      else if Read(e.id).None? then Malformed
      else if e.deliveries + 1 >= maxDeliveries then DeadLetter
      else Reclaim
    }

    /** The messages with the wanted verdict, in id order, ids in skipped left out. */
    ghost function Pick(pel: seq<PelEntry>, want: Verdict, skipped: set<nat>): seq<StreamMessage>
      requires want == Reclaim || want == DeadLetter
    {
      if pel == [] then []
      else
        var last := pel[|pel| - 1];
        Pick(pel[..|pel| - 1], want, skipped) +
        (if VerdictOf(last) == want && last.id !in skipped then [Read(last.id).value] else [])
    }

    /** The pending list afterwards: fresh entries stay, malformed ones are acknowledged, the rest is claimed. */
    ghost function Settle(pel: seq<PelEntry>): seq<PelEntry> {
      if pel == [] then []
      else
        var last := pel[|pel| - 1];
        Settle(pel[..|pel| - 1]) + SettleOne(last)
    }

    ghost function SettleOne(e: PelEntry): seq<PelEntry> {
      match VerdictOf(e)
      case Fresh => [e]
      case Malformed => []
      case _ => [Bump(e, now)]
    }
  }

  /** The stream entries parseStreamMessage accepts, by id. */
  function Readable(entries: seq<Fields>): map<nat, StreamMessage> {
    map id: nat | 1 <= id <= |entries| && ReadEntry(entries, id).Some? :: ReadEntry(entries, id).value
  }

  function ReadEntry(entries: seq<Fields>, id: nat): Option<StreamMessage>
    requires 1 <= id <= |entries|
  {
    ParseStreamMessage(id, entries[id - 1])
  }

  /** The messages among ids whose recorded delivery count is at least, or else below, the limit. */
  ghost function PickIds(p: Policy, ids: seq<nat>, counts: map<nat, nat>, dead: bool): seq<StreamMessage> {
    if ids == [] then []
    else
      var id := ids[|ids| - 1];
      PickIds(p, ids[..|ids| - 1], counts, dead) +
      (if p.Read(id).Some? && id in counts && (counts[id] >= p.maxDeliveries) == dead then [p.Read(id).value] else [])
  }

  lemma {:induction false} PickIdsIsPick(p: Policy, pel: seq<PelEntry>, counts: map<nat, nat>, skipped: set<nat>)
    requires forall e :: e in pel && Stale(e, p.minIdle, p.now) && p.Read(e.id).Some? ==>
      (e.id in counts <==> e.id !in skipped) && (e.id in counts ==> counts[e.id] == e.deliveries + 1)
    ensures PickIds(p, StaleIds(pel, p.minIdle, p.now), counts, false) == p.Pick(pel, Reclaim, skipped)
    ensures PickIds(p, StaleIds(pel, p.minIdle, p.now), counts, true) == p.Pick(pel, DeadLetter, skipped)
  {
    if pel != [] {
      var last, rest := pel[|pel| - 1], pel[..|pel| - 1];
      PickIdsIsPick(p, rest, counts, skipped);
      var ids, before := StaleIds(pel, p.minIdle, p.now), StaleIds(rest, p.minIdle, p.now);
      if Stale(last, p.minIdle, p.now) {
        assert ids == before + [last.id] && ids[..|ids| - 1] == before;
      } else {
        assert ids == before;
      }
    }
  }

  lemma {:induction false} PickAppend(p: Policy, a: seq<PelEntry>, b: seq<PelEntry>, want: Verdict, skipped: set<nat>)
    requires want == Reclaim || want == DeadLetter
    ensures p.Pick(a + b, want, skipped) == p.Pick(a, want, skipped) + p.Pick(b, want, skipped)
  {
    if b == [] {
      assert a + b == a;
    } else {
      PickAppend(p, a, b[..|b| - 1], want, skipped);
      assert (a + b)[..|a + b| - 1] == a + b[..|b| - 1];
    }
  }

  lemma {:induction false} PickSkipsMore(p: Policy, pel: seq<PelEntry>, want: Verdict, skipped: set<nat>, more: set<nat>)
    requires want == Reclaim || want == DeadLetter
    requires forall e :: e in pel ==> e.id !in more
    ensures p.Pick(pel, want, skipped + more) == p.Pick(pel, want, skipped)
  {
    if pel != [] {
      PickSkipsMore(p, pel[..|pel| - 1], want, skipped, more);
    }
  }

  lemma {:induction false} SettleAppend(p: Policy, a: seq<PelEntry>, b: seq<PelEntry>)
    ensures p.Settle(a + b) == p.Settle(a) + p.Settle(b)
  {
    if b == [] {
      assert a + b == a;
    } else {
      var rest, one := b[..|b| - 1], p.SettleOne(b[|b| - 1]);
      SettleAppend(p, a, rest);
      assert (a + b)[..|a + b| - 1] == a + rest;
      assert p.Settle(a + b) == p.Settle(a + rest) + one;
      assert p.Settle(a) + p.Settle(rest) + one == p.Settle(a) + (p.Settle(rest) + one);
    }
  }

  lemma {:induction false} SettleFrom(p: Policy, pel: seq<PelEntry>, e: PelEntry)
    requires e in p.Settle(pel)
    ensures exists k :: 0 <= k < |pel| && p.VerdictOf(pel[k]) != Malformed && e == BumpStale(pel, p.minIdle, p.now)[k]
  {
    var rest, n := pel[..|pel| - 1], |pel| - 1;
    if e in p.Settle(rest) {
      SettleFrom(p, rest, e);
      var k :| 0 <= k < n && p.VerdictOf(rest[k]) != Malformed && e == BumpStale(rest, p.minIdle, p.now)[k];
      assert pel[k] == rest[k];
    } else {
      assert p.VerdictOf(pel[n]) != Malformed && e == BumpStale(pel, p.minIdle, p.now)[n];
    }
  }

  lemma {:induction false} SettleKeeps(p: Policy, pel: seq<PelEntry>, k: nat)
    requires k < |pel| && p.VerdictOf(pel[k]) != Malformed
    ensures BumpStale(pel, p.minIdle, p.now)[k] in p.Settle(pel)
  {
    if k < |pel| - 1 {
      SettleKeeps(p, pel[..|pel| - 1], k);
    }
  }

  lemma {:induction false} SettleSorted(p: Policy, pel: seq<PelEntry>)
    requires Sorted(pel)
    ensures Sorted(p.Settle(pel))
  {
    if pel != [] {
      var rest, last := pel[..|pel| - 1], pel[|pel| - 1];
      SettleSorted(p, rest);
      forall e | e in p.Settle(rest)
        ensures e.id < last.id
      {
        SettleFrom(p, rest, e);
      }
    }
  }

  /** Two ascending lists with the same entries are the same list. */
  lemma {:induction false} SortedEqual(a: seq<PelEntry>, b: seq<PelEntry>)
    requires Sorted(a) && Sorted(b) && forall e :: e in a <==> e in b
    ensures a == b
  {
    if a != [] {
      assert a[0] in a && a[0] in b;
    }
    if b != [] {
      assert b[0] in b && b[0] in a;
    }
    if a != [] && b != [] {
      assert a[0] in b && b[0] in a;
      assert a[0] == b[0];
      forall e
        ensures e in a[1..] <==> e in b[1..]
      {
        TailMember(a, e);
        TailMember(b, e);
      }
      SortedEqual(a[1..], b[1..]);
    }
  }

  lemma TailMember(a: seq<PelEntry>, e: PelEntry)
    requires Sorted(a) && a != []
    ensures e in a[1..] <==> e in a && e != a[0]
  {
    if e in a && e != a[0] {
      var k :| 0 <= k < |a| && a[k] == e;
      assert a[1..][k - 1] == e;
    }
  }

  lemma SeekAt(pel: seq<PelEntry>, i: nat, start: nat)
    requires i <= |pel| && (forall k :: 0 <= k < i ==> pel[k].id < start) && (i < |pel| ==> pel[i].id >= start)
    ensures Seek(pel, start) == i
  {
  }

  lemma {:induction false} ClaimBudget(pel: seq<PelEntry>, i: nat, attempts: nat, count: nat, minIdle: int, now: int)
    requires i <= |pel|
    ensures |StaleIds(pel[i..ClaimEnd(pel, i, attempts, count, minIdle, now)], minIdle, now)| <= count
    decreases |pel| - i
  {
    var j := ClaimEnd(pel, i, attempts, count, minIdle, now);
    if i == |pel| || attempts == 0 || count == 0 {
      assert pel[i..j] == [];
    } else {
      assert pel[i..j] == [pel[i]] + pel[i + 1..j];
      StaleIdsCons(pel[i], pel[i + 1..j], minIdle, now);
      ClaimBudget(pel, i + 1, attempts - 1, if Stale(pel[i], minIdle, now) then count - 1 else count, minIdle, now);
    }
  }

  /** A page that does not reach the end passes at least as many entries as it may claim. */
  lemma {:induction false} ClaimAdvance(pel: seq<PelEntry>, i: nat, attempts: nat, count: nat, minIdle: int, now: int)
    requires i <= |pel| && attempts >= count
    ensures var j := ClaimEnd(pel, i, attempts, count, minIdle, now); j == |pel| || j >= i + count
    decreases |pel| - i
  {
    if i < |pel| && attempts > 0 && count > 0 {
      ClaimAdvance(pel, i + 1, attempts - 1, if attempts - 1 >= count && !Stale(pel[i], minIdle, now) then count else count - 1, minIdle, now);
      if !Stale(pel[i], minIdle, now) && attempts - 1 < count {
        AllScanned(pel, i + 1, attempts - 1, count, minIdle, now);
      }
    }
  }

  lemma {:induction false} AllScanned(pel: seq<PelEntry>, i: nat, attempts: nat, count: nat, minIdle: int, now: int)
    requires i <= |pel| && attempts <= count
    ensures var j := ClaimEnd(pel, i, attempts, count, minIdle, now); j == |pel| || j == i + attempts
    decreases |pel| - i
  {
    if i < |pel| && attempts > 0 {
      AllScanned(pel, i + 1, attempts - 1, if Stale(pel[i], minIdle, now) then count - 1 else count, minIdle, now);
    }
  }

  lemma {:induction false} StaleAtMost(pel: seq<PelEntry>, minIdle: int, now: int)
    ensures |StaleIds(pel, minIdle, now)| <= |pel|
  {
    if pel != [] {
      StaleAtMost(pel[..|pel| - 1], minIdle, now);
    }
  }

  lemma {:induction false} StaleIdsCons(e: PelEntry, pel: seq<PelEntry>, minIdle: int, now: int)
    ensures StaleIds([e] + pel, minIdle, now) == (if Stale(e, minIdle, now) then [e.id] else []) + StaleIds(pel, minIdle, now)
  {
    if pel == [] {
      assert [e] + pel == [e];
    } else {
      StaleIdsCons(e, pel[..|pel| - 1], minIdle, now);
      assert ([e] + pel)[..|pel|] == [e] + pel[..|pel| - 1];
    }
  }

  lemma {:induction false} StaleIdsMembers(pel: seq<PelEntry>, minIdle: int, now: int)
    ensures forall id :: id in StaleIds(pel, minIdle, now) ==> exists k :: 0 <= k < |pel| && pel[k].id == id && Stale(pel[k], minIdle, now)
    ensures forall k :: 0 <= k < |pel| && Stale(pel[k], minIdle, now) ==> pel[k].id in StaleIds(pel, minIdle, now)
  {
    if pel != [] {
      var rest := pel[..|pel| - 1];
      StaleIdsMembers(rest, minIdle, now);
      forall id | id in StaleIds(rest, minIdle, now)
        ensures exists k :: 0 <= k < |pel| && pel[k].id == id && Stale(pel[k], minIdle, now)
      {
        var k :| 0 <= k < |rest| && rest[k].id == id && Stale(rest[k], minIdle, now);
        assert pel[k] == rest[k];
      }
    }
  }

  // ---------- one page of the walk ----------

  /** The cursor handed to XAUTOCLAIM when the walk has passed the first k entries. */
  ghost predicate CursorAt(pel: seq<PelEntry>, k: nat, cursor: nat) {
    k <= |pel| && ((k == 0 && cursor == 0) || (k < |pel| && cursor == pel[k].id))
  }

  ghost function PageEnd(p: Policy, pel: seq<PelEntry>, k: nat, count: nat): (end: nat)
    requires k <= |pel|
    ensures k <= end <= |pel|
  {
    ClaimEnd(pel, k, 10 * count, count, p.minIdle, p.now)
  }

  lemma {:induction false} ClaimEndShift(a: seq<PelEntry>, pel: seq<PelEntry>, k: nat, attempts: nat, count: nat, minIdle: int, now: int)
    requires k <= |pel|
    ensures ClaimEnd(a + pel[k..], |a|, attempts, count, minIdle, now) - |a| == ClaimEnd(pel, k, attempts, count, minIdle, now) - k
    decreases |pel| - k
  {
    if k < |pel| && attempts > 0 && count > 0 {
      assert (a + pel[k..])[|a|] == pel[k];
      assert a + pel[k..] == (a + [pel[k]]) + pel[k + 1..];
      ClaimEndShift(a + [pel[k]], pel, k + 1, attempts - 1, if Stale(pel[k], minIdle, now) then count - 1 else count, minIdle, now);
    }
  }

  lemma SettledIdsBelow(p: Policy, pel: seq<PelEntry>, k: nat)
    requires Sorted(pel) && k <= |pel|
    ensures forall e, i :: e in p.Settle(pel[..k]) && k <= i < |pel| ==> e.id < pel[i].id
    ensures forall e :: e in p.Settle(pel[..k]) ==> e.id in Ids(pel[..k])
  {
    forall e | e in p.Settle(pel[..k])
      ensures e.id in Ids(pel[..k]) && forall i :: k <= i < |pel| ==> e.id < pel[i].id
    {
      SettleFrom(p, pel[..k], e);
      var j :| 0 <= j < k && e.id == pel[..k][j].id;
      assert Ids(pel[..k])[j] == e.id;
    }
  }

  lemma SeekSettled(p: Policy, pel: seq<PelEntry>, k: nat, cursor: nat)
    requires Sorted(pel) && CursorAt(pel, k, cursor)
    ensures Seek(p.Settle(pel[..k]) + pel[k..], cursor) == |p.Settle(pel[..k])|
  {
    var done := p.Settle(pel[..k]);
    var all := done + pel[k..];
    if k == 0 {
      assert done == [];
    } else {
      SettledIdsBelow(p, pel, k);
      forall i | 0 <= i < |done|
        ensures all[i].id < cursor
      {
        assert all[i] == done[i] && done[i] in done;
      }
    }
    SeekAt(all, |done|, cursor);
  }

  lemma AfterClaim(p: Policy, pel: seq<PelEntry>, k: nat, cursor: nat, count: nat)
    requires Sorted(pel) && CursorAt(pel, k, cursor)
    ensures var end := PageEnd(p, pel, k, count);
      AutoClaim(p.Settle(pel[..k]) + pel[k..], cursor, count, p.minIdle, p.now) ==
      Claim(p.Settle(pel[..k]) + BumpStale(pel[k..end], p.minIdle, p.now) + pel[end..],
            StaleIds(pel[k..end], p.minIdle, p.now),
            if end < |pel| then pel[end].id else 0)
  {
    SeekSettled(p, pel, k, cursor);
    ClaimAfter(p, p.Settle(pel[..k]), pel, k, cursor, count);
  }

  lemma ClaimAfter(p: Policy, done: seq<PelEntry>, pel: seq<PelEntry>, k: nat, cursor: nat, count: nat)
    requires k <= |pel| && Seek(done + pel[k..], cursor) == |done|
    ensures var end := PageEnd(p, pel, k, count);
      AutoClaim(done + pel[k..], cursor, count, p.minIdle, p.now) ==
      Claim(done + BumpStale(pel[k..end], p.minIdle, p.now) + pel[end..],
            StaleIds(pel[k..end], p.minIdle, p.now),
            if end < |pel| then pel[end].id else 0)
  {
    var end := PageEnd(p, pel, k, count);
    var all, j := done + pel[k..], |done| + (end - k);
    ClaimEndShift(done, pel, k, 10 * count, count, p.minIdle, p.now);
    Slices(done, pel, k, end);
    ClaimUnfolds(all, cursor, count, p.minIdle, p.now, |done|, j, done, pel[k..end], pel[end..]);
  }

  lemma ClaimUnfolds(all: seq<PelEntry>, cursor: nat, count: nat, minIdle: int, now: int, i: nat, j: nat,
                     done: seq<PelEntry>, page: seq<PelEntry>, rest: seq<PelEntry>)
    requires i == Seek(all, cursor) && j == ClaimEnd(all, i, 10 * count, count, minIdle, now)
    requires all[..i] == done && all[i..j] == page && all[j..] == rest
    ensures AutoClaim(all, cursor, count, minIdle, now) ==
      Claim(done + BumpStale(page, minIdle, now) + rest, StaleIds(page, minIdle, now), if j < |all| then all[j].id else 0)
  {
  }

  lemma Slices(done: seq<PelEntry>, pel: seq<PelEntry>, k: nat, end: nat)
    requires k <= end <= |pel|
    ensures var all, j := done + pel[k..], |done| + (end - k);
      j <= |all| && all[..|done|] == done && all[|done|..j] == pel[k..end] && all[j..] == pel[end..] &&
      (j < |all| <==> end < |pel|) && (j < |all| ==> all[j] == pel[end])
  {
  }

  /** What a page claims, within its budget, and how far it gets. */
  lemma PageClaims(p: Policy, pel: seq<PelEntry>, k: nat, cursor: nat, count: nat)
    requires Sorted(pel) && CursorAt(pel, k, cursor)
    ensures var end := PageEnd(p, pel, k, count);
      var claim := AutoClaim(p.Settle(pel[..k]) + pel[k..], cursor, count, p.minIdle, p.now);
      claim == Claim(p.Settle(pel[..k]) + BumpStale(pel[k..end], p.minIdle, p.now) + pel[end..],
                     StaleIds(pel[k..end], p.minIdle, p.now),
                     if end < |pel| then pel[end].id else 0) &&
      |claim.ids| <= count && (end == |pel| || end >= k + count)
  {
    AfterClaim(p, pel, k, cursor, count);
    ClaimBudget(pel, k, 10 * count, count, p.minIdle, p.now);
    ClaimAdvance(pel, k, 10 * count, count, p.minIdle, p.now);
  }

  /** Acknowledging the malformed entries of a page turns its claimed form into its settled form. */
  ghost predicate MalformedAcked(p: Policy, ids: seq<nat>, before: seq<PelEntry>, after: seq<PelEntry>) {
    Sorted(after) && forall e :: e in after <==> e in before && !(p.Read(e.id).None? && e.id in ids)
  }

  lemma AfterAck(p: Policy, pel: seq<PelEntry>, k: nat, end: nat, after: seq<PelEntry>)
    requires Sorted(pel) && k <= end <= |pel|
    requires MalformedAcked(p, StaleIds(pel[k..end], p.minIdle, p.now),
                            p.Settle(pel[..k]) + BumpStale(pel[k..end], p.minIdle, p.now) + pel[end..], after)
    ensures after == p.Settle(pel[..end]) + pel[end..]
  {
    var target := p.Settle(pel[..end]) + pel[end..];
    TargetSorted(p, pel, end);
    forall e
      ensures e in target <==> e in after
    {
      TargetMember(p, pel, k, end, e);
    }
    SortedEqual(after, target);
  }

  lemma TargetSorted(p: Policy, pel: seq<PelEntry>, end: nat)
    requires Sorted(pel) && end <= |pel|
    ensures Sorted(p.Settle(pel[..end]) + pel[end..])
  {
    SettleSorted(p, pel[..end]);
    SettledIdsBelow(p, pel, end);
    var done := p.Settle(pel[..end]);
    forall i, j | 0 <= i < |done| && end <= j < |pel|
      ensures done[i].id < pel[j].id
    {
      assert done[i] in done;
    }
  }

  lemma TargetMember(p: Policy, pel: seq<PelEntry>, k: nat, end: nat, e: PelEntry)
    requires Sorted(pel) && k <= end <= |pel|
    ensures e in p.Settle(pel[..end]) + pel[end..] <==>
      e in p.Settle(pel[..k]) + BumpStale(pel[k..end], p.minIdle, p.now) + pel[end..] &&
      !(p.Read(e.id).None? && e.id in StaleIds(pel[k..end], p.minIdle, p.now))
  {
    assert pel[..end] == pel[..k] + pel[k..end];
    SettleAppend(p, pel[..k], pel[k..end]);
    if e in p.Settle(pel[..k]) || e in pel[end..] {
      OutsidePage(p, pel, k, end, e);
    } else {
      InsidePage(p, pel[k..end], e);
    }
  }

  lemma InsidePage(p: Policy, page: seq<PelEntry>, e: PelEntry)
    requires Sorted(page)
    ensures e in p.Settle(page) <==>
      e in BumpStale(page, p.minIdle, p.now) && !(p.Read(e.id).None? && e.id in StaleIds(page, p.minIdle, p.now))
  {
    var bumped := BumpStale(page, p.minIdle, p.now);
    StaleIdsMembers(page, p.minIdle, p.now);
    if e in p.Settle(page) {
      SettleFrom(p, page, e);
    } else if e in bumped {
      var i :| 0 <= i < |page| && e == bumped[i];
      assert page[i].id == e.id;
      if p.VerdictOf(page[i]) != Malformed {
        SettleKeeps(p, page, i);
      }
    }
  }

  lemma OutsidePage(p: Policy, pel: seq<PelEntry>, k: nat, end: nat, e: PelEntry)
    requires Sorted(pel) && k <= end <= |pel|
    requires e in p.Settle(pel[..k]) || e in pel[end..]
    ensures e.id !in StaleIds(pel[k..end], p.minIdle, p.now)
  {
    StaleIdsMembers(pel[k..end], p.minIdle, p.now);
    SettledIdsBelow(p, pel, k);
  }

  // ---------- the consumer ----------

  /** The delivery count of a pending id. */
  function CountOf(pel: seq<PelEntry>, id: nat): (c: Option<nat>)
    ensures c.Some? ==> exists k :: 0 <= k < |pel| && pel[k].id == id && pel[k].deliveries == c.value
    ensures c.None? ==> forall k :: 0 <= k < |pel| ==> pel[k].id != id
  {
    if pel == [] then None
    else if pel[0].id == id then Some(pel[0].deliveries)
    else CountOf(pel[1..], id)
  }

  lemma CountOfMember(pel: seq<PelEntry>, e: PelEntry)
    requires Sorted(pel) && e in pel
    ensures CountOf(pel, e.id) == Some(e.deliveries)
  {
    var i :| 0 <= i < |pel| && pel[i] == e;
    if CountOf(pel, e.id).Some? {
      var k :| 0 <= k < |pel| && pel[k].id == e.id && pel[k].deliveries == CountOf(pel, e.id).value;
      assert k == i;
    }
  }

  lemma {:induction false} SingleLookup(pel: seq<PelEntry>, id: nat)
    requires Sorted(pel)
    ensures var r := PendingRange(pel, id, id, 1);
      (r == [] <==> CountOf(pel, id).None?) && (r != [] ==> r[0].id == id && CountOf(pel, id) == Some(r[0].deliveries))
  {
    if pel != [] && pel[0].id != id {
      SingleLookup(pel[1..], id);
    }
  }

  /** At least ten pages, and three times as many as a sweep of full ones would take. */
  function CapFor(perSweep: nat, perCall: nat): nat
    requires perCall > 0
  {
    var cap := PagesFor(perSweep, perCall) * 3;
    if cap < 10 then 10 else cap
  }

  /**
   * How far a walk gets, in terms of the configured count and cap (100 and 1000 where they are not positive): it
   * sees at most the cap; without an error it stops short of the cap and of the end only after ten claims that
   * could have seen three times the cap; it makes no more claims than that takes; and a list no longer than the
   * cap is walked to its end.
   */
  ghost predicate WalkBounds(autoclaimCount: int, autoclaimMaxPerSweep: int, claims: nat, pending: nat, walked: nat, seen: nat, failed: bool) {
    var count, cap := if autoclaimCount <= 0 then 100 else autoclaimCount, if autoclaimMaxPerSweep <= 0 then 1000 else autoclaimMaxPerSweep;
    seen <= cap &&
    (!failed && walked < pending && seen < cap ==> claims >= 10 && claims * count >= 3 * cap) &&
    (claims <= 10 || (claims - 3) * count < 3 * cap) &&
    (!failed && pending <= cap ==> walked == pending)
  }

  function PagesFor(perSweep: nat, perCall: nat): (q: nat)
    requires perCall > 0
  {
    (perSweep + perCall - 1) / perCall
  }

  lemma PagesEnough(perSweep: nat, perCall: nat)
    requires perCall > 0
    ensures var q := PagesFor(perSweep, perCall); perSweep <= q * perCall < perSweep + perCall
  {
    var q, r := (perSweep + perCall - 1) / perCall, (perSweep + perCall - 1) % perCall;
    assert perSweep + perCall - 1 == q * perCall + r && 0 <= r < perCall;
  }

  lemma ThreeTimes(q: int, n: nat)
    ensures q * 3 * n == 3 * (q * n) && (q * 3 - 3) * n == 3 * (q * n) - 3 * n
  {
  }

  lemma MoreIsMore(a: int, b: int, n: nat)
    requires a <= b
    ensures a * n <= b * n
  {
  }

  lemma CapBounds(perSweep: nat, perCall: nat, claims: nat)
    requires perCall > 0
    ensures var cap := CapFor(perSweep, perCall);
      cap >= 10 && (claims >= cap ==> claims * perCall >= 3 * perSweep) &&
      (claims <= cap ==> claims <= 10 || (claims - 3) * perCall < 3 * perSweep)
  {
    var q, cap := PagesFor(perSweep, perCall), CapFor(perSweep, perCall);
    PagesEnough(perSweep, perCall);
    ThreeTimes(q, perCall);
    if claims >= cap {
      MoreIsMore(q * 3, claims, perCall);
    }
    if 10 < claims <= cap {
      MoreIsMore(claims - 3, q * 3 - 3, perCall);
    }
  }

  /** As long as the list fits the sweep, each page so far has passed a full page. */
  ghost predicate FullPages(pending: nat, perSweep: nat, perCall: nat, walked: nat, claims: nat) {
    pending <= perSweep ==> walked >= claims * perCall
  }

  lemma NoPages(pending: nat, perSweep: nat, perCall: nat, walked: nat)
    ensures FullPages(pending, perSweep, perCall, walked, 0)
  {
  }

  lemma NextPage(pending: nat, perSweep: nat, perCall: nat, before: nat, walked: nat, seen: nat, claims: nat)
    requires claims > 0 && FullPages(pending, perSweep, perCall, before, claims - 1) && seen <= before && seen < perSweep
    requires var count := if perSweep - seen < perCall then perSweep - seen else perCall; walked == pending || walked >= before + count
    requires walked <= pending
    ensures walked == pending || FullPages(pending, perSweep, perCall, walked, claims)
  {
    assert claims * perCall == (claims - 1) * perCall + perCall;
  }

  lemma CapIsEnough(pending: nat, perSweep: nat, perCall: nat, walked: nat, seen: nat, claims: nat)
    requires perCall > 0 && perSweep > 0 && seen <= walked <= pending && (walked == pending || FullPages(pending, perSweep, perCall, walked, claims))
    requires seen >= perSweep || claims >= CapFor(perSweep, perCall)
    ensures pending <= perSweep ==> walked == pending
  {
    CapBounds(perSweep, perCall, claims);
  }

  lemma PagePassed(p: Policy, all: seq<PelEntry>, perSweep: nat, perCall: nat, before: nat, walked: nat, seen: nat, claims: nat)
    requires before <= walked <= |all| && FullPages(|all|, perSweep, perCall, before, claims)
    requires seen == |StaleIds(all[..before], p.minIdle, p.now)| < perSweep
    requires var count := if perSweep - seen < perCall then perSweep - seen else perCall; walked == |all| || walked >= before + count
    ensures walked == |all| || FullPages(|all|, perSweep, perCall, walked, claims + 1)
  {
    StaleAtMost(all[..before], p.minIdle, p.now);
    NextPage(|all|, perSweep, perCall, before, walked, seen, claims + 1);
  }

  lemma WalkStops(p: Policy, all: seq<PelEntry>, perSweep: nat, perCall: nat, walked: nat, seen: nat, claims: nat)
    requires perCall > 0 && perSweep > 0 && walked <= |all| && seen == |StaleIds(all[..walked], p.minIdle, p.now)|
    requires walked == |all| || FullPages(|all|, perSweep, perCall, walked, claims)
    ensures seen >= perSweep || claims >= CapFor(perSweep, perCall) ==> |all| <= perSweep ==> walked == |all|
  {
    StaleAtMost(all[..walked], p.minIdle, p.now);
    if seen >= perSweep || claims >= CapFor(perSweep, perCall) {
      CapIsEnough(|all|, perSweep, perCall, walked, seen, claims);
    }
  }

  class Consumer {
    const rdb: Server
    const minIdle: int
    const maxDeliveries: int
    const autoclaimCount: int
    const autoclaimMaxPerSweep: int

    constructor (rdb: Server, minIdle: int, maxDeliveries: int, autoclaimCount: int, autoclaimMaxPerSweep: int)
      ensures this.rdb == rdb && this.minIdle == minIdle && this.maxDeliveries == maxDeliveries
      ensures this.autoclaimCount == autoclaimCount && this.autoclaimMaxPerSweep == autoclaimMaxPerSweep
    {
      this.rdb, this.minIdle, this.maxDeliveries := rdb, minIdle, maxDeliveries;
      this.autoclaimCount, this.autoclaimMaxPerSweep := autoclaimCount, autoclaimMaxPerSweep;
    }

    function PerCall(): (n: nat)
      ensures n > 0
    {
      if autoclaimCount <= 0 then 100 else autoclaimCount
    }

    function PerSweep(): (n: nat)
      ensures n > 0
    {
      if autoclaimMaxPerSweep <= 0 then 1000 else autoclaimMaxPerSweep
    }

    function IterationCap(): nat {
      CapFor(PerSweep(), PerCall())
    }

    function PolicyAt(jobId: string, now: int): Policy
      reads rdb
    {
      Policy(Readable(rdb.db.StreamAt(StreamKey(jobId)).entries), minIdle, maxDeliveries, now)
    }

    function PelAt(jobId: string): seq<PelEntry>
      reads rdb
    {
      rdb.db.StreamAt(StreamKey(jobId)).pel
    }

    method Ack(key: string, id: nat)
      requires rdb.db.Valid()
      modifies rdb
      ensures rdb.db == old(rdb.db).XAck(key, id) && rdb.db.Valid()
    {
      if key in rdb.db.streams {
        AckValid(rdb.db.streams[key], id);
      }
      rdb.db := rdb.db.XAck(key, id);
    }

    /**
     * XREADGROUP: the next undelivered entries, at most count of them, become pending; the readable ones are
     * handed out in order, the unreadable ones acknowledged at once.
     */
    method Read(jobId: string, count: nat, now: int) returns (msgs: seq<StreamMessage>)
      requires rdb.db.Valid()
      modifies rdb
      ensures rdb.db.Valid()
      ensures StreamKey(jobId) !in old(rdb.db.streams) ==> rdb.db == old(rdb.db) && msgs == []
      ensures StreamKey(jobId) in old(rdb.db.streams) ==>
        ReadEffect(old(PolicyAt(jobId, now)), old(rdb.db.streams[StreamKey(jobId)]), count, rdb.db.StreamAt(StreamKey(jobId)), msgs) &&
        rdb.db == old(rdb.db).(streams := old(rdb.db.streams)[StreamKey(jobId) := rdb.db.StreamAt(StreamKey(jobId))])
    {
      var key, p := StreamKey(jobId), PolicyAt(jobId, now);
      msgs := [];
      if key !in rdb.db.streams {
        return;
      }
      ghost var start := rdb.db;
      var ids := NextIds(rdb.db.streams[key], count);
      ReadValid(rdb.db, key, count, now);
      rdb.db := rdb.db.XReadGroup(key, count, now);
      ghost var read := rdb.db;
      ReadChanges(start, key, count, now);
      var parsed := ParseClaimed(key, ids, p);
      msgs := HandOut(parsed);
      ReadThenAck(p, start, key, count, read, rdb.db, ids);
    }

    method HandOut(parsed: seq<Option<StreamMessage>>) returns (msgs: seq<StreamMessage>)
      ensures msgs == Somes(parsed)
    {
      msgs := [];
      for i := 0 to |parsed|
        invariant msgs == Somes(parsed[..i])
      {
        assert parsed[..i + 1][..i] == parsed[..i];
        if parsed[i].Some? {
          msgs := msgs + [parsed[i].value];
        }
      }
      assert parsed[..|parsed|] == parsed;
    }

    /** Parses the claimed messages and acknowledges the unreadable ones. */
    method ParseClaimed(key: string, ids: seq<nat>, p: Policy) returns (parsed: seq<Option<StreamMessage>>)
      requires rdb.db.Valid() && key in rdb.db.streams
      modifies rdb
      ensures rdb.db.Valid() && OnlyPelChanged(old(rdb.db), key, rdb.db)
      ensures MalformedAcked(p, ids, old(rdb.db.streams[key].pel), rdb.db.streams[key].pel)
      ensures parsed == ReadAll(p, ids)
    {
      ghost var pel := rdb.db.streams[key].pel;
      parsed := [];
      for i := 0 to |ids|
        invariant rdb.db.Valid() && OnlyPelChanged(old(rdb.db), key, rdb.db) && rdb.db.streams[key].pel == pel
        invariant MalformedAcked(p, ids[..i], old(rdb.db.streams[key].pel), pel)
        invariant parsed == ReadAll(p, ids[..i])
      {
        assert ids[..i + 1] == ids[..i] + [ids[i]];
        AckStep(p, ids[..i], ids[i], old(rdb.db.streams[key].pel), pel);
        var m := p.Read(ids[i]);
        parsed := parsed + [m];
        if m.None? {
          AckChangesPel(old(rdb.db), key, rdb.db, ids[i]);
          Ack(key, ids[i]);
          pel := Without(pel, ids[i]);
        }
      }
      assert ids[..|ids|] == ids;
    }

    /**
     * classifyBatch: acknowledges the unreadable claimed entries and looks up the delivery counts of the
     * others.
     */
    method ClassifyBatch(key: string, ids: seq<nat>, p: Policy, pendingFails: bool, singleFails: set<nat>)
      returns (delivered: map<nat, nat>, parsed: seq<Option<StreamMessage>>)
      requires rdb.db.Valid() && key in rdb.db.streams
      modifies rdb
      ensures rdb.db.Valid() && OnlyPelChanged(old(rdb.db), key, rdb.db)
      ensures MalformedAcked(p, ids, old(rdb.db.streams[key].pel), rdb.db.streams[key].pel)
      ensures parsed == ReadAll(p, ids)
      ensures CountsMatch(rdb.db.streams[key].pel, ids, parsed, delivered, pendingFails, singleFails)
    {
      parsed := ParseClaimed(key, ids, p);
      assert rdb.db.streams[key].Valid();
      delivered := LookUpCounts(rdb.db.streams[key].pel, ids, parsed, pendingFails, singleFails);
    }

    /** XAUTOCLAIM from where the walk below stands. */
    method ClaimEntries(key: string, p: Policy, cursor: nat, count: nat, ghost all: seq<PelEntry>, ghost k: nat)
      returns (claim: Claim, ghost end: nat)
      requires rdb.db.Valid() && key in rdb.db.streams
      requires WalkState(p, all, k, rdb.db.streams[key]) && CursorAt(all, k, cursor)
      modifies rdb
      ensures rdb.db.Valid() && OnlyPelChanged(old(rdb.db), key, rdb.db) && rdb.db.streams[key].pel == claim.pel
      ensures k <= end <= |all| && (end == |all| || end >= k + count) && |claim.ids| <= count
      ensures claim == Claim(p.Settle(all[..k]) + BumpStale(all[k..end], p.minIdle, p.now) + all[end..],
                             StaleIds(all[k..end], p.minIdle, p.now), if end < |all| then all[end].id else 0)
    {
      claim := AutoClaim(rdb.db.streams[key].pel, cursor, count, p.minIdle, p.now);
      PageClaims(p, all, k, cursor, count);
      end := PageEnd(p, all, k, count);
      ClaimKeepsValid(p, all, k, end, rdb.db.streams[key].delivered);
      SetPelTwice(rdb.db, key, claim.pel);
      SetPelValid(rdb.db, key, claim.pel);
      hide AutoClaim, WalkState, StaleIds, BumpStale, CursorAt;
      rdb.db := rdb.db.SetPel(key, claim.pel);
    }

    /** One XAUTOCLAIM page of the walk below, which has passed the first k of the entries in all. */
    method ClaimPage(key: string, p: Policy, cursor: nat, count: nat, pendingFails: bool, singleFails: set<nat>,
                     ghost all: seq<PelEntry>, ghost k: nat)
      returns (next: nat, seen: nat, reclaimed: seq<StreamMessage>, deadLetter: seq<StreamMessage>,
               ghost end: nat, ghost unclassified: set<nat>)
      requires rdb.db.Valid() && key in rdb.db.streams
      requires WalkState(p, all, k, rdb.db.streams[key]) && CursorAt(all, k, cursor)
      modifies rdb
      ensures rdb.db.Valid() && OnlyPelChanged(old(rdb.db), key, rdb.db) && key in rdb.db.streams
      ensures k <= end && WalkState(p, all, end, rdb.db.streams[key]) && (end == |all| || end >= k + count)
      ensures seen == |StaleIds(all[k..end], p.minIdle, p.now)| <= count
      ensures next == (if end < |all| then all[end].id else 0)
      ensures reclaimed == p.Pick(all[k..end], Reclaim, unclassified)
      ensures deadLetter == p.Pick(all[k..end], DeadLetter, unclassified)
      ensures unclassified <= IdSet(all[k..end])
      ensures !pendingFails && singleFails == {} ==> unclassified == {}
    {
      ghost var before := rdb.db;
      var claim;
      claim, end := ClaimEntries(key, p, cursor, count, all, k);
      next, seen := claim.next, |claim.ids|;
      label claimed:
      var delivered, parsed := ClassifyBatch(key, claim.ids, p, pendingFails, singleFails);
      ghost var after := rdb.db.streams[key].pel;
      PelChangesCompose(before, key, old@claimed(rdb.db), rdb.db);
      AfterAck(p, all, k, end, after);
      Arrives(p, all, k, end, before.streams[key], rdb.db.streams[key]);
      unclassified := PageUnclassified(p, all, k, end, claim.pel, after, parsed, delivered, pendingFails, singleFails);
      reclaimed, deadLetter := SplitByCount(p, claim.ids, parsed, delivered);
    }

    /**
     * The walk over the pending list. Page number i fails to claim when i is in claimFails and finds no
     * delivery counts when i is in pendingFails; walked says how far the walk got.
     */
    method ReclaimStale(jobId: string, now: int, claimFails: set<nat>, pendingFails: set<nat>, singleFails: set<nat>)
      returns (reclaimed: seq<StreamMessage>, deadLetter: seq<StreamMessage>, failed: bool, claims: nat,
               ghost walked: nat, ghost unclassified: set<nat>)
      requires rdb.db.Valid()
      modifies rdb
      ensures rdb.db.Valid()
      ensures StreamKey(jobId) !in old(rdb.db.streams) ==> rdb.db == old(rdb.db) && walked == 0
      ensures StreamKey(jobId) in old(rdb.db.streams) ==>
        OnlyPelChanged(old(rdb.db), StreamKey(jobId), rdb.db) &&
        WalkState(old(PolicyAt(jobId, now)), old(PelAt(jobId)), walked, rdb.db.streams[StreamKey(jobId)])
      ensures walked <= |old(PelAt(jobId))|
      ensures WalkBounds(autoclaimCount, autoclaimMaxPerSweep, claims, |old(PelAt(jobId))|, walked,
                         |StaleIds(old(PelAt(jobId))[..walked], minIdle, now)|, failed)
      ensures !failed ==> Collected(old(PolicyAt(jobId, now)), old(PelAt(jobId)), walked, unclassified, reclaimed, deadLetter)
      ensures failed ==> reclaimed == [] && deadLetter == []
      ensures claimFails == {} ==> !failed
      ensures pendingFails == {} && singleFails == {} ==> unclassified == {}
      ensures !failed && walked == |old(PelAt(jobId))| && unclassified == {} ==>
        ExactlyStale(old(PolicyAt(jobId, now)), old(PelAt(jobId)), reclaimed, deadLetter)
    {
      var key, p := StreamKey(jobId), PolicyAt(jobId, now);
      ghost var all := PelAt(jobId);
      if key !in rdb.db.streams {
        assert all[..0] == [];
        ReadableIds(rdb.db.StreamAt(key).entries);
        CompleteWalkIsExact(p, all, [], []);
        return [], [], false, 0, 0, {};
      }
      WalkStarts(p, rdb.db, key);
      ReadableIds(rdb.db.StreamAt(key).entries);
      reclaimed, deadLetter, failed, claims, walked, unclassified := Walk(key, p, claimFails, pendingFails, singleFails, all);
      CapBounds(PerSweep(), PerCall(), claims);
      if !failed && walked == |all| && unclassified == {} {
        CompleteWalkIsExact(p, all, reclaimed, deadLetter);
      }
    }

    /** A page, added to what the pages before it collected. */
    method WalkPage(key: string, p: Policy, cursor: nat, count: nat, pendingFails: bool, singleFails: set<nat>, ghost all: seq<PelEntry>,
                    ghost walked: nat, ghost unclassified: set<nat>, reclaimed: seq<StreamMessage>, deadLetter: seq<StreamMessage>)
      returns (next: nat, got: nat, allReclaimed: seq<StreamMessage>, allDead: seq<StreamMessage>, ghost end: nat, ghost skipped: set<nat>)
      requires rdb.db.Valid() && key in rdb.db.streams && WalkState(p, all, walked, rdb.db.streams[key])
      requires CursorAt(all, walked, cursor) && Collected(p, all, walked, unclassified, reclaimed, deadLetter)
      modifies rdb
      ensures rdb.db.Valid() && OnlyPelChanged(old(rdb.db), key, rdb.db) && key in rdb.db.streams
      ensures walked <= end <= |all| && WalkState(p, all, end, rdb.db.streams[key]) && (end == |all| || end >= walked + count)
      ensures Collected(p, all, end, skipped, allReclaimed, allDead)
      ensures got <= count && |StaleIds(all[..end], p.minIdle, p.now)| == |StaleIds(all[..walked], p.minIdle, p.now)| + got
      ensures if next == 0 then end == |all| else CursorAt(all, end, next)
      ensures !pendingFails && singleFails == {} && unclassified == {} ==> skipped == {}
    {
      var r, d;
      ghost var passed;
      next, got, r, d, end, passed := ClaimPage(key, p, cursor, count, pendingFails, singleFails, all, walked);
      PageJoins(p, all, walked, end, unclassified, passed, reclaimed, deadLetter);
      NextIsEnd(p, all, end, rdb.db.streams[key]);
      allReclaimed, allDead, skipped := reclaimed + r, deadLetter + d, unclassified + passed;
    }

    method Walk(key: string, p: Policy, claimFails: set<nat>, pendingFails: set<nat>, singleFails: set<nat>, ghost all: seq<PelEntry>)
      returns (reclaimed: seq<StreamMessage>, deadLetter: seq<StreamMessage>, failed: bool, claims: nat,
               ghost walked: nat, ghost unclassified: set<nat>)
      requires rdb.db.Valid() && OnlyPelChanged(rdb.db, key, rdb.db) && key in rdb.db.streams
      requires WalkState(p, all, 0, rdb.db.streams[key]) && Collected(p, all, 0, {}, [], [])
      modifies rdb
      ensures rdb.db.Valid() && OnlyPelChanged(old(rdb.db), key, rdb.db)
      ensures key in rdb.db.streams && WalkState(p, all, walked, rdb.db.streams[key])
      ensures claims <= IterationCap() && |StaleIds(all[..walked], p.minIdle, p.now)| <= PerSweep()
      ensures !failed ==> Collected(p, all, walked, unclassified, reclaimed, deadLetter)
      ensures !failed && walked < |all| ==> |StaleIds(all[..walked], p.minIdle, p.now)| == PerSweep() || claims == IterationCap()
      ensures !failed && |all| <= PerSweep() ==> walked == |all|
      ensures failed ==> reclaimed == [] && deadLetter == []
      ensures claimFails == {} ==> !failed
      ensures pendingFails == {} && singleFails == {} ==> unclassified == {}
    {
      reclaimed, deadLetter, failed, claims, walked, unclassified := [], [], false, 0, 0, {};
      var perSweep, perCall, cap := PerSweep(), PerCall(), IterationCap();
      NoPages(|all|, perSweep, perCall, 0);
      var cursor, seen := 0, 0;
      assert all[..0] == [] && CursorAt(all, 0, 0);
      hide WalkState, Collected, FullPages, CapFor, CursorAt, StaleIds, IdSet, OnlyPelChanged;
      while true
        invariant rdb.db.Valid() && OnlyPelChanged(old(rdb.db), key, rdb.db)
        invariant key in rdb.db.streams && WalkState(p, all, walked, rdb.db.streams[key])
        invariant CursorAt(all, walked, cursor) && Collected(p, all, walked, unclassified, reclaimed, deadLetter)
        invariant seen == |StaleIds(all[..walked], p.minIdle, p.now)| < perSweep && claims < cap
        invariant !failed && (pendingFails == {} && singleFails == {} ==> unclassified == {})
        invariant FullPages(|all|, perSweep, perCall, walked, claims)
        decreases cap - claims
      {
        var count := if perSweep - seen < perCall then perSweep - seen else perCall;
        if claims in claimFails {
          return [], [], true, claims, walked, unclassified;
        }
        label page:
        ghost var before := walked;
        var next, got;
        next, got, reclaimed, deadLetter, walked, unclassified :=
          WalkPage(key, p, cursor, count, claims in pendingFails, singleFails, all, walked, unclassified, reclaimed, deadLetter);
        PelChangesCompose(old(rdb.db), key, old@page(rdb.db), rdb.db);
        PagePassed(p, all, perSweep, perCall, before, walked, seen, claims);
        seen, claims := seen + got, claims + 1;
        if next == 0 || seen >= perSweep || claims >= cap {
          WalkStops(p, all, perSweep, perCall, walked, seen, claims);
          return;
        }
        cursor := next;
      }
    }
  }

  function Somes(parsed: seq<Option<StreamMessage>>): seq<StreamMessage> {
    if parsed == [] then []
    else Somes(parsed[..|parsed| - 1]) + (if parsed[|parsed| - 1].Some? then [parsed[|parsed| - 1].value] else [])
  }

  /** The ids a read of at most count entries hands out. */
  function NextIds(s: Stream, count: nat): seq<nat>
    requires s.delivered <= |s.entries|
  {
    seq(if s.delivered + count <= |s.entries| then count else |s.entries| - s.delivered, k => s.delivered + 1 + k)
  }

  /** The next entries are delivered once and pending now, but for the unreadable ones; nothing else changes. */
  ghost predicate ReadEffect(p: Policy, before: Stream, count: nat, after: Stream, msgs: seq<StreamMessage>) {
    before.delivered <= |before.entries| &&
    after.entries == before.entries && after.delivered == before.delivered + |NextIds(before, count)| &&
    after.delivered == (if before.delivered + count <= |before.entries| then before.delivered + count else |before.entries|) &&
    msgs == Somes(ReadAll(p, NextIds(before, count))) &&
    forall e :: e in after.pel <==>
      e in before.pel || (e == PelEntry(e.id, 1, p.now) && before.delivered < e.id <= after.delivered && p.Read(e.id).Some?)
  }

  lemma ReadChanges(db: Store, key: string, count: nat, now: int)
    requires db.Valid() && key in db.streams
    ensures var s, ids := db.streams[key], NextIds(db.streams[key], count);
      db.XReadGroup(key, count, now) == db.(streams := db.streams[key :=
        Stream(s.entries, s.delivered + |ids|, s.pel + Redis.Fresh(s.delivered + 1, |ids|, now))])
  {
    assert db.streams[key].Valid();
  }

  lemma ReadThenAck(p: Policy, start: Store, key: string, count: nat, read: Store, end: Store, ids: seq<nat>)
    requires start.Valid() && key in start.streams && ids == NextIds(start.streams[key], count)
    requires read == start.XReadGroup(key, count, p.now) && OnlyPelChanged(read, key, end)
    requires MalformedAcked(p, ids, read.streams[key].pel, end.streams[key].pel)
    ensures ReadEffect(p, start.streams[key], count, end.StreamAt(key), Somes(ReadAll(p, ids)))
    ensures end == start.(streams := start.streams[key := end.StreamAt(key)])
  {
    var s := start.streams[key];
    ReadChanges(start, key, count, p.now);
    ReadIsExact(p, s, count, read.streams[key], end.streams[key].pel, ids);
    assert start.streams[key := read.streams[key]][key := end.streams[key]] == start.streams[key := end.streams[key]];
  }

  lemma ReadIsExact(p: Policy, s: Stream, count: nat, read: Stream, pel: seq<PelEntry>, ids: seq<nat>)
    requires s.Valid() && ids == NextIds(s, count)
    requires read == Stream(s.entries, s.delivered + |ids|, s.pel + Redis.Fresh(s.delivered + 1, |ids|, p.now))
    requires MalformedAcked(p, ids, read.pel, pel)
    ensures ReadEffect(p, s, count, read.(pel := pel), Somes(ReadAll(p, ids)))
  {
    forall e
      ensures e in pel <==> e in s.pel || (e == PelEntry(e.id, 1, p.now) && s.delivered < e.id <= read.delivered && p.Read(e.id).Some?)
    {
      if s.delivered < e.id <= read.delivered {
        assert ids[e.id - s.delivered - 1] == e.id;
        assert Redis.Fresh(s.delivered + 1, |ids|, p.now)[e.id - s.delivered - 1] == PelEntry(e.id, 1, p.now);
      }
    }
  }

  /** The two lists are exactly what the first k entries amount to, ids in unclassified having got no count. */
  ghost predicate Collected(p: Policy, all: seq<PelEntry>, k: nat, unclassified: set<nat>,
                            reclaimed: seq<StreamMessage>, deadLetter: seq<StreamMessage>) {
    k <= |all| && unclassified <= IdSet(all[..k]) &&
    reclaimed == p.Pick(all[..k], Reclaim, unclassified) && deadLetter == p.Pick(all[..k], DeadLetter, unclassified)
  }

  lemma NextIsEnd(p: Policy, all: seq<PelEntry>, k: nat, s: Stream)
    requires WalkState(p, all, k, s)
    ensures k < |all| ==> all[k].id != 0
  {
    assert k < |all| ==> all[k] in all;
  }

  /** The walk has passed the first k of the entries that were pending when it began. */
  ghost predicate WalkState(p: Policy, all: seq<PelEntry>, k: nat, s: Stream) {
    Sorted(all) && k <= |all| && (forall e :: e in all ==> 1 <= e.id <= s.delivered) &&
    s.delivered <= |s.entries| && s.pel == p.Settle(all[..k]) + all[k..]
  }

  lemma Arrives(p: Policy, all: seq<PelEntry>, k: nat, end: nat, before: Stream, after: Stream)
    requires WalkState(p, all, k, before) && end <= |all|
    requires after == before.(pel := after.pel) && after.pel == p.Settle(all[..end]) + all[end..]
    ensures WalkState(p, all, end, after)
  {
  }

  lemma WalkStarts(p: Policy, db: Store, key: string)
    requires db.Valid() && key in db.streams
    ensures var s := db.streams[key];
      OnlyPelChanged(db, key, db) && WalkState(p, s.pel, 0, s) && Collected(p, s.pel, 0, {}, [], [])
  {
    var s := db.streams[key];
    assert s.pel[..0] == [];
    assert p.Settle([]) + s.pel[0..] == s.pel;
    assert db.streams[key := s.(pel := s.pel)] == db.streams;
  }

  lemma PelChangesCompose(a: Store, key: string, b: Store, c: Store)
    requires OnlyPelChanged(a, key, b) && OnlyPelChanged(b, key, c)
    ensures OnlyPelChanged(a, key, c)
  {
    SetPelTwice(a, key, c.streams[key].pel);
  }

  lemma {:induction false} StaleIdsAppend(a: seq<PelEntry>, b: seq<PelEntry>, minIdle: int, now: int)
    ensures StaleIds(a + b, minIdle, now) == StaleIds(a, minIdle, now) + StaleIds(b, minIdle, now)
  {
    if b == [] {
      assert a + b == a;
    } else {
      StaleIdsAppend(a, b[..|b| - 1], minIdle, now);
      assert (a + b)[..|a + b| - 1] == a + b[..|b| - 1];
    }
  }

  /** What a page yields continues what the walk has collected so far. */
  lemma PageJoins(p: Policy, all: seq<PelEntry>, k: nat, end: nat, skipped: set<nat>, more: set<nat>,
                  reclaimed: seq<StreamMessage>, deadLetter: seq<StreamMessage>)
    requires Sorted(all) && k <= end <= |all|
    requires Collected(p, all, k, skipped, reclaimed, deadLetter) && more <= IdSet(all[k..end])
    ensures Collected(p, all, end, skipped + more,
      reclaimed + p.Pick(all[k..end], Reclaim, more), deadLetter + p.Pick(all[k..end], DeadLetter, more))
    ensures |StaleIds(all[..end], p.minIdle, p.now)| == |StaleIds(all[..k], p.minIdle, p.now)| + |StaleIds(all[k..end], p.minIdle, p.now)|
  {
    var a, b := all[..k], all[k..end];
    assert all[..end] == a + b;
    StaleIdsAppend(a, b, p.minIdle, p.now);
    forall id | id in skipped + more
      ensures id in IdSet(all[..end])
    {
      var e :| (e in a || e in b) && e.id == id;
      assert e in all[..end];
    }
    IdsApart(all, k, end);
    forall want | want == Reclaim || want == DeadLetter
      ensures p.Pick(a + b, want, skipped + more) == p.Pick(a, want, skipped) + p.Pick(b, want, more)
    {
      PickAppend(p, a, b, want, skipped + more);
      PickSkipsMore(p, a, want, skipped, more);
      PickSkipsMore(p, b, want, more, skipped);
      assert more + skipped == skipped + more;
    }
  }

  lemma IdsApart(all: seq<PelEntry>, k: nat, end: nat)
    requires Sorted(all) && k <= end <= |all|
    ensures forall e :: e in all[..k] ==> e.id !in IdSet(all[k..end])
    ensures forall e :: e in all[k..end] ==> e.id !in IdSet(all[..k])
  {
    forall e, f | e in all[..k] && f in all[k..end]
      ensures e.id < f.id
    {
      var i :| 0 <= i < k && all[..k][i] == e;
      var j :| 0 <= j < end - k && all[k..end][j] == f;
      assert all[i].id < all[k + j].id;
    }
  }

  // ---------- what a complete walk amounts to ----------

  lemma {:induction false} PickMembers(p: Policy, pel: seq<PelEntry>, want: Verdict, m: StreamMessage)
    requires want == Reclaim || want == DeadLetter
    ensures m in p.Pick(pel, want, {}) <==> exists k :: 0 <= k < |pel| && p.VerdictOf(pel[k]) == want && p.Read(pel[k].id) == Some(m)
  {
    if pel != [] {
      var rest, last := pel[..|pel| - 1], pel[|pel| - 1];
      PickMembers(p, rest, want, m);
      if m in p.Pick(rest, want, {}) {
        var k :| 0 <= k < |rest| && p.VerdictOf(rest[k]) == want && p.Read(rest[k].id) == Some(m);
        assert pel[k] == rest[k];
      }
      if p.VerdictOf(last) == want && p.Read(last.id) == Some(m) {
        assert pel[|rest|] == last;
      }
      forall k | 0 <= k < |rest|
        ensures pel[k] == rest[k]
      {
      }
    }
  }

  ghost predicate AscendingMessages(ms: seq<StreamMessage>) {
    forall i, j :: 0 <= i < j < |ms| ==> ms[i].messageId < ms[j].messageId
  }

  lemma {:induction false} PickAscends(p: Policy, pel: seq<PelEntry>, want: Verdict)
    requires want == Reclaim || want == DeadLetter
    requires Sorted(pel) && forall id :: id in p.readable ==> p.readable[id].messageId == id
    ensures AscendingMessages(p.Pick(pel, want, {}))
    ensures forall m :: m in p.Pick(pel, want, {}) ==> pel != [] && m.messageId <= pel[|pel| - 1].id
  {
    if pel != [] {
      var rest, last := pel[..|pel| - 1], pel[|pel| - 1];
      PickAscends(p, rest, want);
      var before := p.Pick(rest, want, {});
      forall i | 0 <= i < |before|
        ensures before[i].messageId < last.id
      {
        assert before[i] in before;
      }
    }
  }

  /** A readable entry that is stale, its count after the claim at the limit or else below it. */
  ghost predicate StaleMessage(p: Policy, pel: seq<PelEntry>, m: StreamMessage, atLimit: bool) {
    p.Read(m.messageId) == Some(m) &&
    exists e :: e in pel && e.id == m.messageId && Stale(e, p.minIdle, p.now) && (e.deliveries + 1 >= p.maxDeliveries) == atLimit
  }

  /** The stale readable entries below and at the limit, each once and in id order. */
  ghost predicate ExactlyStale(p: Policy, pel: seq<PelEntry>, reclaimed: seq<StreamMessage>, deadLetter: seq<StreamMessage>) {
    AscendingMessages(reclaimed) && AscendingMessages(deadLetter) &&
    (forall m :: m in reclaimed <==> StaleMessage(p, pel, m, false)) && (forall m :: m in deadLetter <==> StaleMessage(p, pel, m, true))
  }

  /**
   * A complete walk puts every readable stale entry in exactly one of the two lists, by its delivery count,
   * without duplicates and in id order, and nothing else in either.
   */
  lemma CompleteWalkIsExact(p: Policy, pel: seq<PelEntry>, reclaimed: seq<StreamMessage>, deadLetter: seq<StreamMessage>)
    requires Sorted(pel) && forall id :: id in p.readable ==> p.readable[id].messageId == id
    requires Collected(p, pel, |pel|, {}, reclaimed, deadLetter)
    ensures ExactlyStale(p, pel, reclaimed, deadLetter)
    ensures forall m :: !(m in reclaimed && m in deadLetter)
  {
    assert pel[..|pel|] == pel;
    PickAscends(p, pel, Reclaim);
    PickAscends(p, pel, DeadLetter);
    forall m
      ensures m in reclaimed <==> StaleMessage(p, pel, m, false)
      ensures m in deadLetter <==> StaleMessage(p, pel, m, true)
      ensures !(m in reclaimed && m in deadLetter)
    {
      MessageVerdict(p, pel, m);
    }
  }

  lemma MessageVerdict(p: Policy, pel: seq<PelEntry>, m: StreamMessage)
    requires Sorted(pel) && forall id :: id in p.readable ==> p.readable[id].messageId == id
    ensures m in p.Pick(pel, Reclaim, {}) <==> StaleMessage(p, pel, m, false)
    ensures m in p.Pick(pel, DeadLetter, {}) <==> StaleMessage(p, pel, m, true)
    ensures !(m in p.Pick(pel, Reclaim, {}) && m in p.Pick(pel, DeadLetter, {}))
  {
    PickMembers(p, pel, Reclaim, m);
    PickMembers(p, pel, DeadLetter, m);
    forall k | 0 <= k < |pel|
      ensures pel[k] in pel
    {
    }
  }

  /** Readable are exactly the entries of the stream that parseStreamMessage accepts, and as it reads them. */
  lemma ReadableIsParsed(entries: seq<Fields>, id: nat)
    ensures id in Readable(entries) <==> 1 <= id <= |entries| && ParseStreamMessage(id, entries[id - 1]).Some?
    ensures id in Readable(entries) ==> ParseStreamMessage(id, entries[id - 1]) == Some(Readable(entries)[id])
  {
  }

  lemma ReadableIds(entries: seq<Fields>)
    ensures forall id :: id in Readable(entries) ==> Readable(entries)[id].messageId == id
  {
  }

  ghost function IdSet(pel: seq<PelEntry>): set<nat> {
    set e | e in pel :: e.id
  }

  lemma SetPelValid(db: Store, key: string, pel: seq<PelEntry>)
    requires db.Valid() && key in db.streams && Sorted(pel) && forall e :: e in pel ==> 1 <= e.id <= db.streams[key].delivered
    ensures db.SetPel(key, pel).Valid()
  {
    assert db.streams[key].Valid();
  }

  lemma SetPelTwice(db: Store, key: string, pel: seq<PelEntry>)
    requires key in db.streams
    ensures OnlyPelChanged(db, key, db.SetPel(key, pel)) && db.SetPel(key, pel).streams[key].pel == pel
    ensures forall other: seq<PelEntry> :: db.SetPel(key, other).SetPel(key, pel) == db.SetPel(key, pel)
  {
    var s := db.streams[key];
    forall other: seq<PelEntry>
      ensures db.SetPel(key, other).SetPel(key, pel) == db.SetPel(key, pel)
    {
      assert db.streams[key := s.(pel := other)][key := s.(pel := pel)] == db.streams[key := s.(pel := pel)];
    }
  }

  lemma ClaimKeepsValid(p: Policy, all: seq<PelEntry>, k: nat, end: nat, delivered: nat)
    requires Sorted(all) && k <= end <= |all| && forall e :: e in all ==> 1 <= e.id <= delivered
    ensures var pel := p.Settle(all[..k]) + BumpStale(all[k..end], p.minIdle, p.now) + all[end..];
      Sorted(pel) && forall e :: e in pel ==> 1 <= e.id <= delivered
  {
    var done, tail := p.Settle(all[..k]), BumpStale(all[k..end], p.minIdle, p.now) + all[end..];
    SettleSorted(p, all[..k]);
    SettledWithin(p, all, k, delivered);
    TailIds(p, all, k, end, delivered);
    forall i, j | 0 <= i < |done| && 0 <= j < |tail|
      ensures done[i].id < tail[j].id
    {
      assert done[i] in done;
      SettledIdsBelow(p, all, k);
      assert tail[j].id == all[k + j].id;
    }
    assert done + BumpStale(all[k..end], p.minIdle, p.now) + all[end..] == done + tail;
    SortedConcat(done, tail);
  }

  lemma TailIds(p: Policy, all: seq<PelEntry>, k: nat, end: nat, delivered: nat)
    requires Sorted(all) && k <= end <= |all| && forall e :: e in all ==> 1 <= e.id <= delivered
    ensures var tail := BumpStale(all[k..end], p.minIdle, p.now) + all[end..];
      |tail| == |all| - k && Sorted(tail) && (forall i :: 0 <= i < |tail| ==> tail[i].id == all[k + i].id) &&
      forall e :: e in tail ==> 1 <= e.id <= delivered
  {
    var bumped := BumpStale(all[k..end], p.minIdle, p.now);
    var tail := bumped + all[end..];
    forall i | 0 <= i < |tail|
      ensures tail[i].id == all[k + i].id && 1 <= tail[i].id <= delivered
    {
      assert all[k + i] in all;
      if i < end - k {
        assert tail[i] == bumped[i];
      }
    }
  }

  lemma SettledWithin(p: Policy, all: seq<PelEntry>, k: nat, delivered: nat)
    requires k <= |all| && forall e :: e in all ==> 1 <= e.id <= delivered
    ensures forall e :: e in p.Settle(all[..k]) ==> 1 <= e.id <= delivered
  {
    forall e | e in p.Settle(all[..k])
      ensures 1 <= e.id <= delivered
    {
      SettleFrom(p, all[..k], e);
      var j :| 0 <= j < k && e.id == all[..k][j].id;
      assert all[j] in all;
    }
  }

  lemma SortedConcat(a: seq<PelEntry>, b: seq<PelEntry>)
    requires Sorted(a) && Sorted(b) && forall i, j :: 0 <= i < |a| && 0 <= j < |b| ==> a[i].id < b[j].id
    ensures Sorted(a + b)
  {
  }

  /** The ids of a page that got no count, and the fact that the others got theirs. */
  lemma PageUnclassified(p: Policy, all: seq<PelEntry>, k: nat, end: nat, claimed: seq<PelEntry>, after: seq<PelEntry>,
                         parsed: seq<Option<StreamMessage>>, delivered: map<nat, nat>, pendingFails: bool, singleFails: set<nat>)
    returns (unclassified: set<nat>)
    requires Sorted(all) && k <= end <= |all|
    requires claimed == p.Settle(all[..k]) + BumpStale(all[k..end], p.minIdle, p.now) + all[end..]
    requires MalformedAcked(p, StaleIds(all[k..end], p.minIdle, p.now), claimed, after)
    requires parsed == ReadAll(p, StaleIds(all[k..end], p.minIdle, p.now))
    requires CountsMatch(after, StaleIds(all[k..end], p.minIdle, p.now), parsed, delivered, pendingFails, singleFails)
    ensures unclassified <= IdSet(all[k..end])
    ensures !pendingFails && singleFails == {} ==> unclassified == {}
    ensures PickIds(p, StaleIds(all[k..end], p.minIdle, p.now), delivered, false) == p.Pick(all[k..end], Reclaim, unclassified)
    ensures PickIds(p, StaleIds(all[k..end], p.minIdle, p.now), delivered, true) == p.Pick(all[k..end], DeadLetter, unclassified)
  {
    var page := all[k..end];
    unclassified := set e | e in page && Stale(e, p.minIdle, p.now) && p.Read(e.id).Some? && e.id !in delivered :: e.id;
    forall e | e in page && Stale(e, p.minIdle, p.now) && p.Read(e.id).Some?
      ensures e.id in delivered ==> delivered[e.id] == e.deliveries + 1
      ensures !pendingFails && singleFails == {} ==> e.id in delivered
    {
      EntryCounted(p, all, k, end, claimed, after, parsed, delivered, pendingFails, singleFails, e);
    }
    PickIdsIsPick(p, page, delivered, unclassified);
  }

  lemma EntryCounted(p: Policy, all: seq<PelEntry>, k: nat, end: nat, claimed: seq<PelEntry>, after: seq<PelEntry>,
                     parsed: seq<Option<StreamMessage>>, delivered: map<nat, nat>, pendingFails: bool, singleFails: set<nat>, e: PelEntry)
    requires Sorted(all) && k <= end <= |all|
    requires claimed == p.Settle(all[..k]) + BumpStale(all[k..end], p.minIdle, p.now) + all[end..]
    requires MalformedAcked(p, StaleIds(all[k..end], p.minIdle, p.now), claimed, after)
    requires parsed == ReadAll(p, StaleIds(all[k..end], p.minIdle, p.now))
    requires CountsMatch(after, StaleIds(all[k..end], p.minIdle, p.now), parsed, delivered, pendingFails, singleFails)
    requires e in all[k..end] && Stale(e, p.minIdle, p.now) && p.Read(e.id).Some?
    ensures e.id in delivered ==> delivered[e.id] == e.deliveries + 1
    ensures !pendingFails && singleFails == {} ==> e.id in delivered
  {
    var ids := StaleIds(all[k..end], p.minIdle, p.now);
    ClaimedCount(p, all, k, end, claimed, after, e);
    StaleIdsMembers(all[k..end], p.minIdle, p.now);
    assert e.id in ids;
    var j :| 0 <= j < |ids| && ids[j] == e.id;
    assert parsed[j].Some?;
  }

  lemma ClaimedCount(p: Policy, all: seq<PelEntry>, k: nat, end: nat, claimed: seq<PelEntry>, after: seq<PelEntry>, e: PelEntry)
    requires k <= end <= |all|
    requires claimed == p.Settle(all[..k]) + BumpStale(all[k..end], p.minIdle, p.now) + all[end..]
    requires MalformedAcked(p, StaleIds(all[k..end], p.minIdle, p.now), claimed, after)
    requires e in all[k..end] && Stale(e, p.minIdle, p.now) && p.Read(e.id).Some?
    ensures CountOf(after, e.id) == Some(e.deliveries + 1)
  {
    var page := all[k..end];
    var bumped := BumpStale(page, p.minIdle, p.now);
    var b := Bump(e, p.now);
    assert b in after by {
      var i :| 0 <= i < |page| && page[i] == e;
      assert b == bumped[i];
      assert b in bumped && b in claimed;
    }
    CountOfMember(after, b);
  }

  ghost predicate OnlyPelChanged(before: Store, key: string, after: Store) {
    key in before.streams && key in after.streams && after == before.SetPel(key, after.streams[key].pel)
  }

  lemma AckChangesPel(before: Store, key: string, db: Store, id: nat)
    requires OnlyPelChanged(before, key, db)
    ensures OnlyPelChanged(before, key, db.XAck(key, id))
    ensures db.XAck(key, id).streams[key].pel == Without(db.streams[key].pel, id)
  {
    var s, pel := before.streams[key], db.streams[key].pel;
    assert before.streams[key := s.(pel := pel)][key := s.(pel := Without(pel, id))] == before.streams[key := s.(pel := Without(pel, id))];
  }

  ghost function ReadAll(p: Policy, ids: seq<nat>): (r: seq<Option<StreamMessage>>)
    ensures |r| == |ids| && forall k :: 0 <= k < |ids| ==> r[k] == p.Read(ids[k])
  {
    if ids == [] then [] else ReadAll(p, ids[..|ids| - 1]) + [p.Read(ids[|ids| - 1])]
  }

  lemma AckStep(p: Policy, ids: seq<nat>, id: nat, before: seq<PelEntry>, pel: seq<PelEntry>)
    requires MalformedAcked(p, ids, before, pel)
    ensures MalformedAcked(p, ids + [id], before, if p.Read(id).None? then Without(pel, id) else pel)
    ensures ReadAll(p, ids + [id]) == ReadAll(p, ids) + [p.Read(id)]
  {
    WithoutSorted(pel, id);
    assert (ids + [id])[..|ids|] == ids;
  }

  ghost predicate CountsRight(pel: seq<PelEntry>, delivered: map<nat, nat>) {
    forall id :: id in delivered ==> CountOf(pel, id) == Some(delivered[id])
  }

  /** Every recorded count is the pending one; what is missing was not pending or its lookup failed. */
  ghost predicate CountsMatch(pel: seq<PelEntry>, ids: seq<nat>, parsed: seq<Option<StreamMessage>>, delivered: map<nat, nat>,
                              pendingFails: bool, singleFails: set<nat>)
    requires |parsed| == |ids|
  {
    CountsRight(pel, delivered) &&
    (pendingFails ==> delivered == map[]) &&
    (!pendingFails ==> MissingOnlyIf(pel, ids, parsed, delivered, singleFails, |ids|))
  }

  ghost predicate MissingOnlyIf(pel: seq<PelEntry>, ids: seq<nat>, parsed: seq<Option<StreamMessage>>, delivered: map<nat, nat>,
                                singleFails: set<nat>, upTo: nat)
    requires upTo <= |parsed| == |ids|
  {
    forall k :: 0 <= k < upTo && parsed[k].Some? && ids[k] !in delivered ==> ids[k] in singleFails || CountOf(pel, ids[k]).None?
  }

  /** One query for each readable id whose count is still missing. */
  method LookUpSingles(pel: seq<PelEntry>, ids: seq<nat>, parsed: seq<Option<StreamMessage>>, known: map<nat, nat>, singleFails: set<nat>)
    returns (delivered: map<nat, nat>)
    requires Sorted(pel) && |parsed| == |ids| && CountsRight(pel, known)
    ensures CountsRight(pel, delivered) && MissingOnlyIf(pel, ids, parsed, delivered, singleFails, |ids|)
  {
    hide CountOf;
    delivered := known;
    for i := 0 to |ids|
      invariant CountsRight(pel, delivered) && MissingOnlyIf(pel, ids, parsed, delivered, singleFails, i)
    {
      if parsed[i].Some? && ids[i] !in delivered && ids[i] !in singleFails {
        var single := PendingRange(pel, ids[i], ids[i], 1);
        SingleLookup(pel, ids[i]);
        if single != [] {
          delivered := delivered[single[0].id := single[0].deliveries];
        }
      }
    }
  }

  /**
   * One XPENDING range query of twice the page size over the span of the readable ids, then one query an id
   * for whatever other pending entries pushed out of that page.
   */
  method LookUpCounts(pel: seq<PelEntry>, ids: seq<nat>, parsed: seq<Option<StreamMessage>>, pendingFails: bool, singleFails: set<nat>)
    returns (delivered: map<nat, nat>)
    requires Sorted(pel) && |parsed| == |ids|
    ensures CountsMatch(pel, ids, parsed, delivered, pendingFails, singleFails)
    ensures !pendingFails && singleFails == {} ==>
      forall k :: 0 <= k < |ids| && parsed[k].Some? ==>
        if CountOf(pel, ids[k]).Some? then ids[k] in delivered && delivered[ids[k]] == CountOf(pel, ids[k]).value else ids[k] !in delivered
  {
    hide CountOf;
    delivered := map[];
    var any, first, last := false, 0, 0;
    for i := 0 to |ids|
      invariant !any ==> forall k :: 0 <= k < i ==> parsed[k].None?
    {
      if parsed[i].Some? {
        if !any {
          any, first := true, ids[i];
        }
        last := ids[i];
      }
    }
    if !any || pendingFails {
      return;
    }
    var pending := PendingRange(pel, first, last, |ids| * 2);
    for i := 0 to |pending|
      invariant CountsRight(pel, delivered)
    {
      assert pending[i] in pending;
      CountOfMember(pel, pending[i]);
      delivered := delivered[pending[i].id := pending[i].deliveries];
    }
    delivered := LookUpSingles(pel, ids, parsed, delivered, singleFails);
  }

  /** Messages at the delivery limit are dead-letter candidates, messages without a count are skipped. */
  method SplitByCount(p: Policy, ids: seq<nat>, parsed: seq<Option<StreamMessage>>, delivered: map<nat, nat>)
    returns (reclaimed: seq<StreamMessage>, deadLetter: seq<StreamMessage>)
    requires parsed == ReadAll(p, ids)
    ensures reclaimed == PickIds(p, ids, delivered, false) && deadLetter == PickIds(p, ids, delivered, true)
  {
    reclaimed, deadLetter := [], [];
    for i := 0 to |ids|
      invariant reclaimed == PickIds(p, ids[..i], delivered, false)
      invariant deadLetter == PickIds(p, ids[..i], delivered, true)
    {
      assert ids[..i + 1][..i] == ids[..i];
      if parsed[i].Some? && ids[i] in delivered {
        if delivered[ids[i]] >= p.maxDeliveries {
          deadLetter := deadLetter + [parsed[i].value];
        } else {
          reclaimed := reclaimed + [parsed[i].value];
        }
      }
    }
    assert ids[..|ids|] == ids;
  }
}
