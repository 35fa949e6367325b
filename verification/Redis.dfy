/**
 * The Redis state the broker touches, and the commands it issues, one pure function a command.
 * A stream never loses entries here, so the k-th entry added carries id k + 1 and id 0 stands for "0-0".
 */
module Redis {
  import opened Text

  type ZSet = map<string, int>
  type Hash = map<string, int>

  /** The field names of a stream entry. */
  datatype Field =
    | TaskId | JobId | PageId | Host | Path | PriorityText | RetryCount | SourceType | SourceUrl | TaskType | LighthouseRunId

  type Fields = map<Field, string>

  /** A delivered, not yet acknowledged entry: how often it was delivered and when last. */
  datatype PelEntry = PelEntry(id: nat, deliveries: nat, since: int)

  datatype Stream = Stream(entries: seq<Fields>, delivered: nat, pel: seq<PelEntry>) {
    predicate Valid() {
      delivered <= |entries| && Sorted(pel) && forall e :: e in pel ==> 1 <= e.id <= delivered
    }
  }

  const EMPTY_STREAM := Stream([], 0, [])

  // ---------- pending entries lists ----------

  predicate Sorted(pel: seq<PelEntry>) {
    forall i, j :: 0 <= i < j < |pel| ==> pel[i].id < pel[j].id
  }

  function Ids(pel: seq<PelEntry>): (ids: seq<nat>)
    ensures |ids| == |pel| && forall k :: 0 <= k < |pel| ==> ids[k] == pel[k].id
  {
    seq(|pel|, k requires 0 <= k < |pel| => pel[k].id)
  }

  /** XACK of one id. */
  function Without(pel: seq<PelEntry>, id: nat): (r: seq<PelEntry>)
    ensures forall e :: e in r <==> e in pel && e.id != id
  {
    if pel == [] then []
    else if pel[0].id == id then Without(pel[1..], id)
    else [pel[0]] + Without(pel[1..], id)
  }

  lemma {:induction false} WithoutSorted(pel: seq<PelEntry>, id: nat)
    requires Sorted(pel)
    ensures Sorted(Without(pel, id))
  {
    if pel != [] {
      WithoutSorted(pel[1..], id);
      forall e | e in Without(pel[1..], id)
        ensures pel[0].id < e.id
      {
        var k :| 0 <= k < |pel[1..]| && pel[1..][k] == e;
        assert pel[k + 1] == e;
      }
    }
  }

  /** The entries XREADGROUP adds for ids first, ..., first + n - 1. */
  function Fresh(first: nat, n: nat, now: int): (r: seq<PelEntry>)
    ensures |r| == n && forall k :: 0 <= k < n ==> r[k] == PelEntry(first + k, 1, now)
  {
    seq(n, k requires 0 <= k < n => PelEntry(first + k, 1, now))
  }

  predicate Stale(e: PelEntry, minIdle: int, now: int) {
    now - e.since >= minIdle
  }

  /** XAUTOCLAIM reassigns a stale entry: one more delivery, idle time reset. */
  function Bump(e: PelEntry, now: int): PelEntry {
    PelEntry(e.id, e.deliveries + 1, now)
  }

  function BumpStale(pel: seq<PelEntry>, minIdle: int, now: int): (r: seq<PelEntry>)
    ensures |r| == |pel|
    ensures forall k :: 0 <= k < |pel| ==> r[k] == (if Stale(pel[k], minIdle, now) then Bump(pel[k], now) else pel[k])
  {
    seq(|pel|, k requires 0 <= k < |pel| => if Stale(pel[k], minIdle, now) then Bump(pel[k], now) else pel[k])
  }

  /** Where XAUTOCLAIM stops when it scans from i with the given budgets of scanned and claimed entries. */
  function ClaimEnd(pel: seq<PelEntry>, i: nat, attempts: nat, count: nat, minIdle: int, now: int): (j: nat)
    requires i <= |pel|
    ensures i <= j <= |pel|
    decreases |pel| - i
  {
    if i == |pel| || attempts == 0 || count == 0 then i
    else if Stale(pel[i], minIdle, now) then ClaimEnd(pel, i + 1, attempts - 1, count - 1, minIdle, now)
    else ClaimEnd(pel, i + 1, attempts - 1, count, minIdle, now)
  }

  function StaleIds(pel: seq<PelEntry>, minIdle: int, now: int): seq<nat> {
    if pel == [] then []
    else
      var last := pel[|pel| - 1];
      StaleIds(pel[..|pel| - 1], minIdle, now) + (if Stale(last, minIdle, now) then [last.id] else [])
  }

  function Seek(pel: seq<PelEntry>, start: nat): (i: nat)
    ensures i <= |pel| && (forall k :: 0 <= k < i ==> pel[k].id < start) && (i < |pel| ==> pel[i].id >= start)
  {
    if pel == [] || pel[0].id >= start then 0 else 1 + Seek(pel[1..], start)
  }

  datatype Claim = Claim(pel: seq<PelEntry>, ids: seq<nat>, next: nat)

  /** XAUTOCLAIM start COUNT count: at most 10 * count entries scanned, at most count claimed. */
  function AutoClaim(pel: seq<PelEntry>, start: nat, count: nat, minIdle: int, now: int): Claim {
    var i := Seek(pel, start);
    var j := ClaimEnd(pel, i, 10 * count, count, minIdle, now);
    Claim(pel[..i] + BumpStale(pel[i..j], minIdle, now) + pel[j..],
          StaleIds(pel[i..j], minIdle, now),
          if j < |pel| then pel[j].id else 0)
  }

  /** XPENDING first last COUNT count. */
  function PendingRange(pel: seq<PelEntry>, first: nat, last: nat, count: nat): (r: seq<PelEntry>)
    ensures |r| <= count
    ensures forall e :: e in r ==> e in pel && first <= e.id <= last
  {
    if pel == [] || count == 0 then []
    else if first <= pel[0].id <= last then [pel[0]] + PendingRange(pel[1..], first, last, count - 1)
    else PendingRange(pel[1..], first, last, count)
  }

  // ---------- the store ----------

  /** The per-domain pacing hash; a missing field reads as zero. */
  datatype Config = Config(baseDelay: Option<int>, adaptiveDelay: Option<int>, floor: Option<int>, successStreak: Option<int>, errorStreak: Option<int>)

  const NO_CONFIG := Config(None, None, None, None, None)

  function OrZero(x: Option<int>): int {
    if x.Some? then x.value else 0
  }

  datatype Store = Store(
    zsets: map<string, ZSet>, streams: map<string, Stream>, hashes: map<string, Hash>,
    configs: map<string, Config>, gates: map<string, int>)
  {
    predicate Valid() {
      forall key :: key in streams ==> streams[key].Valid()
    }

    function ZSetAt(key: string): ZSet { if key in zsets then zsets[key] else map[] }
    function StreamAt(key: string): Stream { if key in streams then streams[key] else EMPTY_STREAM }
    function ConfigAt(key: string): Config { if key in configs then configs[key] else NO_CONFIG }
    function HashAt(key: string): Hash { if key in hashes then hashes[key] else map[] }

    /** Redis drops a collection that becomes empty. */
    function PutZSet(key: string, z: ZSet): Store {
      this.(zsets := if z == map[] then zsets - {key} else zsets[key := z])
    }

    function PutHash(key: string, h: Hash): Store {
      this.(hashes := if h == map[] then hashes - {key} else hashes[key := h])
    }

    function ZAdd(key: string, member: string, score: int): Store {
      PutZSet(key, ZSetAt(key)[member := score])
    }

    /** ZADD XX: only an existing member is moved. */
    function ZAddXX(key: string, member: string, score: int): Store {
      if member in ZSetAt(key) then ZAdd(key, member, score) else this
    }

    function ZRem(key: string, member: string): Store {
      PutZSet(key, ZSetAt(key) - {member})
    }

    function XAdd(key: string, values: Fields): Store {
      var s := StreamAt(key);
      this.(streams := streams[key := s.(entries := s.entries + [values])])
    }

    function XAck(key: string, id: nat): Store {
      if key !in streams then this
      else this.(streams := streams[key := streams[key].(pel := Without(streams[key].pel, id))])
    }

    /** XREADGROUP ">" COUNT count: the next undelivered entries move to the pending list. */
    function XReadGroup(key: string, count: nat, now: int): Store {
      if key !in streams then this
      else
        var s := streams[key];
        var n := if s.delivered + count <= |s.entries| then count else if s.delivered <= |s.entries| then |s.entries| - s.delivered else 0;
        this.(streams := streams[key := Stream(s.entries, s.delivered + n, s.pel + Fresh(s.delivered + 1, n, now))])
    }

    function SetPel(key: string, pel: seq<PelEntry>): Store {
      if key !in streams then this else this.(streams := streams[key := streams[key].(pel := pel)])
    }

    function HGet(key: string, field: string): int {
      if field in HashAt(key) then HashAt(key)[field] else 0
    }

    function HIncrBy(key: string, field: string, delta: int): Store {
      PutHash(key, HashAt(key)[field := HGet(key, field) + delta])
    }

    function HDel(key: string, field: string): Store {
      PutHash(key, HashAt(key) - {field})
    }

    /** A key set with PX expires once the clock has passed its deadline. */
    predicate GateHeld(key: string, now: int) {
      key in gates && now <= gates[key]
    }
  }

  // ---------- what a command leaves alone ----------

  lemma HIncrByEffect(db: Store, key: string, field: string, delta: int)
    ensures var r := db.HIncrBy(key, field, delta);
      r.zsets == db.zsets && r.streams == db.streams && r.HGet(key, field) == db.HGet(key, field) + delta &&
      (forall k, f :: (k, f) != (key, field) ==> r.HGet(k, f) == db.HGet(k, f))
  {
  }

  lemma ZAddEffect(db: Store, key: string, member: string, score: int)
    ensures var r := db.ZAdd(key, member, score);
      r.streams == db.streams && r.hashes == db.hashes && r.ZSetAt(key) == db.ZSetAt(key)[member := score] &&
      (forall k :: k != key ==> r.ZSetAt(k) == db.ZSetAt(k))
  {
  }

  lemma ZRemEffect(db: Store, key: string, member: string)
    ensures var r := db.ZRem(key, member);
      r.streams == db.streams && r.hashes == db.hashes && r.ZSetAt(key) == db.ZSetAt(key) - {member} &&
      (forall k :: k != key ==> r.ZSetAt(k) == db.ZSetAt(k))
  {
  }

  lemma XAddEffect(db: Store, key: string, values: Fields)
    ensures var r := db.XAdd(key, values);
      r.zsets == db.zsets && r.hashes == db.hashes &&
      (forall k :: r.StreamAt(k) == if k == key then db.StreamAt(k).(entries := db.StreamAt(k).entries + [values]) else db.StreamAt(k))
  {
  }

  lemma AckValid(s: Stream, id: nat)
    requires s.Valid()
    ensures s.(pel := Without(s.pel, id)).Valid()
  {
    WithoutSorted(s.pel, id);
  }

  lemma ReadValid(db: Store, key: string, count: nat, now: int)
    requires db.Valid()
    ensures db.XReadGroup(key, count, now).Valid()
  {
    if key in db.streams {
      var s := db.streams[key];
      var t := db.XReadGroup(key, count, now).streams[key];
      forall i, j | 0 <= i < j < |t.pel|
        ensures t.pel[i].id < t.pel[j].id
      {
        if i < |s.pel| {
          assert s.pel[i] in s.pel;
        }
      }
      forall e | e in t.pel
        ensures 1 <= e.id <= t.delivered
      {
        if e !in s.pel {
          assert e in Fresh(s.delivered + 1, t.delivered - s.delivered, now);
        }
      }
    }
  }

  /** One Redis instance, shared by every component of the broker. */
  class Server {
    var db: Store

    constructor ()
      ensures db == Store(map[], map[], map[], map[], map[]) && db.Valid()
    {
      db := Store(map[], map[], map[], map[], map[]);
    }
  }
}
