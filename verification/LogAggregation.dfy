/** Incremental aggregation of log summaries (scripts/aggregate_logs.py). */
module LogAggregation {
  import opened Text

  // ---------- one file ----------

  /** A JSON value where a count is expected. */
  datatype Num = Num(value: int) | NotANumber

  type Row = seq<(string, Num)>

  /** A summary file: per timestamp the counts by level, by event and by component, and the totals. */
  datatype Summary = Summary(
    totalLines: Num, failedToParse: Num,
    levelCounts: seq<(string, Row)>, eventCounts: seq<(string, Row)>, componentCounts: seq<(string, Row)>,
    warnErrorCounts: Row)

  datatype Content = Unreadable | Log(summary: Summary)

  /** The counters of the aggregate; a minute is in the tables when it has a Samples counter. */
  datatype Key =
    | Lines | FailedLines | WarnError(event: string)
    | Samples(minute: string) | Level(minute: string, name: string) | Event(minute: string, name: string) | Component(minute: string, name: string)

  type Counters = map<Key, int>

  const EMPTY: Counters := map[Lines := 0, FailedLines := 0]

  function Get(c: Counters, k: Key): int {
    if k in c then c[k] else 0
  }

  function Add(c: Counters, k: Key, n: int): Counters {
    c[k := Get(c, k) + n]
  }

  function Minute(ts: string): string {
    if |ts| <= 16 then ts else ts[..16]
  }

  /** Time stamps are counted by the minute: date, hour and minute, whatever follows. */
  lemma MinuteOf(date: string, hour: string, minute: string, rest: string)
    requires |date| == 10 && |hour| == 2 && |minute| == 2
    ensures Minute(date + "T" + hour + ":" + minute + rest) == date + "T" + hour + ":" + minute
  {
    var kept := date + "T" + hour + ":" + minute;
    assert (kept + rest)[..16] == kept;
  }

  datatype Table = Levels | Events | Components

  function Cell(table: Table, minute: string, name: string): Key {
    match table
    case Levels => Level(minute, name)
    case Events => Event(minute, name)
    case Components => Component(minute, name)
  }

  /** One addition to one counter. */
  datatype Bump = Bump(key: Key, count: Num)

  /** Touching a cell of a minute's bucket creates the bucket. */
  function RowBumps(table: Table, minute: string, row: Row): seq<Bump> {
    if row == [] then []
    else
      var last := row[|row| - 1];
      RowBumps(table, minute, row[..|row| - 1]) + [Bump(Samples(minute), Num(0)), Bump(Cell(table, minute, last.0), last.1)]
  }

  /** Only the level table counts samples; an empty row of another table leaves no trace. */
  function EntryBumps(table: Table, entry: (string, Row)): seq<Bump> {
    (if table.Levels? then [Bump(Samples(Minute(entry.0)), Num(1))] else []) + RowBumps(table, Minute(entry.0), entry.1)
  }

  function TableBumps(table: Table, rows: seq<(string, Row)>): seq<Bump> {
    if rows == [] then [] else TableBumps(table, rows[..|rows| - 1]) + EntryBumps(table, rows[|rows| - 1])
  }

  function WarnBumps(row: Row): seq<Bump> {
    if row == [] then []
    else WarnBumps(row[..|row| - 1]) + [Bump(WarnError(row[|row| - 1].0), row[|row| - 1].1)]
  }

  /** Everything a summary adds. */
  function Bumps(s: Summary): seq<Bump> {
    [Bump(Lines, s.totalLines), Bump(FailedLines, s.failedToParse)] + TableBumps(Levels, s.levelCounts) +
    TableBumps(Events, s.eventCounts) + TableBumps(Components, s.componentCounts) + WarnBumps(s.warnErrorCounts)
  }

  predicate AllNumbers(bumps: seq<Bump>) {
    forall i :: 0 <= i < |bumps| ==> bumps[i].count.Num?
  }

  /** What a list of additions adds to one counter. */
  function Sum(bumps: seq<Bump>, k: Key): int
    requires AllNumbers(bumps)
  {
    if bumps == [] then 0
    else Sum(bumps[..|bumps| - 1], k) + (if bumps[|bumps| - 1].key == k then bumps[|bumps| - 1].count.value else 0)
  }

  predicate Touches(bumps: seq<Bump>, k: Key) {
    exists i :: 0 <= i < |bumps| && bumps[i].key == k
  }

  /** The counters after exactly these additions to the ones before. */
  ghost predicate Grown(before: Counters, bumps: seq<Bump>, after: Counters) {
    AllNumbers(bumps) &&
    (forall k :: Get(after, k) == Get(before, k) + Sum(bumps, k)) && forall k :: k in after <==> k in before || Touches(bumps, k)
  }

  lemma GrownNot(c: Counters)
    ensures Grown(c, [], c)
  {
  }

  lemma GrownOne(before: Counters, bumps: seq<Bump>, mid: Counters, b: Bump)
    requires Grown(before, bumps, mid) && b.count.Num?
    ensures Grown(before, bumps + [b], Add(mid, b.key, b.count.value))
  {
    var more, after := bumps + [b], Add(mid, b.key, b.count.value);
    assert more[..|bumps|] == bumps;
    forall k
      ensures k in after <==> k in before || Touches(more, k)
    {
      assert more[|bumps|] == b;
      if Touches(bumps, k) {
        var i :| 0 <= i < |bumps| && bumps[i].key == k;
        assert more[i].key == k;
      }
    }
  }

  lemma GrownTwo(before: Counters, bumps: seq<Bump>, mid: Counters, a: Bump, b: Bump)
    requires Grown(before, bumps, mid) && a.count.Num? && b.count.Num?
    ensures Grown(before, bumps + [a, b], Add(Add(mid, a.key, a.count.value), b.key, b.count.value))
  {
    GrownOne(before, bumps, mid, a);
    GrownOne(before, bumps + [a], Add(mid, a.key, a.count.value), b);
    assert bumps + [a] + [b] == bumps + [a, b];
  }

  /** One bad count is enough to spoil a list that begins with it. */
  lemma SpoiltPrefix(bumps: seq<Bump>, rest: seq<Bump>)
    requires !AllNumbers(bumps)
    ensures !AllNumbers(bumps + rest)
  {
    var i :| 0 <= i < |bumps| && bumps[i].count.NotANumber?;
    assert (bumps + rest)[i] == bumps[i];
  }

  /** Stages one row; done are the additions staged before. */
  method StageRow(staged: Counters, table: Table, minute: string, row: Row, ghost done: seq<Bump>) returns (after: Counters, ok: bool)
    requires Grown(map[], done, staged)
    ensures ok ==> Grown(map[], done + RowBumps(table, minute, row), after)
    ensures !ok ==> !AllNumbers(RowBumps(table, minute, row))
  {
    after, ok := staged, true;
    ghost var soFar := done;
    assert done + [] == done;
    for i := 0 to |row|
      invariant soFar == done + RowBumps(table, minute, row[..i]) && Grown(map[], soFar, after)
    {
      if row[i].1.NotANumber? {
        SpoiltRow(table, minute, row, i);
        return after, false;
      }
      RowSnoc(done, table, minute, row, i);
      ghost var touch, cell := Bump(Samples(minute), Num(0)), Bump(Cell(table, minute, row[i].0), row[i].1);
      GrownTwo(map[], soFar, after, touch, cell);
      soFar := soFar + [touch, cell];
      after := Add(Add(after, Samples(minute), 0), Cell(table, minute, row[i].0), row[i].1.value);
    }
    assert row[..|row|] == row;
  }

  lemma RowSnoc(done: seq<Bump>, table: Table, minute: string, row: Row, i: nat)
    requires i < |row|
    ensures done + RowBumps(table, minute, row[..i + 1]) ==
            done + RowBumps(table, minute, row[..i]) + [Bump(Samples(minute), Num(0)), Bump(Cell(table, minute, row[i].0), row[i].1)]
  {
    assert row[..i + 1][..i] == row[..i];
  }

  lemma {:induction false} SpoiltRow(table: Table, minute: string, row: Row, i: nat)
    requires i < |row| && row[i].1.NotANumber?
    ensures !AllNumbers(RowBumps(table, minute, row))
    decreases |row|
  {
    var n := |row| - 1;
    var rest := [Bump(Samples(minute), Num(0)), Bump(Cell(table, minute, row[n].0), row[n].1)];
    if i == n {
      assert RowBumps(table, minute, row)[|RowBumps(table, minute, row[..n])| + 1] == rest[1];
    } else {
      SpoiltRow(table, minute, row[..n], i);
      SpoiltPrefix(RowBumps(table, minute, row[..n]), rest);
    }
  }

  method StageEntry(staged: Counters, table: Table, entry: (string, Row), ghost done: seq<Bump>) returns (after: Counters, ok: bool)
    requires Grown(map[], done, staged)
    ensures ok ==> Grown(map[], done + EntryBumps(table, entry), after)
    ensures !ok ==> !AllNumbers(EntryBumps(table, entry))
  {
    var minute := Minute(entry.0);
    after := staged;
    ghost var mark: seq<Bump> := if table.Levels? then [Bump(Samples(minute), Num(1))] else [];
    if table.Levels? {
      GrownOne(map[], done, after, Bump(Samples(minute), Num(1)));
      after := Add(after, Samples(minute), 1);
    } else {
      assert done + mark == done;
    }
    after, ok := StageRow(after, table, minute, entry.1, done + mark);
    if ok {
      assert done + EntryBumps(table, entry) == done + mark + RowBumps(table, minute, entry.1);
    } else {
      SpoiltSuffix(mark, RowBumps(table, minute, entry.1));
    }
  }

  lemma SpoiltSuffix(bumps: seq<Bump>, rest: seq<Bump>)
    requires !AllNumbers(rest)
    ensures !AllNumbers(bumps + rest)
  {
    var i :| 0 <= i < |rest| && rest[i].count.NotANumber?;
    assert (bumps + rest)[|bumps| + i] == rest[i];
  }

  method StageTable(staged: Counters, table: Table, rows: seq<(string, Row)>, ghost done: seq<Bump>) returns (after: Counters, ok: bool)
    requires Grown(map[], done, staged)
    ensures ok ==> Grown(map[], done + TableBumps(table, rows), after)
    ensures !ok ==> !AllNumbers(TableBumps(table, rows))
  {
    after, ok := staged, true;
    ghost var soFar := done;
    assert done + [] == done;
    for i := 0 to |rows|
      invariant soFar == done + TableBumps(table, rows[..i]) && Grown(map[], soFar, after)
    {
      TableSnoc(done, table, rows, i);
      after, ok := StageEntry(after, table, rows[i], soFar);
      if !ok {
        SpoiltTable(table, rows, i);
        return;
      }
      soFar := soFar + EntryBumps(table, rows[i]);
    }
    assert rows[..|rows|] == rows;
  }

  lemma TableSnoc(done: seq<Bump>, table: Table, rows: seq<(string, Row)>, i: nat)
    requires i < |rows|
    ensures done + TableBumps(table, rows[..i + 1]) == done + TableBumps(table, rows[..i]) + EntryBumps(table, rows[i])
  {
    assert rows[..i + 1][..i] == rows[..i];
  }

  lemma {:induction false} SpoiltTable(table: Table, rows: seq<(string, Row)>, i: nat)
    requires i < |rows| && !AllNumbers(EntryBumps(table, rows[i]))
    ensures !AllNumbers(TableBumps(table, rows))
    decreases |rows|
  {
    var n := |rows| - 1;
    if i == n {
      SpoiltSuffix(TableBumps(table, rows[..n]), EntryBumps(table, rows[n]));
    } else {
      SpoiltTable(table, rows[..n], i);
      SpoiltPrefix(TableBumps(table, rows[..n]), EntryBumps(table, rows[n]));
    }
  }

  method StageWarnings(staged: Counters, row: Row, ghost done: seq<Bump>) returns (after: Counters, ok: bool)
    requires Grown(map[], done, staged)
    ensures ok ==> Grown(map[], done + WarnBumps(row), after)
    ensures !ok ==> !AllNumbers(WarnBumps(row))
  {
    after, ok := staged, true;
    assert done + [] == done;
    for i := 0 to |row|
      invariant Grown(map[], done + WarnBumps(row[..i]), after)
    {
      assert row[..i + 1][..i] == row[..i];
      if row[i].1.NotANumber? {
        SpoiltWarnings(row, i);
        return after, false;
      }
      GrownOne(map[], done + WarnBumps(row[..i]), after, Bump(WarnError(row[i].0), row[i].1));
      assert done + WarnBumps(row[..i + 1]) == done + WarnBumps(row[..i]) + [Bump(WarnError(row[i].0), row[i].1)];
      after := Add(after, WarnError(row[i].0), row[i].1.value);
    }
    assert row[..|row|] == row;
  }

  lemma {:induction false} SpoiltWarnings(row: Row, i: nat)
    requires i < |row| && row[i].1.NotANumber?
    ensures !AllNumbers(WarnBumps(row))
    decreases |row|
  {
    var n := |row| - 1;
    if i == n {
      assert WarnBumps(row)[|WarnBumps(row[..n])|] == Bump(WarnError(row[n].0), row[n].1);
    } else {
      SpoiltWarnings(row[..n], i);
      SpoiltPrefix(WarnBumps(row[..n]), [Bump(WarnError(row[n].0), row[n].1)]);
    }
  }

  /** Is the file fit to be counted? */
  predicate Sound(content: Content) {
    content.Log? && AllNumbers(Bumps(content.summary))
  }

  function AddAll(c: Counters, bumps: seq<Bump>): Counters
    requires AllNumbers(bumps)
  {
    if bumps == [] then c
    else Add(AddAll(c, bumps[..|bumps| - 1]), bumps[|bumps| - 1].key, bumps[|bumps| - 1].count.value)
  }

  lemma {:induction false} AddAllGrows(c: Counters, bumps: seq<Bump>)
    requires AllNumbers(bumps)
    ensures Grown(c, bumps, AddAll(c, bumps))
  {
    if bumps == [] {
      GrownNot(c);
    } else {
      var n := |bumps| - 1;
      AddAllGrows(c, bumps[..n]);
      GrownOne(c, bumps[..n], AddAll(c, bumps[..n]), bumps[n]);
      assert bumps[..n] + [bumps[n]] == bumps;
    }
  }

  lemma SameCounters(a: Counters, b: Counters)
    requires forall k :: Get(a, k) == Get(b, k)
    requires forall k :: k in a <==> k in b
    ensures a == b
  {
    forall k | k in a
      ensures a[k] == b[k]
    {
      assert Get(a, k) == Get(b, k);
    }
  }

  lemma GrownOnlyOne(before: Counters, bumps: seq<Bump>, a: Counters, b: Counters)
    requires Grown(before, bumps, a) && Grown(before, bumps, b)
    ensures a == b
  {
    SameCounters(a, b);
  }

  /** The counters after a file; one that cannot be read or parsed changes nothing. */
  function Counted(c: Counters, content: Content): Counters {
    if Sound(content) then AddAll(c, Bumps(content.summary)) else c
  }

  method Stage(s: Summary) returns (staged: Counters, ok: bool)
    ensures ok <==> AllNumbers(Bumps(s))
    ensures ok ==> Grown(map[], Bumps(s), staged)
  {
    ghost var head := [Bump(Lines, s.totalLines), Bump(FailedLines, s.failedToParse)];
    ghost var levels, events, components := TableBumps(Levels, s.levelCounts), TableBumps(Events, s.eventCounts), TableBumps(Components, s.componentCounts);
    staged, ok := map[], false;
    SpoiltSomewhere(head, levels, events, components, WarnBumps(s.warnErrorCounts));
    if s.totalLines.NotANumber? || s.failedToParse.NotANumber? {
      assert !AllNumbers(head) by {
        assert head[0].count == s.totalLines && head[1].count == s.failedToParse;
      }
      return;
    }
    GrownNot(map[]);
    GrownTwo(map[], [], map[], head[0], head[1]);
    assert [] + head == head;
    staged := Add(Add(staged, Lines, s.totalLines.value), FailedLines, s.failedToParse.value);
    staged, ok := StageTable(staged, Levels, s.levelCounts, head);
    if !ok { return; }
    staged, ok := StageTable(staged, Events, s.eventCounts, head + levels);
    if !ok { return; }
    staged, ok := StageTable(staged, Components, s.componentCounts, head + levels + events);
    if !ok { return; }
    staged, ok := StageWarnings(staged, s.warnErrorCounts, head + levels + events + components);
  }

  lemma SpoiltSomewhere(a: seq<Bump>, b: seq<Bump>, c: seq<Bump>, d: seq<Bump>, e: seq<Bump>)
    ensures !AllNumbers(a) || !AllNumbers(b) || !AllNumbers(c) || !AllNumbers(d) || !AllNumbers(e) ==> !AllNumbers(a + b + c + d + e)
  {
    if !AllNumbers(a) {
      SpoiltPrefix(a, b);
    }
    if !AllNumbers(b) {
      SpoiltSuffix(a, b);
    }
    if !AllNumbers(a + b) {
      SpoiltPrefix(a + b, c);
    }
    if !AllNumbers(c) {
      SpoiltSuffix(a + b, c);
    }
    if !AllNumbers(a + b + c) {
      SpoiltPrefix(a + b + c, d);
    }
    if !AllNumbers(d) {
      SpoiltSuffix(a + b + c, d);
    }
    if !AllNumbers(a + b + c + d) {
      SpoiltPrefix(a + b + c + d, e);
    }
    if !AllNumbers(e) {
      SpoiltSuffix(a + b + c + d, e);
    }
  }

  /** Stages the whole file first, so that an error halfway leaves no trace, then adds it to the counters. */
  method ProcessJsonFile(content: Content, counters: Counters) returns (after: Counters, ok: bool)
    ensures after == Counted(counters, content) && (ok <==> Sound(content))
  {
    after, ok := counters, false;
    if content.Unreadable? {
      return;
    }
    var staged;
    staged, ok := Stage(content.summary);
    if !ok {
      return;
    }
    var left := staged.Keys;
    while left != {}
      invariant left <= staged.Keys
      invariant forall k :: Get(after, k) == Get(counters, k) + (if k in left then 0 else Get(staged, k))
      invariant forall k :: k in after <==> k in counters || (k in staged && k !in left)
      decreases |left|
    {
      var k :| k in left;
      after := Add(after, k, staged[k]);
      left := left - {k};
    }
    CommitGrows(counters, Bumps(content.summary), staged, after);
    AddAllGrows(counters, Bumps(content.summary));
    GrownOnlyOne(counters, Bumps(content.summary), after, AddAll(counters, Bumps(content.summary)));
  }

  lemma CommitGrows(before: Counters, bumps: seq<Bump>, staged: Counters, after: Counters)
    requires Grown(map[], bumps, staged)
    requires forall k :: Get(after, k) == Get(before, k) + Get(staged, k)
    requires forall k :: k in after <==> k in before || k in staged
    ensures Grown(before, bumps, after)
  {
  }

  // ---------- one run over a directory ----------

  /** A fingerprint is empty when the file cannot be stat'ed. */
  datatype File = File(fingerprint: string, content: Content)

  type Directory = map<string, File>

  /** What is saved between runs: the counters and the fingerprint of every file counted. */
  datatype Cache = Cache(counters: Counters, processed: map<string, string>)

  const COLD := Cache(EMPTY, map[])

  /** The directory's names in the order the run visits them, each once. */
  ghost predicate Lists(names: seq<string>, dir: Directory) {
    (forall n :: n in names <==> n in dir) && Distinct(names)
  }

  ghost predicate Distinct(names: seq<string>) {
    forall i, j :: 0 <= i < j < |names| ==> names[i] != names[j]
  }

  predicate IsNew(dir: Directory, processed: map<string, string>, n: string) {
    n in dir && (n !in processed || processed[n] != dir[n].fingerprint)
  }

  predicate WasRewritten(dir: Directory, processed: map<string, string>, n: string) {
    IsNew(dir, processed, n) && n in processed && processed[n] != ""
  }

  function NewFiles(dir: Directory, processed: map<string, string>, names: seq<string>): (r: seq<string>)
    ensures forall n :: n in r <==> n in names && IsNew(dir, processed, n)
  {
    if names == [] then []
    else
      var last := names[|names| - 1];
      NewFiles(dir, processed, names[..|names| - 1]) + (if IsNew(dir, processed, last) then [last] else [])
  }

  predicate Rewritten(dir: Directory, processed: map<string, string>, names: seq<string>) {
    exists n :: n in names && WasRewritten(dir, processed, n)
  }

  function ProcessOne(dir: Directory, cache: Cache, n: string): Cache {
    if n in dir && Sound(dir[n].content)
    then Cache(Counted(cache.counters, dir[n].content), cache.processed[n := dir[n].fingerprint])
    else cache
  }

  function ProcessAll(dir: Directory, cache: Cache, names: seq<string>): Cache {
    if names == [] then cache else ProcessOne(dir, ProcessAll(dir, cache, names[..|names| - 1]), names[|names| - 1])
  }

  /** A run: from scratch when asked to or when a known file was rewritten, otherwise adding the new files. */
  function Run(dir: Directory, names: seq<string>, cache: Cache, incremental: bool): Cache {
    if !incremental || Rewritten(dir, cache.processed, names) then ProcessAll(dir, COLD, names)
    else ProcessAll(dir, cache, NewFiles(dir, cache.processed, names))
  }

  lemma AllNewWhenCold(dir: Directory, names: seq<string>)
    requires forall n :: n in names ==> n in dir
    ensures NewFiles(dir, map[], names) == names
  {
    forall i | 0 <= i < |names|
      ensures names[i] in dir
    {
      assert names[i] in names;
    }
    FirstAreNew(dir, names, |names|);
    assert names[..|names|] == names;
  }

  lemma OneMoreName(names: seq<string>, n: nat, before: seq<string>, after: seq<string>)
    requires 0 < n <= |names| && before == names[..n - 1] && after == before + [names[n - 1]]
    ensures after == names[..n]
  {
  }

  lemma NewWhenCold(dir: Directory, name: string)
    requires name in dir
    ensures IsNew(dir, map[], name)
  {
  }

  lemma {:induction false} FirstAreNew(dir: Directory, names: seq<string>, n: nat)
    requires n <= |names| && forall i :: 0 <= i < |names| ==> names[i] in dir
    ensures NewFiles(dir, map[], names[..n]) == names[..n]
    decreases n
  {
    if n > 0 {
      FirstAreNew(dir, names, n - 1);
      NewFilesNext(dir, map[], names, n - 1);
      NewWhenCold(dir, names[n - 1]);
      OneMoreName(names, n, NewFiles(dir, map[], names[..n - 1]), NewFiles(dir, map[], names[..n]));
    }
  }

  lemma NewFilesNext(dir: Directory, processed: map<string, string>, names: seq<string>, i: nat)
    requires i < |names|
    ensures NewFiles(dir, processed, names[..i + 1]) ==
      NewFiles(dir, processed, names[..i]) + if IsNew(dir, processed, names[i]) then [names[i]] else []
  {
    assert names[..i + 1][..i] == names[..i];
  }

  method FindNewFiles(dir: Directory, names: seq<string>, processed: map<string, string>) returns (newFiles: seq<string>, changed: bool)
    requires Lists(names, dir)
    ensures newFiles == NewFiles(dir, processed, names) && (changed <==> Rewritten(dir, processed, names))
  {
    newFiles, changed := [], false;
    for i := 0 to |names|
      invariant newFiles == NewFiles(dir, processed, names[..i])
      invariant changed <==> exists k :: 0 <= k < i && WasRewritten(dir, processed, names[k])
    {
      NewFilesNext(dir, processed, names, i);
      var n := names[i];
      if n !in processed || processed[n] != dir[n].fingerprint {
        if n in processed && processed[n] != "" {
          changed := true;
        }
        newFiles := newFiles + [n];
      }
    }
    assert names[..|names|] == names;
  }

  method ProcessFiles(dir: Directory, newFiles: seq<string>, start: Cache) returns (cache: Cache)
    requires forall n :: n in newFiles ==> n in dir
    ensures cache == ProcessAll(dir, start, newFiles)
  {
    cache := start;
    for i := 0 to |newFiles|
      invariant cache == ProcessAll(dir, start, newFiles[..i])
    {
      assert newFiles[..i + 1][..i] == newFiles[..i];
      var counters, ok := ProcessJsonFile(dir[newFiles[i]].content, cache.counters);
      if ok {
        cache := Cache(counters, cache.processed[newFiles[i] := dir[newFiles[i]].fingerprint]);
      }
    }
    assert newFiles[..|newFiles|] == newFiles;
  }

  /** A full run on an empty directory stops without saving anything. */
  method AggregateLogs(dir: Directory, names: seq<string>, saved: Cache, incremental: bool) returns (r: Option<Cache>)
    requires Lists(names, dir)
    ensures r == if !incremental && names == [] then None else Some(Run(dir, names, saved, incremental))
  {
    var cache := if incremental then saved else COLD;
    var newFiles, changed := FindNewFiles(dir, names, cache.processed);
    AllNewWhenCold(dir, names);
    if changed && incremental {
      cache := COLD;
      newFiles := names;
    }
    if newFiles == [] && !incremental {
      return None;
    }
    cache := ProcessFiles(dir, newFiles, cache);
    r := Some(cache);
  }

  // ---------- a cache as the sum of its files ----------

  /** What the file of that name held when it had that fingerprint. */
  type Meaning = (string, string) -> Content

  /** The fingerprint determines the content, and every file can be stat'ed. */
  ghost predicate Faithful(dir: Directory, meaning: Meaning) {
    forall n :: n in dir ==> dir[n].fingerprint != "" && dir[n].content == meaning(n, dir[n].fingerprint)
  }

  function BumpsOf(content: Content): seq<Bump> {
    if content.Log? then Bumps(content.summary) else []
  }

  ghost predicate SoundFiles(processed: map<string, string>, meaning: Meaning) {
    forall n :: n in processed ==> Sound(meaning(n, processed[n]))
  }

  ghost function AnyOf(names: set<string>): (n: string)
    requires names != {}
    ensures n in names
  {
    var n :| n in names;
    n
  }

  /** The contributions of some of the processed files to one counter. */
  ghost function Total(processed: map<string, string>, meaning: Meaning, names: set<string>, k: Key): int
    requires names <= processed.Keys && SoundFiles(processed, meaning)
  {
    if names == {} then 0
    else
      var n := AnyOf(names);
      Sum(BumpsOf(meaning(n, processed[n])), k) + Total(processed, meaning, names - {n}, k)
  }

  lemma {:induction false} TotalSplit(processed: map<string, string>, meaning: Meaning, names: set<string>, k: Key, n: string)
    requires names <= processed.Keys && SoundFiles(processed, meaning) && n in names
    ensures Total(processed, meaning, names, k) == Sum(BumpsOf(meaning(n, processed[n])), k) + Total(processed, meaning, names - {n}, k)
    decreases |names|
  {
    var m := AnyOf(names);
    if m != n {
      TotalSplit(processed, meaning, names - {m}, k, n);
      TotalSplit(processed, meaning, names - {n}, k, m);
      assert names - {m} - {n} == names - {n} - {m};
    }
  }

  lemma {:induction false} TotalSame(a: map<string, string>, b: map<string, string>, meaning: Meaning, names: set<string>, k: Key)
    requires names <= a.Keys && names <= b.Keys && SoundFiles(a, meaning) && SoundFiles(b, meaning)
    requires forall n :: n in names ==> a[n] == b[n]
    ensures Total(a, meaning, names, k) == Total(b, meaning, names, k)
    decreases |names|
  {
    if names != {} {
      var n := AnyOf(names);
      TotalSplit(a, meaning, names, k, n);
      TotalSplit(b, meaning, names, k, n);
      TotalSame(a, b, meaning, names - {n}, k);
    }
  }

  ghost predicate TouchedBy(processed: map<string, string>, meaning: Meaning, k: Key) {
    exists n :: n in processed && Touches(BumpsOf(meaning(n, processed[n])), k)
  }

  /** The counters are the sum of every processed file's contribution, once each, and of nothing else. */
  ghost predicate IsSum(cache: Cache, meaning: Meaning) {
    SoundFiles(cache.processed, meaning) &&
    (forall k :: Get(cache.counters, k) == Total(cache.processed, meaning, cache.processed.Keys, k)) &&
    (forall k :: k in cache.counters <==> k in EMPTY || TouchedBy(cache.processed, meaning, k))
  }

  lemma ColdIsSum(meaning: Meaning)
    ensures IsSum(COLD, meaning)
  {
  }

  /** The sum does not depend on the order the files came in. */
  lemma SumUnique(a: Cache, b: Cache, meaning: Meaning)
    requires IsSum(a, meaning) && IsSum(b, meaning) && a.processed == b.processed
    ensures a == b
  {
    SameCounters(a.counters, b.counters);
  }

  lemma OneMoreSum(processed: map<string, string>, meaning: Meaning, n: string, fingerprint: string, processed': map<string, string>, k: Key)
    requires SoundFiles(processed, meaning) && SoundFiles(processed', meaning)
    requires n !in processed && processed' == processed[n := fingerprint] && Sound(meaning(n, fingerprint))
    ensures Total(processed', meaning, processed'.Keys, k) == Total(processed, meaning, processed.Keys, k) + Sum(BumpsOf(meaning(n, fingerprint)), k)
  {
    var keys := processed.Keys;
    assert processed'.Keys - {n} == keys;
    assert processed'[n] == fingerprint;
    TotalSplit(processed', meaning, processed'.Keys, k, n);
    TotalSame(processed, processed', meaning, keys, k);
  }

  lemma OneMoreTouched(cache: Cache, meaning: Meaning, n: string, fingerprint: string, k: Key)
    requires n !in cache.processed
    ensures TouchedBy(cache.processed[n := fingerprint], meaning, k) <==>
      TouchedBy(cache.processed, meaning, k) || Touches(BumpsOf(meaning(n, fingerprint)), k)
  {
    var processed' := cache.processed[n := fingerprint];
    assert processed'[n] == fingerprint;
    if TouchedBy(cache.processed, meaning, k) {
      var m :| m in cache.processed && Touches(BumpsOf(meaning(m, cache.processed[m])), k);
      assert m in processed' && processed'[m] == cache.processed[m];
    }
  }

  lemma OneMoreFile(cache: Cache, meaning: Meaning, n: string, fingerprint: string)
    requires IsSum(cache, meaning) && n !in cache.processed && Sound(meaning(n, fingerprint))
    ensures IsSum(Cache(Counted(cache.counters, meaning(n, fingerprint)), cache.processed[n := fingerprint]), meaning)
  {
    var bumps := BumpsOf(meaning(n, fingerprint));
    var counters', processed' := Counted(cache.counters, meaning(n, fingerprint)), cache.processed[n := fingerprint];
    AddAllGrows(cache.counters, bumps);
    assert Grown(cache.counters, bumps, counters');
    forall k
      ensures Get(counters', k) == Total(processed', meaning, processed'.Keys, k)
    {
      OneMoreSum(cache.processed, meaning, n, fingerprint, processed', k);
    }
    forall k
      ensures k in counters' <==> k in EMPTY || TouchedBy(processed', meaning, k)
    {
      OneMoreTouched(cache, meaning, n, fingerprint, k);
    }
  }

  // ---------- incremental equals full ----------

  /** The fingerprints of the files in the directory that can be counted. */
  ghost predicate Covers(processed: map<string, string>, dir: Directory) {
    forall n :: (n in processed <==> n in dir && Sound(dir[n].content)) && (n in processed ==> processed[n] == dir[n].fingerprint)
  }

  /** The visited files are counted with their present fingerprint, if they can be; the others are as they were. */
  ghost predicate Visited(dir: Directory, names: seq<string>, before: map<string, string>, after: map<string, string>) {
    forall n :: if n in names && n in dir && Sound(dir[n].content) then n in after && after[n] == dir[n].fingerprint
                else (n in after <==> n in before) && (n in after ==> after[n] == before[n])
  }

  lemma {:induction false} ProcessAllSums(dir: Directory, cache: Cache, names: seq<string>, meaning: Meaning)
    requires IsSum(cache, meaning) && Faithful(dir, meaning)
    requires Distinct(names) && forall i :: 0 <= i < |names| ==> names[i] in dir && names[i] !in cache.processed
    ensures var r := ProcessAll(dir, cache, names); IsSum(r, meaning) && Visited(dir, names, cache.processed, r.processed)
  {
    if names != [] {
      var n := |names| - 1;
      ProcessAllSums(dir, cache, names[..n], meaning);
      assert names == names[..n] + [names[n]];
      OneMoreVisited(dir, names[..n], names[n], cache.processed, ProcessAll(dir, cache, names[..n]), meaning);
    }
  }

  lemma OneMoreVisited(dir: Directory, names: seq<string>, n: string, start: map<string, string>, cache: Cache, meaning: Meaning)
    requires IsSum(cache, meaning) && Faithful(dir, meaning) && n in dir && n !in start && n !in names
    requires Visited(dir, names, start, cache.processed)
    ensures var r := ProcessOne(dir, cache, n); IsSum(r, meaning) && Visited(dir, names + [n], start, r.processed)
  {
    if Sound(dir[n].content) {
      OneMoreFile(cache, meaning, n, dir[n].fingerprint);
    }
  }

  lemma FullRunCovers(dir: Directory, names: seq<string>, meaning: Meaning)
    requires Lists(names, dir) && Faithful(dir, meaning)
    ensures var r := ProcessAll(dir, COLD, names); IsSum(r, meaning) && Covers(r.processed, dir)
  {
    ColdIsSum(meaning);
    ProcessAllSums(dir, COLD, names, meaning);
  }

  /** Every file counted before is still there, and none was counted while it could not be stat'ed. */
  ghost predicate NoneDeleted(processed: map<string, string>, dir: Directory) {
    forall n :: n in processed ==> n in dir && processed[n] != ""
  }

  lemma {:induction false} NewFilesDistinct(dir: Directory, processed: map<string, string>, names: seq<string>)
    requires Distinct(names)
    ensures Distinct(NewFiles(dir, processed, names))
  {
    if names != [] {
      var n := |names| - 1;
      var rest := NewFiles(dir, processed, names[..n]);
      NewFilesDistinct(dir, processed, names[..n]);
      forall i | 0 <= i < |rest|
        ensures rest[i] != names[n]
      {
        assert rest[i] in rest && rest[i] in names[..n];
      }
    }
  }

  /** An incremental run ends with exactly the cache of a full one. */
  lemma IncrementalIsFull(dir: Directory, names: seq<string>, cache: Cache, meaning: Meaning)
    requires Lists(names, dir) && Faithful(dir, meaning) && IsSum(cache, meaning) && NoneDeleted(cache.processed, dir)
    ensures var r := Run(dir, names, cache, true);
      r == Run(dir, names, cache, false) && IsSum(r, meaning) && Covers(r.processed, dir)
  {
    FullRunCovers(dir, names, meaning);
    if !Rewritten(dir, cache.processed, names) {
      AddingIsFull(dir, names, cache, meaning);
    }
  }

  lemma AddingIsFull(dir: Directory, names: seq<string>, cache: Cache, meaning: Meaning)
    requires Lists(names, dir) && Faithful(dir, meaning) && IsSum(cache, meaning) && NoneDeleted(cache.processed, dir)
    requires !Rewritten(dir, cache.processed, names)
    ensures ProcessAll(dir, cache, NewFiles(dir, cache.processed, names)) == ProcessAll(dir, COLD, names)
  {
    var news := NewFiles(dir, cache.processed, names);
    NewFilesDistinct(dir, cache.processed, names);
    NewAreUnprocessed(dir, names, cache.processed);
    ProcessAllSums(dir, cache, news, meaning);
    FullRunCovers(dir, names, meaning);
    var a, b := ProcessAll(dir, cache, news), ProcessAll(dir, COLD, names);
    AddedCovers(dir, names, cache.processed, a.processed, meaning);
    CoversOnlyOne(a.processed, b.processed, dir);
    SumUnique(a, b, meaning);
  }

  lemma NewAreUnprocessed(dir: Directory, names: seq<string>, processed: map<string, string>)
    requires NoneDeleted(processed, dir) && !Rewritten(dir, processed, names)
    ensures var news := NewFiles(dir, processed, names); forall i :: 0 <= i < |news| ==> news[i] in dir && news[i] !in processed
  {
    var news := NewFiles(dir, processed, names);
    forall i | 0 <= i < |news|
      ensures news[i] in dir && news[i] !in processed
    {
      assert news[i] in news && !WasRewritten(dir, processed, news[i]);
    }
  }

  lemma CoversOnlyOne(a: map<string, string>, b: map<string, string>, dir: Directory)
    requires Covers(a, dir) && Covers(b, dir)
    ensures a == b
  {
  }

  lemma AddedCovers(dir: Directory, names: seq<string>, before: map<string, string>, after: map<string, string>, meaning: Meaning)
    requires Lists(names, dir) && Faithful(dir, meaning) && SoundFiles(before, meaning) && NoneDeleted(before, dir)
    requires !Rewritten(dir, before, names) && Visited(dir, NewFiles(dir, before, names), before, after)
    ensures Covers(after, dir)
  {
    forall n
      ensures (n in after <==> n in dir && Sound(dir[n].content)) && (n in after ==> after[n] == dir[n].fingerprint)
    {
      if n in before {
        assert n in names && !WasRewritten(dir, before, n);
        assert before[n] == dir[n].fingerprint;
      }
    }
  }

  // ---------- exactly when incremental equals full ----------

  predicate WithoutStat(processed: map<string, string>, n: string) {
    n in processed && processed[n] == ""
  }

  /** A file that was counted while it could not be stat'ed had log lines to count. */
  ghost predicate LinesWhereNoStat(processed: map<string, string>, meaning: Meaning) {
    forall n :: WithoutStat(processed, n) ==>
      var c := meaning(n, ""); c.Log? && c.summary.totalLines.Num? && c.summary.totalLines.value > 0
  }

  lemma {:induction false} SumAppend(a: seq<Bump>, b: seq<Bump>, k: Key)
    requires AllNumbers(a) && AllNumbers(b)
    ensures AllNumbers(a + b) && Sum(a + b, k) == Sum(a, k) + Sum(b, k)
    decreases |b|
  {
    if b == [] {
      assert a + b == a;
    } else {
      SumAppend(a, b[..|b| - 1], k);
      assert (a + b)[..|a + b| - 1] == a + b[..|b| - 1];
    }
  }

  lemma {:induction false} Untouched(bumps: seq<Bump>, k: Key)
    requires AllNumbers(bumps) && !Touches(bumps, k)
    ensures Sum(bumps, k) == 0
    decreases |bumps|
  {
    if bumps != [] {
      var rest := bumps[..|bumps| - 1];
      assert forall i :: 0 <= i < |rest| ==> rest[i] == bumps[i];
      Untouched(rest, k);
    }
  }

  lemma {:induction false} RowsKeepLines(table: Table, minute: string, row: Row)
    ensures !Touches(RowBumps(table, minute, row), Lines)
    decreases |row|
  {
    if row != [] {
      RowsKeepLines(table, minute, row[..|row| - 1]);
    }
  }

  lemma {:induction false} TablesKeepLines(table: Table, rows: seq<(string, Row)>)
    ensures !Touches(TableBumps(table, rows), Lines)
    decreases |rows|
  {
    if rows != [] {
      TablesKeepLines(table, rows[..|rows| - 1]);
      RowsKeepLines(table, Minute(rows[|rows| - 1].0), rows[|rows| - 1].1);
    }
  }

  lemma {:induction false} WarningsKeepLines(row: Row)
    ensures !Touches(WarnBumps(row), Lines)
    decreases |row|
  {
    if row != [] {
      WarningsKeepLines(row[..|row| - 1]);
    }
  }

  lemma UntouchedAppend(a: seq<Bump>, b: seq<Bump>, k: Key)
    requires !Touches(a, k) && !Touches(b, k)
    ensures !Touches(a + b, k)
  {
  }

  lemma NumbersPrefix(a: seq<Bump>, b: seq<Bump>)
    requires AllNumbers(a + b)
    ensures AllNumbers(a) && AllNumbers(b)
  {
    forall i | 0 <= i < |a|
      ensures a[i].count.Num?
    {
      assert (a + b)[i] == a[i];
    }
    forall i | 0 <= i < |b|
      ensures b[i].count.Num?
    {
      assert (a + b)[|a| + i] == b[i];
    }
  }

  /** A summary adds its own line total to the lines, and no table adds to them. */
  lemma LinesOfSummary(s: Summary)
    requires AllNumbers(Bumps(s))
    ensures s.totalLines.Num? && Sum(Bumps(s), Lines) == s.totalLines.value
  {
    var head := [Bump(Lines, s.totalLines), Bump(FailedLines, s.failedToParse)];
    var tail := Tables(s);
    TailKeepsLines(s);
    BumpsSplit(s);
    hide AllNumbers, Bumps, Tables, Sum, Touches;
    HeadAndTail(head, tail, s);
  }

  lemma BumpsSplit(s: Summary)
    ensures Bumps(s) == [Bump(Lines, s.totalLines), Bump(FailedLines, s.failedToParse)] + Tables(s)
  {
    hide TableBumps, WarnBumps;
  }

  function Tables(s: Summary): seq<Bump> {
    TableBumps(Levels, s.levelCounts) + TableBumps(Events, s.eventCounts) + TableBumps(Components, s.componentCounts) + WarnBumps(s.warnErrorCounts)
  }

  lemma TailKeepsLines(s: Summary)
    ensures !Touches(Tables(s), Lines)
  {
    var l, e, c, w := TableBumps(Levels, s.levelCounts), TableBumps(Events, s.eventCounts), TableBumps(Components, s.componentCounts), WarnBumps(s.warnErrorCounts);
    TablesKeepLines(Levels, s.levelCounts);
    TablesKeepLines(Events, s.eventCounts);
    TablesKeepLines(Components, s.componentCounts);
    WarningsKeepLines(s.warnErrorCounts);
    UntouchedAppend(l, e, Lines);
    UntouchedAppend(l + e, c, Lines);
    UntouchedAppend(l + e + c, w, Lines);
  }

  lemma HeadAndTail(head: seq<Bump>, tail: seq<Bump>, s: Summary)
    requires head == [Bump(Lines, s.totalLines), Bump(FailedLines, s.failedToParse)]
    requires AllNumbers(head + tail) && !Touches(tail, Lines)
    ensures s.totalLines.Num? && Sum(head + tail, Lines) == s.totalLines.value
  {
    NumbersPrefix(head, tail);
    SumAppend(head, tail, Lines);
    Untouched(tail, Lines);
    assert head[0].count.Num? && head[..1][..0] == [] && head[..1] == [head[0]];
    assert Sum(head[..1], Lines) == s.totalLines.value;
  }

  /** Any fingerprints of countable files have a cache that is their sum. */
  lemma {:induction false} SomeSum(processed: map<string, string>, meaning: Meaning) returns (c: Cache)
    requires SoundFiles(processed, meaning)
    ensures IsSum(c, meaning) && c.processed == processed
    decreases |processed|
  {
    if processed == map[] {
      ColdIsSum(meaning);
      c := COLD;
    } else {
      var n :| n in processed;
      TakeOne(processed, n);
      var before := SomeSum(processed - {n}, meaning);
      OneMoreFile(before, meaning, n, processed[n]);
      c := Cache(Counted(before.counters, meaning(n, processed[n])), before.processed[n := processed[n]]);
    }
  }

  lemma TakeOne(processed: map<string, string>, n: string)
    requires n in processed
    ensures var rest := processed - {n}; |rest| < |processed| && n !in rest && rest[n := processed[n]] == processed
  {
    var rest := processed - {n};
    assert rest.Keys == processed.Keys - {n};
  }

  lemma TakeFromUnion(a: set<string>, b: set<string>, both: set<string>, n: string)
    requires both == a + b && a !! b && n in b
    ensures n in both && both - {n} == a + (b - {n}) && both - {n} <= both && a !! (b - {n}) && |b - {n}| < |b|
  {
  }

  lemma {:induction false} TotalUnion(processed: map<string, string>, meaning: Meaning, a: set<string>, b: set<string>, both: set<string>, k: Key)
    requires both <= processed.Keys && both == a + b && a !! b && SoundFiles(processed, meaning)
    ensures Total(processed, meaning, both, k) == Total(processed, meaning, a, k) + Total(processed, meaning, b, k)
    decreases |b|
  {
    if b == {} {
      assert both == a;
    } else {
      var n := AnyOf(b);
      TakeFromUnion(a, b, both, n);
      TotalUnion(processed, meaning, a, b - {n}, both - {n}, k);
      TotalSplit(processed, meaning, both, k, n);
      TotalSplit(processed, meaning, b, k, n);
    }
  }

  lemma {:induction false} TotalPositive(processed: map<string, string>, meaning: Meaning, names: set<string>)
    requires names <= processed.Keys && SoundFiles(processed, meaning) && names != {}
    requires LinesWhereNoStat(processed, meaning) && forall n :: n in names ==> WithoutStat(processed, n)
    ensures Total(processed, meaning, names, Lines) > 0
    decreases |names|
  {
    var n := AnyOf(names);
    assert WithoutStat(processed, n);
    LinesOfSummary(meaning(n, "").summary);
    TotalSplit(processed, meaning, names, Lines, n);
    if names - {n} != {} {
      TotalPositive(processed, meaning, names - {n});
    } else {
      assert Total(processed, meaning, {}, Lines) == 0;
    }
  }

  /** What files add does not depend on what they are added to. */
  lemma {:induction false} SameIncrease(dir: Directory, a: Cache, b: Cache, names: seq<string>, k: Key)
    ensures Get(ProcessAll(dir, a, names).counters, k) - Get(a.counters, k) == Get(ProcessAll(dir, b, names).counters, k) - Get(b.counters, k)
    decreases |names|
  {
    if names != [] {
      var n := |names| - 1;
      SameIncrease(dir, a, b, names[..n], k);
      OneIncrease(dir, ProcessAll(dir, a, names[..n]), names[n], k);
      OneIncrease(dir, ProcessAll(dir, b, names[..n]), names[n], k);
    }
  }

  lemma OneIncrease(dir: Directory, c: Cache, n: string, k: Key)
    ensures Get(ProcessOne(dir, c, n).counters, k) ==
      Get(c.counters, k) + if n in dir && Sound(dir[n].content) then Sum(Bumps(dir[n].content.summary), k) else 0
  {
    if n in dir && Sound(dir[n].content) {
      AddAllGrows(c.counters, Bumps(dir[n].content.summary));
    }
  }

  lemma {:induction false} ProcessedStays(dir: Directory, cache: Cache, names: seq<string>, n: string)
    requires n in cache.processed
    ensures n in ProcessAll(dir, cache, names).processed
    decreases |names|
  {
    if names != [] {
      ProcessedStays(dir, cache, names[..|names| - 1], n);
    }
  }

  lemma {:induction false} SameNews(dir: Directory, a: map<string, string>, b: map<string, string>, names: seq<string>)
    requires forall n :: n in names ==> (IsNew(dir, a, n) <==> IsNew(dir, b, n))
    ensures NewFiles(dir, a, names) == NewFiles(dir, b, names)
    decreases |names|
  {
    if names != [] {
      assert names[|names| - 1] in names;
      SameNews(dir, a, b, names[..|names| - 1]);
    }
  }

  /** A counted file that is no longer there stays counted. */
  lemma DeletedFilesDiffer(dir: Directory, names: seq<string>, cache: Cache, meaning: Meaning, n: string)
    requires Lists(names, dir) && Faithful(dir, meaning) && !Rewritten(dir, cache.processed, names)
    requires n in cache.processed && n !in dir
    ensures Run(dir, names, cache, true) != Run(dir, names, cache, false)
  {
    ProcessedStays(dir, cache, NewFiles(dir, cache.processed, names), n);
    FullRunCovers(dir, names, meaning);
  }

  /** The cache as if the files counted without a stat never had been. */
  lemma OnlyStatted(dir: Directory, names: seq<string>, cache: Cache, meaning: Meaning, odd: set<string>) returns (clean: Cache)
    requires Lists(names, dir) && Faithful(dir, meaning) && IsSum(cache, meaning) && !Rewritten(dir, cache.processed, names)
    requires cache.processed.Keys <= dir.Keys && odd == set n | n in cache.processed && cache.processed[n] == ""
    ensures ProcessAll(dir, clean, NewFiles(dir, cache.processed, names)) == ProcessAll(dir, COLD, names)
    ensures SoundFiles(cache.processed, meaning) && odd <= cache.processed.Keys
    ensures Get(clean.counters, Lines) == Get(cache.counters, Lines) - Total(cache.processed, meaning, odd, Lines)
  {
    var kept := cache.processed - odd;
    assert SoundFiles(kept, meaning);
    clean := SomeSum(kept, meaning);
    assert kept.Keys + odd == cache.processed.Keys;
    TotalUnion(cache.processed, meaning, kept.Keys, odd, cache.processed.Keys, Lines);
    TotalSame(cache.processed, kept, meaning, kept.Keys, Lines);
    assert Get(clean.counters, Lines) == Total(kept, meaning, kept.Keys, Lines);
    assert Get(cache.counters, Lines) == Total(cache.processed, meaning, cache.processed.Keys, Lines);
    KeptIsUnchanged(dir, names, cache.processed, kept, odd);
    SameNews(dir, cache.processed, kept, names);
    AddingIsFull(dir, names, clean, meaning);
  }

  lemma KeptIsUnchanged(dir: Directory, names: seq<string>, processed: map<string, string>, kept: map<string, string>, odd: set<string>)
    requires odd == (set n | n in processed && processed[n] == "") && kept == processed - odd
    requires !Rewritten(dir, processed, names) && processed.Keys <= dir.Keys && forall n :: n in dir ==> dir[n].fingerprint != ""
    ensures NoneDeleted(kept, dir) && !Rewritten(dir, kept, names)
    ensures forall n :: n in names ==> (IsNew(dir, processed, n) <==> IsNew(dir, kept, n))
  {
    forall n | n in names
      ensures !WasRewritten(dir, kept, n) && (IsNew(dir, processed, n) <==> IsNew(dir, kept, n))
    {
      assert !WasRewritten(dir, processed, n);
    }
  }

  /** A file counted without a stat is counted once more. */
  lemma UnstattedFilesDiffer(dir: Directory, names: seq<string>, cache: Cache, meaning: Meaning, n: string)
    requires Lists(names, dir) && Faithful(dir, meaning) && IsSum(cache, meaning) && !Rewritten(dir, cache.processed, names)
    requires cache.processed.Keys <= dir.Keys && LinesWhereNoStat(cache.processed, meaning) && WithoutStat(cache.processed, n)
    ensures Get(Run(dir, names, cache, true).counters, Lines) > Get(Run(dir, names, cache, false).counters, Lines)
  {
    var odd := set m | m in cache.processed && cache.processed[m] == "";
    var clean := OnlyStatted(dir, names, cache, meaning, odd);
    assert n in odd;
    TotalPositive(cache.processed, meaning, odd);
    SameIncrease(dir, cache, clean, NewFiles(dir, cache.processed, names), Lines);
  }

  /**
   * On any directory and from any sound cache, an incremental run ends as a full one does exactly when it rebuilds,
   * or every file counted before is still there and was counted with a stat.
   */
  lemma IncrementalIsFullIff(dir: Directory, names: seq<string>, cache: Cache, meaning: Meaning)
    requires Lists(names, dir) && Faithful(dir, meaning) && IsSum(cache, meaning) && LinesWhereNoStat(cache.processed, meaning)
    ensures Run(dir, names, cache, true) == Run(dir, names, cache, false) <==>
      Rewritten(dir, cache.processed, names) || NoneDeleted(cache.processed, dir)
  {
    if Rewritten(dir, cache.processed, names) {
    } else if NoneDeleted(cache.processed, dir) {
      IncrementalIsFull(dir, names, cache, meaning);
    } else {
      var n :| n in cache.processed && !(n in dir && cache.processed[n] != "");
      if m :| m in cache.processed && m !in dir {
        DeletedFilesDiffer(dir, names, cache, meaning, m);
      } else {
        UnstattedFilesDiffer(dir, names, cache, meaning, n);
      }
    }
  }

  // ---------- whole histories ----------

  /** Files come and are rewritten, but never go. */
  ghost predicate Growing(history: seq<Directory>) {
    forall i :: 0 < i < |history| ==> history[i - 1].Keys <= history[i].Keys
  }

  ghost predicate AllFaithful(history: seq<Directory>, orders: seq<seq<string>>, meaning: Meaning)
    requires |orders| == |history|
  {
    forall i :: 0 <= i < |history| ==> Faithful(history[i], meaning) && Lists(orders[i], history[i])
  }

  /** The cache after incremental runs on a history of directories, starting with none. */
  function AfterRuns(history: seq<Directory>, orders: seq<seq<string>>): Cache
    requires |orders| == |history|
  {
    if history == [] then COLD
    else Run(history[|history| - 1], orders[|history| - 1], AfterRuns(history[..|history| - 1], orders[..|history| - 1]), true)
  }

  /** Over any history of added and rewritten files the cached aggregate is that of one full run on the last directory. */
  lemma {:induction false} IncrementalHistory(history: seq<Directory>, orders: seq<seq<string>>, meaning: Meaning)
    requires |orders| == |history| && history != [] && Growing(history) && AllFaithful(history, orders, meaning)
    ensures var last, order := history[|history| - 1], orders[|history| - 1];
      AfterRuns(history, orders) == Run(last, order, COLD, false) &&
      IsSum(AfterRuns(history, orders), meaning) && Covers(AfterRuns(history, orders).processed, last)
  {
    var n := |history| - 1;
    var before := AfterRuns(history[..n], orders[..n]);
    if n == 0 {
      ColdIsSum(meaning);
    } else {
      IncrementalHistory(history[..n], orders[..n], meaning);
      assert history[n - 1].Keys <= history[n].Keys;
    }
    IncrementalIsFull(history[n], orders[n], before, meaning);
  }

  lemma ProcessSingle(dir: Directory, cache: Cache, n: string)
    ensures ProcessAll(dir, cache, [n]) == ProcessOne(dir, cache, n)
  {
    assert [n][..0] == [] && ProcessAll(dir, cache, []) == cache;
  }

  lemma NewSingle(dir: Directory, processed: map<string, string>, n: string)
    requires IsNew(dir, processed, n)
    ensures NewFiles(dir, processed, [n]) == [n]
  {
    assert [n][..0] == [] && NewFiles(dir, processed, []) == [];
  }

  lemma OneFileRun(dir: Directory, n: string, cache: Cache)
    requires IsNew(dir, cache.processed, n) && !WasRewritten(dir, cache.processed, n)
    ensures Run(dir, [n], cache, true) == ProcessOne(dir, cache, n) && Run(dir, [n], cache, false) == ProcessOne(dir, COLD, n)
  {
    NewSingle(dir, cache.processed, n);
    ProcessSingle(dir, cache, n);
    ProcessSingle(dir, COLD, n);
  }

  /** Without the stat hypothesis this fails: a file counted while it could not be stat'ed is counted again later. */
  lemma FailedStatCountsTwice(n: string, content: Content, fingerprint: string)
    requires Sound(content) && fingerprint != ""
    ensures var later := map[n := File(fingerprint, content)];
      var once := Counted(EMPTY, content);
      var first := Run(map[n := File("", content)], [n], COLD, true);
      Run(later, [n], first, false).counters == once && Run(later, [n], first, true).counters == Counted(once, content)
  {
    var now, later := map[n := File("", content)], map[n := File(fingerprint, content)];
    var first := Cache(Counted(EMPTY, content), map[n := ""]);
    OneFileRun(now, n, COLD);
    assert ProcessOne(now, COLD, n) == first;
    OneFileRun(later, n, first);
  }

  // ---------- what a summary adds to each counter ----------

  function ValueOf(n: Num): int {
    if n.Num? then n.value else 0
  }

  /** What a row says of one name in all. */
  ghost function RowTotal(row: Row, name: string): int {
    if row == [] then 0
    else RowTotal(row[..|row| - 1], name) + (if row[|row| - 1].0 == name then ValueOf(row[|row| - 1].1) else 0)
  }

  /** What the rows of one minute say of one name in all. */
  ghost function CellTotal(rows: seq<(string, Row)>, minute: string, name: string): int {
    if rows == [] then 0
    else
      var last := rows[|rows| - 1];
      CellTotal(rows[..|rows| - 1], minute, name) + (if Minute(last.0) == minute then RowTotal(last.1, name) else 0)
  }

  /** How many time stamps fall into the minute. */
  ghost function StampsIn(rows: seq<(string, Row)>, minute: string): nat {
    if rows == [] then 0 else StampsIn(rows[..|rows| - 1], minute) + (if Minute(rows[|rows| - 1].0) == minute then 1 else 0)
  }

  ghost function Contribution(s: Summary, k: Key): int {
    match k
    case Lines => ValueOf(s.totalLines)
    case FailedLines => ValueOf(s.failedToParse)
    case WarnError(event) => RowTotal(s.warnErrorCounts, event)
    case Samples(minute) => StampsIn(s.levelCounts, minute)
    case Level(minute, name) => CellTotal(s.levelCounts, minute, name)
    case Event(minute, name) => CellTotal(s.eventCounts, minute, name)
    case Component(minute, name) => CellTotal(s.componentCounts, minute, name)
  }

  predicate InTable(k: Key, table: Table) {
    match table
    case Levels => k.Level?
    case Events => k.Event?
    case Components => k.Component?
  }

  /** The part of a contribution that comes from one table. */
  ghost function FromTable(table: Table, rows: seq<(string, Row)>, k: Key): int {
    if k.Samples? && table.Levels? then StampsIn(rows, k.minute)
    else if InTable(k, table) then CellTotal(rows, k.minute, k.name)
    else 0
  }

  lemma SumOne(bumps: seq<Bump>, b: Bump, k: Key)
    requires AllNumbers(bumps + [b])
    ensures AllNumbers(bumps) && b.count.Num? && Sum(bumps + [b], k) == Sum(bumps, k) + if b.key == k then b.count.value else 0
  {
    assert (bumps + [b])[|bumps|] == b;
    NumbersPrefix(bumps, [b]);
    assert (bumps + [b])[..|bumps|] == bumps;
  }

  lemma {:induction false} RowAdds(table: Table, minute: string, row: Row, k: Key)
    requires AllNumbers(RowBumps(table, minute, row))
    ensures Sum(RowBumps(table, minute, row), k) == if InTable(k, table) && k.minute == minute then RowTotal(row, k.name) else 0
    decreases |row|
  {
    if row != [] {
      var rest, last := row[..|row| - 1], row[|row| - 1];
      var bumps, a, b := RowBumps(table, minute, rest), Bump(Samples(minute), Num(0)), Bump(Cell(table, minute, last.0), last.1);
      assert RowBumps(table, minute, row) == bumps + [a] + [b];
      SumOne(bumps + [a], b, k);
      SumOne(bumps, a, k);
      RowAdds(table, minute, rest, k);
    }
  }

  lemma {:induction false} TableAdds(table: Table, rows: seq<(string, Row)>, k: Key)
    requires AllNumbers(TableBumps(table, rows))
    ensures Sum(TableBumps(table, rows), k) == FromTable(table, rows, k)
    decreases |rows|
  {
    if rows != [] {
      var rest, last := rows[..|rows| - 1], rows[|rows| - 1];
      NumbersPrefix(TableBumps(table, rest), EntryBumps(table, last));
      TableAdds(table, rest, k);
      EntryAdds(table, last, k);
      SumAppend(TableBumps(table, rest), EntryBumps(table, last), k);
    }
  }

  lemma EntryAdds(table: Table, entry: (string, Row), k: Key)
    requires AllNumbers(EntryBumps(table, entry))
    ensures Sum(EntryBumps(table, entry), k) ==
      if k.Samples? && table.Levels? then (if Minute(entry.0) == k.minute then 1 else 0)
      else if InTable(k, table) && Minute(entry.0) == k.minute then RowTotal(entry.1, k.name)
      else 0
  {
    var stamp, row := if table.Levels? then [Bump(Samples(Minute(entry.0)), Num(1))] else [], RowBumps(table, Minute(entry.0), entry.1);
    NumbersPrefix(stamp, row);
    SumAppend(stamp, row, k);
    RowAdds(table, Minute(entry.0), entry.1, k);
    if table.Levels? {
      assert stamp == [] + stamp;
      SumOne([], stamp[0], k);
    }
  }

  lemma {:induction false} WarningsAdd(row: Row, k: Key)
    requires AllNumbers(WarnBumps(row))
    ensures Sum(WarnBumps(row), k) == if k.WarnError? then RowTotal(row, k.event) else 0
    decreases |row|
  {
    if row != [] {
      var rest, last := row[..|row| - 1], row[|row| - 1];
      SumOne(WarnBumps(rest), Bump(WarnError(last.0), last.1), k);
      WarningsAdd(rest, k);
    }
  }

  /** A summary adds to each counter exactly what it says: the totals, the counts by minute and name, and a sample for each level entry. */
  lemma SummaryAdds(s: Summary, k: Key)
    requires AllNumbers(Bumps(s))
    ensures Sum(Bumps(s), k) == Contribution(s, k)
  {
    var head := [Bump(Lines, s.totalLines), Bump(FailedLines, s.failedToParse)];
    BumpsSplit(s);
    hide AllNumbers, Bumps, Tables, Sum, Contribution, FromTable, ValueOf;
    NumbersPrefix(head, Tables(s));
    SumAppend(head, Tables(s), k);
    HeadAdds(head, s, k);
    TablesAdd(s, k);
    ContributionParts(s, k);
  }

  lemma ContributionParts(s: Summary, k: Key)
    ensures Contribution(s, k) ==
      (if k.Lines? then ValueOf(s.totalLines) else if k.FailedLines? then ValueOf(s.failedToParse) else 0) +
      (FromTable(Levels, s.levelCounts, k) + FromTable(Events, s.eventCounts, k) +
       FromTable(Components, s.componentCounts, k) + (if k.WarnError? then RowTotal(s.warnErrorCounts, k.event) else 0))
  {
  }

  lemma HeadAdds(head: seq<Bump>, s: Summary, k: Key)
    requires head == [Bump(Lines, s.totalLines), Bump(FailedLines, s.failedToParse)] && AllNumbers(head)
    ensures Sum(head, k) == if k.Lines? then ValueOf(s.totalLines) else if k.FailedLines? then ValueOf(s.failedToParse) else 0
  {
    assert head == [] + [head[0]] + [head[1]];
    SumOne([] + [head[0]], head[1], k);
    SumOne([], head[0], k);
  }

  lemma TablesAdd(s: Summary, k: Key)
    requires AllNumbers(Tables(s))
    ensures Sum(Tables(s), k) == FromTable(Levels, s.levelCounts, k) + FromTable(Events, s.eventCounts, k) +
      FromTable(Components, s.componentCounts, k) + (if k.WarnError? then RowTotal(s.warnErrorCounts, k.event) else 0)
  {
    var l, e, c, w := TableBumps(Levels, s.levelCounts), TableBumps(Events, s.eventCounts), TableBumps(Components, s.componentCounts), WarnBumps(s.warnErrorCounts);
    NumbersPrefix(l + e + c, w);
    NumbersPrefix(l + e, c);
    NumbersPrefix(l, e);
    SumAppend(l, e, k);
    SumAppend(l + e, c, k);
    SumAppend(l + e + c, w, k);
    TableAdds(Levels, s.levelCounts, k);
    TableAdds(Events, s.eventCounts, k);
    TableAdds(Components, s.componentCounts, k);
    WarningsAdd(s.warnErrorCounts, k);
  }
}
