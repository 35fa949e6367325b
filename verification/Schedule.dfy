/** Redis key names (internal/broker/keys.go). */
module Keys {
  const PREFIX := "hover:"
  const RUNNING_COUNTERS := PREFIX + "running"

  function ScheduleKey(jobId: string): string { PREFIX + "sched:" + jobId }

  function StreamKey(jobId: string): string { PREFIX + "stream:" + jobId }

  function LighthouseStreamKey(jobId: string): string { PREFIX + "stream:" + jobId + ":lh" }

  function DomainGateKey(domain: string): string { PREFIX + "dom:gate:" + domain }

  function DomainConfigKey(domain: string): string { PREFIX + "dom:cfg:" + domain }

  function DomainInflightKey(domain: string): string { PREFIX + "dom:flight:" + domain }

  predicate ColonFree(s: string) {
    ':' !in s
  }

  lemma StreamKeyInjective(a: string, b: string)
    requires StreamKey(a) == StreamKey(b)
    ensures a == b
  {
    var p := PREFIX + "stream:";
    assert StreamKey(a)[|p|..] == a && StreamKey(b)[|p|..] == b;
  }

  lemma DomainGateKeyInjective(a: string, b: string)
    requires DomainGateKey(a) == DomainGateKey(b)
    ensures a == b
  {
    var p := PREFIX + "dom:gate:";
    assert DomainGateKey(a)[|p|..] == a && DomainGateKey(b)[|p|..] == b;
  }

  lemma LighthouseStreamKeyInjective(a: string, b: string)
    requires LighthouseStreamKey(a) == LighthouseStreamKey(b)
    ensures a == b
  {
    var p := PREFIX + "stream:";
    assert LighthouseStreamKey(a)[|p|..|p| + |a|] == a;
    assert |a| == |b|;
    assert LighthouseStreamKey(b)[|p|..|p| + |b|] == b;
  }

  lemma ScheduleKeyInjective(a: string, b: string)
    requires ScheduleKey(a) == ScheduleKey(b)
    ensures a == b
  {
    var p := PREFIX + "sched:";
    assert ScheduleKey(a)[|p|..] == a && ScheduleKey(b)[|p|..] == b;
  }

  /** The crawl stream of one job is never the lighthouse stream of another, ids being free of ':'. */
  lemma StreamsApart(a: string, b: string)
    requires ColonFree(a)
    ensures StreamKey(a) != LighthouseStreamKey(b)
  {
    var p := PREFIX + "stream:";
    var k := |p| + |b|;
    assert LighthouseStreamKey(b)[k] == ':';
    if |a| > |b| {
      assert StreamKey(a)[k] == a[|b|];
      assert a[|b|] in a;
    }
  }
}

/** The sorted-set member codec (internal/broker/scheduler.go, keys.go). */
module Schedule {
  import opened Text

  datatype ScheduleEntry = ScheduleEntry(
    taskId: string, jobId: string, pageId: Int64, host: string, path: string,
    priority: Priority, retryCount: Int64, sourceType: string, sourceUrl: string,
    runAt: int, taskType: string, lighthouseRunId: Int64)
  {
    function TaskTypeOrDefault(): string {
      if taskType == "" then "crawl" else taskType
    }

    function Fields(): seq<string> {
      [taskId, jobId, IntStr(pageId), host, path, Fixed4(priority), IntStr(retryCount),
       sourceType, sourceUrl, TaskTypeOrDefault(), IntStr(lighthouseRunId)]
    }

    /** The eleven-field member stored in the sorted set. */
    function Member(): string {
      Join(Fields())
    }

    predicate HasPipeFreeText() {
      PipeFree(taskId) && PipeFree(jobId) && PipeFree(host) && PipeFree(path) &&
      PipeFree(sourceType) && PipeFree(sourceUrl) && PipeFree(taskType)
    }

    /** What survives a trip through the sorted set with the given score. */
    function Stored(score: int): ScheduleEntry {
      this.(priority := Round4(priority), taskType := TaskTypeOrDefault(), runAt := score)
    }
  }

  /** A member with nine fields (legacy) or eleven is accepted; a twelfth separator ends up in the last field. */
  function ParseScheduleEntry(member: string, score: int): Option<ScheduleEntry> {
    ParseFields(SplitN(member, 11), score)
  }

  function ParseFields(parts: seq<string>, score: int): Option<ScheduleEntry> {
    if |parts| != 9 && |parts| != 11 then None
    else
      var pageId := ParseInt(parts[2]);
      var priority := ParseDecimal(parts[5]);
      var retryCount := ParseInt(parts[6]);
      var runId := if |parts| == 11 then ParseRunId(parts[10]) else Some(0);
      if pageId.None? || priority.None? || retryCount.None? || runId.None? then None
      else
        var taskType := if |parts| == 11 && parts[9] != "" then parts[9] else "crawl";
        Some(ScheduleEntry(parts[0], parts[1], pageId.value, parts[3], parts[4], priority.value,
                           retryCount.value, parts[7], parts[8], score, taskType, runId.value))
  }

  function ParseRunId(s: string): Option<Int64> {
    if s == "" then Some(0) else ParseInt(s)
  }

  /** Eleven fields, canonical numerals, no field that the parser would fill in. */
  predicate CanonicalMember(member: string) {
    CanonicalFields(SplitN(member, 11))
  }

  predicate CanonicalFields(parts: seq<string>) {
    |parts| == 11 && CanonicalInt(parts[2]) && Canonical4(parts[5]) && CanonicalInt(parts[6]) &&
    parts[9] != "" && CanonicalInt(parts[10])
  }

  lemma NumeralsArePipeFree(e: ScheduleEntry)
    ensures PipeFree(IntStr(e.pageId)) && PipeFree(Fixed4(e.priority)) && PipeFree(IntStr(e.retryCount)) && PipeFree(IntStr(e.lighthouseRunId))
  {
    IntIsPipeFree(e.pageId);
    IntIsPipeFree(e.retryCount);
    IntIsPipeFree(e.lighthouseRunId);
    Fixed4Reads(e.priority);
    CanonicalIsPipeFree(Fixed4(e.priority));
  }

  lemma DigitsArePipeFree(s: string)
    requires AllDigits(s)
    ensures PipeFree(s)
  {
    forall i | 0 <= i < |s|
      ensures s[i] != '|'
    {
      assert IsDigit(s[i]);
    }
  }

  lemma IntIsPipeFree(n: Int64)
    ensures PipeFree(IntStr(n))
  {
    var k: int := n;
    NatStrReads(if k < 0 then -k else k);
    DigitsArePipeFree(NatStr(if k < 0 then -k else k));
  }

  lemma CanonicalIsPipeFree(s: string)
    requires Canonical4(s)
    ensures PipeFree(s)
  {
    DigitsArePipeFree(s[..|s| - 5]);
    DigitsArePipeFree(s[|s| - 4..]);
    assert s == s[..|s| - 5] + "." + s[|s| - 4..];
  }

  lemma MemberSplits(e: ScheduleEntry)
    requires e.HasPipeFreeText()
    ensures SplitN(e.Member(), 11) == e.Fields()
  {
    NumeralsArePipeFree(e);
    assert PipeFree("crawl");
    SplitJoin(e.Fields(), 11);
  }

  /** parse after print: everything comes back, the priority to four decimals. */
  lemma ParseAfterPrint(e: ScheduleEntry, score: int)
    requires e.HasPipeFreeText()
    ensures ParseScheduleEntry(e.Member(), score) == Some(e.Stored(score))
    ensures CanonicalMember(e.Member())
  {
    MemberSplits(e);
    FieldsReadBack(e, e.Fields(), score);
    FieldsAreCanonical(e, e.Fields());
  }

  lemma FieldsReadBack(e: ScheduleEntry, parts: seq<string>, score: int)
    requires parts == e.Fields()
    ensures ParseFields(parts, score) == Some(e.Stored(score))
  {
    hide IntStr, Fixed4, ParseInt, ParseDecimal;
    NumeralsReadBack(e);
    PartsReadBack(e, parts, score);
  }

  lemma FieldsAreCanonical(e: ScheduleEntry, parts: seq<string>)
    requires parts == e.Fields()
    ensures CanonicalFields(parts)
  {
    NumeralsAreCanonical(e);
  }

  lemma PartsReadBack(e: ScheduleEntry, parts: seq<string>, score: int)
    requires |parts| == 11 && parts[0] == e.taskId && parts[1] == e.jobId && parts[3] == e.host && parts[4] == e.path
    requires parts[7] == e.sourceType && parts[8] == e.sourceUrl && parts[9] == e.TaskTypeOrDefault()
    requires ParseInt(parts[2]) == Some(e.pageId) && ParseInt(parts[6]) == Some(e.retryCount)
    requires ParseRunId(parts[10]) == Some(e.lighthouseRunId) && ParseDecimal(parts[5]) == Some(Round4(e.priority))
    ensures ParseFields(parts, score) == Some(e.Stored(score))
  {
  }

  lemma NumeralsReadBack(e: ScheduleEntry)
    ensures ParseInt(IntStr(e.pageId)) == Some(e.pageId) && ParseInt(IntStr(e.retryCount)) == Some(e.retryCount)
    ensures ParseRunId(IntStr(e.lighthouseRunId)) == Some(e.lighthouseRunId) && ParseDecimal(Fixed4(e.priority)) == Some(Round4(e.priority))
  {
    IntStrReads(e.pageId);
    IntStrReads(e.retryCount);
    IntStrReads(e.lighthouseRunId);
    Fixed4Parses(e.priority);
  }

  lemma NumeralsAreCanonical(e: ScheduleEntry)
    ensures CanonicalInt(IntStr(e.pageId)) && CanonicalInt(IntStr(e.retryCount)) && CanonicalInt(IntStr(e.lighthouseRunId))
    ensures Canonical4(Fixed4(e.priority))
  {
    IntStrReads(e.pageId);
    IntStrReads(e.retryCount);
    IntStrReads(e.lighthouseRunId);
    Fixed4IsCanonical(e.priority);
  }

  /** Whatever the parser accepts has no separator left in any text field. */
  lemma ParsedIsPipeFree(member: string, score: int)
    requires ParseScheduleEntry(member, score).Some?
    ensures ParseScheduleEntry(member, score).value.HasPipeFreeText()
    ensures ParseScheduleEntry(member, score).value.taskType != ""
  {
    JoinSplit(member, 11);
    FieldsArePipeFree(SplitN(member, 11), score);
  }

  lemma FieldsArePipeFree(parts: seq<string>, score: int)
    requires ParseFields(parts, score).Some?
    requires forall k :: 0 <= k < |parts| && k < 10 ==> PipeFree(parts[k])
    ensures ParseFields(parts, score).value.HasPipeFreeText()
    ensures ParseFields(parts, score).value.taskType != ""
  {
    assert PipeFree("crawl");
  }

  lemma NumeralIsPipeFree(s: string)
    requires ParseInt(s).Some?
    ensures PipeFree(s)
  {
    var signed := |s| >= 1 && (s[0] == '-' || s[0] == '+');
    if signed {
      DigitsArePipeFree(s[1..]);
      assert s == [s[0]] + s[1..];
    } else {
      DigitsArePipeFree(s);
    }
  }

  /** A stored member can be read back at all exactly when no text field held a separator. */
  lemma ReadableIffPipeFree(e: ScheduleEntry, score: int)
    ensures ParseScheduleEntry(e.Member(), score).Some? <==> e.HasPipeFreeText()
  {
    if e.HasPipeFreeText() {
      ParseAfterPrint(e, score);
    }
    if ParseScheduleEntry(e.Member(), score).Some? {
      JoinSplit(e.Member(), 11);
      PiecesArePipeFree(SplitN(e.Member(), 11), score);
      JoinUnique(SplitN(e.Member(), 11), e.Fields());
      FieldsTextIsPipeFree(e);
    }
  }

  lemma PiecesArePipeFree(pieces: seq<string>, score: int)
    requires ParseFields(pieces, score).Some?
    requires forall k :: 0 <= k < |pieces| && k < 10 ==> PipeFree(pieces[k])
    ensures AllPipeFree(pieces) && |pieces| <= 11
  {
    if |pieces| == 11 && pieces[10] != "" {
      NumeralIsPipeFree(pieces[10]);
    }
  }

  lemma FieldsTextIsPipeFree(e: ScheduleEntry)
    requires AllPipeFree(e.Fields())
    ensures e.HasPipeFreeText()
  {
    var f := e.Fields();
    assert PipeFree(f[0]) && PipeFree(f[1]) && PipeFree(f[3]) && PipeFree(f[4]) && PipeFree(f[7]) && PipeFree(f[8]) && PipeFree(f[9]);
  }

  /**
   * print after parse: the member rebuilt for ZREM and ZADD XX is the stored one exactly when the stored
   * one is canonical.
   */
  lemma PrintAfterParse(member: string, score: int)
    requires ParseScheduleEntry(member, score).Some?
    ensures ParseScheduleEntry(member, score).value.Member() == member <==> CanonicalMember(member)
  {
    ParsedIsPipeFree(member, score);
    ParseAfterPrint(ParseScheduleEntry(member, score).value, score);
    if CanonicalMember(member) {
      CanonicalPartsAreFields(SplitN(member, 11), score);
      JoinSplit(member, 11);
    }
  }

  lemma CanonicalPartsAreFields(parts: seq<string>, score: int)
    requires ParseFields(parts, score).Some? && CanonicalFields(parts)
    ensures ParseFields(parts, score).value.Fields() == parts
  {
    hide IntStr, Fixed4, ParseInt, ParseDecimal;
    IntegersPrint(parts, score);
    PriorityPrints(parts, score);
    TextIsKept(parts, score);
    FieldByField(ParseFields(parts, score).value, parts);
  }

  lemma FieldByField(e: ScheduleEntry, parts: seq<string>)
    requires |parts| == 11 && e.taskId == parts[0] && e.jobId == parts[1] && IntStr(e.pageId) == parts[2]
    requires e.host == parts[3] && e.path == parts[4] && Fixed4(e.priority) == parts[5] && IntStr(e.retryCount) == parts[6]
    requires e.sourceType == parts[7] && e.sourceUrl == parts[8] && e.TaskTypeOrDefault() == parts[9] && IntStr(e.lighthouseRunId) == parts[10]
    ensures e.Fields() == parts
  {
    assert forall i :: 0 <= i < 11 ==> e.Fields()[i] == parts[i];
  }

  lemma TextIsKept(parts: seq<string>, score: int)
    requires ParseFields(parts, score).Some? && CanonicalFields(parts)
    ensures var e := ParseFields(parts, score).value;
      e.taskId == parts[0] && e.jobId == parts[1] && e.host == parts[3] && e.path == parts[4] &&
      e.sourceType == parts[7] && e.sourceUrl == parts[8] && e.TaskTypeOrDefault() == parts[9]
  {
  }

  lemma IntegersPrint(parts: seq<string>, score: int)
    requires ParseFields(parts, score).Some? && CanonicalFields(parts)
    ensures var e := ParseFields(parts, score).value;
      IntStr(e.pageId) == parts[2] && IntStr(e.retryCount) == parts[6] && IntStr(e.lighthouseRunId) == parts[10]
  {
    CanonicalIntWrites(parts[2]);
    CanonicalIntWrites(parts[6]);
    CanonicalIntWrites(parts[10]);
  }

  lemma PriorityPrints(parts: seq<string>, score: int)
    requires ParseFields(parts, score).Some? && CanonicalFields(parts)
    ensures Fixed4(ParseFields(parts, score).value.priority) == parts[5]
  {
    CanonicalWrites(parts[5]);
  }

  lemma CanonicalIntWrites(s: string)
    requires CanonicalInt(s) && ParseInt(s).Some?
    ensures s != "" && IntStr(ParseInt(s).value) == s
  {
    IntStrWrites(s);
  }

  /** Every printed member survives parse and print unchanged. */
  lemma PrintParsePrint(e: ScheduleEntry, score: int)
    requires e.HasPipeFreeText()
    ensures ParseScheduleEntry(e.Member(), score).Some?
    ensures ParseScheduleEntry(e.Member(), score).value.Member() == e.Member()
  {
    ParseAfterPrint(e, score);
    PrintAfterParse(e.Member(), score);
  }

  /** A legacy member never survives: its ZREM and ZADD XX miss. */
  lemma LegacyReprintsDifferently(member: string, score: int)
    requires ParseScheduleEntry(member, score).Some? && |SplitN(member, 11)| == 9
    ensures ParseScheduleEntry(member, score).value.Member() != member
  {
    PrintAfterParse(member, score);
  }

  /** Printing is injective up to what the sorted set does not store. */
  lemma MemberInjective(a: ScheduleEntry, b: ScheduleEntry)
    requires a.HasPipeFreeText() && b.HasPipeFreeText()
    ensures a.Member() == b.Member() <==> a.Stored(0) == b.Stored(0)
  {
    ParseAfterPrint(a, 0);
    ParseAfterPrint(b, 0);
    if a.Stored(0) == b.Stored(0) {
      Fixed4Reads(a.priority);
      Fixed4Reads(b.priority);
      assert a.Stored(0).priority == Round4(a.priority) && b.Stored(0).priority == Round4(b.priority);
      assert a.Fields() == b.Fields();
    }
  }
}
