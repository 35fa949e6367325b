/** Stream messages: what the dispatcher writes and what the two consumers read back. */
module Messages {
  import opened Text
  import opened Schedule
  import opened Redis

  /** The envelope internal/broker/consumer.go hands to a crawl worker. */
  datatype StreamMessage = StreamMessage(
    messageId: nat, taskId: string, jobId: string, pageId: Int64, host: string, path: string,
    priority: Priority, retryCount: Int64, sourceType: string, sourceUrl: string)

  function Get(values: Fields, key: Field): string {
    if key in values then values[key] else ""
  }

  function ParseStreamMessage(id: nat, values: Fields): Option<StreamMessage> {
    if Get(values, TaskId) == "" || Get(values, JobId) == "" || Get(values, Host) == "" || Get(values, Path) == ""
    then None
    else
      var pageId := ParseInt(Get(values, PageId));
      var priority := ParseDecimal(Get(values, PriorityText));
      var retryCount := ParseInt(Get(values, RetryCount));
      if pageId.None? || priority.None? || retryCount.None? then None
      else
        Some(StreamMessage(id, Get(values, TaskId), Get(values, JobId), pageId.value,
                           Get(values, Host), Get(values, Path), priority.value, retryCount.value,
                           Get(values, SourceType), Get(values, SourceUrl)))
  }

  /** The analysis consumer's reading of the same map: a positive run id or nothing. */
  function ParseAuditRunId(values: Fields): Option<Int64> {
    var id := ParseInt(Get(values, LighthouseRunId));
    if id.Some? && id.value > 0 then id else None
  }

  /** The XADD payload of internal/broker/dispatcher.go. */
  function StreamValues(e: ScheduleEntry): Fields {
    var common := map[
      TaskId := e.taskId,
      JobId := e.jobId,
      PageId := IntStr(e.pageId),
      Host := e.host,
      Path := e.path,
      PriorityText := Fixed4(e.priority),
      RetryCount := IntStr(e.retryCount),
      SourceType := e.sourceType,
      SourceUrl := e.sourceUrl,
      TaskType := e.TaskTypeOrDefault()];
    if e.TaskTypeOrDefault() == "lighthouse"
    then common[LighthouseRunId := IntStr(e.lighthouseRunId)]
    else common
  }

  lemma FieldsReadBack(e: ScheduleEntry)
    ensures var v := StreamValues(e);
      Get(v, TaskId) == e.taskId && Get(v, JobId) == e.jobId && Get(v, PageId) == IntStr(e.pageId) &&
      Get(v, Host) == e.host && Get(v, Path) == e.path && Get(v, PriorityText) == Fixed4(e.priority) &&
      Get(v, RetryCount) == IntStr(e.retryCount) && Get(v, SourceType) == e.sourceType && Get(v, SourceUrl) == e.sourceUrl
  {
  }

  /** A published entry is readable exactly when its four required fields are non-empty. */
  lemma MessageRoundTrip(e: ScheduleEntry, id: nat)
    ensures ParseStreamMessage(id, StreamValues(e)) ==
      if e.taskId != "" && e.jobId != "" && e.host != "" && e.path != ""
      then Some(StreamMessage(id, e.taskId, e.jobId, e.pageId, e.host, e.path, Round4(e.priority), e.retryCount, e.sourceType, e.sourceUrl))
      else None
  {
    FieldsReadBack(e);
    IntStrReads(e.pageId);
    IntStrReads(e.retryCount);
    Fixed4Reads(e.priority);
    ParseFieldsOf(id, StreamValues(e), e.pageId, Round4(e.priority), e.retryCount);
  }

  lemma ParseFieldsOf(id: nat, v: Fields, pageId: Int64, priority: Priority, retryCount: Int64)
    requires ParseInt(Get(v, PageId)) == Some(pageId) && ParseDecimal(Get(v, PriorityText)) == Some(priority)
    requires ParseInt(Get(v, RetryCount)) == Some(retryCount)
    ensures ParseStreamMessage(id, v) ==
      if Get(v, TaskId) != "" && Get(v, JobId) != "" && Get(v, Host) != "" && Get(v, Path) != ""
      then Some(StreamMessage(id, Get(v, TaskId), Get(v, JobId), pageId, Get(v, Host), Get(v, Path), priority, retryCount, Get(v, SourceType), Get(v, SourceUrl)))
      else None
  {
  }

  lemma AuditMessageRoundTrip(e: ScheduleEntry)
    requires e.TaskTypeOrDefault() == "lighthouse"
    ensures ParseAuditRunId(StreamValues(e)) == (if e.lighthouseRunId > 0 then Some(e.lighthouseRunId) else None)
  {
    IntStrReads(e.lighthouseRunId);
  }

  /** The entry a worker reschedules after a retryable failure (internal/jobs/stream_worker.go). */
  function RetryEntry(m: StreamMessage, retryCount: Int64, runAt: int): ScheduleEntry {
    ScheduleEntry(m.taskId, m.jobId, m.pageId, m.host, m.path, m.priority, retryCount, m.sourceType, m.sourceUrl, runAt, "", 0)
  }
}
