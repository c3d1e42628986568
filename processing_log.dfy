/**
 * The per-extraction log (models/processing_log.py). Clock readings (entry timestamps, start
 * and end times, the duration and the file-name timestamp) are passed in as text.
 */
module ProcessingLogs {
  import opened Wrappers
  import opened Text
  import opened Paths

  /** One log line's data; `context` is the optional dictionary of extra data. */
  datatype LogEntry = LogEntry(timestamp: string, level: string, message: string, context: Option<map<string, string>>)

  predicate ValidLevel(level: string) { level == "INFO" || level == "WARNING" || level == "ERROR" }

  predicate ValidStatus(status: string) { status == "success" || status == "partial_success" || status == "failure" }

  /** `LogEntry.__post_init__`: the level is checked first, then the message. */
  function NewLogEntry(timestamp: string, level: string, message: string, context: Option<map<string, string>>)
    : (r: Result<LogEntry>)
    ensures r.Ok? <==> ValidLevel(level) && message != []
    ensures r.Ok? ==> r.value == LogEntry(timestamp, level, message, context)
    ensures ValidLevel(level) && message == [] ==> r == Err("Log message must be non-empty")
  {
    if !ValidLevel(level) then
      Err("Invalid log level: " + level + ". Must be one of ('INFO', 'WARNING', 'ERROR')")
    else if message == [] then Err("Log message must be non-empty")
    else Ok(LogEntry(timestamp, level, message, context))
  }

  /** `ProcessingLog.__post_init__`: file name, then path, then status. */
  function LogError(logFilename: string, logPath: string, status: string): (r: Option<string>)
    ensures r.None? <==> logFilename != [] && logPath != [] && ValidStatus(status)
    ensures logFilename == [] ==> r == Some("Log filename must be non-empty")
  {
    if logFilename == [] then Some("Log filename must be non-empty")
    else if logPath == [] then Some("Log path must be non-empty")
    else if !ValidStatus(status) then
      Some("Invalid status: " + status + ". Must be one of ('success', 'partial_success', 'failure')")
    else None
  }

  /** The entries a log holds are entries the constructor accepted. */
  predicate ValidEntries(entries: seq<LogEntry>) {
    forall i :: 0 <= i < |entries| ==> ValidLevel(entries[i].level) && entries[i].message != []
  }

  /** `extraction_<timestamp>.log`, the name `create` gives a log. */
  function LogFileName(timestamp: string): string { "extraction_" + timestamp + ".log" }

  function StartMessage(documentFilename: string): string { "Starting extraction: " + documentFilename }

  function DurationMessage(duration: string): string { "Processing complete. Duration: " + duration + " seconds" }

  function FinalMessage(status: string): string { "Final status: " + status }

  /** What `create` builds passes the constructor's checks, whatever the directory, the
      document name and the timestamp. */
  lemma CreatedLogIsValid(logDirectory: string, documentFilename: string, timestamp: string)
    ensures LogError(LogFileName(timestamp), PathJoin(logDirectory, LogFileName(timestamp)), "success").None?
    ensures NewLogEntry(timestamp, "INFO", StartMessage(documentFilename), None).Ok?
  {
    var name := LogFileName(timestamp);
    var path := PathJoin(logDirectory, name);
    assert |path| >= |name| > 0;
  }

  /** The log of one extraction. */
  class ProcessingLog {
    var logFilename: string
    var logPath: string
    var entries: seq<LogEntry>
    var startTime: string
    var endTime: Option<string>
    var status: string

    constructor Make(logFilename: string, logPath: string, startTime: string)
      ensures this.logFilename == logFilename && this.logPath == logPath && this.startTime == startTime
      ensures entries == [] && endTime.None? && status == "success"
    {
      this.logFilename := logFilename;
      this.logPath := logPath;
      this.startTime := startTime;
      entries := [];
      endTime := None;
      status := "success";
    }

    /** `add_entry` (and `info`, `warning`, `error`): appends exactly the one entry, or
        reports the constructor's error and changes nothing. */
    method AddEntry(level: string, message: string, context: Option<map<string, string>>, now: string)
      returns (error: Option<string>)
      modifies this
      ensures error.None? <==> ValidLevel(level) && message != []
      ensures error.None? ==> entries == old(entries) + [LogEntry(now, level, message, context)]
      ensures error.Some? ==> entries == old(entries)
      ensures logFilename == old(logFilename) && logPath == old(logPath) && status == old(status)
      ensures startTime == old(startTime) && endTime == old(endTime)
    {
      var entry := NewLogEntry(now, level, message, context);
      if entry.Err? {
        return Some(entry.error);
      }
      entries := entries + [entry.value];
      return None;
    }

    /** `finalize`: records the end time and the status (which it does not check) and appends
        two INFO entries, the duration and then the final status. */
    method Finalize(status: string, now: string, duration: string)
      modifies this
      ensures this.status == status && endTime == Some(now)
      ensures entries == old(entries) + [LogEntry(now, "INFO", DurationMessage(duration), None),
                                         LogEntry(now, "INFO", FinalMessage(status), None)]
      ensures ValidEntries(old(entries)) ==> ValidEntries(entries)
      ensures logFilename == old(logFilename) && logPath == old(logPath) && startTime == old(startTime)
    {
      endTime := Some(now);
      this.status := status;
      var e1 := AddEntry("INFO", DurationMessage(duration), None, now);
      var e2 := AddEntry("INFO", FinalMessage(status), None, now);
    }

    /** `create`: a log named after the timestamp in the given directory, holding one INFO
        entry that names the document. */
    static method Create(logDirectory: string, documentFilename: string, timestamp: string, now: string)
      returns (log: ProcessingLog)
      ensures fresh(log)
      ensures log.logFilename == LogFileName(timestamp)
      ensures log.logPath == PathJoin(logDirectory, LogFileName(timestamp))
      ensures log.entries == [LogEntry(now, "INFO", StartMessage(documentFilename), None)]
      ensures log.status == "success" && log.endTime.None? && log.startTime == now
      ensures LogError(log.logFilename, log.logPath, log.status).None? && ValidEntries(log.entries)
    {
      var name := LogFileName(timestamp);
      CreatedLogIsValid(logDirectory, documentFilename, timestamp);
      log := new ProcessingLog.Make(name, PathJoin(logDirectory, name), now);
      var e := log.AddEntry("INFO", StartMessage(documentFilename), None, now);
    }
  }
}
