/**
 * The base station's log handler: it keeps recent logs for the UI and
 * queues every new log, stamped with the time, for batched upload to the
 * log service.  A log entry is a JSON object, modelled as a map from key to
 * the value's text; the clock and the network's answer are parameters.
 */
module LogHandling {
  import opened Wrappers
  import opened JsText
  import opened BatchSend

  type LogEntry = map<string, string>

  /** The options object; a missing key is None. */
  datatype Options = Options(maxUiLogs: Option<int>, apiEndpoint: Option<string>,
                             retentionDays: Option<real>, batchSize: Option<int>)

  const DefaultEndpoint := "http://localhost:3000/api/logs"

  /** The entry as queued: its keys, with timestamp set to the current time. */
  function Stamped(entry: LogEntry, now: string): (e: LogEntry)
    ensures "timestamp" in e && e["timestamp"] == now
    ensures e.Keys == entry.Keys + {"timestamp"}
    ensures forall k :: k in entry && k != "timestamp" ==> e[k] == entry[k]
  {
    entry["timestamp" := now]
  }

  class LogHandler {
    var maxUiLogs: int
    var apiEndpoint: string
    var retentionDays: real
    var batchSize: int
    var logQueue: seq<LogEntry>
    var isSending: bool

    /** The defaults: 10 UI logs, the local endpoint, 7 days, batches of 50. */
    constructor (options: Options)
      ensures maxUiLogs == NumberOr(options.maxUiLogs, 10)
      ensures apiEndpoint == StringOr(options.apiEndpoint, DefaultEndpoint)
      ensures retentionDays == RealOr(options.retentionDays, 7.0)
      ensures batchSize == NumberOr(options.batchSize, 50)
      ensures logQueue == [] && !isSending
    {
      maxUiLogs := NumberOr(options.maxUiLogs, 10);
      apiEndpoint := StringOr(options.apiEndpoint, DefaultEndpoint);
      retentionDays := RealOr(options.retentionDays, 7.0);
      batchSize := NumberOr(options.batchSize, 50);
      logQueue := [];
      isSending := false;
    }

    /**
     * handleNewLog: queue the stamped entry, send right away once the queue
     * holds batchSize entries, and hand the entry itself back to the UI.
     */
    method HandleNewLog(logEntry: LogEntry, now: string, outcome: Outcome) returns (r: LogEntry)
      modifies this
      ensures r == logEntry
      ensures var queued := old(logQueue) + [Stamped(logEntry, now)];
        logQueue == if |queued| >= batchSize then AfterSend(queued, batchSize, old(isSending), outcome) else queued
      ensures isSending == old(isSending)
      ensures maxUiLogs == old(maxUiLogs) && batchSize == old(batchSize) && retentionDays == old(retentionDays)
      ensures apiEndpoint == old(apiEndpoint)
    {
      logQueue := logQueue + [Stamped(logEntry, now)];
      if |logQueue| >= batchSize {
        var _ := SendLogs(outcome);
      }
      r := logEntry;
    }

    /**
     * manageUiLogs: the new log first, then the current ones, cut to
     * maxUiLogs by slice(0, maxUiLogs), whose negative end counts from the
     * back.
     */
    function ManageUiLogs(currentLogs: seq<LogEntry>, newLog: LogEntry): (r: seq<LogEntry>)
      reads this
      ensures r <= [newLog] + currentLogs
      ensures maxUiLogs >= 0 ==> |r| == if |currentLogs| + 1 < maxUiLogs then |currentLogs| + 1 else maxUiLogs
      ensures maxUiLogs < 0 ==> |r| == if |currentLogs| + 1 + maxUiLogs > 0 then |currentLogs| + 1 + maxUiLogs else 0
      ensures r != [] ==> r[0] == newLog
    {
      Slice([newLog] + currentLogs, 0, maxUiLogs)
    }

    /**
     * sendLogs: unless the guard skips, take a batch off the front and POST
     * it; on failure put it back at the front; isSending is cleared in the
     * finally.  request is what is handed to fetch: the POST goes to the
     * fixed local URL, whatever apiEndpoint says.
     */
    method SendLogs(outcome: Outcome) returns (request: Option<Upload<LogEntry>>)
      modifies this
      ensures logQueue == AfterSend(old(logQueue), batchSize, old(isSending), outcome)
      ensures request == if Skips(old(logQueue), old(isSending)) then None
        else Some(Upload(DefaultEndpoint, Batch(old(logQueue), batchSize), retentionDays))
      ensures !Skips(old(logQueue), old(isSending)) ==> !isSending
      ensures Skips(old(logQueue), old(isSending)) ==> isSending == old(isSending)
      ensures maxUiLogs == old(maxUiLogs) && batchSize == old(batchSize) && retentionDays == old(retentionDays)
      ensures apiEndpoint == old(apiEndpoint)
    {
      if |logQueue| == 0 || isSending {
        return None;
      }
      isSending := true;
      var logsToSend := logQueue[..SpliceCount(batchSize, |logQueue|)];
      logQueue := logQueue[SpliceCount(batchSize, |logQueue|)..];
      request := Some(Upload("http://localhost:3000/api/logs", logsToSend, retentionDays));
      match outcome {
        case Delivered =>
        case Rejected =>
          logQueue := logsToSend + logQueue;
          // the throw lands in the catch below
          logQueue := logsToSend + logQueue;
        case Unreachable =>
          logQueue := logsToSend + logQueue;
      }
      isSending := false;
    }
  }

  /** The UI list after the logs arrive one by one, starting from none. */
  function UiLogsAfter(h: LogHandler, logs: seq<LogEntry>): seq<LogEntry>
    reads h
    decreases |logs|
  {
    if logs == [] then [] else h.ManageUiLogs(UiLogsAfter(h, logs[..|logs| - 1]), logs[|logs| - 1])
  }

  function Reversed<T>(s: seq<T>): (r: seq<T>)
    ensures |r| == |s| && forall i :: 0 <= i < |s| ==> r[i] == s[|s| - 1 - i]
    decreases |s|
  {
    if s == [] then [] else [s[|s| - 1]] + Reversed(s[..|s| - 1])
  }

  /**
   * With a positive maxUiLogs the UI shows the newest maxUiLogs logs,
   * newest first.
   */
  lemma {:induction false} UiShowsNewestFirst(h: LogHandler, logs: seq<LogEntry>)
    requires h.maxUiLogs > 0
    ensures var shown := UiLogsAfter(h, logs);
      |shown| == (if |logs| < h.maxUiLogs then |logs| else h.maxUiLogs) &&
      shown == Reversed(logs)[..|shown|]
    decreases |logs|
  {
    if logs != [] {
      var prior := logs[..|logs| - 1];
      UiShowsNewestFirst(h, prior);
      var before := UiLogsAfter(h, prior);
      var last := logs[|logs| - 1];
      var shown := UiLogsAfter(h, logs);
      assert shown == h.ManageUiLogs(before, last);
      assert Reversed(logs) == [last] + Reversed(prior);
      forall i | 0 <= i < |shown|
        ensures shown[i] == Reversed(logs)[i]
      {
        if i > 0 {
          assert shown[i] == before[i - 1];
        }
      }
    }
  }
}
