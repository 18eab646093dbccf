/**
 * The base station's log service over its log directory: rotation by age,
 * and the paged query that reads every CSV log line, filters it by level
 * and date, and sorts it newest first.  Date parsing is a parameter; None
 * stands for an invalid date.  The log files are named like the telemetry
 * files (ServiceCommon.DatedFileName), in their own directory.
 */
module LogServing {
  import opened Wrappers
  import opened Strings
  import opened JsText
  import opened ServiceCommon

  /** One log record as getLogs builds it; a missing field is undefined. */
  datatype LogRecord = LogRecord(timestamp: string, level: Option<string>, source: Option<string>,
                                 message: Option<string>, action: Option<string>, status: Option<string>)

  /** The record of one line: its first six comma-separated fields by position. */
  function ParseRecord(line: string): LogRecord {
    var f := Split(line, ',');
    LogRecord(f[0], Field(f, 1), Field(f, 2), Field(f, 3), Field(f, 4), Field(f, 5))
  }

  /** getLogs' options; a missing one is None. */
  datatype Query = Query(page: Option<int>, limit: Option<int>, level: Option<string>,
                         startDate: Option<string>, endDate: Option<string>)

  /**
   * The three `continue`s of the filter: a given level that the record's
   * level is not (an undefined level is never equal), or a given date bound
   * the record falls outside.
   */
  predicate Dropped(e: LogRecord, q: Query, parseDate: string -> Option<int>) {
    (Truthy(q.level) && e.level != q.level) ||
    OutsideDates(parseDate(e.timestamp), q.startDate, q.endDate, parseDate)
  }

  function Keep(q: Query, parseDate: string -> Option<int>): LogRecord -> bool {
    (e: LogRecord) => !Dropped(e, q, parseDate)
  }

  function Time(parseDate: string -> Option<int>): LogRecord -> Option<int> {
    (e: LogRecord) => parseDate(e.timestamp)
  }

  function Parse(): string -> LogRecord {
    line => ParseRecord(line)
  }

  /** A limit that is given is positive. */
  predicate ValidLimit(q: Query) {
    q.limit.Some? ==> q.limit.value > 0
  }

  /** The answer to a query: defaults page 1 and limit 50. */
  function LogPage(files: seq<StoredFile>, q: Query, parseDate: string -> Option<int>): Page<LogRecord>
    requires ValidLimit(q)
  {
    Paginate(SortNewestFirst(Collected(files, Parse(), Keep(q, parseDate)), Time(parseDate)),
             OrDefault(q.page, 1), OrDefault(q.limit, 50))
  }

  /** With a level given, only records of exactly that level are kept. */
  lemma LevelFilterExact(e: LogRecord, q: Query, parseDate: string -> Option<int>)
    requires Truthy(q.level)
    ensures !Dropped(e, q, parseDate) ==> e.level == q.level
    ensures e.level == q.level && !OutsideDates(parseDate(e.timestamp), q.startDate, q.endDate, parseDate) ==>
      !Dropped(e, q, parseDate)
  {
  }

  /** Without a level or date bound, every record is kept. */
  lemma FalsyOptionsKeepAll(e: LogRecord, q: Query, parseDate: string -> Option<int>)
    requires !Truthy(q.level) && !Truthy(q.startDate) && !Truthy(q.endDate)
    ensures !Dropped(e, q, parseDate)
  {
  }

  /**
   * Every record on a page passes the filters and is the record of a
   * non-blank data line of a ".csv" file; the page is newest first and
   * total counts every record kept.
   */
  lemma LogPageSound(files: seq<StoredFile>, q: Query, parseDate: string -> Option<int>, e: LogRecord)
    requires ValidLimit(q) && e in LogPage(files, q, parseDate).items
    ensures !Dropped(e, q, parseDate)
    ensures exists i, j :: (0 <= i < |files| && EndsWith(files[i].name, ".csv") &&
      0 <= j < |DataLines(files[i].content)| && !Blank(DataLines(files[i].content)[j]) &&
      e == ParseRecord(DataLines(files[i].content)[j]))
  {
    var all := Collected(files, Parse(), Keep(q, parseDate));
    PageOfSorted(all, Time(parseDate), OrDefault(q.page, 1), OrDefault(q.limit, 50), e);
    CollectedSound(files, Parse(), Keep(q, parseDate), e);
    assert Keep(q, parseDate)(e);
  }

  lemma LogPageShape(files: seq<StoredFile>, q: Query, parseDate: string -> Option<int>)
    requires ValidLimit(q)
    ensures var r := LogPage(files, q, parseDate);
      NewestFirst(r.items, Time(parseDate)) && r.total == |Collected(files, Parse(), Keep(q, parseDate))| &&
      r.page == OrDefault(q.page, 1) && (r.page >= 1 ==> |r.items| <= OrDefault(q.limit, 50))
  {
    var all := Collected(files, Parse(), Keep(q, parseDate));
    var sorted := SortNewestFirst(all, Time(parseDate));
    var page, limit := OrDefault(q.page, 1), OrDefault(q.limit, 50);
    var r := Paginate(sorted, page, limit);
    assert r == LogPage(files, q, parseDate);
    PageNewestFirst(all, Time(parseDate), page, limit);
    if page >= 1 {
      PageContents(sorted, page, limit);
    }
  }

  /**
   * A line of six comma-free fields gives the record of those fields in
   * the order timestamp, level, source, message, action, status.
   */
  lemma PositionalFields(fields: seq<string>)
    requires |fields| == 6 && forall k :: 0 <= k < |fields| ==> ',' !in fields[k]
    ensures ParseRecord(Join(fields, ',')) ==
      LogRecord(fields[0], Some(fields[1]), Some(fields[2]), Some(fields[3]), Some(fields[4]), Some(fields[5]))
  {
    SplitJoin(fields, ',');
  }

  /**
   * A comma inside the message shifts the later fields: the message is cut
   * at the comma, its rest becomes the action and the action the status.
   */
  lemma CommaInMessageShifts(t: string, level: string, source: string, m1: string, m2: string,
                             action: string, status: string)
    requires ',' !in t && ',' !in level && ',' !in source && ',' !in m1 && ',' !in m2
    requires ',' !in action && ',' !in status
    ensures ParseRecord(t + "," + level + "," + source + "," + m1 + "," + m2 + "," + action + "," + status) ==
      LogRecord(t, Some(level), Some(source), Some(m1), Some(m2), Some(action))
  {
    var s1 := t + "," + level;
    var s2 := s1 + "," + source;
    var s3 := s2 + "," + m1;
    var s4 := s3 + "," + m2;
    var s5 := s4 + "," + action;
    var s6 := s5 + "," + status;
    SplitFree(t, ',');
    SplitAppend(t, level, ',');
    SplitAppend(s1, source, ',');
    SplitAppend(s2, m1, ',');
    SplitAppend(s3, m2, ',');
    SplitAppend(s4, action, ',');
    SplitAppend(s5, status, ',');
    assert Split(s6, ',') == [t, level, source, m1, m2, action, status];
  }

  /** The log directory. */
  class LogService {
    var files: seq<StoredFile>

    constructor (listing: seq<StoredFile>)
      ensures files == listing
    {
      files := listing;
    }

    /**
     * rotateLogs: delete every file older than retentionDays; a file whose
     * unlink fails (its name in unlinkFails) stays.
     */
    method RotateLogs(retentionDays: Option<real>, unlinkFails: set<string>)
      modifies this
      ensures files == Surviving(old(files), retentionDays, unlinkFails)
    {
      files := RemoveExpired(files, retentionDays, unlinkFails);
    }

    /** getLogs: collect, sort newest first, and cut the page. */
    method GetLogs(q: Query, parseDate: string -> Option<int>) returns (r: Page<LogRecord>)
      requires ValidLimit(q)
      ensures r == LogPage(files, q, parseDate)
    {
      var page, limit := OrDefault(q.page, 1), OrDefault(q.limit, 50);
      var logs := CollectEntries(files, Parse(), Keep(q, parseDate));
      logs := SortNewestFirst(logs, Time(parseDate));
      var startIndex := (page - 1) * limit;
      var endIndex := startIndex + limit;
      r := Page(Slice(logs, startIndex, endIndex), |logs|, page, CeilDiv(|logs|, limit));
    }
  }
}
