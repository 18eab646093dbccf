/**
 * The base station's telemetry service over its telemetry directory:
 * rotation by age, and the paged query that reads every CSV telemetry
 * line, filters it by date and altitude, and sorts it newest first.
 * parseInt, parseFloat and Date parsing are parameters; None stands for
 * NaN and for an invalid date.
 */
module TelemetryServing {
  import opened Wrappers
  import opened Strings
  import opened JsText
  import opened ServiceCommon

  datatype Parsers = Parsers(parseInt: string -> Option<int>, parseFloat: string -> Option<real>,
                             parseDate: string -> Option<int>)

  /** One telemetry entry as getTelemetry builds it. */
  datatype TelemetryEntry = TelemetryEntry(
    timestamp: string, state: Option<int>, operationMode: Option<int>,
    latitude: Option<real>, longitude: Option<real>, altitude: Option<real>,
    pressure: Option<real>, temperature: Option<real>, batteryVoltage: Option<real>,
    pyroDrogue: Option<int>, pyroMain: Option<int>)

  /** The entry of one line: its comma-separated fields taken by position. */
  function ParseEntry(line: string, p: Parsers): TelemetryEntry {
    var f := Split(line, ',');
    TelemetryEntry(
      f[0],
      ParseField(p.parseInt, Field(f, 1)), ParseField(p.parseInt, Field(f, 2)),
      ParseField(p.parseFloat, Field(f, 3)), ParseField(p.parseFloat, Field(f, 4)),
      ParseField(p.parseFloat, Field(f, 5)), ParseField(p.parseFloat, Field(f, 6)),
      ParseField(p.parseFloat, Field(f, 7)), ParseField(p.parseFloat, Field(f, 8)),
      ParseField(p.parseInt, Field(f, 9)), ParseField(p.parseInt, Field(f, 10)))
  }

  /** getTelemetry's options; a missing one is None. */
  datatype Query = Query(page: Option<int>, limit: Option<int>, startDate: Option<string>, endDate: Option<string>,
                         minAltitude: Option<real>, maxAltitude: Option<real>)

  /** A number option is truthy when it is given and not 0. */
  predicate TruthyNumber(x: Option<real>) {
    x.Some? && x.value != 0.0
  }

  /** The four `continue`s of the filter: an active bound the entry falls outside. */
  predicate Dropped(e: TelemetryEntry, q: Query, p: Parsers) {
    OutsideDates(p.parseDate(e.timestamp), q.startDate, q.endDate, p.parseDate) ||
    (TruthyNumber(q.minAltitude) && e.altitude.Some? && e.altitude.value < q.minAltitude.value) ||
    (TruthyNumber(q.maxAltitude) && e.altitude.Some? && e.altitude.value > q.maxAltitude.value)
  }

  function Parse(p: Parsers): string -> TelemetryEntry {
    line => ParseEntry(line, p)
  }

  function Keep(q: Query, p: Parsers): TelemetryEntry -> bool {
    (e: TelemetryEntry) => !Dropped(e, q, p)
  }

  function Time(p: Parsers): TelemetryEntry -> Option<int> {
    (e: TelemetryEntry) => p.parseDate(e.timestamp)
  }

  /** A limit that is given is positive. */
  predicate ValidLimit(q: Query) {
    q.limit.Some? ==> q.limit.value > 0
  }

  /** The answer to a query: defaults page 1 and limit 100. */
  function TelemetryPage(files: seq<StoredFile>, q: Query, p: Parsers): Page<TelemetryEntry>
    requires ValidLimit(q)
  {
    Paginate(SortNewestFirst(Collected(files, Parse(p), Keep(q, p)), Time(p)), OrDefault(q.page, 1), OrDefault(q.limit, 100))
  }

  /**
   * Every entry on a page passes the filters and is the entry of a
   * non-blank data line of a ".csv" file; the page is newest first, holds
   * at most limit entries, and total counts every entry kept.
   */
  lemma TelemetryPageSound(files: seq<StoredFile>, q: Query, p: Parsers, e: TelemetryEntry)
    requires ValidLimit(q) && e in TelemetryPage(files, q, p).items
    ensures !Dropped(e, q, p)
    ensures exists i, j :: (0 <= i < |files| && EndsWith(files[i].name, ".csv") &&
      0 <= j < |DataLines(files[i].content)| && !Blank(DataLines(files[i].content)[j]) &&
      e == ParseEntry(DataLines(files[i].content)[j], p))
  {
    var all := Collected(files, Parse(p), Keep(q, p));
    PageOfSorted(all, Time(p), OrDefault(q.page, 1), OrDefault(q.limit, 100), e);
    CollectedSound(files, Parse(p), Keep(q, p), e);
    assert Keep(q, p)(e);
  }

  lemma TelemetryPageShape(files: seq<StoredFile>, q: Query, p: Parsers)
    requires ValidLimit(q)
    ensures var r := TelemetryPage(files, q, p);
      NewestFirst(r.items, Time(p)) && r.total == |Collected(files, Parse(p), Keep(q, p))| &&
      r.page == OrDefault(q.page, 1) && (r.page >= 1 ==> |r.items| <= OrDefault(q.limit, 100))
  {
    var all := Collected(files, Parse(p), Keep(q, p));
    var sorted := SortNewestFirst(all, Time(p));
    var page, limit := OrDefault(q.page, 1), OrDefault(q.limit, 100);
    var r := Paginate(sorted, page, limit);
    assert r == TelemetryPage(files, q, p);
    PageNewestFirst(all, Time(p), page, limit);
    if page >= 1 {
      PageContents(sorted, page, limit);
    }
  }

  /** Every kept line of every ".csv" file is counted in total. */
  lemma TelemetryLineReported(files: seq<StoredFile>, q: Query, p: Parsers, i: int, j: int)
    requires ValidLimit(q)
    requires 0 <= i < |files| && EndsWith(files[i].name, ".csv")
    requires 0 <= j < |DataLines(files[i].content)| && !Blank(DataLines(files[i].content)[j])
    requires !Dropped(ParseEntry(DataLines(files[i].content)[j], p), q, p)
    ensures ParseEntry(DataLines(files[i].content)[j], p) in SortNewestFirst(Collected(files, Parse(p), Keep(q, p)), Time(p))
  {
    var e := ParseEntry(DataLines(files[i].content)[j], p);
    assert Parse(p)(DataLines(files[i].content)[j]) == e;
    CollectedComplete(files, Parse(p), Keep(q, p), i, j);
    var all := Collected(files, Parse(p), Keep(q, p));
    assert e in multiset(SortNewestFirst(all, Time(p)));
  }

  /**
   * The altitude bounds are inclusive and a falsy bound (undefined or 0) is
   * off; a NaN altitude passes both.
   */
  lemma AltitudeBounds(e: TelemetryEntry, q: Query, p: Parsers)
    requires !OutsideDates(p.parseDate(e.timestamp), q.startDate, q.endDate, p.parseDate)
    ensures e.altitude.None? ==> !Dropped(e, q, p)
    ensures !TruthyNumber(q.minAltitude) && !TruthyNumber(q.maxAltitude) ==> !Dropped(e, q, p)
    ensures TruthyNumber(q.minAltitude) && TruthyNumber(q.maxAltitude) && e.altitude.Some? ==>
      (!Dropped(e, q, p) <==> q.minAltitude.value <= e.altitude.value <= q.maxAltitude.value)
  {
  }

  /** With every option falsy, nothing is dropped. */
  lemma FalsyOptionsKeepAll(e: TelemetryEntry, q: Query, p: Parsers)
    requires !Truthy(q.startDate) && !Truthy(q.endDate) && !TruthyNumber(q.minAltitude) && !TruthyNumber(q.maxAltitude)
    ensures !Dropped(e, q, p)
  {
  }

  /**
   * A line of eleven comma-free fields gives the entry of those fields, in
   * the order timestamp, state, operationMode, latitude, longitude,
   * altitude, pressure, temperature, batteryVoltage, pyroDrogue, pyroMain.
   */
  lemma PositionalFields(fields: seq<string>, p: Parsers)
    requires |fields| == 11 && forall k :: 0 <= k < |fields| ==> ',' !in fields[k]
    ensures ParseEntry(Join(fields, ','), p) == TelemetryEntry(
      fields[0], p.parseInt(fields[1]), p.parseInt(fields[2]),
      p.parseFloat(fields[3]), p.parseFloat(fields[4]), p.parseFloat(fields[5]),
      p.parseFloat(fields[6]), p.parseFloat(fields[7]), p.parseFloat(fields[8]),
      p.parseInt(fields[9]), p.parseInt(fields[10]))
  {
    SplitJoin(fields, ',');
  }

  /** The telemetry directory. */
  class TelemetryService {
    var files: seq<StoredFile>

    constructor (listing: seq<StoredFile>)
      ensures files == listing
    {
      files := listing;
    }

    /**
     * rotateTelemetry: delete every file older than retentionDays; a file
     * whose unlink fails (its name in unlinkFails) stays.
     */
    method RotateTelemetry(retentionDays: Option<real>, unlinkFails: set<string>)
      modifies this
      ensures files == Surviving(old(files), retentionDays, unlinkFails)
    {
      files := RemoveExpired(files, retentionDays, unlinkFails);
    }

    /** getTelemetry: collect, sort newest first, and cut the page. */
    method GetTelemetry(q: Query, p: Parsers) returns (r: Page<TelemetryEntry>)
      requires ValidLimit(q)
      ensures r == TelemetryPage(files, q, p)
    {
      var page, limit := OrDefault(q.page, 1), OrDefault(q.limit, 100);
      var telemetry := CollectEntries(files, Parse(p), Keep(q, p));
      telemetry := SortNewestFirst(telemetry, Time(p));
      var startIndex := (page - 1) * limit;
      var endIndex := startIndex + limit;
      r := Page(Slice(telemetry, startIndex, endIndex), |telemetry|, page, CeilDiv(|telemetry|, limit));
    }
  }
}
