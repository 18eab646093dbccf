/**
 * The post-flight data-recovery tool: a serial menu that dumps the records
 * stored in the flight computer's flash file "flight.txt" as CSV, or lists
 * the files on the chip.  The flash file is a sequence of fixed-size records,
 * and erased flash reads as a record whose record_number is 0xFFFFFFFF.
 * Serial output is a sequence of lines; numeric values are kept as values,
 * since their decimal rendering belongs to the serial library.
 */
module DataRecovery {
  import opened CInts
  import opened Wrappers
  import opened Decimal
  import opened Strings

  /** One stored telemetry_type_t, with the fields the dump prints. */
  datatype Record = Record(
    recordNumber: uint32, operationMode: uint8, state: uint8,
    ax: real, ay: real, az: real, pitch: real, roll: real,
    gx: real, gy: real, gz: real,
    altitude: real, velocity: real, pressure: real, temperature: real)

  const Sentinel: uint32 := 0xFFFF_FFFF

  /** A printed value: an unsigned integer field or a float field. */
  datatype Value = UInt(n: int) | Num(r: real)

  /**
   * A line on the serial console: plain text, a comma-separated line of
   * names, or a comma-separated line of values.
   */
  datatype Line = Text(s: string) | Names(names: seq<string>) | Row(values: seq<Value>)

  const ColumnNames: seq<string> := ["record_number", "operation_mode", "state", "ax", "ay", "az",
    "pitch", "roll", "gx", "gy", "gz", "alt", "velocity", "pressure", "temp"]

  /** The CSV header line. */
  const Header: Line := Names(ColumnNames)

  /**
   * No column name contains a comma, so a CSV reader splitting the header
   * at commas gets back exactly the fifteen names, in order.
   */
  lemma HeaderHasFifteenColumns()
    ensures |ColumnNames| == 15 && Split(Join(Header.names, ','), ',') == ColumnNames
  {
    assert forall i :: 0 <= i < |ColumnNames| ==> ',' !in ColumnNames[i];
    SplitJoin(ColumnNames, ',');
  }

  /** The value a record holds under a column name, as named in the header. */
  function Column(r: Record, name: string): Option<Value> {
    if name == "record_number" then Some(UInt(r.recordNumber))
    else if name == "operation_mode" then Some(UInt(r.operationMode))
    else if name == "state" then Some(UInt(r.state))
    else if name == "ax" then Some(Num(r.ax))
    else if name == "ay" then Some(Num(r.ay))
    else if name == "az" then Some(Num(r.az))
    else if name == "pitch" then Some(Num(r.pitch))
    else if name == "roll" then Some(Num(r.roll))
    else if name == "gx" then Some(Num(r.gx))
    else if name == "gy" then Some(Num(r.gy))
    else if name == "gz" then Some(Num(r.gz))
    else if name == "alt" then Some(Num(r.altitude))
    else if name == "velocity" then Some(Num(r.velocity))
    else if name == "pressure" then Some(Num(r.pressure))
    else if name == "temp" then Some(Num(r.temperature))
    else None
  }

  /** The values the dump prints for one record, in printing order. */
  function RowOf(r: Record): (row: seq<Value>)
    ensures |row| == |ColumnNames|
    ensures row[0] == UInt(r.recordNumber)
  {
    [UInt(r.recordNumber), UInt(r.operationMode), UInt(r.state),
     Num(r.ax), Num(r.ay), Num(r.az), Num(r.pitch), Num(r.roll),
     Num(r.gx), Num(r.gy), Num(r.gz),
     Num(r.altitude), Num(r.velocity), Num(r.pressure), Num(r.temperature)]
  }

  /** Every printed value sits under the header column that names it. */
  lemma RowMatchesHeader(r: Record)
    ensures forall i :: 0 <= i < |ColumnNames| ==> Column(r, ColumnNames[i]) == Some(RowOf(r)[i])
  {
  }

  predicate HasSentinel(records: seq<Record>) {
    exists i :: 0 <= i < |records| && records[i].recordNumber == Sentinel
  }

  /** The index of the first erased record. */
  function FirstSentinel(records: seq<Record>): (k: nat)
    requires HasSentinel(records)
    ensures k < |records| && records[k].recordNumber == Sentinel
    ensures forall i :: 0 <= i < k ==> records[i].recordNumber != Sentinel
    decreases |records|
  {
    if records[0].recordNumber == Sentinel then 0
    else
      assert HasSentinel(records[1..]) by {
        var i :| 0 <= i < |records| && records[i].recordNumber == Sentinel;
        assert records[1..][i - 1].recordNumber == Sentinel;
      }
      1 + FirstSentinel(records[1..])
  }

  function Rows(records: seq<Record>): (rows: seq<Line>)
    ensures |rows| == |records|
    ensures forall i :: 0 <= i < |records| ==> rows[i] == Row(RowOf(records[i]))
  {
    seq(|records|, i requires 0 <= i < |records| => Row(RowOf(records[i])))
  }

  const Banner := "\n================ Flight data ================"
  const FileName := "flight.txt"
  const OpenedLines := [Text("Files Found: 1"), Text("Contents of file: " + FileName), Header]
  const NotOpenedLines := [Text("Files Found: 0"), Text("No more files.")]

  /**
   * The console output of the dump: the flash file "flight.txt" is
   * file.Some? when it opened, and then holds its records in storage order.
   */
  function DumpOutput(file: Option<seq<Record>>): seq<Line>
    requires file.Some? ==> HasSentinel(file.value)
  {
    match file
    case None => [Text(Banner)] + NotOpenedLines
    case Some(records) => [Text(Banner)] + OpenedLines + Rows(records[..FirstSentinel(records)])
  }

  /**
   * The dump prints one row per record before the first erased one, in
   * storage order, none of them with the sentinel number; the header comes
   * once, before the rows; a file that does not open prints no header and no
   * rows.
   */
  lemma DumpRows(file: Option<seq<Record>>)
    requires file.Some? ==> HasSentinel(file.value)
    ensures var out := DumpOutput(file);
      (file.None? ==> Header !in out && forall i :: 0 <= i < |out| ==> out[i].Text?) &&
      (file.Some? ==>
        var k := FirstSentinel(file.value);
        |out| == 4 + k && out[3] == Header &&
        (forall i :: 0 <= i < k ==> out[4 + i] == Row(RowOf(file.value[i]))) &&
        (forall i :: 4 <= i < |out| ==> out[i].Row? && out[i].values[0] != UInt(Sentinel)))
  {
  }

  /** The loop body's print for one record read: nothing for the sentinel. */
  function RecordOutput(r: Record): seq<Line> {
    if r.recordNumber != Sentinel then [Row(RowOf(r))] else []
  }

  /** spaces(num) as a value: num spaces, none for a negative num. */
  function Blanks(num: int): (s: string)
    ensures |s| == if num > 0 then num else 0
    ensures forall i :: 0 <= i < |s| ==> s[i] == ' '
  {
    if num <= 0 then "" else seq(num, _ => ' ')
  }

  /** One line of the file listing for a file name and a size in bytes. */
  function ListingLine(name: string, size: uint32): string {
    "  " + name + Blanks(20 - |name|) + "  " + NatToString(size) + " bytes"
  }

  /** Names of up to 20 characters line up: the size always starts at column 24. */
  lemma ListingAligned(name: string, size: uint32)
    requires |name| <= 20
    ensures var line := ListingLine(name, size);
      |line| > 24 && line[..24] == "  " + name + Blanks(20 - |name|) + "  " &&
      line[24..] == NatToString(size) + " bytes" && line[2..2 + |name|] == name
  {
  }

  const MenuLines: seq<Line> := [
    Text("\n===================== Nakuja Project post-flight data recovery ==================="),
    Text("\nMENU OPTIONS:"),
    Text("d : Dump Data"),
    Text("l : List Files")]

  /** The listing printed for the directory entries, in directory order. */
  function ListingOutput(dir: seq<(string, uint32)>): (out: seq<Line>)
    ensures |out| == |dir| + 1 && out[0] == Text("All Files on SPI Flash chip:")
    ensures forall i :: 0 <= i < |dir| ==> out[i + 1] == Text(ListingLine(dir[i].0, dir[i].1))
  {
    [Text("All Files on SPI Flash chip:")] + seq(|dir|, i requires 0 <= i < |dir| => Text(ListingLine(dir[i].0, dir[i].1)))
  }

  /** What one command character prints. */
  function CommandOutput(choice: char, file: Option<seq<Record>>, dir: seq<(string, uint32)>): seq<Line>
    requires file.Some? ==> HasSentinel(file.value)
  {
    if choice == '\n' || choice == '\r' then []
    else if choice == 'd' then DumpOutput(file) + MenuLines
    else if choice == 'l' then ListingOutput(dir) + MenuLines
    else MenuLines
  }

  /**
   * Only 'd' changes dumpFileNumber, by one modulo 256; CR and LF print
   * nothing; every other character ends by redisplaying the menu.
   */
  lemma CommandRules(choice: char, n: uint8, file: Option<seq<Record>>, dir: seq<(string, uint32)>)
    requires file.Some? ==> HasSentinel(file.value)
    ensures (NextFileNumber(choice, n) != n) <==> choice == 'd'
    ensures choice == '\n' || choice == '\r' ==> CommandOutput(choice, file, dir) == []
    ensures choice != '\n' && choice != '\r' ==>
      var out := CommandOutput(choice, file, dir);
      |out| >= 4 && out[|out| - 4..] == MenuLines
  {
  }

  function NextFileNumber(choice: char, n: uint8): uint8 {
    if choice == 'd' then Inc8(n) else n
  }

  /** The tool's globals and the serial console it prints to. */
  class Recovery {
    var dumpFileNumber: uint8
    var console: seq<Line>

    constructor ()
      ensures dumpFileNumber == 1 && console == []
    {
      dumpFileNumber := 1;
      console := [];
    }

    /** dumpOneRecording over the flash file, or None when it does not open. */
    method DumpOneRecording(file: Option<seq<Record>>)
      requires file.Some? ==> HasSentinel(file.value)
      modifies this
      ensures console == old(console) + DumpOutput(file)
      ensures dumpFileNumber == old(dumpFileNumber)
    {
      ghost var before := console;
      console := console + [Text(Banner)];
      if file.Some? {
        var records := file.value;
        console := console + OpenedLines;
        ghost var mid := console;
        DumpRecords(records);
        assert console == mid + Rows(records[..FirstSentinel(records)]);
        assert mid == before + [Text(Banner)] + OpenedLines;
        assert DumpOutput(file) == [Text(Banner)] + OpenedLines + Rows(records[..FirstSentinel(records)]);
      } else {
        console := console + NotOpenedLines;
      }
    }

    /** The do/while of dumpOneRecording: read and print until the erased record. */
    method DumpRecords(records: seq<Record>)
      requires HasSentinel(records)
      modifies this
      ensures console == old(console) + Rows(records[..FirstSentinel(records)])
      ensures dumpFileNumber == old(dumpFileNumber)
    {
      ghost var k := FirstSentinel(records);
      var i := 0;
      var oneRecord := records[0];
      console := console + RecordOutput(oneRecord);
      while oneRecord.recordNumber != Sentinel
        invariant 0 <= i <= k && oneRecord == records[i]
        invariant console == old(console) + Rows(records[..i]) + RecordOutput(records[i])
        invariant dumpFileNumber == old(dumpFileNumber)
        decreases k - i
      {
        assert Rows(records[..i + 1]) == Rows(records[..i]) + RecordOutput(records[i]);
        i := i + 1;
        oneRecord := records[i];
        console := console + RecordOutput(oneRecord);
      }
      assert i == k;
    }

    /** Print the file listing for the directory entries. */
    method ListFiles(dir: seq<(string, uint32)>)
      modifies this
      ensures console == old(console) + ListingOutput(dir)
      ensures dumpFileNumber == old(dumpFileNumber)
    {
      console := console + [Text("All Files on SPI Flash chip:")];
      var i := 0;
      while i < |dir|
        invariant 0 <= i <= |dir|
        invariant console == old(console) + ListingOutput(dir[..i])
        invariant dumpFileNumber == old(dumpFileNumber)
      {
        assert ListingOutput(dir[..i + 1]) == ListingOutput(dir[..i]) + [Text(ListingLine(dir[i].0, dir[i].1))];
        console := console + [Text(ListingLine(dir[i].0, dir[i].1))];
        i := i + 1;
      }
      assert dir[..i] == dir;
    }

    method ShowMenu()
      modifies this
      ensures console == old(console) + MenuLines
      ensures dumpFileNumber == old(dumpFileNumber)
    {
      console := console + MenuLines;
    }

    /**
     * checkForSerialCommand: choice is Some(c) when a character is waiting
     * on the serial port.
     */
    method CheckForSerialCommand(choice: Option<char>, file: Option<seq<Record>>, dir: seq<(string, uint32)>)
      requires file.Some? ==> HasSentinel(file.value)
      modifies this
      ensures choice.None? ==> console == old(console) && dumpFileNumber == old(dumpFileNumber)
      ensures choice.Some? ==>
        console == old(console) + CommandOutput(choice.value, file, dir) &&
        dumpFileNumber == NextFileNumber(choice.value, old(dumpFileNumber))
    {
      if choice.Some? {
        var c := choice.value;
        if c == '\n' || c == '\r' {
        } else if c == 'd' {
          DumpOneRecording(file);
          dumpFileNumber := Inc8(dumpFileNumber);
          ShowMenu();
        } else if c == 'l' {
          ListFiles(dir);
          ShowMenu();
        } else {
          ShowMenu();
        }
      }
    }
  }
}
