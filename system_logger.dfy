/**
 * The flight computer's event logger: the level names, the
 * `timestamp:client:LEVEL:message\n` line, and the WRITE and APPEND modes of
 * logging to a file, over a file system given as a map from file name to
 * contents.
 */
module SystemLogger {
  import opened CInts
  import opened Wrappers
  import opened Decimal

  /** getLogLevelString: the LOG_LEVEL enum in order, and UNKNOWN for any other byte. */
  function LogLevelString(level: uint8): (s: string)
    ensures ':' !in s && '\n' !in s
  {
    match level
    case 0 => "DEBUG"
    case 1 => "INFO"
    case 2 => "WARNING"
    case 3 => "CRITICAL"
    case 4 => "ERROR"
    case _ => "UNKNOWN"
  }

  /** The level a name stands for, if it is one of the five level names. */
  function LevelOfString(s: string): (level: Option<uint8>)
    ensures level.Some? ==> level.value <= 4
  {
    if s == "DEBUG" then Some(0)
    else if s == "INFO" then Some(1)
    else if s == "WARNING" then Some(2)
    else if s == "CRITICAL" then Some(3)
    else if s == "ERROR" then Some(4)
    else None
  }

  /**
   * The five levels have five different names, and every other byte prints
   * as a name that is none of them.
   */
  lemma LevelNamesDistinct(level: uint8)
    ensures level <= 4 ==> LevelOfString(LogLevelString(level)) == Some(level)
    ensures level > 4 ==> LogLevelString(level) == "UNKNOWN" && LevelOfString(LogLevelString(level)) == None
  {
  }

  const WriteMode: uint8 := 0
  const AppendMode: uint8 := 1

  /** The line logToFile builds; millis() is unsigned but printed through `%d`. */
  function LogLine(timestamp: uint32, client: string, level: uint8, msg: string): string {
    IntToString(AsSigned32(timestamp)) + ":" + client + ":" + LogLevelString(level) + ":" + msg + "\n"
  }

  /** The text before and after the first ':' of s, if there is one. */
  function SplitAtColon(s: string): (r: Option<(string, string)>)
    ensures r.Some? ==> ':' !in r.value.0 && s == r.value.0 + ":" + r.value.1
    ensures r.None? ==> ':' !in s
    decreases |s|
  {
    if s == [] then None
    else if s[0] == ':' then Some(([], s[1..]))
    else
      match SplitAtColon(s[1..])
      case None => None
      case Some(p) => Some(([s[0]] + p.0, p.1))
  }

  lemma {:induction false} SplitAtFirstColon(a: string, b: string)
    requires ':' !in a
    ensures SplitAtColon(a + ":" + b) == Some((a, b))
    decreases |a|
  {
    var s := a + ":" + b;
    if a == [] {
      assert s == [':'] + b;
      assert s[1..] == b;
    } else {
      assert s[0] == a[0];
      assert s[1..] == a[1..] + ":" + b;
      SplitAtFirstColon(a[1..], b);
      assert [a[0]] + a[1..] == a;
    }
  }

  datatype LogFields = LogFields(timestamp: int, client: string, level: string, msg: string)

  /** Read a log line back into its timestamp, client, level name and message. */
  function ParseLogLine(line: string): Option<LogFields> {
    if |line| == 0 || line[|line| - 1] != '\n' then None
    else
      match SplitAtColon(line[..|line| - 1])
      case None => None
      case Some(p1) =>
        match SplitAtColon(p1.1)
        case None => None
        case Some(p2) =>
          match SplitAtColon(p2.1)
          case None => None
          case Some(p3) =>
            match ParseInt(p1.0)
            case None => None
            case Some(t) => Some(LogFields(t, p2.0, p3.0, p3.1))
  }

  /**
   * A log line carries its four fields recoverably when the client name has
   * no ':'; the message may contain any characters.
   */
  lemma LogLineRoundTrip(timestamp: uint32, client: string, level: uint8, msg: string)
    requires ':' !in client
    ensures ParseLogLine(LogLine(timestamp, client, level, msg))
         == Some(LogFields(AsSigned32(timestamp), client, LogLevelString(level), msg))
  {
    var ts := IntToString(AsSigned32(timestamp));
    var lvl := LogLevelString(level);
    var line := LogLine(timestamp, client, level, msg);
    var body := ts + ":" + client + ":" + lvl + ":" + msg;
    assert line == body + "\n";
    assert line[..|line| - 1] == body;
    assert ':' !in ts;
    assert body == ts + ":" + (client + ":" + lvl + ":" + msg);
    SplitAtFirstColon(ts, client + ":" + lvl + ":" + msg);
    assert client + ":" + lvl + ":" + msg == client + ":" + (lvl + ":" + msg);
    SplitAtFirstColon(client, lvl + ":" + msg);
    SplitAtFirstColon(lvl, msg);
    IntRoundTrip(AsSigned32(timestamp));
  }

  /** A file's contents, empty when it does not exist. */
  function ContentsOf(files: map<string, string>, file: string): string {
    if file in files then files[file] else ""
  }

  /** The first n characters of s, or all of it. */
  function Take(s: string, n: nat): (t: string)
    ensures t <= s && |t| == if n < |s| then n else |s|
  {
    if n < |s| then s[..n] else s
  }

  /**
   * The file system after logging line to file: openOk is whether the open
   * succeeded and written is how many characters the print wrote.  WRITE
   * replaces the contents, APPEND adds to them, any other mode or a failed
   * open changes nothing.
   */
  function LogEffect(files: map<string, string>, mode: uint8, file: string, line: string,
                     openOk: bool, written: nat): (files': map<string, string>)
    ensures forall f :: f in files && f != file ==> f in files' && files'[f] == files[f]
    ensures forall f :: f in files' && f != file ==> f in files
    ensures mode == WriteMode && openOk ==> file in files' && files'[file] <= line
    ensures mode == AppendMode && openOk ==>
      file in files' && ContentsOf(files, file) <= files'[file] &&
      files'[file][|ContentsOf(files, file)|..] <= line
    ensures openOk && written >= |line| && mode <= AppendMode ==>
      files'[file] == (if mode == WriteMode then "" else ContentsOf(files, file)) + line
    ensures !openOk || mode > AppendMode ==> files' == files
  {
    if mode == WriteMode && openOk then files[file := Take(line, written)]
    else if mode == AppendMode && openOk then files[file := ContentsOf(files, file) + Take(line, written)]
    else files
  }

  /** A sequence of fully written appends concatenates the lines onto the old contents. */
  function Concat(lines: seq<string>): string
    decreases |lines|
  {
    if lines == [] then "" else Concat(lines[..|lines| - 1]) + lines[|lines| - 1]
  }

  function Appends(files: map<string, string>, file: string, lines: seq<string>): map<string, string>
    decreases |lines|
  {
    if lines == [] then files
    else
      var last := lines[|lines| - 1];
      LogEffect(Appends(files, file, lines[..|lines| - 1]), AppendMode, file, last, true, |last|)
  }

  lemma {:induction false} AppendsAccumulate(files: map<string, string>, file: string, lines: seq<string>)
    ensures ContentsOf(Appends(files, file, lines), file) == ContentsOf(files, file) + Concat(lines)
    decreases |lines|
  {
    if lines != [] {
      AppendsAccumulate(files, file, lines[..|lines| - 1]);
      var prior := Appends(files, file, lines[..|lines| - 1]);
      var last := lines[|lines| - 1];
      assert Take(last, |last|) == last;
      assert Appends(files, file, lines) == prior[file := ContentsOf(prior, file) + last];
      assert ContentsOf(files, file) + Concat(lines[..|lines| - 1]) + lines[|lines| - 1]
          == ContentsOf(files, file) + Concat(lines);
    }
  }

  /**
   * The file written in WRITE mode before the flight holds only the lines
   * logged since: the earlier contents are gone.
   */
  lemma WriteThenAppends(files: map<string, string>, file: string, first: string, lines: seq<string>)
    ensures var start := LogEffect(files, WriteMode, file, first, true, |first|);
      ContentsOf(Appends(start, file, lines), file) == first + Concat(lines)
  {
    var start := LogEffect(files, WriteMode, file, first, true, |first|);
    AppendsAccumulate(start, file, lines);
  }

  /** The file system the logger writes to. */
  class FileSystem {
    var files: map<string, string>

    constructor (initial: map<string, string>)
      ensures files == initial
    {
      files := initial;
    }

    /**
     * logToFile: build the line for the timestamp, client, level and
     * message, then write or append it to file.
     */
    method LogToFile(mode: uint8, client: string, level: uint8, file: string, msg: string,
                     timestamp: uint32, openOk: bool, written: nat)
      modifies this
      ensures files == LogEffect(old(files), mode, file, LogLine(timestamp, client, level, msg), openOk, written)
    {
      var line := LogLine(timestamp, client, level, msg);
      if mode == WriteMode {
        if !openOk {
          return;
        }
        files := files[file := Take(line, written)];
      } else if mode == AppendMode {
        if !openOk {
          return;
        }
        files := files[file := ContentsOf(files, file) + Take(line, written)];
      }
    }
  }
}
