/**
 * What the base station's telemetry and log services share: the dated CSV
 * file name, the retention rule, reading the data lines of the CSV files in
 * a directory, sorting newest first, and cutting a page.  The directory is a
 * sequence of files in readdir order, each with its age in days and its
 * contents; date parsing is a parameter.
 */
module ServiceCommon {
  import opened Wrappers
  import opened Decimal
  import opened Strings
  import opened JsText

  // ---------------------------------------------------------------------
  // File names
  // ---------------------------------------------------------------------

  const FilePrefix := "rocket-telemetry-"

  /**
   * The file for a date, as getFullYear, getMonth (from 0) and getDate
   * give it: rocket-telemetry-YYYY-MM-DD.csv with a two-digit month and day.
   */
  function DatedFileName(year: nat, month0: nat, day: nat): string {
    FilePrefix + NatToString(year) + "-" + Pad2(month0 + 1) + "-" + Pad2(day) + ".csv"
  }

  /** Where the year, the month and the day sit in the name. */
  lemma DatedFileNameFields(year: nat, month0: nat, day: nat)
    requires month0 < 12 && 1 <= day <= 31
    ensures var n := DatedFileName(year, month0, day);
      var y := NatToString(year);
      |n| == |FilePrefix| + |y| + 10 &&
      n[..|FilePrefix|] == FilePrefix && n[|FilePrefix|..|FilePrefix| + |y|] == y &&
      n[|n| - 9..|n| - 7] == Pad2(month0 + 1) && n[|n| - 6..|n| - 4] == Pad2(day) &&
      n[|n| - 10] == '-' && n[|n| - 7] == '-' && EndsWith(n, ".csv")
  {
    var y, mm, dd := NatToString(year), Pad2(month0 + 1), Pad2(day);
    assert DatedFileName(year, month0, day) == FilePrefix + y + "-" + mm + "-" + dd + ".csv";
    NameLayout(FilePrefix, y, mm, dd);
  }

  /** The slices of p + y + "-" + mm + "-" + dd + ".csv" for two-digit mm and dd. */
  lemma NameLayout(p: string, y: string, mm: string, dd: string)
    requires |mm| == 2 && |dd| == 2
    ensures var n := p + y + "-" + mm + "-" + dd + ".csv";
      |n| == |p| + |y| + 10 &&
      n[..|p|] == p && n[|p|..|p| + |y|] == y &&
      n[|n| - 9..|n| - 7] == mm && n[|n| - 6..|n| - 4] == dd &&
      n[|n| - 10] == '-' && n[|n| - 7] == '-' && EndsWith(n, ".csv")
  {
    var n := p + y + "-" + mm + "-" + dd + ".csv";
    var tail := "-" + mm + "-" + dd + ".csv";
    assert n == (p + y) + tail;
    assert n[|n| - 10..] == tail;
    assert tail[1..3] == mm && tail[4..6] == dd && tail[6..] == ".csv";
  }

  /**
   * Different days get different files, and today's file passes the
   * services' ".csv" filter.
   */
  lemma DatedFileNameInjective(y1: nat, m1: nat, d1: nat, y2: nat, m2: nat, d2: nat)
    requires m1 < 12 && 1 <= d1 <= 31 && m2 < 12 && 1 <= d2 <= 31
    ensures DatedFileName(y1, m1, d1) == DatedFileName(y2, m2, d2) <==> y1 == y2 && m1 == m2 && d1 == d2
    ensures EndsWith(DatedFileName(y1, m1, d1), ".csv")
  {
    DatedFileNameFields(y1, m1, d1);
    DatedFileNameFields(y2, m2, d2);
    var n1, n2 := DatedFileName(y1, m1, d1), DatedFileName(y2, m2, d2);
    if n1 == n2 {
      var s1, s2 := NatToString(y1), NatToString(y2);
      assert |s1| == |s2|;
      assert s1 == n1[|FilePrefix|..|FilePrefix| + |s1|];
      assert s1 == s2;
      NatRoundTrip(y1);
      NatRoundTrip(y2);
      assert Pad2(m1 + 1) == Pad2(m2 + 1);
      assert Pad2(d1) == Pad2(d2);
      Pad2RoundTrip(m1 + 1);
      Pad2RoundTrip(m2 + 1);
      Pad2RoundTrip(d1);
      Pad2RoundTrip(d2);
    }
  }

  // ---------------------------------------------------------------------
  // Retention
  // ---------------------------------------------------------------------

  datatype StoredFile = StoredFile(name: string, ageDays: real, content: string)

  /**
   * fileAge > retentionDays.  An undefined retention compares as NaN, for
   * which the comparison is false.
   */
  predicate Expired(f: StoredFile, retentionDays: Option<real>) {
    retentionDays.Some? && f.ageDays > retentionDays.value
  }

  /** Whether rotation removes f: it is expired and its unlink succeeds. */
  predicate Removed(f: StoredFile, retentionDays: Option<real>, unlinkFails: set<string>) {
    Expired(f, retentionDays) && f.name !in unlinkFails
  }

  /** The directory after rotation, in its old order. */
  function Surviving(files: seq<StoredFile>, retentionDays: Option<real>, unlinkFails: set<string>): (r: seq<StoredFile>)
    ensures |r| <= |files|
    decreases |files|
  {
    if files == [] then []
    else
      var prior := Surviving(files[..|files| - 1], retentionDays, unlinkFails);
      var f := files[|files| - 1];
      if Removed(f, retentionDays, unlinkFails) then prior else prior + [f]
  }

  /**
   * Rotation removes exactly the expired files whose unlink succeeds: a file
   * of age equal to the retention stays.
   */
  lemma {:induction false} RotationRule(files: seq<StoredFile>, retentionDays: Option<real>, unlinkFails: set<string>, f: StoredFile)
    ensures f in Surviving(files, retentionDays, unlinkFails) <==> f in files && !Removed(f, retentionDays, unlinkFails)
    decreases |files|
  {
    if files != [] {
      RotationRule(files[..|files| - 1], retentionDays, unlinkFails, f);
      assert files == files[..|files| - 1] + [files[|files| - 1]];
    }
  }

  /** The loop of rotateTelemetry and rotateLogs over the listing. */
  method RemoveExpired(files: seq<StoredFile>, retentionDays: Option<real>, unlinkFails: set<string>)
    returns (remaining: seq<StoredFile>)
    ensures remaining == Surviving(files, retentionDays, unlinkFails)
  {
    remaining := [];
    var i := 0;
    while i < |files|
      invariant 0 <= i <= |files|
      invariant remaining == Surviving(files[..i], retentionDays, unlinkFails)
    {
      var file := files[i];
      assert files[..i + 1][..i] == files[..i];
      if retentionDays.Some? && file.ageDays > retentionDays.value {
        if file.name in unlinkFails {
          // the unlink threw: the error is logged and the file stays
          remaining := remaining + [file];
        }
      } else {
        remaining := remaining + [file];
      }
      i := i + 1;
    }
    assert files[..i] == files;
  }

  // ---------------------------------------------------------------------
  // Reading the CSV files
  // ---------------------------------------------------------------------

  /** fileContent.split('\n').slice(1): every line after the header. */
  function DataLines(content: string): seq<string> {
    Split(content, '\n')[1..]
  }

  predicate Blank(line: string) {
    Trim(line) == ""
  }

  /** The entries of the non-blank lines that the filter keeps, in order. */
  function LineEntries<E>(lines: seq<string>, parse: string -> E, keep: E -> bool): seq<E>
    decreases |lines|
  {
    if lines == [] then []
    else
      var prior := LineEntries(lines[..|lines| - 1], parse, keep);
      var line := lines[|lines| - 1];
      if Blank(line) || !keep(parse(line)) then prior else prior + [parse(line)]
  }

  /** The entries of every ".csv" file, in listing order. */
  function Collected<E>(files: seq<StoredFile>, parse: string -> E, keep: E -> bool): seq<E>
    decreases |files|
  {
    if files == [] then []
    else
      var prior := Collected(files[..|files| - 1], parse, keep);
      var f := files[|files| - 1];
      if !EndsWith(f.name, ".csv") then prior else prior + LineEntries(DataLines(f.content), parse, keep)
  }

  /** The nested loops of getTelemetry and getLogs that push the kept entries. */
  method CollectEntries<E>(files: seq<StoredFile>, parse: string -> E, keep: E -> bool) returns (entries: seq<E>)
    ensures entries == Collected(files, parse, keep)
  {
    entries := [];
    var i := 0;
    while i < |files|
      invariant 0 <= i <= |files|
      invariant entries == Collected(files[..i], parse, keep)
    {
      var file := files[i];
      assert files[..i + 1][..i] == files[..i];
      if EndsWith(file.name, ".csv") {
        var found := CollectLines(DataLines(file.content), parse, keep);
        entries := entries + found;
      }
      i := i + 1;
    }
    assert files[..i] == files;
  }

  /** The inner loop: the kept entries of one file's data lines. */
  method CollectLines<E>(lines: seq<string>, parse: string -> E, keep: E -> bool) returns (found: seq<E>)
    ensures found == LineEntries(lines, parse, keep)
  {
    found := [];
    var j := 0;
    while j < |lines|
      invariant 0 <= j <= |lines|
      invariant found == LineEntries(lines[..j], parse, keep)
    {
      var line := lines[j];
      assert lines[..j + 1][..j] == lines[..j];
      if !Blank(line) {
        var entry := parse(line);
        if keep(entry) {
          found := found + [entry];
        }
      }
      j := j + 1;
    }
    assert lines[..j] == lines;
  }

  /** Every entry read comes from a non-blank data line and passed the filter. */
  lemma {:induction false} LineEntriesSound<E>(lines: seq<string>, parse: string -> E, keep: E -> bool, e: E)
    requires e in LineEntries(lines, parse, keep)
    ensures keep(e) && exists j :: 0 <= j < |lines| && !Blank(lines[j]) && e == parse(lines[j])
    decreases |lines|
  {
    var prior := LineEntries(lines[..|lines| - 1], parse, keep);
    if e in prior {
      LineEntriesSound(lines[..|lines| - 1], parse, keep, e);
      var j :| 0 <= j < |lines| - 1 && !Blank(lines[..|lines| - 1][j]) && e == parse(lines[..|lines| - 1][j]);
      assert lines[j] == lines[..|lines| - 1][j];
    } else {
      assert e == parse(lines[|lines| - 1]);
    }
  }

  /** Every non-blank data line whose entry passes the filter is read. */
  lemma {:induction false} LineEntriesComplete<E>(lines: seq<string>, parse: string -> E, keep: E -> bool, j: int)
    requires 0 <= j < |lines| && !Blank(lines[j]) && keep(parse(lines[j]))
    ensures parse(lines[j]) in LineEntries(lines, parse, keep)
    decreases |lines|
  {
    if j < |lines| - 1 {
      LineEntriesComplete(lines[..|lines| - 1], parse, keep, j);
      assert lines[..|lines| - 1][j] == lines[j];
    }
  }

  /**
   * What the services read is exactly the filtered entries of the non-blank
   * data lines of the ".csv" files: every entry read comes from one ...
   */
  lemma {:induction false} CollectedSound<E>(files: seq<StoredFile>, parse: string -> E, keep: E -> bool, e: E)
    requires e in Collected(files, parse, keep)
    ensures keep(e)
    ensures exists i, j :: (0 <= i < |files| && EndsWith(files[i].name, ".csv") &&
      0 <= j < |DataLines(files[i].content)| && !Blank(DataLines(files[i].content)[j]) &&
      e == parse(DataLines(files[i].content)[j]))
    decreases |files|
  {
    var prior := Collected(files[..|files| - 1], parse, keep);
    var f := files[|files| - 1];
    if e in prior {
      CollectedSound(files[..|files| - 1], parse, keep, e);
      var i, j :| 0 <= i < |files| - 1 && EndsWith(files[..|files| - 1][i].name, ".csv") &&
        0 <= j < |DataLines(files[..|files| - 1][i].content)| &&
        !Blank(DataLines(files[..|files| - 1][i].content)[j]) &&
        e == parse(DataLines(files[..|files| - 1][i].content)[j]);
      assert files[i] == files[..|files| - 1][i];
    } else {
      LineEntriesSound(DataLines(f.content), parse, keep, e);
      assert files[|files| - 1] == f;
    }
  }

  /** ... and every such line is read, whichever file it is in. */
  lemma {:induction false} CollectedComplete<E>(files: seq<StoredFile>, parse: string -> E, keep: E -> bool, i: int, j: int)
    requires 0 <= i < |files| && EndsWith(files[i].name, ".csv")
    requires 0 <= j < |DataLines(files[i].content)| && !Blank(DataLines(files[i].content)[j])
    requires keep(parse(DataLines(files[i].content)[j]))
    ensures parse(DataLines(files[i].content)[j]) in Collected(files, parse, keep)
    decreases |files|
  {
    if i < |files| - 1 {
      assert files[..|files| - 1][i] == files[i];
      CollectedComplete(files[..|files| - 1], parse, keep, i, j);
    } else {
      LineEntriesComplete(DataLines(files[i].content), parse, keep, j);
    }
  }

  // ---------------------------------------------------------------------
  // Newest first
  // ---------------------------------------------------------------------

  /**
   * a's time comes no later in the order than b's: valid times newest
   * first, invalid dates (None) after all of them.
   */
  predicate NewerOrSame(a: Option<int>, b: Option<int>) {
    b.None? || (a.Some? && a.value >= b.value)
  }

  predicate NewestFirst<E>(s: seq<E>, time: E -> Option<int>) {
    forall i, j :: 0 <= i < j < |s| ==> NewerOrSame(time(s[i]), time(s[j]))
  }

  /**
   * x inserted into a newest-first list after every entry at least as new,
   * so that it follows the entries of its own time.
   */
  function Insert<E>(x: E, s: seq<E>, time: E -> Option<int>): (r: seq<E>)
    requires NewestFirst(s, time)
    ensures NewestFirst(r, time)
    ensures multiset(r) == multiset(s) + multiset{x} && |r| == |s| + 1
    decreases |s|
  {
    if s == [] then [x]
    else if !NewerOrSame(time(s[0]), time(x)) then [x] + s
    else
      var rest := Insert(x, s[1..], time);
      assert multiset(s) == multiset{s[0]} + multiset(s[1..]) by {
        assert s == [s[0]] + s[1..];
      }
      InsertHead(x, s, rest, time);
      [s[0]] + rest
  }

  lemma InsertHead<E>(x: E, s: seq<E>, rest: seq<E>, time: E -> Option<int>)
    requires s != [] && NewestFirst(s, time) && NewestFirst(rest, time)
    requires NewerOrSame(time(s[0]), time(x))
    requires multiset(rest) == multiset(s[1..]) + multiset{x}
    ensures NewestFirst([s[0]] + rest, time)
  {
    var r := [s[0]] + rest;
    forall j | 1 <= j < |r|
      ensures NewerOrSame(time(s[0]), time(r[j]))
    {
      assert r[j] in multiset(rest);
      if r[j] == x {
      } else {
        assert r[j] in multiset(s[1..]);
        var k :| 0 <= k < |s[1..]| && s[1..][k] == r[j];
        assert s[k + 1] == r[j];
      }
    }
  }

  /**
   * The sort of the collected entries, newest timestamp first.  It is a
   * stable insertion sort, as JavaScript's sort is; JavaScript leaves the
   * place of invalid dates to the engine, and this one puts them last.
   */
  function SortNewestFirst<E>(s: seq<E>, time: E -> Option<int>): (r: seq<E>)
    ensures NewestFirst(r, time)
    ensures multiset(r) == multiset(s) && |r| == |s|
    decreases |s|
  {
    if s == [] then []
    else
      assert s == s[..|s| - 1] + [s[|s| - 1]];
      Insert(s[|s| - 1], SortNewestFirst(s[..|s| - 1], time), time)
  }

  /** The entries of s whose time is t, in the order of s. */
  function SameTime<E>(s: seq<E>, time: E -> Option<int>, t: Option<int>): seq<E>
    decreases |s|
  {
    if s == [] then [] else (if time(s[0]) == t then [s[0]] else []) + SameTime(s[1..], time, t)
  }

  lemma {:induction false} SameTimeAppend<E>(a: seq<E>, b: seq<E>, time: E -> Option<int>, t: Option<int>)
    ensures SameTime(a + b, time, t) == SameTime(a, time, t) + SameTime(b, time, t)
    decreases |a|
  {
    if a == [] {
      assert a + b == b;
    } else {
      assert (a + b)[0] == a[0] && (a + b)[1..] == a[1..] + b;
      SameTimeAppend(a[1..], b, time, t);
      SameTimeCons(a[0], a[1..], time, t);
      assert [a[0]] + a[1..] == a;
    }
  }

  lemma SameTimeCons<E>(x: E, s: seq<E>, time: E -> Option<int>, t: Option<int>)
    ensures SameTime([x] + s, time, t) == SameTime([x], time, t) + SameTime(s, time, t)
  {
    assert ([x] + s)[0] == x && ([x] + s)[1..] == s;
    assert [x][1..] == [];
  }

  lemma {:induction false} SameTimeAbsent<E>(s: seq<E>, time: E -> Option<int>, t: Option<int>)
    requires forall j :: 0 <= j < |s| ==> time(s[j]) != t
    ensures SameTime(s, time, t) == []
    decreases |s|
  {
    if s != [] {
      SameTimeAbsent(s[1..], time, t);
    }
  }

  /** Inserting x adds it after the entries of its own time and moves no other entry of any time. */
  lemma {:induction false} InsertKeepsSameTime<E>(x: E, s: seq<E>, time: E -> Option<int>, t: Option<int>)
    requires NewestFirst(s, time)
    ensures SameTime(Insert(x, s, time), time, t) == SameTime(s, time, t) + SameTime([x], time, t)
    decreases |s|
  {
    if s == [] {
      assert Insert(x, s, time) == [x];
    } else if !NewerOrSame(time(s[0]), time(x)) {
      InsertFront(x, s, time, t);
    } else {
      NewestFirstTail(s, time);
      var rest := Insert(x, s[1..], time);
      assert Insert(x, s, time) == [s[0]] + rest;
      InsertKeepsSameTime(x, s[1..], time, t);
      ConsKeepsSameTime(s[0], rest, s[1..], x, time, t);
      assert [s[0]] + s[1..] == s;
    }
  }

  lemma NewestFirstTail<E>(s: seq<E>, time: E -> Option<int>)
    requires s != [] && NewestFirst(s, time)
    ensures NewestFirst(s[1..], time)
  {
    forall i, j | 0 <= i < j < |s| - 1
      ensures NewerOrSame(time(s[1..][i]), time(s[1..][j]))
    {
      assert s[1..][i] == s[i + 1] && s[1..][j] == s[j + 1];
    }
  }

  /** Insert's first case: x goes in front, and no entry of s shares its time. */
  lemma InsertFront<E>(x: E, s: seq<E>, time: E -> Option<int>, t: Option<int>)
    requires s != [] && NewestFirst(s, time) && !NewerOrSame(time(s[0]), time(x))
    ensures SameTime(Insert(x, s, time), time, t) == SameTime(s, time, t) + SameTime([x], time, t)
  {
    assert Insert(x, s, time) == [x] + s;
    SameTimeCons(x, s, time, t);
    if time(x) == t {
      NewerEntriesAbsent(x, s, time);
      SameTimeAbsent(s, time, t);
    }
  }

  /** Putting one entry in front of two lists keeps an equation between their runs of time t. */
  lemma ConsKeepsSameTime<E>(h: E, rest: seq<E>, tail: seq<E>, x: E, time: E -> Option<int>, t: Option<int>)
    requires SameTime(rest, time, t) == SameTime(tail, time, t) + SameTime([x], time, t)
    ensures SameTime([h] + rest, time, t) == SameTime([h] + tail, time, t) + SameTime([x], time, t)
  {
    SameTimeCons(h, rest, time, t);
    SameTimeCons(h, tail, time, t);
    var hd, tl, g := SameTime([h], time, t), SameTime(tail, time, t), SameTime([x], time, t);
    assert hd + (tl + g) == (hd + tl) + g;
  }

  /** An entry strictly newer than the head of a newest-first list has a time no entry of the list has. */
  lemma NewerEntriesAbsent<E>(x: E, s: seq<E>, time: E -> Option<int>)
    requires s != [] && NewestFirst(s, time) && !NewerOrSame(time(s[0]), time(x))
    ensures forall j :: 0 <= j < |s| ==> time(s[j]) != time(x)
  {
    forall j | 0 <= j < |s|
      ensures time(s[j]) != time(x)
    {
      if j > 0 {
        assert NewerOrSame(time(s[0]), time(s[j]));
      }
    }
  }

  /**
   * The sort is stable: the entries of each time come out in the order they
   * went in, so a batch stamped with one time keeps its file order.
   */
  lemma {:induction false} SortStable<E>(s: seq<E>, time: E -> Option<int>, t: Option<int>)
    ensures SameTime(SortNewestFirst(s, time), time, t) == SameTime(s, time, t)
    decreases |s|
  {
    if s != [] {
      var prefix, last := s[..|s| - 1], s[|s| - 1];
      SortStable(prefix, time, t);
      InsertKeepsSameTime(last, SortNewestFirst(prefix, time), time, t);
      assert s == prefix + [last];
      SameTimeAppend(prefix, [last], time, t);
    }
  }

  // ---------------------------------------------------------------------
  // Pages
  // ---------------------------------------------------------------------

  datatype Page<E> = Page(items: seq<E>, total: nat, page: int, totalPages: nat)

  function Paginate<E>(all: seq<E>, page: int, limit: int): Page<E>
    requires limit > 0
  {
    var startIndex := (page - 1) * limit;
    Page(Slice(all, startIndex, startIndex + limit), |all|, page, CeilDiv(|all|, limit))
  }

  function Min(a: int, b: int): int {
    if a < b then a else b
  }

  /**
   * Page p (from 1) holds the entries from (p-1)*limit up to p*limit, cut
   * at the end; pages past totalPages are empty and those up to it are not.
   */
  lemma PageContents<E>(all: seq<E>, page: int, limit: int)
    requires limit > 0 && page >= 1
    ensures var r := Paginate(all, page, limit);
      var lo, hi := Min((page - 1) * limit, |all|), Min(page * limit, |all|);
      r.items == all[lo..hi] && |r.items| <= limit && r.total == |all| &&
      (page > r.totalPages <==> r.items == [])
  {
    var r := Paginate(all, page, limit);
    var lo, hi := Min((page - 1) * limit, |all|), Min(page * limit, |all|);
    assert (page - 1) * limit >= 0;
    assert (page - 1) * limit + limit == page * limit;
    var q := r.totalPages;
    if page > q {
      assert (page - 1) * limit >= q * limit by {
        assert page - 1 >= q;
        MulMono(q, page - 1, limit);
      }
    } else {
      assert (page - 1) * limit < |all| by {
        assert page - 1 <= q - 1;
        MulMono(page - 1, q - 1, limit);
      }
    }
  }

  lemma MulMono(a: int, b: int, c: int)
    requires 0 <= a <= b && c >= 0
    ensures a * c <= b * c
  {
  }

  /** The pages 1 to k, one after the other. */
  function FirstPages<E>(all: seq<E>, limit: int, k: nat): seq<E>
    requires limit > 0
  {
    if k == 0 then [] else FirstPages(all, limit, k - 1) + Paginate(all, k, limit).items
  }

  /** Reading pages 1 to totalPages in turn gives every entry once, in order. */
  lemma PagesPartition<E>(all: seq<E>, limit: int)
    requires limit > 0
    ensures FirstPages(all, limit, CeilDiv(|all|, limit)) == all
  {
    var q := CeilDiv(|all|, limit);
    FirstPagesPrefix(all, limit, q);
    if q > 0 {
      assert q * limit >= |all|;
    }
  }

  lemma {:induction false} FirstPagesPrefix<E>(all: seq<E>, limit: int, k: nat)
    requires limit > 0
    ensures FirstPages(all, limit, k) == all[..Min(k * limit, |all|)]
  {
    if k > 0 {
      FirstPagesPrefix(all, limit, k - 1);
      var a := (k - 1) * limit;
      MulStep(k, limit);
      PageItems(all, k, limit);
      AppendSlices(all, Min(a, |all|), Min(a + limit, |all|));
    }
  }

  lemma MulStep(k: int, c: int)
    requires k >= 1 && c > 0
    ensures (k - 1) * c >= 0 && (k - 1) * c + c == k * c
  {
  }

  /** Page k of all is the slice from (k-1)*limit to (k-1)*limit + limit, cut at the end. */
  lemma PageItems<E>(all: seq<E>, k: int, limit: int)
    requires limit > 0 && k >= 1
    ensures var a := (k - 1) * limit;
      Paginate(all, k, limit).items == all[Min(a, |all|)..Min(a + limit, |all|)]
  {
    var a := (k - 1) * limit;
    MulStep(k, limit);
    assert RelativeIndex(a, |all|) == Min(a, |all|);
    assert RelativeIndex(a + limit, |all|) == Min(a + limit, |all|);
  }

  lemma AppendSlices<E>(s: seq<E>, lo: int, hi: int)
    requires 0 <= lo <= hi <= |s|
    ensures s[..lo] + s[lo..hi] == s[..hi]
  {
  }

  /** A page holds entries that were collected, newest first. */
  lemma PageOfSorted<E>(all: seq<E>, time: E -> Option<int>, page: int, limit: int, x: E)
    requires limit > 0 && x in Paginate(SortNewestFirst(all, time), page, limit).items
    ensures x in all
  {
    var sorted := SortNewestFirst(all, time);
    assert x in sorted;
    assert x in multiset(sorted);
  }

  /** The entries on a page are in newest-first order. */
  lemma PageNewestFirst<E>(all: seq<E>, time: E -> Option<int>, page: int, limit: int)
    requires limit > 0
    ensures NewestFirst(Paginate(SortNewestFirst(all, time), page, limit).items, time)
  {
    var sorted := SortNewestFirst(all, time);
    var r := Paginate(sorted, page, limit).items;
    var s, e := RelativeIndex((page - 1) * limit, |sorted|), RelativeIndex((page - 1) * limit + limit, |sorted|);
    if s < e {
      assert r == sorted[s..e];
      forall i, j | 0 <= i < j < |r|
        ensures NewerOrSame(time(r[i]), time(r[j]))
      {
        assert r[i] == sorted[s + i] && r[j] == sorted[s + j];
      }
    }
  }

  // ---------------------------------------------------------------------
  // Fields and filters
  // ---------------------------------------------------------------------

  /** The value destructuring gives position i of a split line: undefined past the end. */
  function Field(parts: seq<string>, i: nat): (f: Option<string>)
    ensures f.Some? <==> i < |parts|
    ensures i < |parts| ==> f == Some(parts[i])
  {
    if i < |parts| then Some(parts[i]) else None
  }

  /** A parse of a field that may be undefined; parsing undefined gives NaN. */
  function ParseField<T>(parse: string -> Option<T>, field: Option<string>): Option<T> {
    if field.None? then None else parse(field.value)
  }

  /** A destructuring default: it replaces undefined only. */
  function OrDefault(x: Option<int>, d: int): (r: int)
    ensures x.None? ==> r == d
    ensures x.Some? ==> r == x.value
  {
    if x.Some? then x.value else d
  }

  /** A string option is truthy when it is given and not empty. */
  predicate Truthy(x: Option<string>) {
    x.Some? && x.value != ""
  }

  /** a < b on two dates; false when either is invalid. */
  predicate Earlier(a: Option<int>, b: Option<int>) {
    a.Some? && b.Some? && a.value < b.value
  }

  /** The date filters: before a given startDate or after a given endDate. */
  predicate OutsideDates(time: Option<int>, startDate: Option<string>, endDate: Option<string>, parseDate: string -> Option<int>) {
    (Truthy(startDate) && Earlier(time, parseDate(startDate.value))) ||
    (Truthy(endDate) && Earlier(parseDate(endDate.value), time))
  }

  /**
   * With both bounds given and valid, an entry with a valid time passes the
   * date filters exactly when it lies between them, both included; an
   * invalid time passes them always.
   */
  lemma DateBoundsInclusive(time: Option<int>, startDate: Option<string>, endDate: Option<string>,
                            parseDate: string -> Option<int>)
    requires Truthy(startDate) && Truthy(endDate)
    requires parseDate(startDate.value).Some? && parseDate(endDate.value).Some?
    ensures time.Some? ==> (!OutsideDates(time, startDate, endDate, parseDate) <==>
      parseDate(startDate.value).value <= time.value <= parseDate(endDate.value).value)
    ensures time.None? ==> !OutsideDates(time, startDate, endDate, parseDate)
  {
  }
}
