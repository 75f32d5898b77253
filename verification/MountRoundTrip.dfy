/** A table written the kernel's way is read back: every device row, in order, its mount point decoded. */
module MountRoundTrip {
  import opened Common
  import opened Text
  import opened Checks
  import opened MountTable

  /** One row: the source as the kernel writes it, the real mount point, and the fields list_usage() ignores. */
  datatype Row = Row(source: string, mountpoint: string, rest: string)

  function FormatRow(r: Row, escaped: set<char>): string
    requires forall c | c in escaped :: Ascii(c)
  {
    r.source + (" " + (Escape(r.mountpoint, escaped) + (" " + r.rest)))
  }

  function FormatTable(rows: seq<Row>, escaped: set<char>): string
    requires forall c | c in escaped :: Ascii(c)
  {
    if rows == [] then ""
    else FormatTable(rows[..|rows|-1], escaped) + (FormatRow(rows[|rows|-1], escaped) + "\n")
  }

  /** What the kernel escapes: at least the characters that would break a row apart. */
  predicate Escapes(escaped: set<char>) {
    (forall c | c in escaped :: Ascii(c)) && ' ' in escaped && '\t' in escaped && '\n' in escaped && '\\' in escaped
  }

  /** Printable ASCII, space, tab and newline. */
  predicate Plain(c: char) { 32 <= c as int < 127 || c == '\t' || c == '\n' }

  predicate NoSpaces(s: string) { forall c | c in s :: !IsSpace(c) }

  predicate GoodRow(r: Row) {
    && r.source != "" && NoSpaces(r.source)
    && r.mountpoint != "" && (forall c | c in r.mountpoint :: Plain(c))
    && r.rest != "" && NoBreaks(r.rest) && !IsSpace(r.rest[|r.rest|-1])
  }

  /** The device rows as the reader should see them. */
  function Devices(rows: seq<Row>): seq<Mount> {
    if rows == [] then []
    else
      var last := rows[|rows|-1];
      Devices(rows[..|rows|-1]) + if StartsWith(last.source, "/dev/") then [Mount(last.source, last.mountpoint)] else []
  }

  // -- one row --------------------------------------------------------------

  lemma OctalIsSolid(c: char)
    requires Ascii(c)
    ensures NoSpaces(Octal(c))
  {
  }

  lemma {:induction false} EscapedIsSolid(s: string, escaped: set<char>)
    requires Escapes(escaped) && forall c | c in s :: Plain(c)
    ensures NoSpaces(Escape(s, escaped)) && (s != "" ==> Escape(s, escaped) != "")
  {
    if s != "" {
      EscapedIsSolid(s[1..], escaped);
      if s[0] in escaped {
        OctalIsSolid(s[0]);
      } else {
        assert Plain(s[0]) && !IsSpace(s[0]);
      }
      hide Octal;
    }
  }

  lemma {:induction false} WordEnds(word: string, rest: string)
    requires NoSpaces(word)
    ensures WordLength(word + (" " + rest)) == |word|
  {
    if word != "" {
      assert (word + (" " + rest))[1..] == word[1..] + (" " + rest);
      WordEnds(word[1..], rest);
    }
  }

  lemma FirstField(word: string, rest: string)
    requires word != "" && NoSpaces(word)
    ensures Fields(word + (" " + rest)) == [word] + Fields(rest)
  {
    var s := word + (" " + rest);
    WordEnds(word, rest);
    assert s[..|word|] == word && s[|word|..] == " " + rest && (" " + rest)[1..] == rest;
    assert Fields(" " + rest) == Fields(rest);
  }

  lemma RowFields(r: Row, escaped: set<char>)
    requires Escapes(escaped) && GoodRow(r)
    ensures var fields := Fields(FormatRow(r, escaped));
            |fields| >= 2 && fields[0] == r.source && fields[1] == Escape(r.mountpoint, escaped)
  {
    EscapedIsSolid(r.mountpoint, escaped);
    FirstField(r.source, Escape(r.mountpoint, escaped) + (" " + r.rest));
    FirstField(Escape(r.mountpoint, escaped), r.rest);
    hide Fields, Escape;
  }

  lemma RowIsRead(r: Row, escaped: set<char>, names: Names)
    requires Escapes(escaped) && GoodRow(r)
    ensures !IsBroken(FormatRow(r, escaped), names)
    ensures LineEntry(FormatRow(r, escaped), names) ==
              if StartsWith(r.source, "/dev/") then Some(Mount(r.source, r.mountpoint)) else None
  {
    RowFields(r, escaped);
    assert forall c | c in r.mountpoint :: Plain(c) && Ascii(c);
    DecodesExactlyAscii(r.mountpoint, escaped, names);
    hide Fields, Escape, Decode, FormatRow, Plain;
  }

  /** A row is one line. */
  lemma RowIsOneLine(r: Row, escaped: set<char>)
    requires Escapes(escaped) && GoodRow(r)
    ensures var line := FormatRow(r, escaped);
            NoBreaks(line) && line != "" && !IsSpace(line[0]) && !IsSpace(line[|line|-1])
  {
    EscapedIsSolid(r.mountpoint, escaped);
    assert !IsSpace(r.source[0]);
    hide Escape;
    assert NoBreaks(r.source) && NoBreaks(Escape(r.mountpoint, escaped)) && NoBreaks(" ");
  }

  lemma OneLine(line: string)
    requires NoBreaks(line) && line != ""
    ensures SplitLines(line) == SplitLines(line + "\n") == [line]
  {
    NoBreakLineEnd(line);
    LineEndConcat(line, "\n");
    assert FirstLine(line) == line == FirstLine(line + "\n");
    assert LaterLines(line) == "" == LaterLines(line + "\n");
    assert SplitLines("") == [];
    hide FirstLine, LaterLines, LineEnd;
  }

  // -- the table ------------------------------------------------------------

  ghost predicate GoodTable(rows: seq<Row>) { forall r | r in rows :: GoodRow(r) }

  function Lines(rows: seq<Row>, escaped: set<char>): seq<string>
    requires forall c | c in escaped :: Ascii(c)
  {
    if rows == [] then [] else Lines(rows[..|rows|-1], escaped) + [FormatRow(rows[|rows|-1], escaped)]
  }

  lemma {:induction false} TableLines(rows: seq<Row>, escaped: set<char>)
    requires Escapes(escaped) && GoodTable(rows)
    ensures WholeLines(FormatTable(rows, escaped)) && SplitLines(FormatTable(rows, escaped)) == Lines(rows, escaped)
    ensures rows != [] ==> FormatTable(rows, escaped) != "" && !IsSpace(FormatTable(rows, escaped)[0])
  {
    if rows == [] {
      assert SplitLines("") == [];
    } else {
      var init, last := rows[..|rows|-1], rows[|rows|-1];
      TableLines(init, escaped);
      RowIsOneLine(last, escaped);
      assert init == [] ==> FormatTable(init, escaped) == "";
      hide SplitLines, FormatRow, GoodRow, WholeLines, IsSpace;
      LineAfter(FormatTable(init, escaped), FormatRow(last, escaped));
    }
  }

  /** One more line at the end of whole lines. */
  lemma LineAfter(before: string, line: string)
    requires WholeLines(before) && NoBreaks(line) && line != "" && !IsSpace(line[0])
    requires before != "" ==> !IsSpace(before[0])
    ensures var s := before + (line + "\n");
            WholeLines(s) && SplitLines(s) == SplitLines(before) + [line] && s != "" && !IsSpace(s[0])
  {
    OneLine(line);
    assert !StartsWith(line + "\n", "\n") by { assert (line + "\n")[..1] == [line[0]]; }
    SplitLinesConcat(before, line + "\n");
    hide SplitLines;
    var s := before + (line + "\n");
    assert s[0] == (if before == "" then line[0] else before[0]) && s[|s|-1] == '\n';
  }

  lemma StripsOneBreak(s: string, t: string)
    requires s == t + "\n" && t != "" && !IsSpace(t[0]) && !IsSpace(t[|t|-1])
    ensures Strip(s) == t
  {
    assert s[..|s|-1] == t && s[0] == t[0] && s[|s|-1] == '\n';
    assert StripLeft(s) == s;
    assert StripRight(t) == t;
    assert StripRight(s) == StripRight(s[..|s|-1]);
  }

  lemma LastLineStripped(before: string, line: string)
    requires WholeLines(before) && NoBreaks(line) && line != "" && !IsSpace(line[0]) && !IsSpace(line[|line|-1])
    requires before != "" ==> !IsSpace(before[0])
    ensures SplitLines(Strip(before + (line + "\n"))) == SplitLines(before) + [line]
  {
    OneLine(line);
    assert !StartsWith(line, "\n") by { assert line[..1] == [line[0]]; }
    SplitLinesConcat(before, line);
    var t := before + line;
    assert t[0] == if before == "" then line[0] else before[0];
    assert t[|t|-1] == line[|line|-1];
    assert before + (line + "\n") == t + "\n";
    hide SplitLines, Strip;
    StripsOneBreak(t + "\n", t);
  }

  /** read_str() strips the table's last line break, which changes no line. */
  lemma StrippedTableLines(rows: seq<Row>, escaped: set<char>)
    requires Escapes(escaped) && GoodTable(rows)
    ensures SplitLines(Strip(FormatTable(rows, escaped))) == Lines(rows, escaped)
  {
    if rows == [] {
      assert SplitLines("") == [];
    } else {
      var init, last := rows[..|rows|-1], rows[|rows|-1];
      TableLines(init, escaped);
      RowIsOneLine(last, escaped);
      assert init == [] ==> FormatTable(init, escaped) == "";
      hide SplitLines, FormatRow, GoodRow, Strip;
      LastLineStripped(FormatTable(init, escaped), FormatRow(last, escaped));
    }
  }

  lemma {:induction false} LinesAreRead(rows: seq<Row>, escaped: set<char>, names: Names)
    requires Escapes(escaped) && GoodTable(rows)
    ensures Entries(Lines(rows, escaped), names) == Devices(rows)
    ensures forall line | line in Lines(rows, escaped) :: !IsBroken(line, names)
  {
    if rows != [] {
      var init, last := rows[..|rows|-1], rows[|rows|-1];
      LinesAreRead(init, escaped, names);
      RowIsRead(last, escaped, names);
      LinesLength(init, escaped);
      assert Lines(rows, escaped)[..|rows|-1] == Lines(init, escaped);
      hide LineEntry, FormatRow, IsBroken, GoodRow, Escapes;
    }
  }

  lemma {:induction false} LinesLength(rows: seq<Row>, escaped: set<char>)
    requires forall c | c in escaped :: Ascii(c)
    ensures |Lines(rows, escaped)| == |rows|
  {
    if rows != [] { LinesLength(rows[..|rows|-1], escaped); }
  }

  /** For every table of the kernel's kind, reading it gives back its device rows, in order and exactly. */
  lemma TableRoundTrip(rows: seq<Row>, escaped: set<char>, names: Names)
    requires Escapes(escaped) && GoodTable(rows)
    ensures var lines := SplitLines(Strip(FormatTable(rows, escaped)));
            Entries(lines, names) == Devices(rows) && forall line | line in lines :: !IsBroken(line, names)
  {
    StrippedTableLines(rows, escaped);
    LinesAreRead(rows, escaped, names);
    hide SplitLines, Strip, FormatTable, Lines, Entries, IsBroken, Devices;
  }

  // -- which rows are reported ----------------------------------------------

  predicate IsDevice(r: Row) { |r.source| >= 5 && r.source[..5] == "/dev/" }

  /** Row `i` is the first of a device whose statvfs succeeds there. */
  ghost predicate ReportsRow(rows: seq<Row>, statvfs: StatVfs, i: nat) {
    && i < |rows| && IsDevice(rows[i]) && statvfs(rows[i].mountpoint).Some?
    && forall j | 0 <= j < i :: rows[j].source != rows[i].source
  }

  /** `picks` are the reported rows, in table order. */
  ghost predicate Picks(rows: seq<Row>, statvfs: StatVfs, picks: seq<nat>) {
    Ascending(picks) && forall i: nat :: i in picks <==> ReportsRow(rows, statvfs, i)
  }

  function RowUsage(rows: seq<Row>, statvfs: StatVfs, i: nat): Usage
    requires i < |rows| && statvfs(rows[i].mountpoint).Some?
  {
    UsageOf(rows[i].mountpoint, statvfs(rows[i].mountpoint).value)
  }

  /** The usages are those of the picked rows, with the original mount points and the sizes statvfs gave there. */
  ghost predicate AreOf(usages: seq<Usage>, rows: seq<Row>, statvfs: StatVfs, picks: seq<nat>) {
    && |usages| == |picks|
    && forall k | 0 <= k < |picks| ::
         && picks[k] < |rows| && statvfs(rows[picks[k]].mountpoint).Some?
         && SizesOf(usages[k], rows[picks[k]].mountpoint, statvfs(rows[picks[k]].mountpoint).value)
  }

  lemma {:induction false} SourcesOfDevices(rows: seq<Row>, source: string)
    ensures source in Sources(Devices(rows))
            <==> StartsWith(source, "/dev/") && exists r :: r in rows && r.source == source
  {
    if rows != [] {
      var init, last := rows[..|rows|-1], rows[|rows|-1];
      SourcesOfDevices(init, source);
      assert forall r :: r in rows <==> r in init || r == last;
      if IsDevice(last) { SourcesGrow(Devices(init), Mount(last.source, last.mountpoint)); }
      hide Sources, StartsWith;
    }
  }

  /** The last row is reported exactly when its source is a device not seen before that answers. */
  lemma LastRowReports(rows: seq<Row>, statvfs: StatVfs)
    requires rows != []
    ensures var n := |rows| - 1;
            ReportsRow(rows, statvfs, n) <==>
              IsDevice(rows[n]) && rows[n].source !in Sources(Devices(rows[..n])) && statvfs(rows[n].mountpoint).Some?
  {
    var n := |rows| - 1;
    SourcesOfDevices(rows[..n], rows[n].source);
    assert forall j | 0 <= j < n :: rows[..n][j] == rows[j];
    if r :| r in rows[..n] && r.source == rows[n].source {
      var j :| 0 <= j < n && rows[..n][j] == r;
      assert rows[j].source == rows[n].source;
    }
    if j :| 0 <= j < n && rows[j].source == rows[n].source {
      assert rows[..n][j] in rows[..n];
    }
    hide Sources, Devices, StartsWith;
  }

  lemma RowsInPrefix(rows: seq<Row>, statvfs: StatVfs, i: nat)
    requires rows != []
    ensures var n := |rows| - 1;
            ReportsRow(rows, statvfs, i) <==>
              ReportsRow(rows[..n], statvfs, i) || (i == n && ReportsRow(rows, statvfs, n))
  {
    var n := |rows| - 1;
    assert forall j | 0 <= j < n :: rows[..n][j] == rows[j];
  }

  lemma PicksGrow(rows: seq<Row>, statvfs: StatVfs, picks: seq<nat>)
    requires rows != [] && Picks(rows[..|rows|-1], statvfs, picks)
    ensures var n := |rows| - 1; Picks(rows, statvfs, picks + if ReportsRow(rows, statvfs, n) then [n] else [])
  {
    var n := |rows| - 1;
    forall i: nat
      ensures ReportsRow(rows, statvfs, i) <==>
                ReportsRow(rows[..n], statvfs, i) || (i == n && ReportsRow(rows, statvfs, n))
    {
      RowsInPrefix(rows, statvfs, i);
    }
    assert forall i | i in picks :: i < n by { assert forall i: nat | i in picks :: ReportsRow(rows[..n], statvfs, i); }
    hide ReportsRow;
    AppendLast(picks, n, ReportsRow(rows, statvfs, n));
  }

  lemma UsagesGrow(usages: seq<Usage>, rows: seq<Row>, statvfs: StatVfs, picks: seq<nat>, last: bool)
    requires rows != [] && AreOf(usages, rows[..|rows|-1], statvfs, picks)
    requires last ==> statvfs(rows[|rows|-1].mountpoint).Some?
    ensures var n := |rows| - 1;
            AreOf(usages + (if last then [RowUsage(rows, statvfs, n)] else []), rows, statvfs,
                  picks + if last then [n] else [])
  {
    assert forall k | 0 <= k < |picks| :: rows[..|rows|-1][picks[k]] == rows[picks[k]];
    if last {
      var row := rows[|rows|-1];
      assert SizesOf(RowUsage(rows, statvfs, |rows| - 1), row.mountpoint, statvfs(row.mountpoint).value);
    }
    hide UsageOf, SizesOf;
  }

  /** What the last row adds to the usages. */
  lemma LastRowAdds(rows: seq<Row>, statvfs: StatVfs)
    requires rows != []
    ensures var n := |rows| - 1;
            Usages(Devices(rows), statvfs)
            == Usages(Devices(rows[..n]), statvfs)
               + if ReportsRow(rows, statvfs, n) then [RowUsage(rows, statvfs, n)] else []
  {
    var n := |rows| - 1;
    var before, last := Devices(rows[..n]), rows[n];
    LastRowReports(rows, statvfs);
    if IsDevice(last) {
      assert Devices(rows) == before + [Mount(last.source, last.mountpoint)];
      hide Devices, Usages, Sources, StartsWith, UsageOf;
      OneMoreEntry(before, Mount(last.source, last.mountpoint), statvfs);
    } else {
      assert Devices(rows) == before + [] == before;
      hide Devices, Usages, Sources, StartsWith, UsageOf;
    }
  }

  lemma {:induction false} DevicesReported(rows: seq<Row>, statvfs: StatVfs) returns (picks: seq<nat>)
    ensures Picks(rows, statvfs, picks) && AreOf(Usages(Devices(rows), statvfs), rows, statvfs, picks)
  {
    if rows == [] {
      picks := [];
      assert Reported([], statvfs) == [];
    } else {
      var n := |rows| - 1;
      picks := DevicesReported(rows[..n], statvfs);
      var reports := ReportsRow(rows, statvfs, n);
      assert reports ==> statvfs(rows[n].mountpoint).Some?;
      hide *;
      LastRowAdds(rows, statvfs);
      PicksGrow(rows, statvfs, picks);
      UsagesGrow(Usages(Devices(rows[..n]), statvfs), rows, statvfs, picks, reports);
      picks := picks + if reports then [n] else [];
    }
  }

  // -- main results ---------------------------------------------------------

  /**
    End to end, for every table of the kernel's kind: list_usage() returns, in table order, the usage of the first
    row of each device whose statvfs succeeds there, with the mount point exact, total and free in bytes from that
    statvfs, and each device once.
  */
  lemma TableIsReported(rows: seq<Row>, escaped: set<char>, names: Names, statvfs: StatVfs) returns (picks: seq<nat>)
    requires Escapes(escaped) && GoodTable(rows)
    ensures var r := Listed(Some(Strip(FormatTable(rows, escaped))), names, statvfs);
            r.Ok? && AreOf(r.value, rows, statvfs, picks)
    ensures Ascending(picks) && forall i: nat :: i in picks <==> ReportsRow(rows, statvfs, i)
    ensures forall i, k | 0 <= i < k < |picks| ::
              picks[i] < |rows| && picks[k] < |rows| && rows[picks[i]].source != rows[picks[k]].source
  {
    TableRoundTrip(rows, escaped, names);
    picks := DevicesReported(rows, statvfs);
    hide SplitLines, Strip, FormatTable, Entries, IsBroken, Devices, Usages, AreOf;
    forall i, k | 0 <= i < k < |picks|
      ensures picks[i] < |rows| && picks[k] < |rows| && rows[picks[i]].source != rows[picks[k]].source
    {
      assert picks[k] in picks && ReportsRow(rows, statvfs, picks[k]);
      assert picks[i] < picks[k];
    }
  }

  /** A device is reported exactly when the first of its mounts answers statvfs, and then once. */
  lemma DeviceIsReported(entries: seq<Mount>, statvfs: StatVfs, source: string)
    ensures (exists i :: i in Reported(entries, statvfs) && entries[i].source == source)
       <==> (exists i: nat ::
               FirstOfSource(entries, i) && entries[i].source == source && statvfs(entries[i].mountpoint).Some?)
    ensures forall i, k | i in Reported(entries, statvfs) && k in Reported(entries, statvfs) ::
              entries[i].source == entries[k].source ==> i == k
    ensures Ascending(Reported(entries, statvfs))
  {
    ReportedExactly(entries, statvfs);
    hide Reported;
    var r := Reported(entries, statvfs);
    if i: nat :| FirstOfSource(entries, i) && entries[i].source == source && statvfs(entries[i].mountpoint).Some? {
      assert ReportsEntry(entries, statvfs, i);
    }
    assert forall i | i in r :: ReportsEntry(entries, statvfs, i);
  }

  /** A stale first mount hides a later mount of the same device that could be read. */
  lemma StaleMountHidesDevice(source: string, stale: string, live: string, statvfs: StatVfs)
    requires statvfs(stale).None? && statvfs(live).Some?
    ensures Usages([Mount(source, stale), Mount(source, live)], statvfs) == []
  {
    var entries := [Mount(source, stale), Mount(source, live)];
    var first := [entries[0]];
    assert entries[..1] == first && entries[0] in first && first[..0] == [];
    assert Reported(first, statvfs) == [];
    assert Reported(entries, statvfs) == [];
  }
}
