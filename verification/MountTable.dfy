/**
  The mount table as the kernel writes it and as list_usage() reads it: octal
  escapes, white-space fields, one entry per device.
*/
module MountTable {
  import opened Common
  import opened Text
  import opened Checks

  // -- the escapes ----------------------------------------------------------

  predicate Ascii(c: char) { c as int < 128 }

  function Digit(n: nat): char
    requires n < 8
  {
    ('0' as int + n) as char
  }

  /** A backslash and three octal digits. */
  function Octal(c: char): string
    requires Ascii(c)
  {
    var n := c as int;
    ['\\', Digit(n / 64), Digit(n / 8 % 8), Digit(n % 8)]
  }

  /** The kernel writes the characters in `escaped` as octal; the backslash must be among them. */
  function Escape(s: string, escaped: set<char>): string
    requires forall c | c in escaped :: Ascii(c)
  {
    if s == "" then "" else (if s[0] in escaped then Octal(s[0]) else [s[0]]) + Escape(s[1..], escaped)
  }

  predicate IsOctal(c: char) { '0' <= c <= '7' }

  function OctalValue(c: char): nat
    requires IsOctal(c)
  {
    c as int - '0' as int
  }

  /** A character as the Latin-1 reading of its UTF-8 bytes. */
  function Mojibake(c: char): (r: string)
    ensures Ascii(c) ==> r == [c]
    ensures !Ascii(c) ==> |r| >= 2
  {
    var n := c as int;
    if n < 0x80 then [c]
    else if n < 0x800 then [(0xC0 + n / 64) as char, (0x80 + n % 64) as char]
    else if n < 0x10000 then [(0xE0 + n / 4096) as char, (0x80 + n / 64 % 64) as char, (0x80 + n % 64) as char]
    else [(0xF0 + n / 262144) as char, (0x80 + n / 4096 % 64) as char, (0x80 + n / 64 % 64) as char,
        (0x80 + n % 64) as char]
  }

  /** The character database behind \N{...}. */
  type Names = string -> Option<char>

  datatype Escaped = Malformed | Reads(text: string, rest: string)

  function HexDigit(c: char): Option<nat> {
    if '0' <= c <= '9' then Some(c as int - '0' as int)
    else if 'a' <= c <= 'f' then Some(c as int - 'a' as int + 10)
    else if 'A' <= c <= 'F' then Some(c as int - 'A' as int + 10)
    else None
  }

  function HexValue(digits: string): Option<nat> {
    if digits == "" then Some(0)
    else
      var before, last := HexValue(digits[..|digits|-1]), HexDigit(digits[|digits|-1]);
      if before.Some? && last.Some? then Some(16 * before.value + last.value) else None
  }

  /** Exactly `width` hexadecimal digits that name a character. */
  function ReadHex(s: string, width: nat): Escaped {
    if |s| < width || HexValue(s[..width]).None? then Malformed
    else
      var n := HexValue(s[..width]).value;
      if n > 0x10FFFF || 0xD800 <= n <= 0xDFFF then Malformed else Reads([n as char], s[width..])
  }

  /** A non-empty name in braces that the database knows. */
  function ReadNamed(s: string, names: Names): Escaped {
    var end := IndexOf(s, "}");
    if s == "" || s[0] != '{' || end == |s| || end < 2 || names(s[1..end]).None? then Malformed
    else Reads([names(s[1..end]).value], s[end+1..])
  }

  /** The one-letter escapes; an escaped line break is dropped. */
  function Letter(c: char): Option<string> {
    match c
    case '\n' => Some("")
    case '\\' => Some("\\")
    case '\'' => Some("'")
    case '"' => Some("\"")
    case 'a' => Some([7 as char])
    case 'b' => Some([8 as char])
    case 't' => Some("\t")
    case 'n' => Some("\n")
    case 'v' => Some([11 as char])
    case 'f' => Some([12 as char])
    case 'r' => Some("\r")
    case _ => None
  }

  /** The escape that `s` starts with; an unknown one stands for itself. */
  function ReadEscape(s: string, names: Names): (r: Escaped)
    requires s != "" && s[0] == '\\'
    ensures r.Reads? ==> |r.rest| < |s|
  {
    if |s| == 1 then Malformed
    else if IsOctal(s[1]) then
      var n := OctalDigits(s[1..]);
      Reads([Value(s[1..n+1]) as char], s[n+1..])
    else if s[1] == 'x' then ReadHex(s[2..], 2)
    else if s[1] == 'u' then ReadHex(s[2..], 4)
    else if s[1] == 'U' then ReadHex(s[2..], 8)
    else if s[1] == 'N' then ReadNamed(s[2..], names)
    else Reads(if Letter(s[1]).Some? then Letter(s[1]).value else "\\" + Mojibake(s[1]), s[2..])
  }

  /**
    _decode_mount_field(): the field's UTF-8 bytes, read as Latin-1 with the escapes of Python's unicode_escape
    undone.  None when that raises.
  */
  function Decode(s: string, names: Names): Option<string>
    decreases |s|
  {
    if s == "" then Some("")
    else if s[0] != '\\' then Prepend(Mojibake(s[0]), Decode(s[1..], names))
    else
      match ReadEscape(s, names)
      case Malformed => None
      case Reads(text, rest) => Prepend(text, Decode(rest, names))
  }

  function Prepend(s: string, rest: Option<string>): Option<string> {
    if rest.Some? then Some(s + rest.value) else None
  }

  /** How many octal digits, up to three, `s` starts with. */
  function OctalDigits(s: string): (n: nat)
    ensures n <= 3 && n <= |s| && forall i | 0 <= i < n :: IsOctal(s[i])
  {
    if |s| < 1 || !IsOctal(s[0]) then 0
    else if |s| < 2 || !IsOctal(s[1]) then 1
    else if |s| < 3 || !IsOctal(s[2]) then 2
    else 3
  }

  function Value(digits: string): (n: nat)
    requires |digits| <= 3 && forall i | 0 <= i < |digits| :: IsOctal(digits[i])
    ensures n < 512
  {
    if digits == "" then 0
    else if |digits| == 1 then OctalValue(digits[0])
    else if |digits| == 2 then 8 * OctalValue(digits[0]) + OctalValue(digits[1])
    else 64 * OctalValue(digits[0]) + 8 * OctalValue(digits[1]) + OctalValue(digits[2])
  }

  /** The octal escape of a character is a backslash and its code in three octal digits. */
  lemma OctalIsNumeral(c: char)
    requires Ascii(c)
    ensures var o := Octal(c);
            && |o| == 4 && o[0] == '\\' && (forall i | 1 <= i < 4 :: '0' <= o[i] <= '7')
            && 64 * (o[1] as int - 48) + 8 * (o[2] as int - 48) + (o[3] as int - 48) == c as int
  {
    var n := c as int;
    assert n == 64 * (n / 64) + 8 * (n / 8 % 8) + n % 8;
  }

  /** The characters read for a character are the bytes of its UTF-8 form (RFC 3629, section 3). */
  lemma MojibakeIsUtf8(c: char)
    ensures var r, n := Mojibake(c), c as int;
            && (n < 0x80 ==> r == [c])
            && (n >= 0x80 ==> |r| >= 2 && (forall i | 0 < i < |r| :: 0x80 <= r[i] as int < 0xC0))
            && (0x80 <= n < 0x800 ==> |r| == 2 && n == 64 * (r[0] as int - 0xC0) + (r[1] as int - 0x80))
            && (0x800 <= n < 0x10000 ==>
                  |r| == 3 && n == 4096 * (r[0] as int - 0xE0) + 64 * (r[1] as int - 0x80) + (r[2] as int - 0x80))
            && (0x10000 <= n ==>
                  |r| == 4 && n == 262144 * (r[0] as int - 0xF0) + 4096 * (r[1] as int - 0x80)
                                   + 64 * (r[2] as int - 0x80) + (r[3] as int - 0x80))
  {
    var n := c as int;
    assert n == 64 * (n / 64) + n % 64;
    assert n / 64 == 64 * (n / 4096) + n / 64 % 64;
    assert n / 4096 == 64 * (n / 262144) + n / 4096 % 64;
  }

  /** `n` in so many hexadecimal digits, of either case. */
  ghost function HexText(n: nat, width: nat, upper: bool): string {
    if width == 0 then ""
    else
      var d := n % 16;
      HexText(n / 16, width - 1, upper)
      + [if d < 10 then (48 + d) as char else if upper then (55 + d) as char else (87 + d) as char]
  }

  ghost function Power16(width: nat): nat { if width == 0 then 1 else 16 * Power16(width - 1) }

  lemma {:induction false} HexReadsBack(n: nat, width: nat, upper: bool)
    requires n < Power16(width)
    ensures |HexText(n, width, upper)| == width && HexValue(HexText(n, width, upper)) == Some(n)
  {
    if width > 0 {
      HexReadsBack(n / 16, width - 1, upper);
      var before := HexText(n / 16, width - 1, upper);
      assert HexText(n, width, upper)[..width-1] == before;
    }
  }

  /** A character by its code reads as itself, whatever the case and for all three widths. */
  lemma CodeReads(c: char, letter: char, upper: bool, rest: string, names: Names)
    requires letter == 'x' || letter == 'u' || letter == 'U'
    requires letter == 'x' ==> c as int < 256
    requires letter == 'u' ==> c as int < 0x10000
    ensures var width := if letter == 'x' then 2 else if letter == 'u' then 4 else 8;
            ReadEscape(['\\', letter] + (HexText(c as int, width, upper) + rest), names) == Reads([c], rest)
  {
    var width := if letter == 'x' then 2 else if letter == 'u' then 4 else 8;
    assert Power16(2) == 256 && Power16(4) == 0x10000 by { assert Power16(1) == 16 && Power16(3) == 4096; }
    assert Power16(8) == 0x100000000 by {
      assert Power16(5) == 0x100000 && Power16(6) == 0x1000000 && Power16(7) == 0x10000000;
    }
    HexReadsBack(c as int, width, upper);
    var digits := HexText(c as int, width, upper);
    var s := ['\\', letter] + (digits + rest);
    assert s[2..] == digits + rest && (digits + rest)[..width] == digits && (digits + rest)[width..] == rest;
    hide HexText, HexValue, Power16, ReadNamed, OctalDigits, Value, Letter;
  }

  /** A character by its name reads as the database says. */
  lemma NameReads(name: string, c: char, rest: string, names: Names)
    requires name != "" && '}' !in name && names(name) == Some(c)
    ensures ReadEscape("\\N{" + (name + ("}" + rest)), names) == Reads([c], rest)
  {
    var s := "{" + (name + ("}" + rest));
    assert ("\\N{" + (name + ("}" + rest)))[2..] == s;
    forall j: nat | j < |name| + 1 ensures !OccursAt(s, "}", j) {
      assert j + 1 <= |s| ==> s[j..j+1][0] == s[j];
      assert s[j] == if j == 0 then '{' else name[j-1];
    }
    assert s[|name|+1..|name|+2] == "}" && s[1..|name|+1] == name && s[|name|+2..] == rest;
    FirstOccurrence(s, "}", |name| + 1);
    hide IndexOf, HexValue, OctalDigits, Value, Letter;
  }

  /** The letters after a backslash, by the codes of the characters they stand for. */
  ghost function StandsFor(letter: char): seq<int> {
    match letter
    case 'a' => [7]
    case 'b' => [8]
    case 't' => [9]
    case 'n' => [10]
    case 'v' => [11]
    case 'f' => [12]
    case 'r' => [13]
    case '"' => [34]
    case '\'' => [39]
    case '\\' => [92]
    case '\n' => []
    case _ => [92, letter as int]
  }

  /** Any other ASCII letter stands for itself after the backslash. */
  lemma LetterReads(letter: char, rest: string, names: Names)
    requires Ascii(letter) && !IsOctal(letter) && letter !in "xuUN"
    ensures var r := ReadEscape(['\\', letter] + rest, names);
            && r.Reads? && r.rest == rest && |r.text| == |StandsFor(letter)|
            && forall i | 0 <= i < |r.text| :: r.text[i] as int == StandsFor(letter)[i]
  {
    var s := ['\\', letter] + rest;
    assert s[1] == letter && s[2..] == rest;
    assert 'x' in "xuUN" && 'u' in "xuUN" && 'U' in "xuUN" && 'N' in "xuUN";
    hide ReadHex, ReadNamed, OctalDigits, Value;
  }

  lemma OctalReads(c: char, rest: string, names: Names)
    requires Ascii(c)
    ensures ReadEscape(Octal(c) + rest, names) == Reads([c], rest)
  {
    var s, n := Octal(c) + rest, c as int;
    assert s[1..][..3] == Octal(c)[1..] == s[1..4];
    assert OctalDigits(s[1..]) == 3;
    assert Value(s[1..4]) == 64 * (n / 64) + 8 * (n / 8 % 8) + n % 8 == n;
    assert s[4..] == rest;
  }

  lemma OctalDecodes(c: char, rest: string, names: Names)
    requires Ascii(c)
    ensures Decode(Octal(c) + rest, names) == Prepend([c], Decode(rest, names))
  {
    OctalReads(c, rest, names);
    assert (Octal(c) + rest)[0] == '\\';
    hide ReadEscape, Octal;
  }

  lemma OneDecodes(c: char, rest: string, names: Names)
    requires c != '\\'
    ensures Decode([c] + rest, names) == Prepend(Mojibake(c), Decode(rest, names))
  {
    assert ([c] + rest)[1..] == rest;
  }

  /** What an escaped text decodes to. */
  function Garbled(s: string): string { if s == "" then "" else Mojibake(s[0]) + Garbled(s[1..]) }

  lemma {:induction false} EscapeDecodes(s: string, escaped: set<char>, names: Names)
    requires '\\' in escaped && forall c | c in escaped :: Ascii(c)
    ensures Decode(Escape(s, escaped), names) == Some(Garbled(s))
  {
    if s != "" {
      EscapeDecodes(s[1..], escaped, names);
      if s[0] in escaped {
        OctalDecodes(s[0], Escape(s[1..], escaped), names);
      } else {
        OneDecodes(s[0], Escape(s[1..], escaped), names);
      }
      hide Decode, Octal, Mojibake;
    }
  }

  lemma {:induction false} GarbledLength(s: string)
    ensures |Garbled(s)| >= |s|
    ensures Garbled(s) == s <==> forall c | c in s :: Ascii(c)
    ensures |Garbled(s)| == |s| ==> forall c | c in s :: Ascii(c)
  {
    if s != "" {
      GarbledLength(s[1..]);
      hide Mojibake;
      assert s == [s[0]] + s[1..];
    }
  }

  /** A mount point survives escaping and decoding exactly when it is ASCII, whatever else the kernel escapes. */
  lemma DecodesExactlyAscii(s: string, escaped: set<char>, names: Names)
    requires '\\' in escaped && forall c | c in escaped :: Ascii(c)
    ensures Decode(Escape(s, escaped), names) == Some(s) <==> forall c | c in s :: Ascii(c)
  {
    EscapeDecodes(s, escaped, names);
    GarbledLength(s);
  }

  // -- reading a table ------------------------------------------------------

  /** str.split(): the maximal runs of non-space characters. */
  function Fields(s: string): seq<string>
    decreases |s|
  {
    if s == "" then []
    else if IsSpace(s[0]) then Fields(s[1..])
    else
      var n := WordLength(s);
      [s[..n]] + Fields(s[n..])
  }

  function WordLength(s: string): (n: nat)
    ensures n <= |s| && (s != "" && !IsSpace(s[0]) ==> n > 0)
  {
    if s == "" || IsSpace(s[0]) then 0 else 1 + WordLength(s[1..])
  }

  /** `fields` are the words of `s`: not empty, maximal, and with nothing but white space around them. */
  ghost predicate AreWords(s: string, fields: seq<string>)
    decreases |s|
  {
    if s == "" then fields == []
    else if IsSpace(s[0]) then AreWords(s[1..], fields)
    else
      && fields != [] && 0 < |fields[0]| <= |s| && s[..|fields[0]|] == fields[0]
      && (forall c | c in fields[0] :: !IsSpace(c))
      && (|fields[0]| == |s| || IsSpace(s[|fields[0]|])) && AreWords(s[|fields[0]|..], fields[1..])
  }

  lemma {:induction false} WordIsMaximal(s: string)
    ensures var n := WordLength(s); (forall c | c in s[..n] :: !IsSpace(c)) && (n == |s| || IsSpace(s[n]))
  {
    if s != "" && !IsSpace(s[0]) {
      WordIsMaximal(s[1..]);
      assert s[..WordLength(s)] == [s[0]] + s[1..][..WordLength(s[1..])];
    }
  }

  lemma {:induction false} FieldsAreWords(s: string)
    ensures AreWords(s, Fields(s))
    decreases |s|
  {
    if s == "" {
    } else if IsSpace(s[0]) {
      FieldsAreWords(s[1..]);
    } else {
      var n := WordLength(s);
      WordIsMaximal(s);
      FieldsAreWords(s[n..]);
      assert Fields(s)[0] == s[..n] && Fields(s)[1..] == Fields(s[n..]);
      hide Fields, WordLength, IsSpace;
    }
  }

  datatype Mount = Mount(source: string, mountpoint: string)

  /** A line with a device and a mount point. */
  predicate IsDeviceLine(line: string) {
    var fields := Fields(line);
    |fields| >= 2 && StartsWith(fields[0], "/dev/")
  }

  /** A device line whose mount point does not decode. */
  predicate IsBroken(line: string, names: Names) { IsDeviceLine(line) && Decode(Fields(line)[1], names).None? }

  /** The entry of a line: None for lines that are skipped. */
  function LineEntry(line: string, names: Names): Option<Mount> {
    if !IsDeviceLine(line) || IsBroken(line, names) then None
    else Some(Mount(Fields(line)[0], Decode(Fields(line)[1], names).value))
  }

  function Entries(lines: seq<string>, names: Names): seq<Mount> {
    if lines == [] then [] else Entries(lines[..|lines|-1], names) + Maybe(LineEntry(lines[|lines|-1], names))
  }

  datatype Stat = Stat(frsize: nat, blocks: nat, bavail: nat)

  type StatVfs = string -> Option<Stat>

  function UsageOf(mountpoint: string, stat: Stat): Usage {
    Usage(mountpoint, stat.frsize * stat.blocks, stat.frsize * stat.bavail)
  }

  /** The sources of the first `n` entries. */
  function Sources(entries: seq<Mount>): set<string> { set m | m in entries :: m.source }

  /** Which entries are reported. */
  function Reported(entries: seq<Mount>, statvfs: StatVfs): (r: seq<nat>)
    ensures forall i | i in r :: i < |entries| && statvfs(entries[i].mountpoint).Some?
  {
    if entries == [] then []
    else
      var n := |entries| - 1;
      Reported(entries[..n], statvfs)
      + if entries[n].source !in Sources(entries[..n]) && statvfs(entries[n].mountpoint).Some? then [n] else []
  }

  function Usages(entries: seq<Mount>, statvfs: StatVfs): seq<Usage> {
    var r := Reported(entries, statvfs);
    seq(|r|, k requires 0 <= k < |r| =>
      assert r[k] in r;
      UsageOf(entries[r[k]].mountpoint, statvfs(entries[r[k]].mountpoint).value))
  }

  datatype DecodeError = DecodeError

  /** list_usage() of what read_str gave: a mount point that does not decode raises, wherever it stands. */
  ghost function Listed(text: Option<string>, names: Names, statvfs: StatVfs): Result<seq<Usage>, DecodeError> {
    if text.None? then Ok([])
    else if exists line | line in SplitLines(text.value) :: IsBroken(line, names) then Err(DecodeError)
    else Ok(Usages(Entries(SplitLines(text.value), names), statvfs))
  }

  lemma EntriesGrow(lines: seq<string>, i: nat, names: Names)
    requires i < |lines|
    ensures Entries(lines[..i+1], names) == Entries(lines[..i], names) + Maybe(LineEntry(lines[i], names))
  {
    assert lines[..i+1][..i] == lines[..i];
  }

  lemma OneMoreEntry(before: seq<Mount>, m: Mount, statvfs: StatVfs)
    ensures Usages(before + [m], statvfs) == Usages(before, statvfs)
              + if m.source !in Sources(before) && statvfs(m.mountpoint).Some?
                then [UsageOf(m.mountpoint, statvfs(m.mountpoint).value)] else []
  {
    var after := before + [m];
    assert after[..|before|] == before;
    var r := Reported(before, statvfs);
    assert Reported(after, statvfs) ==
             r + if m.source !in Sources(before) && statvfs(m.mountpoint).Some? then [|before|] else [];
    hide Reported, UsageOf, Sources;
    assert forall k | 0 <= k < |r| :: r[k] in r && after[r[k]] == before[r[k]];
  }

  lemma SourcesGrow(before: seq<Mount>, m: Mount)
    ensures Sources(before + [m]) == Sources(before) + {m.source}
  {
  }

  /** What one line adds. */
  lemma LineAdds(lines: seq<string>, i: nat, names: Names, statvfs: StatVfs)
    requires i < |lines|
    ensures var before, after := Entries(lines[..i], names), Entries(lines[..i+1], names);
            var e := LineEntry(lines[i], names);
            && (e.None? ==> after == before)
            && (e.Some? ==>
                  && Sources(after) == Sources(before) + {e.value.source}
                  && Usages(after, statvfs) == Usages(before, statvfs)
                       + if e.value.source !in Sources(before) && statvfs(e.value.mountpoint).Some?
                         then [UsageOf(e.value.mountpoint, statvfs(e.value.mountpoint).value)] else [])
  {
    EntriesGrow(lines, i, names);
    hide Entries, LineEntry, Usages, Sources, UsageOf;
    var e := LineEntry(lines[i], names);
    if e.Some? {
      OneMoreEntry(Entries(lines[..i], names), e.value, statvfs);
      SourcesGrow(Entries(lines[..i], names), e.value);
    }
  }

  /** What the fields of a line say of it. */
  lemma LineReads(line: string, names: Names)
    ensures var fields := Fields(line);
            if |fields| < 2 || !StartsWith(fields[0], "/dev/") then
              !IsBroken(line, names) && LineEntry(line, names) == None
            else if Decode(fields[1], names).None? then IsBroken(line, names)
            else
              && !IsBroken(line, names)
              && LineEntry(line, names) == Some(Mount(fields[0], Decode(fields[1], names).value))
  {
    hide Fields, StartsWith, Decode;
  }

  ghost predicate NoneBroken(lines: seq<string>, n: nat, names: Names)
    requires n <= |lines|
  {
    forall k | 0 <= k < n :: !IsBroken(lines[k], names)
  }

  lemma OneMoreReads(lines: seq<string>, i: nat, names: Names)
    requires i < |lines| && NoneBroken(lines, i, names)
    ensures NoneBroken(lines, i + 1, names) <==> !IsBroken(lines[i], names)
  {
    hide IsBroken;
  }

  lemma ListingRaises(text: Option<string>, names: Names, statvfs: StatVfs, i: nat)
    requires text.Some? && i < |SplitLines(text.value)| && IsBroken(SplitLines(text.value)[i], names)
    ensures Listed(text, names, statvfs) == Err(DecodeError)
  {
    hide SplitLines, IsBroken, Entries, Usages;
    assert SplitLines(text.value)[i] in SplitLines(text.value);
  }

  lemma ListingEnds(text: Option<string>, names: Names, statvfs: StatVfs)
    requires text.Some? && NoneBroken(SplitLines(text.value), |SplitLines(text.value)|, names)
    ensures Listed(text, names, statvfs) == Ok(Usages(Entries(SplitLines(text.value), names), statvfs))
  {
    hide SplitLines, IsBroken, Entries, Usages;
  }

  /** list_usage(), after the read. */
  method ListUsage(text: Option<string>, names: Names, statvfs: StatVfs) returns (r: Result<seq<Usage>, DecodeError>)
    ensures r == Listed(text, names, statvfs)
  {
    if text.None? { return Ok([]); }
    var lines, usages := SplitLines(text.value), [];
    var seen: set<string> := {};
    assert Entries(lines[..0], names) == [] && NoneBroken(lines, 0, names);
    assert Sources([]) == {} && Usages([], statvfs) == [];
    hide *;
    for i := 0 to |lines|
      invariant seen == Sources(Entries(lines[..i], names))
      invariant usages == Usages(Entries(lines[..i], names), statvfs)
      invariant NoneBroken(lines, i, names)
    {
      hide *;
      LineAdds(lines, i, names, statvfs);
      LineReads(lines[i], names);
      OneMoreReads(lines, i, names);
      var fields := Fields(lines[i]);
      var isDevice := |fields| >= 2 && StartsWith(fields[0], "/dev/");
      if IsBroken(lines[i], names) { ListingRaises(text, names, statvfs, i); }
      if !isDevice { continue; }
      var source, mountpoint := fields[0], Decode(fields[1], names);
      if mountpoint.None? { return Err(DecodeError); }
      if source in seen { continue; }
      seen := seen + {source};
      var stat := statvfs(mountpoint.value);
      if stat.None? { continue; }
      usages := usages + [UsageOf(mountpoint.value, stat.value)];
    }
    assert lines[..|lines|] == lines;
    ListingEnds(text, names, statvfs);
    r := Ok(usages);
  }

  // -- one entry per device -------------------------------------------------

  ghost predicate FirstOfSource(entries: seq<Mount>, i: nat) {
    i < |entries| && forall j | 0 <= j < i :: entries[j].source != entries[i].source
  }

  ghost predicate Ascending(s: seq<nat>) { forall i, j | 0 <= i < j < |s| :: s[i] < s[j] }

  lemma FirstIffUnseen(entries: seq<Mount>, n: nat)
    requires n < |entries|
    ensures entries[n].source !in Sources(entries[..n]) <==> FirstOfSource(entries, n)
  {
    var init := entries[..n];
    if !FirstOfSource(entries, n) {
      var j :| 0 <= j < n && entries[j].source == entries[n].source;
      assert init[j] in init;
    }
  }

  /**
    Entry `i` is reported exactly when it is the first of its source and its own statvfs succeeds; the reports
    keep the table's order, each entry at most once.
  */
  lemma {:induction false} ReportedExactly(entries: seq<Mount>, statvfs: StatVfs)
    ensures Ascending(Reported(entries, statvfs))
    ensures forall i: nat :: i in Reported(entries, statvfs) <==> ReportsEntry(entries, statvfs, i)
  {
    if entries != [] {
      var n := |entries| - 1;
      var init := entries[..n];
      ReportedExactly(init, statvfs);
      FirstIffUnseen(entries, n);
      ReportsInPrefix(entries, statvfs);
      var r, last := Reported(init, statvfs), ReportsEntry(entries, statvfs, n);
      assert Reported(entries, statvfs) == r + if last then [n] else [];
      AppendLast(r, n, last);
      hide *;
    }
  }

  /** Entry `i` is the first of its source and its own statvfs succeeds. */
  ghost predicate ReportsEntry(entries: seq<Mount>, statvfs: StatVfs, i: nat) {
    FirstOfSource(entries, i) && statvfs(entries[i].mountpoint).Some?
  }

  lemma ReportsInPrefix(entries: seq<Mount>, statvfs: StatVfs)
    requires entries != []
    ensures var n := |entries| - 1;
            forall i: nat :: ReportsEntry(entries, statvfs, i) <==>
              ReportsEntry(entries[..n], statvfs, i) || (i == n && ReportsEntry(entries, statvfs, n))
  {
    forall i: nat
      ensures ReportsEntry(entries, statvfs, i) <==>
                ReportsEntry(entries[..|entries|-1], statvfs, i)
                    || (i == |entries| - 1 && ReportsEntry(entries, statvfs, i))
    {
      assert i < |entries| - 1 ==> entries[..|entries|-1][i] == entries[i];
    }
  }

  lemma AppendLast(r: seq<nat>, n: nat, last: bool)
    requires Ascending(r) && forall i | i in r :: i < n
    ensures var all := r + if last then [n] else [];
            Ascending(all) && forall i: nat :: i in all <==> i in r || (last && i == n)
  {
    assert forall k | 0 <= k < |r| :: r[k] in r;
  }

  /** The sizes come from the block counts of the filesystem at the mount point, in units of its fragment size. */
  ghost predicate SizesOf(u: Usage, mountpoint: string, stat: Stat) {
    u.mountpoint == mountpoint && u.total == stat.frsize * stat.blocks && u.free == stat.frsize * stat.bavail
  }

  /** Each reported entry's usage has its mount point and its filesystem's sizes. */
  lemma UsagesExactly(entries: seq<Mount>, statvfs: StatVfs)
    ensures var r, usages := Reported(entries, statvfs), Usages(entries, statvfs);
            && |usages| == |r|
            && forall k | 0 <= k < |r| ::
                 && r[k] < |entries| && statvfs(entries[r[k]].mountpoint).Some?
                 && SizesOf(usages[k], entries[r[k]].mountpoint, statvfs(entries[r[k]].mountpoint).value)
  {
    var r := Reported(entries, statvfs);
    assert forall k | 0 <= k < |r| :: r[k] in r;
    hide Reported;
  }
}
