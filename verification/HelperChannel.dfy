/**
  The helper's one error line, the runner's cut of stderr, and the provider's
  reading of the line: exactly when the code that was printed is read back.
*/
module HelperChannel {
  import opened Common
  import opened Text

  const PREFIX := "lapcare-helper: "
  const SNIPPET_CHARS := 500

  /** The line _fail() prints, without its line break. */
  function ErrorLine(code: string, detail: string): string {
    PREFIX + code + if detail != "" then ": " + detail else ""
  }

  /** run_tool()'s cut. */
  function Snippet(stderr: string): string { if |stderr| <= SNIPPET_CHARS then stderr else stderr[..SNIPPET_CHARS] }

  lemma PrefixSplits(rest: string)
    ensures IndexOf(PREFIX + rest, ": ") == 14 && |Split(PREFIX + rest, ": ", 2)| >= 2
    ensures Split(PREFIX + rest, ": ", 2)[1] == Split(rest, ": ", 1)[0]
  {
    var line := PREFIX + rest;
    assert forall j | 0 <= j < 14 :: line[j] == PREFIX[j] != ':';
    assert line[14..16] == ": " && line[16..] == rest;
    forall j: nat | j < 14 ensures !OccursAt(line, ": ", j) {
      assert j + 2 <= |line| ==> line[j..j+2][0] == line[j];
    }
    FirstOccurrence(line, ": ", 14);
    hide IndexOf;
  }

  /** What the provider reads from one line of the helper. */
  function LineCode(line: string): Option<string>
    requires StartsWith(line, PREFIX)
  {
    PrefixSplits(line[|PREFIX|..]);
    assert line == PREFIX + line[|PREFIX|..];
    var code := Strip(Split(line, ": ", 2)[1]);
    if code == "" then None else Some(code)
  }

  function FirstCode(lines: seq<string>): Option<string> {
    if lines == [] then None
    else if StartsWith(lines[0], PREFIX) then LineCode(lines[0])
    else FirstCode(lines[1..])
  }

  /** _helper_error_code() */
  method HelperErrorCode(snippet: string) returns (code: Option<string>)
    ensures code == FirstCode(SplitLines(snippet))
  {
    var lines := SplitLines(snippet);
    assert lines[0..] == lines;
    for i := 0 to |lines|
      invariant FirstCode(lines[i..]) == FirstCode(lines)
    {
      assert lines[i..][1..] == lines[i+1..];
      if StartsWith(lines[i], PREFIX) { return LineCode(lines[i]); }
    }
    code := None;
  }

  // -- the round trip -------------------------------------------------------

  /** A code as the helper's authors write them. */
  ghost predicate GoodCode(code: string) {
    && code != "" && !IsSpace(code[0]) && !IsSpace(code[|code|-1])
    && NoBreaks(code)
    && forall i: nat :: !OccursAt(code, ": ", i)
  }

  /** Earlier output: whole lines that are not the helper's. */
  ghost predicate Unrelated(s: string) {
    WholeLines(s) && forall line | line in SplitLines(s) :: !StartsWith(line, "lapcare-helper: ")
  }

  /** Room for a code after `before` and the prefix; negative when the cut comes earlier. */
  function Room(before: string): int { SNIPPET_CHARS - |before| - |PREFIX| }

  /** What is read when the cut leaves `rest` after the prefix. */
  function CodeIn(rest: string): Option<string> {
    var code := Strip(Split(FirstLine(rest), ": ", 1)[0]);
    if code == "" then None else Some(code)
  }

  lemma CodeInLine(rest: string)
    ensures StartsWith(PREFIX + FirstLine(rest), PREFIX)
    ensures LineCode(PREFIX + FirstLine(rest)) == CodeIn(rest)
  {
    var line := PREFIX + FirstLine(rest);
    assert line[..|PREFIX|] == PREFIX;
    PrefixSplits(FirstLine(rest));
  }

  /** Unrelated lines are passed over. */
  lemma {:induction false} SkipUnrelated(lines: seq<string>, rest: seq<string>)
    requires forall line | line in lines :: !StartsWith(line, PREFIX)
    ensures FirstCode(lines + rest) == FirstCode(rest)
  {
    if lines == [] {
      assert lines + rest == rest;
    } else {
      assert (lines + rest)[1..] == lines[1..] + rest;
      SkipUnrelated(lines[1..], rest);
    }
  }

  lemma OnlyUnrelated(lines: seq<string>)
    requires forall line | line in lines :: !StartsWith(line, PREFIX)
    ensures FirstCode(lines) == None
  {
    SkipUnrelated(lines, []);
    assert lines + [] == lines;
  }

  lemma StartOfUnrelated(cut: string, lines: seq<string>)
    requires Begins(cut, lines) && forall line | line in lines :: !StartsWith(line, PREFIX)
    ensures !StartsWith(cut, PREFIX)
  {
    var i :| 0 <= i < |lines| && cut <= lines[i];
    assert lines[i] in lines;
    assert |cut| >= |PREFIX| ==> lines[i][..|PREFIX|] == cut[..|PREFIX|];
  }

  lemma FirstLineDecides(s: string)
    requires s != "" && StartsWith(FirstLine(s), PREFIX)
    ensures FirstCode(SplitLines(s)) == LineCode(FirstLine(s))
  {
    hide FirstLine, LaterLines, LineCode;
    assert SplitLines(s)[0] == FirstLine(s);
  }

  lemma PrefixFirstLine(rest: string)
    ensures FirstLine(PREFIX + rest) == PREFIX + FirstLine(rest)
  {
    hide LineEnd;
    assert NoBreaks(PREFIX);
    LineEndConcat(PREFIX, rest);
    NoBreakLineEnd(PREFIX);
  }

  lemma PrefixLine(rest: string)
    ensures FirstCode(SplitLines(PREFIX + rest)) == CodeIn(rest)
  {
    hide LineEnd, LineCode, CodeIn, SplitLines, FirstCode, StartsWith;
    CodeInLine(rest);
    PrefixFirstLine(rest);
    hide FirstLine;
    FirstLineDecides(PREFIX + rest);
  }

  /** A cut inside the earlier output or inside the prefix leaves nothing to read. */
  lemma NothingBeforePrefix(before: string, line: string)
    requires Unrelated(before) && StartsWith(line, PREFIX) && Room(before) < 0
    ensures FirstCode(SplitLines(Snippet(before + line))) == None
  {
    var s := Snippet(before + line);
    if SNIPPET_CHARS <= |before| {
      assert s == before[..SNIPPET_CHARS];
      forall cut | cut in SplitLines(s) ensures !StartsWith(cut, PREFIX) {
        CutLines(before, SNIPPET_CHARS, cut);
        StartOfUnrelated(cut, SplitLines(before));
      }
      hide SplitLines;
      OnlyUnrelated(SplitLines(s));
    } else {
      var n := SNIPPET_CHARS - |before|;
      var part := line[..n];
      assert s == before + part;
      assert part == PREFIX[..n];
      assert part[..1] == "l";
      SplitLinesConcat(before, part);
      forall cut | cut in SplitLines(part) ensures !StartsWith(cut, PREFIX) {
        LinesAreShort(part, cut);
      }
      hide SplitLines;
      SkipUnrelated(SplitLines(before), SplitLines(part));
      OnlyUnrelated(SplitLines(part));
    }
  }

  lemma {:induction false} LinesAreShort(s: string, line: string)
    requires line in SplitLines(s)
    ensures |line| <= |s|
    decreases |s|
  {
    if s != "" && line != FirstLine(s) { LinesAreShort(LaterLines(s), line); }
  }

  /** Otherwise what is read is decided by what the cut leaves after the prefix. */
  lemma ReadAfterPrefix(before: string, tail: string)
    requires Unrelated(before) && Room(before) >= 0
    ensures var k := Room(before);
            FirstCode(SplitLines(Snippet(before + (PREFIX + tail)))) == CodeIn(if |tail| <= k then tail else tail[..k])
  {
    var k := Room(before);
    var kept := if |tail| <= k then tail else tail[..k];
    assert Snippet(before + (PREFIX + tail)) == before + (PREFIX + kept);
    assert (PREFIX + kept)[..1] == "l";
    SplitLinesConcat(before, PREFIX + kept);
    SkipUnrelated(SplitLines(before), SplitLines(PREFIX + kept));
    PrefixLine(kept);
    hide SplitLines, CodeIn, FirstCode;
  }

  /** A text without ": " and line breaks reads as itself, stripped. */
  lemma PlainCode(s: string)
    requires NoBreaks(s) && forall i: nat :: !OccursAt(s, ": ", i)
    ensures CodeIn(s) == if Strip(s) == "" then None else Some(Strip(s))
  {
    NoBreakLineEnd(s);
    assert FirstLine(s) == s;
    FirstOccurrence(s, ": ", |s|);
    hide Strip, IndexOf, FirstLine;
  }

  lemma StripKeepsCode(code: string)
    requires code != "" && !IsSpace(code[0]) && !IsSpace(code[|code|-1])
    ensures Strip(code) == code
  {
  }

  /** A cut inside the code loses it. */
  lemma CutCode(code: string, k: nat)
    requires GoodCode(code) && k < |code|
    ensures CodeIn(code[..k]) != Some(code)
  {
    var s := code[..k];
    forall i: nat ensures !OccursAt(s, ": ", i) {
      assert !OccursAt(code, ": ", i);
      assert i + 2 <= |s| ==> s[i..i+2] == code[i..i+2];
    }
    PlainCode(s);
    StripShortens(s);
  }

  /** A cut between the colon and the space reads the colon as part of the code. */
  lemma CutSeparator(code: string)
    requires GoodCode(code)
    ensures CodeIn(code + ":") != Some(code)
  {
    var s := code + ":";
    forall i: nat ensures !OccursAt(s, ": ", i) {
      assert !OccursAt(code, ": ", i);
      if i + 2 <= |code| { assert s[i..i+2] == code[i..i+2]; }
      else if i + 2 == |s| { assert s[i..i+2][1] == ':'; }
    }
    PlainCode(s);
    StripKeepsCode(s);
  }

  /** A code followed by the separator, or by the line break, is read. */
  lemma SeparatedCode(code: string, rest: string)
    requires GoodCode(code)
    ensures CodeIn(code + (": " + rest)) == Some(code)
  {
    var s := code + (": " + FirstLine(rest));
    NoBreakLineEnd(code + ": ");
    LineEndConcat(code + ": ", rest);
    assert code + ": " + rest == code + (": " + rest);
    assert FirstLine(code + (": " + rest)) == s;
    assert s[|code|..|code|+2] == ": ";
    forall j: nat | j < |code| ensures !OccursAt(s, ": ", j) {
      assert !OccursAt(code, ": ", j);
      if j + 2 <= |code| { assert s[j..j+2] == code[j..j+2]; }
      else { assert s[j..j+2][1] == ':'; }
    }
    FirstOccurrence(s, ": ", |code|);
    StripKeepsCode(code);
    hide Strip, IndexOf, FirstLine;
  }

  lemma EndedCode(code: string)
    requires GoodCode(code)
    ensures CodeIn(code) == CodeIn(code + "\n") == Some(code)
  {
    NoBreakLineEnd(code);
    LineEndConcat(code, "\n");
    assert FirstLine(code + "\n") == code == FirstLine(code);
    PlainCode(code);
    StripKeepsCode(code);
    hide Strip, Split, FirstLine;
  }

  /** The code within what the cut leaves of the helper's line. */
  lemma CodeWithinRoom(code: string, detail: string, k: nat)
    requires GoodCode(code)
    ensures var tail := code + (if detail != "" then ": " + detail else "") + "\n";
            CodeIn(if |tail| <= k then tail else tail[..k]) == Some(code)
            <==> k == |code| || k >= |code| + 2 || (k == |code| + 1 && detail == "")
  {
    var tail := code + (if detail != "" then ": " + detail else "") + "\n";
    var kept := if |tail| <= k then tail else tail[..k];
    if k < |code| {
      assert kept == code[..k];
      CutCode(code, k);
    } else if k == |code| {
      assert kept == code;
      EndedCode(code);
    } else if detail == "" {
      assert kept == code + "\n";
      EndedCode(code);
    } else if k == |code| + 1 {
      assert kept == code + ":";
      CutSeparator(code);
    } else {
      assert kept == code + (": " + kept[|code|+2..]);
      SeparatedCode(code, kept[|code|+2..]);
    }
    hide CodeIn;
  }

  /** What the helper prints for a failure. */
  lemma LineIsPrinted(code: string, detail: string)
    ensures ErrorLine(code, detail) + "\n"
         == "lapcare-helper: " + (code + (if detail != "" then ": " + detail else "") + "\n")
  {
  }

  /**
    The code the helper printed is read back exactly when the cut after 500 characters does not touch it: it falls on
    its end, or past the separator or line break that follows it.
  */
  lemma CodeIsRead(before: string, code: string, detail: string)
    requires Unrelated(before) && GoodCode(code)
    ensures var line := "lapcare-helper: " + (code + (if detail != "" then ": " + detail else "") + "\n");
            var k := 500 - |before| - 16;
            FirstCode(SplitLines(Snippet(before + line))) == Some(code)
            <==> k == |code| || k >= |code| + 2 || (k == |code| + 1 && detail == "")
  {
    var tail := code + (if detail != "" then ": " + detail else "") + "\n";
    if Room(before) < 0 {
      assert (PREFIX + tail)[..|PREFIX|] == PREFIX;
      NothingBeforePrefix(before, PREFIX + tail);
    } else {
      ReadAfterPrefix(before, tail);
      CodeWithinRoom(code, detail, Room(before));
    }
    hide FirstCode, SplitLines, CodeIn, GoodCode, Unrelated;
  }
}
