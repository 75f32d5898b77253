/** Python's str.splitlines, str.strip and str.split(sep, maxsplit), and what the parsers need to know of them. */
module Text {

  predicate StartsWith(s: string, prefix: string) { |s| >= |prefix| && s[..|prefix|] == prefix }

  predicate EndsWith(s: string, suffix: string) { |s| >= |suffix| && s[|s| - |suffix|..] == suffix }

  /** str(n) */
  function Decimal(n: int): string { if n < 0 then "-" + Digits(-n) else Digits(n) }

  function Digits(n: nat): string {
    if n < 10 then [('0' as int + n) as char] else Digits(n / 10) + [('0' as int + n % 10) as char]
  }

  /** int(s) of a numeral */
  function ValueOf(s: string): int
    requires IsNumeral(s)
  {
    var digit := s[|s|-1] as int - '0' as int;
    if |s| == 1 then digit else 10 * ValueOf(s[..|s|-1]) + digit
  }

  predicate IsNumeral(s: string) { |s| > 0 && forall i | 0 <= i < |s| :: '0' <= s[i] <= '9' }

  /** A number reads back from its digits, which start with 0 for 0 alone. */
  lemma {:induction false} DigitsReadBack(n: nat)
    ensures IsNumeral(Digits(n)) && ValueOf(Digits(n)) == n
    ensures Digits(n)[0] == '0' ==> n == 0
  {
    if n >= 10 {
      DigitsReadBack(n / 10);
      var last := ('0' as int + n % 10) as char;
      assert (Digits(n / 10) + [last])[..|Digits(n / 10)|] == Digits(n / 10);
    }
  }

  /** The line boundaries of str.splitlines. */
  predicate IsBreak(c: char) {
    var n := c as int;
    10 <= n <= 13 || 28 <= n <= 30 || n == 0x85 || n == 0x2028 || n == 0x2029
  }

  /** str.isspace */
  predicate IsSpace(c: char) {
    var n := c as int;
    || IsBreak(c) || n == 9 || n == 31 || n == 32 || n == 0xA0 || n == 0x1680 || 0x2000 <= n <= 0x200A
    || n == 0x202F || n == 0x205F || n == 0x3000
  }

  predicate NoBreaks(s: string) { forall c | c in s :: !IsBreak(c) }

  /** Where the first line of `s` ends. */
  function LineEnd(s: string): (i: nat)
    ensures i <= |s| && NoBreaks(s[..i]) && (i < |s| ==> IsBreak(s[i]))
  {
    if s == "" || IsBreak(s[0]) then 0 else
      var i := LineEnd(s[1..]);
      assert s[..i+1] == [s[0]] + s[1..][..i];
      i + 1
  }

  function FirstLine(s: string): string { s[..LineEnd(s)] }

  /** Past the first line and its boundary, where "\r\n" is one boundary. */
  function LaterLines(s: string): (rest: string)
    ensures s != "" ==> |rest| < |s|
  {
    var i := LineEnd(s);
    if i == |s| then "" else PastBreak(s, i)
  }

  function PastBreak(s: string, i: nat): (rest: string)
    requires i < |s|
    ensures |rest| < |s|
  {
    if s[i] == '\r' && i + 1 < |s| && s[i+1] == '\n' then s[i+2..] else s[i+1..]
  }

  function SplitLines(s: string): seq<string>
    decreases |s|
  {
    if s == "" then [] else [FirstLine(s)] + SplitLines(LaterLines(s))
  }

  /** Nothing but whole lines. */
  predicate WholeLines(s: string) { s == "" || IsBreak(s[|s|-1]) }

  lemma {:induction false} NoBreakLineEnd(s: string)
    requires NoBreaks(s)
    ensures LineEnd(s) == |s|
  {
    if s != "" { NoBreakLineEnd(s[1..]); }
  }

  lemma {:induction false} LineEndConcat(a: string, b: string)
    ensures LineEnd(a + b) == if LineEnd(a) < |a| then LineEnd(a) else |a| + LineEnd(b)
  {
    if a == "" {
      assert a + b == b;
    } else {
      assert (a + b)[0] == a[0] && (a + b)[1..] == a[1..] + b;
      if !IsBreak(a[0]) { LineEndConcat(a[1..], b); }
    }
  }

  lemma {:induction false} WholeLineEnds(a: string)
    requires a != "" && IsBreak(a[|a|-1])
    ensures LineEnd(a) < |a|
  {
    if |a| > 1 { WholeLineEnds(a[1..]); }
  }

  lemma LaterLinesConcat(a: string, b: string)
    requires a != "" && WholeLines(a) && !StartsWith(b, "\n")
    ensures FirstLine(a + b) == FirstLine(a) && LaterLines(a + b) == LaterLines(a) + b && WholeLines(LaterLines(a))
  {
    LineEndConcat(a, b);
    WholeLineEnds(a);
    DropConcat(a, b, LineEnd(a));
    hide LineEnd, StartsWith, PastBreak;
    PastBreakConcat(a, b, LineEnd(a));
  }

  lemma PastBreakConcat(a: string, b: string, i: nat)
    requires i < |a| && WholeLines(a) && !StartsWith(b, "\n")
    ensures PastBreak(a + b, i) == PastBreak(a, i) + b && WholeLines(PastBreak(a, i))
  {
    DropConcat(a, b, i);
    DropConcat(a, b, i + 1);
    hide IsBreak;
    if i + 1 < |a| {
      DropConcat(a, b, i + 1);
      DropConcat(a, b, i + 2);
    } else if b != "" {
      assert b[..1] == [b[0]] && (a + b)[i+1] == b[0];
    }
  }

  lemma DropConcat(a: string, b: string, k: nat)
    requires k <= |a|
    ensures (a + b)[k..] == a[k..] + b && (a + b)[..k] == a[..k] && (k < |a| ==> (a + b)[k] == a[k])
  {
  }

  lemma FirstOfBoth(first: seq<string>, a: seq<string>, b: seq<string>)
    ensures first + (a + b) == first + a + b
  {
  }

  lemma FirstAndLater(s: string)
    requires s != ""
    ensures SplitLines(s) == [FirstLine(s)] + SplitLines(LaterLines(s))
  {
    hide LineEnd, FirstLine, LaterLines;
  }

  lemma {:induction false} SplitLinesConcat(a: string, b: string)
    requires WholeLines(a) && !StartsWith(b, "\n")
    ensures SplitLines(a + b) == SplitLines(a) + SplitLines(b)
    decreases |a|
  {
    if a == "" {
      assert a + b == b && SplitLines(a) == [];
      hide *;
    } else {
      hide *;
      LaterLinesConcat(a, b);
      SplitLinesConcat(LaterLines(a), b);
      FirstAndLater(a);
      FirstAndLater(a + b);
      FirstOfBoth([FirstLine(a)], SplitLines(LaterLines(a)), SplitLines(b));
    }
  }

  lemma TakeDrop(s: string, n: nat, k: nat)
    requires k <= n <= |s|
    ensures s[..n][k..] == s[k..][..n-k] && s[..n][..k] == s[..k]
    ensures forall j | 0 <= j < n :: s[..n][j] == s[j]
  {
  }

  lemma CutLater(s: string, n: nat) returns (m: nat)
    requires n <= |s| && LineEnd(s[..n]) < n
    ensures m <= |LaterLines(s)| && LaterLines(s[..n]) == LaterLines(s)[..m] && FirstLine(s[..n]) == FirstLine(s)
  {
    var t, i := s[..n], LineEnd(s[..n]);
    assert s == t + s[n..];
    LineEndConcat(t, s[n..]);
    hide LineEnd, IsBreak, NoBreaks;
    TakeDrop(s, n, i);
    TakeDrop(s, n, i + 1);
    if s[i] == '\r' && i + 1 < |s| && s[i+1] == '\n' {
      if n == i + 1 {
        assert t[i+1..] == "" == s[i+2..][..0];
        m := 0;
      } else {
        TakeDrop(s, n, i + 2);
        m := n - i - 2;
      }
    } else {
      m := n - i - 1;
    }
  }

  /** `cut` is the start of one of `lines`. */
  ghost predicate Begins(cut: string, lines: seq<string>) { exists i :: 0 <= i < |lines| && cut <= lines[i] }

  lemma BeginsAfter(cut: string, first: string, lines: seq<string>)
    requires Begins(cut, lines)
    ensures Begins(cut, [first] + lines)
  {
    var i :| 0 <= i < |lines| && cut <= lines[i];
    assert ([first] + lines)[i + 1] == lines[i];
  }

  /** Each line of a cut text is the start of a line of the text. */
  lemma {:induction false} CutLines(s: string, n: nat, cut: string)
    requires n <= |s| && cut in SplitLines(s[..n])
    ensures Begins(cut, SplitLines(s))
    decreases |s|
  {
    var t := s[..n];
    assert t != "" by { assert SplitLines("") == []; }
    if LineEnd(t) < n {
      var m := CutLater(s, n);
      if cut == FirstLine(t) {
        assert SplitLines(s)[0] == cut;
      } else {
        CutLines(LaterLines(s), m, cut);
        BeginsAfter(cut, FirstLine(s), SplitLines(LaterLines(s)));
      }
    } else {
      assert s == t + s[n..];
      LineEndConcat(t, s[n..]);
      assert LaterLines(t) == "" && FirstLine(t) <= FirstLine(s);
      assert SplitLines(s)[0] == FirstLine(s) && cut == t;
    }
    hide LineEnd, FirstLine, LaterLines, SplitLines;
  }

  // -- strip ----------------------------------------------------------------

  function StripLeft(s: string): string { if s != "" && IsSpace(s[0]) then StripLeft(s[1..]) else s }

  function StripRight(s: string): string {
    if s != "" && IsSpace(s[|s|-1]) then StripRight(s[..|s|-1]) else s
  }

  function Strip(s: string): string { StripRight(StripLeft(s)) }

  lemma {:induction false} StripLeftShortens(s: string)
    ensures |StripLeft(s)| <= |s|
  {
    if s != "" { StripLeftShortens(s[1..]); }
  }

  lemma {:induction false} StripRightShortens(s: string)
    ensures |StripRight(s)| <= |s|
  {
    if s != "" { StripRightShortens(s[..|s|-1]); }
  }

  lemma StripShortens(s: string)
    ensures |Strip(s)| <= |s|
  {
    StripLeftShortens(s);
    StripRightShortens(StripLeft(s));
  }

  // -- split ----------------------------------------------------------------

  /** Where `sep` first occurs, or |s|. */
  function IndexOf(s: string, sep: string): (i: nat)
    requires sep != ""
    ensures i <= |s|
    ensures i < |s| ==> i + |sep| <= |s| && s[i..i+|sep|] == sep
  {
    if |s| < |sep| then |s| else if s[..|sep|] == sep then 0 else 1 + IndexOf(s[1..], sep)
  }

  function Split(s: string, sep: string, max: nat): (parts: seq<string>)
    requires sep != ""
    ensures parts != []
    ensures max > 0 && IndexOf(s, sep) < |s| ==> |parts| >= 2
    decreases max
  {
    var i := IndexOf(s, sep);
    if max == 0 || i == |s| then [s] else [s[..i]] + Split(s[i+|sep|..], sep, max - 1)
  }

  predicate OccursAt(s: string, sep: string, i: nat) { i + |sep| <= |s| && s[i..i+|sep|] == sep }

  lemma {:induction false} FirstOccurrence(s: string, sep: string, i: nat)
    requires sep != "" && i <= |s|
    requires i < |s| ==> OccursAt(s, sep, i)
    requires forall j: nat | j < i :: !OccursAt(s, sep, j)
    ensures IndexOf(s, sep) == i
  {
    if |s| < |sep| {
    } else if i > 0 {
      assert !OccursAt(s, sep, 0);
      forall j: nat | j < i - 1 ensures !OccursAt(s[1..], sep, j) {
        assert !OccursAt(s, sep, j + 1);
        assert j + 1 + |sep| <= |s| ==> s[1..][j..j+|sep|] == s[j+1..j+1+|sep|];
      }
      assert i < |s| ==> s[1..][i-1..i-1+|sep|] == s[i..i+|sep|];
      FirstOccurrence(s[1..], sep, i - 1);
    } else if s != "" {
      assert s[0..|sep|] == s[..|sep|];
    }
  }

  /** No occurrence comes before the one that is found. */
  lemma {:induction false} OccurrenceIsFound(s: string, sep: string, i: nat)
    requires sep != "" && OccursAt(s, sep, i)
    ensures IndexOf(s, sep) <= i
  {
    if i > 0 {
      assert s[1..][i-1..i-1+|sep|] == s[i..i+|sep|];
      OccurrenceIsFound(s[1..], sep, i - 1);
    } else {
      assert s[0..|sep|] == s[..|sep|];
    }
  }

  // -- what the pieces are --------------------------------------------------

  /** The ten line boundaries and the white space of str.splitlines and str.isspace, by code point. */
  lemma BreaksAndSpaces(c: char)
    ensures IsBreak(c) <==> c as int in {10, 11, 12, 13, 28, 29, 30, 133, 8232, 8233}
    ensures IsSpace(c) <==>
            c as int in {9, 10, 11, 12, 13, 28, 29, 30, 31, 32, 133, 160, 5760, 8232, 8233, 8239, 8287, 12288}
              || 8192 <= c as int <= 8202
  {
  }

  /** `lines` are the lines of `s`: each holds no boundary, and one boundary follows it unless `s` ends with it. */
  ghost predicate AreLines(s: string, lines: seq<string>)
    decreases |lines|
  {
    if lines == [] then s == ""
    else
      && s != "" && |lines[0]| <= |s| && s[..|lines[0]|] == lines[0] && NoBreaks(lines[0])
      && var rest := s[|lines[0]|..];
         if rest == "" then lines[1..] == []
         else if rest[0] == '\r' && |rest| > 1 && rest[1] == '\n' then AreLines(rest[2..], lines[1..])
         else IsBreak(rest[0]) && AreLines(rest[1..], lines[1..])
  }

  lemma {:induction false} LinesAreLines(s: string)
    ensures AreLines(s, SplitLines(s))
    decreases |s|
  {
    if s != "" {
      var i := LineEnd(s);
      LinesAreLines(LaterLines(s));
      assert SplitLines(s)[0] == s[..i] && SplitLines(s)[1..] == SplitLines(LaterLines(s));
      var rest := s[i..];
      assert i + 1 <= |s| ==> s[i..][1..] == s[i+1..];
      assert i + 2 <= |s| ==> s[i..][2..] == s[i+2..];
      assert SplitLines("") == [];
      hide LineEnd, SplitLines, NoBreaks, IsBreak;
    }
  }

  lemma {:induction false} StripLeftEnds(s: string) returns (n: nat)
    ensures n <= |s| && StripLeft(s) == s[n..] && (forall i | 0 <= i < n :: IsSpace(s[i]))
    ensures StripLeft(s) != "" ==> !IsSpace(StripLeft(s)[0])
  {
    if s != "" && IsSpace(s[0]) {
      var k := StripLeftEnds(s[1..]);
      n := k + 1;
    } else {
      n := 0;
    }
  }

  lemma {:induction false} StripRightEnds(s: string) returns (n: nat)
    ensures n <= |s| && StripRight(s) == s[..n] && (forall i | n <= i < |s| :: IsSpace(s[i]))
    ensures StripRight(s) != "" ==> !IsSpace(StripRight(s)[|StripRight(s)|-1])
  {
    if s != "" && IsSpace(s[|s|-1]) {
      n := StripRightEnds(s[..|s|-1]);
      assert s[..|s|-1][..n] == s[..n];
      assert forall i | n <= i < |s| - 1 :: s[..|s|-1][i] == s[i];
    } else {
      n := |s|;
    }
  }

  /** Stripping takes white space from both ends until none is left there. */
  lemma StripIsExact(s: string) returns (from: nat, to: nat)
    ensures from <= to <= |s| && Strip(s) == s[from..to]
    ensures forall i | 0 <= i < |s| && !(from <= i < to) :: IsSpace(s[i])
    ensures Strip(s) != "" ==> !IsSpace(s[from]) && !IsSpace(s[to-1])
  {
    from := StripLeftEnds(s);
    var n := StripRightEnds(StripLeft(s));
    to := from + n;
    assert s[from..][..n] == s[from..to];
    assert forall i | 0 <= i < |s| - from :: s[from..][i] == s[from + i];
    forall i | 0 <= i < |s| && !(from <= i < to) ensures IsSpace(s[i]) {
      if i >= to { assert s[from..][i - from] == s[i]; }
    }
    hide IsSpace, StripLeft, StripRight;
  }
}
