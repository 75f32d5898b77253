/**
  From a smartctl run to the provider's answer: the privileged helper, pkexec,
  the tool runner and the provider's error mapping as one chain.
*/
module SmartHelper {
  import opened Common
  import opened Text
  import opened SmartJson
  import opened HelperChannel

  /** Bytes on stdout, as far as anyone looks: how many, and what json.loads makes of them. */
  datatype Output = Output(size: nat, json: Option<Json>)

  const NO_OUTPUT := Output(0, None)

  // -- the helper -----------------------------------------------------------

  datatype Smartctl = SmartctlTimedOut | Exited(rc: int, out: Output)

  /**
    What the helper finds: /sys/block, the device node (None: no such node; otherwise whether it is
    a block device), smartctl.
  */
  datatype World = World(
    blockDevices: Result<set<string>, string>, isBlockNode: Option<bool>, executable: bool, smartctl: Smartctl)

  datatype Outcome = Failed(code: string, detail: string) | Wrote(out: Output)

  const SMARTCTL := "/usr/sbin/smartctl"
  const HELPER_MAX_BYTES := 4 * 1024 * 1024

  /** _device_node() */
  function DeviceNode(name: string, w: World): Result<string, Outcome> {
    if w.blockDevices.Err? then Err(Failed("unknown-device", "cannot enumerate /sys/block: " + w.blockDevices.error))
    else if name !in w.blockDevices.value then Err(Failed("unknown-device", ""))
    else if w.isBlockNode.None? then Err(Failed("unknown-device", "no device node for " + name))
    else if !w.isBlockNode.value then Err(Failed("unknown-device", "/dev/" + name + " is not a block device"))
    else Ok("/dev/" + name)
  }

  /** smartctl's exit status is a bitmask; bits 0 and 1 mean there is no report. */
  predicate FatalStatus(rc: int) { rc < 0 || rc % 4 != 0 }

  /** _smart_report() */
  function SmartReportOf(w: World): Outcome {
    if !w.executable then Failed("tool-missing", SMARTCTL)
    else
      match w.smartctl
      case SmartctlTimedOut => Failed("tool-timeout", "smartctl exceeded 25s")
      case Exited(rc, out) =>
        if FatalStatus(rc) then Failed("tool-failed", "smartctl exited " + Decimal(rc))
        else if out.size > HELPER_MAX_BYTES then Failed("output-invalid", "output exceeds 4194304 bytes")
        else if out.json.None? then Failed("output-invalid", "smartctl output is not JSON")
        else Wrote(out)
  }

  /** main() */
  function Helper(argv: seq<string>, w: World): Outcome {
    if |argv| != 3 then Failed("usage", "expected: lapcare-helper smart-report <device>")
    else if argv[1] != "smart-report" then Failed("unknown-verb", "")
    else
      match DeviceNode(argv[2], w)
      case Err(failure) => failure
      case Ok(node) => SmartReportOf(w)
  }

  datatype Exit = Exit(rc: int, stdout: Output, stderr: string)

  /** The helper's process, after `before` was already written to stderr. */
  function ExitOf(o: Outcome, before: string): Exit {
    match o
    case Failed(code, detail) => Exit(1, NO_OUTPUT, before + (ErrorLine(code, detail) + "\n"))
    case Wrote(out) => Exit(0, out, before)
  }

  // -- the runner and the provider ------------------------------------------

  datatype Run = NotInstalled | RunTimedOut | Ended(exit: Exit)

  datatype ToolError = ToolNotFound | ToolTimeout | ToolFailed(rc: int, snippet: string)

  const RUNNER_MAX_BYTES := 8 * 1024 * 1024

  /** run_tool() */
  function RunTool(run: Run): Result<Output, ToolError> {
    match run
    case NotInstalled => Err(ToolNotFound)
    case RunTimedOut => Err(ToolTimeout)
    case Ended(exit) =>
      if exit.rc != 0 then Err(ToolFailed(exit.rc, Snippet(exit.stderr)))
      else if exit.stdout.size > RUNNER_MAX_BYTES then Err(ToolFailed(0, "output exceeded 8388608 bytes"))
      else Ok(exit.stdout)
  }

  datatype ReadError = Denied | Unavailable(tool: string) | Timeout | ParseError(message: string)

  const DISMISSED := 126
  const NOT_AUTHORIZED := 127

  predicate Contains(s: string, part: string)
    requires part != ""
  {
    IndexOf(s, part) < |s|
  }

  /** _translate_failure() */
  function Translate(rc: int, snippet: string): ReadError {
    if rc == DISMISSED || rc == NOT_AUTHORIZED then Denied
    else
      match FirstCode(SplitLines(snippet))
      case Some(code) =>
        if code == "tool-missing" then Unavailable("smartmontools")
        else if code == "tool-timeout" then Timeout
        else ParseError("helper: " + code)
      case None =>
        if Contains(snippet, "lapcare-helper") then ParseError("helper failed")
        else Unavailable("lapcare-helper (installed package)")
  }

  /** read_smart() */
  function ReadSmart(device: string, run: Run): Result<SmartReport, ReadError> {
    match RunTool(run)
    case Err(ToolNotFound) => Err(Unavailable("pkexec"))
    case Err(ToolTimeout) => Err(Timeout)
    case Err(ToolFailed(rc, snippet)) => Err(Translate(rc, snippet))
    case Ok(out) =>
      if out.json.None? then Err(ParseError("helper output is not JSON"))
      else if !out.json.value.Obj? then Err(ParseError("helper output is not a JSON object"))
      else Ok(Report(device, out.json.value))
  }

  predicate PkexecRefused(run: Run) { run.Ended? && (run.exit.rc == 126 || run.exit.rc == 127) }

  // -- main results ---------------------------------------------------------

  /** A read counts as declined exactly when pkexec exits 126 or 127. */
  lemma DeclinedExactly(device: string, run: Run)
    ensures ReadSmart(device, run) == Err(Denied) <==> PkexecRefused(run)
  {
    hide FirstCode, SplitLines, Contains, Report, Snippet;
  }

  /** The codes the helper prints. */
  ghost predicate HelperCode(code: string) {
    || code == "usage" || code == "unknown-verb" || code == "unknown-device" || code == "tool-missing"
    || code == "tool-timeout" || code == "tool-failed" || code == "output-invalid"
  }

  lemma HelperCodesAreGood(code: string)
    requires HelperCode(code)
    ensures GoodCode(code) && |code| <= 14
  {
    CodesAreWords(code);
    hide HelperCode, IsSpace, IsBreak;
    forall i: nat ensures !OccursAt(code, ": ", i) {
      if i + 2 <= |code| { assert code[i..i+2][0] == code[i] != ':'; }
    }
  }

  lemma CodesAreWords(code: string)
    requires HelperCode(code)
    ensures 0 < |code| <= 14
    ensures NoBreaks(code) && !IsSpace(code[0]) && !IsSpace(code[|code|-1]) && ':' !in code
  {
  }

  /** Whatever it is asked and finds, the helper writes only a report, and a failure prints one of its codes. */
  lemma HelperFailsCleanly(argv: seq<string>, w: World, before: string)
    ensures var o, exit := Helper(argv, w), ExitOf(Helper(argv, w), before);
            && (o.Failed? ==> HelperCode(o.code) && exit.rc == 1 && exit.stdout == NO_OUTPUT)
            && (o.Wrote? ==> exit.rc == 0)
            && !PkexecRefused(Ended(exit))
  {
    hide Decimal;
  }

  /** The helper was called for a report. */
  ghost predicate Asked(argv: seq<string>) { |argv| == 3 && argv[1] == "smart-report" }

  /** The device it was asked for is listed under /sys/block and has a block node. */
  ghost predicate Found(argv: seq<string>, w: World) {
    Asked(argv) && w.blockDevices.Ok? && argv[2] in w.blockDevices.value && w.isBlockNode == Some(true)
  }

  /** smartctl ran to its end, and neither bit 0 nor bit 1 of its status is set. */
  ghost predicate Reported(argv: seq<string>, w: World) {
    && Found(argv, w) && w.executable && w.smartctl.Exited?
    && w.smartctl.rc >= 0 && w.smartctl.rc % 2 == 0 && w.smartctl.rc / 2 % 2 == 0
  }

  /** Which failure of a request prints which code. */
  lemma CodeTellsRequest(argv: seq<string>, w: World)
    ensures !Found(argv, w) ==> Helper(argv, w).Failed?
    ensures |argv| != 3 ==> Helper(argv, w).code == "usage"
    ensures |argv| == 3 && argv[1] != "smart-report" ==> Helper(argv, w).code == "unknown-verb"
    ensures Asked(argv) && !Found(argv, w) ==> Helper(argv, w).code == "unknown-device"
  {
    hide SmartReportOf;
  }

  /** Which failure of smartctl prints which code, and that nothing else fails. */
  lemma CodeTellsFailure(argv: seq<string>, w: World)
    requires Found(argv, w)
    ensures var o := Helper(argv, w);
            && (!w.executable ==> o.Failed? && o.code == "tool-missing")
            && (w.executable && w.smartctl.SmartctlTimedOut? ==> o.Failed? && o.code == "tool-timeout")
            && (w.executable && w.smartctl.Exited? && !Reported(argv, w) ==> o.Failed? && o.code == "tool-failed")
            && (Reported(argv, w) && (w.smartctl.out.size > 4194304 || w.smartctl.out.json.None?) ==>
                  o.Failed? && o.code == "output-invalid")
            && (Reported(argv, w) && w.smartctl.out.size <= 4194304 && w.smartctl.out.json.Some? ==>
                  o == Wrote(w.smartctl.out))
  {
    hide Decimal;
  }

  /** A run of pkexec that did not fail, or did not end, by what it left behind. */
  lemma RunTellsError(device: string, run: Run)
    ensures run.NotInstalled? ==> ReadSmart(device, run) == Err(Unavailable("pkexec"))
    ensures run.RunTimedOut? ==> ReadSmart(device, run) == Err(Timeout)
    ensures run.Ended? && run.exit.rc == 0 && run.exit.stdout.size <= 8388608 ==>
              var r, json := ReadSmart(device, run), run.exit.stdout.json;
              && (json.None? ==> r == Err(ParseError("helper output is not JSON")))
              && (json.Some? && !json.value.Obj? ==> r == Err(ParseError("helper output is not a JSON object")))
              && (json.Some? && json.value.Obj? ==> r == Ok(Report(device, json.value)))
  {
    hide FirstCode, SplitLines, Contains, Report, Snippet, Translate;
  }

  /** A text contains a part when it occurs at some place in it. */
  lemma ContainsExactly(s: string, part: string)
    requires part != ""
    ensures Contains(s, part) <==> exists i: nat :: OccursAt(s, part, i)
  {
    if i: nat :| OccursAt(s, part, i) { OccurrenceIsFound(s, part, i); }
    if IndexOf(s, part) < |s| { assert OccursAt(s, part, IndexOf(s, part)); }
  }

  /** A failure without a code: the helper's name in its output tells a failed helper from a missing one. */
  lemma NoCodeTellsError(device: string, run: Run)
    requires run.Ended? && run.exit.rc != 0 && run.exit.rc != 126 && run.exit.rc != 127
    requires FirstCode(SplitLines(Snippet(run.exit.stderr))) == None
    ensures ReadSmart(device, run)
         == if exists i: nat :: OccursAt(Snippet(run.exit.stderr), "lapcare-helper", i)
            then Err(ParseError("helper failed")) else Err(Unavailable("lapcare-helper (installed package)"))
  {
    ContainsExactly(Snippet(run.exit.stderr), "lapcare-helper");
    hide FirstCode, SplitLines, Contains, Report, Snippet, OccursAt;
  }

  lemma OversizeText(s: string)
    requires s == "output exceeded 8388608 bytes"
    ensures NoBreaks(s) && 'l' !in s && s != "" && s[0] != 'l'
  {
  }

  lemma PlainTextIsOneLine(s: string)
    requires NoBreaks(s) && s != ""
    ensures SplitLines(s) == [s]
  {
    NoBreakLineEnd(s);
    assert SplitLines("") == [];
    assert LineEnd(s) == |s| && FirstLine(s) == s && LaterLines(s) == "";
    hide LineEnd, FirstLine, LaterLines;
  }

  /** A line without the letter l neither starts with the helper's name nor holds it. */
  lemma OtherTextHasNoCode(s: string)
    requires NoBreaks(s) && 'l' !in s && s != ""
    ensures FirstCode(SplitLines(s)) == None && !Contains(s, "lapcare-helper")
  {
    PlainTextIsOneLine(s);
    forall i: nat ensures !OccursAt(s, "lapcare-helper", i) {
      assert i + 14 <= |s| ==> s[i..i+14][0] == s[i] != 'l';
    }
    ContainsExactly(s, "lapcare-helper");
    assert !StartsWith(s, PREFIX) by { assert |s| >= 16 ==> s[..16][0] == s[0] != 'l'; }
    hide SplitLines, Contains, OccursAt, StartsWith, LineCode;
    OnlyUnrelated([s]);
  }

  lemma OversizeIsCutOff(run: Run, s: string)
    requires run.Ended? && run.exit.rc == 0 && run.exit.stdout.size > 8388608 && s == "output exceeded 8388608 bytes"
    ensures RunTool(run) == Err(ToolFailed(0, s))
  {
  }

  lemma FailureIsTranslated(device: string, run: Run, s: string)
    requires RunTool(run) == Err(ToolFailed(0, s)) && FirstCode(SplitLines(s)) == None && !Contains(s, "lapcare-helper")
    ensures ReadSmart(device, run) == Err(Unavailable("lapcare-helper (installed package)"))
  {
    hide RunTool, FirstCode, SplitLines, Contains, Report;
  }

  /** Output over the runner's limit carries no code: it reads as a missing helper. */
  lemma OversizeTellsError(device: string, run: Run)
    requires run.Ended? && run.exit.rc == 0 && run.exit.stdout.size > 8388608
    ensures ReadSmart(device, run) == Err(Unavailable("lapcare-helper (installed package)"))
  {
    hide *;
    var s := "output exceeded 8388608 bytes";
    OversizeText(s);
    OtherTextHasNoCode(s);
    OversizeIsCutOff(run, s);
    FailureIsTranslated(device, run, s);
  }

  /**
    smartctl gave a report: bits 0 and 1 of its status are clear, whatever the others say, and its
    output is a bounded JSON object.
  */
  predicate GoodRun(argv: seq<string>, w: World) {
    && |argv| == 3 && argv[1] == "smart-report"
    && w.blockDevices.Ok? && argv[2] in w.blockDevices.value && w.isBlockNode == Some(true) && w.executable
    && w.smartctl.Exited? && w.smartctl.rc >= 0 && w.smartctl.rc % 4 == 0
    && w.smartctl.out.size <= 4194304 && w.smartctl.out.json.Some? && w.smartctl.out.json.value.Obj?
  }

  /** The provider gets a report from an authorized helper exactly for a good run, and then that run's report. */
  lemma ReportExactlyForGoodRun(device: string, argv: seq<string>, w: World, before: string)
    ensures var r := ReadSmart(device, Ended(ExitOf(Helper(argv, w), before)));
            && (r.Ok? <==> GoodRun(argv, w))
            && (r.Ok? ==> r.value == Report(device, w.smartctl.out.json.value))
  {
    hide FirstCode, SplitLines, Contains, Report, Snippet, ErrorLine, Decimal;
  }

  /** What the provider raises for a helper's failure. */
  function ErrorFor(code: string): ReadError {
    if code == "tool-missing" then Unavailable("smartmontools")
    else if code == "tool-timeout" then Timeout
    else ParseError("helper: " + code)
  }

  /** Every failure of the helper reaches the caller as what it was, after up to 468 characters of other whole lines. */
  lemma FailureIsUnderstood(device: string, argv: seq<string>, w: World, before: string)
    requires Helper(argv, w).Failed? && Unrelated(before) && |before| <= 468
    ensures ReadSmart(device, Ended(ExitOf(Helper(argv, w), before))) == Err(ErrorFor(Helper(argv, w).code))
  {
    hide FirstCode, SplitLines, Contains, Helper, GoodCode, Unrelated, ErrorLine, Snippet, HelperCode;
    HelperFailsCleanly(argv, w, before);
    var o := Helper(argv, w);
    HelperCodesAreGood(o.code);
    LineIsPrinted(o.code, o.detail);
    CodeIsRead(before, o.code, o.detail);
  }
}
