/**
  Runs and exports in flight: the export coroutine reads the view-model's
  fields one by one on the loop thread while the main thread keeps handling
  clicks and callbacks.  A file still holds one whole report, the one that was
  on the page when the export was requested.
*/
module DiagnosticsExport {
  import opened Common
  import opened Pages
  import opened Text
  import opened DiagnosticsRun
  import opened DiagnosticsPage

  /** The arguments a renderer is called with decide what is written. */
  datatype Content =
    | Json(generated: string, system: string, report: Report)
    | Html(generated: string, system: string, screen: Screen)
    | Markdown(generated: string, system: string, screen: Screen)

  function FromScreen(path: string, generated: string, system: string, screen: Screen): Content {
    if EndsWith(path, ".html") then Html(generated, system, screen) else Markdown(generated, system, screen)
  }

  /** The document a report becomes. */
  function Rendering(t: Texts, path: string, generated: string, system: string, report: Report): Content {
    if EndsWith(path, ".json") then Json(generated, system, report)
    else FromScreen(path, generated, system, ScreenOf(t, report))
  }

  /** How far _render_and_write has come, with what it has read so far. */
  datatype Stage =
    | Submitted
    | Context(generated: string, system: string)
    | ScoreRead(generated: string, system: string, scoreText: string)
    | CoverageRead(generated: string, system: string, scoreText: string, coverageText: string)
    | Rendered(generated: string, system: string, content: Content)
    | Returned
    | Raised

  datatype Export = Export(path: string, stage: Stage)

  datatype File = File(path: string, generated: string, system: string, content: Content)

  /** `runs` and `exports` still owe a callback; `files` is everything written, in order. */
  datatype Sys = Sys(page: Page, runs: nat, exports: seq<Export>, files: seq<File>)

  datatype Event =
    // main thread
    | Load
    | RunClicked
    | RunEnded(report: Report)
    | RunRaised(exc: Exc)
    | ExportClicked(path: string)
    | ExportEnded(i: nat)
    // loop thread: the steps of export `i`
    | GetsContext(i: nat, generated: string, system: string)
    | ReadsField(i: nat)
    | Writes(i: nat)
    | Fails(i: nat)

  /**
    The next step of an export that has its context: JSON reads the report, the renderers read the
    texts, then the cards.
  */
  function AfterRead(p: Page, path: string, stage: Stage): Stage {
    match stage
    case Context(generated, system) =>
      if !EndsWith(path, ".json") then ScoreRead(generated, system, p.scoreText)
      else if p.lastReport.None? then Raised
      else Rendered(generated, system, Json(generated, system, p.lastReport.value))
    case ScoreRead(generated, system, score) => CoverageRead(generated, system, score, p.coverageText)
    case CoverageRead(generated, system, score, coverage) =>
      Rendered(generated, system, FromScreen(path, generated, system, Screen(score, coverage, p.cards)))
    case _ => stage
  }

  predicate CanRead(stage: Stage) { stage.Context? || stage.ScoreRead? || stage.CoverageRead? }

  predicate Enabled(s: Sys, e: Event) {
    match e
    case RunEnded(_) => s.runs > 0
    case RunRaised(_) => s.runs > 0
    case ExportEnded(i) => i < |s.exports| && (s.exports[i].stage.Returned? || s.exports[i].stage.Raised?)
    case GetsContext(i, _, _) => i < |s.exports| && s.exports[i].stage.Submitted?
    case ReadsField(i) => i < |s.exports| && CanRead(s.exports[i].stage)
    case Writes(i) => i < |s.exports| && s.exports[i].stage.Rendered?
    case Fails(i) => i < |s.exports| && !s.exports[i].stage.Returned?
    case _ => true
  }

  function Without(exports: seq<Export>, i: nat): seq<Export>
    requires i < |exports|
  {
    exports[..i] + exports[i+1..]
  }

  function Handle(t: Texts, hasWriter: bool, s: Sys, e: Event): (Page, Effect)
    requires Enabled(s, e)
  {
    match e
    case Load => OnLoad(s.page)
    case RunClicked => OnRun(s.page)
    case RunEnded(report) => OnRunDone(t, s.page, report)
    case RunRaised(exc) => OnRunFailed(s.page, exc)
    case ExportClicked(path) => OnExport(s.page, hasWriter, path)
    case ExportEnded(i) => if s.exports[i].stage.Returned? then OnExportDone(s.page) else OnExportFailed(s.page)
    case _ => (s.page, Quiet)
  }

  /** The outstanding exports after an event, before anything it submits. */
  function Moved(s: Sys, e: Event): seq<Export>
    requires Enabled(s, e)
  {
    match e
    case ExportEnded(i) => Without(s.exports, i)
    case GetsContext(i, generated, system) =>
      // the coroutine first asserts that there is a report
      s.exports[i := s.exports[i].(stage := if s.page.lastReport.None? then Raised else Context(generated, system))]
    case ReadsField(i) =>
      s.exports[i := s.exports[i].(stage := AfterRead(s.page, s.exports[i].path, s.exports[i].stage))]
    case Writes(i) => s.exports[i := s.exports[i].(stage := Returned)]
    case Fails(i) => s.exports[i := s.exports[i].(stage := Raised)]
    case _ => s.exports
  }

  function Written(s: Sys, e: Event): seq<File>
    requires Enabled(s, e)
  {
    if e.Writes? then
      var x := s.exports[e.i];
      s.files + [File(x.path, x.stage.generated, x.stage.system, x.stage.content)]
    else s.files
  }

  function Next(t: Texts, hasWriter: bool, s: Sys, e: Event): Sys
    requires Enabled(s, e)
  {
    var (page, effect) := Handle(t, hasWriter, s, e);
    Sys(page,
        (if e.RunEnded? || e.RunRaised? then s.runs - 1 else s.runs) + if effect.SubmitRun? then 1 else 0,
        Moved(s, e) + if effect.SubmitExport? then [Export(effect.path, Submitted)] else [],
        Written(s, e))
  }

  function Start(): Sys { Sys(NewPage(), 0, [], []) }

  ghost predicate Valid(t: Texts, hasWriter: bool, es: seq<Event>)
    decreases |es|, 0
  {
    es == [] || (Valid(t, hasWriter, es[..|es|-1]) && Enabled(After(t, hasWriter, es[..|es|-1]), es[|es|-1]))
  }

  ghost function After(t: Texts, hasWriter: bool, es: seq<Event>): Sys
    requires Valid(t, hasWriter, es)
    decreases |es|, 1
  {
    if es == [] then Start() else Next(t, hasWriter, After(t, hasWriter, es[..|es|-1]), es[|es|-1])
  }

  // -- the inductive invariant ----------------------------------------------

  /** One run or export under way, exactly while the page is busy. */
  ghost predicate SingleFlight(s: Sys) {
    s.runs + |s.exports| == if s.page.busyText != "" then 1 else 0
  }

  /** What an export has read is a rendering of `report`. */
  ghost predicate Reads(t: Texts, x: Export, report: Report) {
    var screen := ScreenOf(t, report);
    match x.stage
    case ScoreRead(_, _, score) => score == screen.scoreText && !EndsWith(x.path, ".json")
    case CoverageRead(_, _, score, coverage) =>
      score == screen.scoreText && coverage == screen.coverageText && !EndsWith(x.path, ".json")
    case Rendered(generated, system, content) => content == Rendering(t, x.path, generated, system, report)
    case _ => true
  }

  ghost predicate ReadsReport(t: Texts, s: Sys) {
    forall x | x in s.exports :: s.page.lastReport.Some? && Reads(t, x, s.page.lastReport.value)
  }

  ghost predicate Inv(t: Texts, s: Sys) { SingleFlight(s) && Shows(t, s.page) && ReadsReport(t, s) }

  lemma StepKeepsSingleFlight(t: Texts, hasWriter: bool, s: Sys, e: Event)
    requires SingleFlight(s) && Enabled(s, e)
    ensures SingleFlight(Next(t, hasWriter, s, e))
  {
    hide ScreenOf, AfterRead;
  }

  lemma StepKeepsShows(t: Texts, hasWriter: bool, s: Sys, e: Event)
    requires Shows(t, s.page) && Enabled(s, e)
    ensures Shows(t, Next(t, hasWriter, s, e).page)
  {
    hide Moved, Written;
  }

  lemma ReadKeepsReads(t: Texts, p: Page, x: Export)
    requires Shows(t, p) && p.lastReport.Some? && Reads(t, x, p.lastReport.value) && CanRead(x.stage)
    ensures Reads(t, x.(stage := AfterRead(p, x.path, x.stage)), p.lastReport.value)
    ensures AfterRead(p, x.path, x.stage) != Raised
  {
  }

  /** Only a run that ends replaces the report, and then no export is under way. */
  lemma ReportStays(t: Texts, hasWriter: bool, s: Sys, e: Event)
    requires SingleFlight(s) && Enabled(s, e) && s.exports != []
    ensures Next(t, hasWriter, s, e).page.lastReport == s.page.lastReport
    ensures !Handle(t, hasWriter, s, e).1.SubmitExport?
  {
    hide ScreenOf, AfterRead, Moved, Written;
  }

  lemma MovedKeepsReads(t: Texts, s: Sys, e: Event)
    requires Inv(t, s) && Enabled(s, e)
    ensures forall x | x in Moved(s, e) :: s.page.lastReport.Some? && Reads(t, x, s.page.lastReport.value)
  {
    if e.ReadsField? {
      assert s.exports[e.i] in s.exports;
      ReadKeepsReads(t, s.page, s.exports[e.i]);
    }
    hide AfterRead, Shows, SingleFlight, ScreenOf;
    forall x | x in Moved(s, e) ensures s.page.lastReport.Some? && Reads(t, x, s.page.lastReport.value) {
      var k :| 0 <= k < |Moved(s, e)| && Moved(s, e)[k] == x;
      if e.ExportEnded? {
        assert x in s.exports;
      } else {
        assert s.exports[k] in s.exports;
      }
    }
  }

  lemma StepKeepsReads(t: Texts, hasWriter: bool, s: Sys, e: Event)
    requires Inv(t, s) && Enabled(s, e)
    ensures ReadsReport(t, Next(t, hasWriter, s, e))
  {
    MovedKeepsReads(t, s, e);
    if s.exports != [] {
      ReportStays(t, hasWriter, s, e);
      hide Moved, Handle, Reads, Shows, SingleFlight;
    } else {
      assert Moved(s, e) == [];
      hide Moved, ScreenOf, Shows, SingleFlight, OnRunDone, OnRunFailed;
    }
  }

  lemma StepKeepsInv(t: Texts, hasWriter: bool, s: Sys, e: Event)
    requires Inv(t, s) && Enabled(s, e)
    ensures Inv(t, Next(t, hasWriter, s, e))
  {
    StepKeepsSingleFlight(t, hasWriter, s, e);
    StepKeepsShows(t, hasWriter, s, e);
    StepKeepsReads(t, hasWriter, s, e);
    hide Next, SingleFlight, Shows, ReadsReport;
  }

  lemma {:induction false} RunKeepsInv(t: Texts, hasWriter: bool, es: seq<Event>)
    requires Valid(t, hasWriter, es)
    ensures Inv(t, After(t, hasWriter, es))
  {
    if es != [] {
      RunKeepsInv(t, hasWriter, es[..|es|-1]);
      StepKeepsInv(t, hasWriter, After(t, hasWriter, es[..|es|-1]), es[|es|-1]);
      hide Next, Inv;
    }
  }

  // -- main results ---------------------------------------------------------

  /** Step `k` submits an export: a click the page did not ignore. */
  ghost predicate Submits(t: Texts, hasWriter: bool, es: seq<Event>, k: nat) {
    && k < |es| && Valid(t, hasWriter, es[..k]) && Enabled(After(t, hasWriter, es[..k]), es[k])
    && Handle(t, hasWriter, After(t, hasWriter, es[..k]), es[k]).1.SubmitExport?
  }

  /** Step `k` submits the export of `path`, with `report` on the page. */
  ghost predicate RequestedAt(t: Texts, hasWriter: bool, es: seq<Event>, k: nat, path: string, report: Report) {
    && Submits(t, hasWriter, es, k)
    && Handle(t, hasWriter, After(t, hasWriter, es[..k]), es[k]).1 == SubmitExport(path)
    && After(t, hasWriter, es[..k]).page.lastReport == Some(report)
  }

  /** ... and it is the last submission before step `n`. */
  ghost predicate LastRequest(t: Texts, hasWriter: bool, es: seq<Event>, k: nat, n: nat, path: string, report: Report) {
    && k < n <= |es| && RequestedAt(t, hasWriter, es, k, path, report)
    && forall j | k < j < n :: !Submits(t, hasWriter, es, j)
  }

  /** Step `w` writes the file `f`. */
  ghost predicate WritesFile(t: Texts, hasWriter: bool, es: seq<Event>, w: nat, f: File) {
    && w < |es| && Valid(t, hasWriter, es[..w]) && Enabled(After(t, hasWriter, es[..w]), es[w]) && es[w].Writes?
    && Written(After(t, hasWriter, es[..w]), es[w]) == After(t, hasWriter, es[..w]).files + [f]
  }

  /**
    The file holds the report: as data when its name ends in .json, and otherwise as what the page shows of it, in
    HTML when the name ends in .html and in Markdown for any other.
  */
  ghost predicate Holds(t: Texts, f: File, report: Report) {
    var n := |f.path|;
    var coverage := t.coverage(report.measured, report.total);
    var screen := Screen(t.headline(report.score), coverage, CardsOf(t, report.results));
    f.content == if n >= 5 && f.path[n-5..] == ".json" then Json(f.generated, f.system, report)
                 else if n >= 5 && f.path[n-5..] == ".html" then Html(f.generated, f.system, screen)
                 else Markdown(f.generated, f.system, screen)
  }

  lemma RenderingHolds(t: Texts, f: File, report: Report)
    requires f.content == Rendering(t, f.path, f.generated, f.system, report)
    ensures Holds(t, f, report)
  {
    hide CardsOf;
  }

  /**
    What step `w` writes is the report that was on the page at the last submission before it, which
    was for this file.
  */
  ghost predicate IsSnapshot(t: Texts, hasWriter: bool, es: seq<Event>, w: nat, f: File) {
    exists k: nat, report ::
      && LastRequest(t, hasWriter, es, k, w, f.path, report)
      && Holds(t, f, report)
  }

  ghost predicate Awaited(t: Texts, hasWriter: bool, es: seq<Event>, path: string, report: Report) {
    exists k: nat :: LastRequest(t, hasWriter, es, k, |es|, path, report)
  }

  /** Each outstanding export is the last one submitted, and its report is still on the page. */
  ghost predicate ExportsAwaited(t: Texts, hasWriter: bool, es: seq<Event>)
    requires Valid(t, hasWriter, es)
  {
    var s := After(t, hasWriter, es);
    forall x | x in s.exports :: s.page.lastReport.Some? && Awaited(t, hasWriter, es, x.path, s.page.lastReport.value)
  }

  /** What happens in the first `n` steps does not depend on the later ones. */
  lemma RequestOfPrefix(t: Texts, hasWriter: bool, es: seq<Event>, n: nat, k: nat, path: string, report: Report)
    requires n <= |es| && LastRequest(t, hasWriter, es[..n], k, n, path, report)
    ensures LastRequest(t, hasWriter, es, k, n, path, report)
  {
    forall j: nat | j < n ensures Submits(t, hasWriter, es, j) == Submits(t, hasWriter, es[..n], j) {
      assert es[..n][..j] == es[..j] && es[..n][j] == es[j];
      hide After, Valid, Enabled, Handle;
    }
    assert es[..n][..k] == es[..k] && es[..n][k] == es[k];
    hide After, Valid, Enabled, Handle, Submits;
  }

  lemma PrefixIsValid(t: Texts, hasWriter: bool, es: seq<Event>, n: nat)
    requires Valid(t, hasWriter, es) && n <= |es|
    ensures Valid(t, hasWriter, es[..n])
    ensures n < |es| ==> Enabled(After(t, hasWriter, es[..n]), es[n])
    decreases |es|
  {
    if n < |es| {
      var init := es[..|es|-1];
      assert Valid(t, hasWriter, init) && Enabled(After(t, hasWriter, init), es[|es|-1]);
      hide Valid, After, Enabled;
      if n == |init| {
        assert es[..n] == init;
      } else {
        PrefixIsValid(t, hasWriter, init, n);
        assert init[..n] == es[..n] && init[n] == es[n];
      }
    } else {
      assert es[..n] == es;
    }
  }

  /** An outstanding export was outstanding before the step, which then submits none, or the step submits it. */
  lemma WhereExportsComeFrom(t: Texts, hasWriter: bool, s: Sys, e: Event, x: Export)
    requires Inv(t, s) && Enabled(s, e) && x in Next(t, hasWriter, s, e).exports
    ensures Next(t, hasWriter, s, e).page.lastReport == s.page.lastReport
    ensures || ((exists y :: y in s.exports && y.path == x.path) && !Handle(t, hasWriter, s, e).1.SubmitExport?)
            || Handle(t, hasWriter, s, e).1 == SubmitExport(x.path)
  {
    if s.exports != [] {
      ReportStays(t, hasWriter, s, e);
      assert |s.exports| == 1;
      hide Handle, Reads, Shows, SingleFlight, AfterRead;
      assert !e.ExportEnded? && |Moved(s, e)| == 1;
      assert x == Moved(s, e)[0] && s.exports[0].path == x.path;
    } else {
      assert Moved(s, e) == [];
      hide Moved, ScreenOf, Shows, Reads;
    }
  }

  /** A step that submits nothing leaves the last submission the last. */
  lemma StillAwaited(t: Texts, hasWriter: bool, es: seq<Event>, path: string, report: Report)
    requires es != [] && Awaited(t, hasWriter, es[..|es|-1], path, report) && !Submits(t, hasWriter, es, |es| - 1)
    ensures Awaited(t, hasWriter, es, path, report)
  {
    hide Submits, RequestedAt, After, Valid;
    var n := |es| - 1;
    var k: nat :| LastRequest(t, hasWriter, es[..n], k, n, path, report);
    RequestOfPrefix(t, hasWriter, es, n, k, path, report);
    assert LastRequest(t, hasWriter, es, k, |es|, path, report);
  }

  lemma NowAwaited(t: Texts, hasWriter: bool, es: seq<Event>, path: string, report: Report)
    requires es != [] && RequestedAt(t, hasWriter, es, |es| - 1, path, report)
    ensures Awaited(t, hasWriter, es, path, report)
  {
    hide Submits, RequestedAt;
    assert LastRequest(t, hasWriter, es, |es| - 1, |es|, path, report);
  }

  lemma StepKeepsAwaited(t: Texts, hasWriter: bool, es: seq<Event>, x: Export)
    requires es != [] && Valid(t, hasWriter, es) && ExportsAwaited(t, hasWriter, es[..|es|-1])
    requires Inv(t, After(t, hasWriter, es[..|es|-1])) && Inv(t, After(t, hasWriter, es))
    requires x in After(t, hasWriter, es).exports
    ensures After(t, hasWriter, es).page.lastReport.Some?
    ensures Awaited(t, hasWriter, es, x.path, After(t, hasWriter, es).page.lastReport.value)
  {
    var n := |es| - 1;
    var s, s', e := After(t, hasWriter, es[..n]), After(t, hasWriter, es), es[n];
    assert s' == Next(t, hasWriter, s, e);
    WhereExportsComeFrom(t, hasWriter, s, e, x);
    assert ReadsReport(t, s');
    hide Next, Reads, Shows, SingleFlight, After, Valid, Enabled, Handle, Awaited;
    if Submits(t, hasWriter, es, n) {
      NowAwaited(t, hasWriter, es, x.path, s'.page.lastReport.value);
    } else {
      StillAwaited(t, hasWriter, es, x.path, s'.page.lastReport.value);
    }
  }

  lemma {:induction false} RunKeepsAwaited(t: Texts, hasWriter: bool, es: seq<Event>)
    requires Valid(t, hasWriter, es)
    ensures ExportsAwaited(t, hasWriter, es)
  {
    if es != [] {
      RunKeepsAwaited(t, hasWriter, es[..|es|-1]);
      RunKeepsInv(t, hasWriter, es[..|es|-1]);
      RunKeepsInv(t, hasWriter, es);
      forall x | x in After(t, hasWriter, es).exports
        ensures After(t, hasWriter, es).page.lastReport.Some?
        ensures Awaited(t, hasWriter, es, x.path, After(t, hasWriter, es).page.lastReport.value)
      {
        StepKeepsAwaited(t, hasWriter, es, x);
      }
    }
  }

  /** Whatever a run writes, at any step, is a snapshot of its own request. */
  lemma WritesSnapshots(t: Texts, hasWriter: bool, es: seq<Event>, w: nat, f: File)
    requires Valid(t, hasWriter, es) && WritesFile(t, hasWriter, es, w, f)
    ensures IsSnapshot(t, hasWriter, es, w, f)
  {
    var before := es[..w];
    RunKeepsInv(t, hasWriter, before);
    RunKeepsAwaited(t, hasWriter, before);
    var s := After(t, hasWriter, before);
    var x := s.exports[es[w].i];
    assert x in s.exports && Reads(t, x, s.page.lastReport.value);
    assert (s.files + [f])[|s.files|] == f;
    assert f == File(x.path, x.stage.generated, x.stage.system, x.stage.content);
    var report := s.page.lastReport.value;
    var k: nat :| LastRequest(t, hasWriter, before, k, w, x.path, report);
    assert f.content == Rendering(t, f.path, f.generated, f.system, report);
    hide *;
    RenderingHolds(t, f, report);
    RequestOfPrefix(t, hasWriter, es, w, k, x.path, report);
  }

  lemma WriteHappens(t: Texts, hasWriter: bool, es: seq<Event>, w: nat) returns (f: File)
    requires Valid(t, hasWriter, es) && w < |es| && es[w].Writes?
    ensures WritesFile(t, hasWriter, es, w, f)
  {
    PrefixIsValid(t, hasWriter, es, w);
    var x := After(t, hasWriter, es[..w]).exports[es[w].i];
    f := File(x.path, x.stage.generated, x.stage.system, x.stage.content);
  }

  /** Every file was written by some step. */
  lemma {:induction false} FilesAreWritten(t: Texts, hasWriter: bool, es: seq<Event>, f: File)
    requires Valid(t, hasWriter, es) && f in After(t, hasWriter, es).files
    ensures exists w: nat :: WritesFile(t, hasWriter, es, w, f)
  {
    if es != [] {
      var n := |es| - 1;
      var init := es[..n];
      assert After(t, hasWriter, es).files == Written(After(t, hasWriter, init), es[n]);
      if f in After(t, hasWriter, init).files {
        FilesAreWritten(t, hasWriter, init, f);
        var w: nat :| WritesFile(t, hasWriter, init, w, f);
        assert init[..w] == es[..w] && init[w] == es[w];
        assert WritesFile(t, hasWriter, es, w, f);
      } else {
        assert WritesFile(t, hasWriter, es, n, f);
      }
    }
  }

  /**
    In every run: the page shows its last report and nothing else, one run or export is under way exactly while
    it is busy, and every file holds the report that was on the page at the submission of that very export.
  */
  lemma ExportsAreSnapshots(t: Texts, hasWriter: bool, es: seq<Event>)
    requires Valid(t, hasWriter, es)
    ensures var s := After(t, hasWriter, es);
            && Shows(t, s.page)
            && s.runs + |s.exports| == (if s.page.busyText != "" then 1 else 0)
            && forall f | f in s.files ::
                 exists w: nat :: WritesFile(t, hasWriter, es, w, f) && IsSnapshot(t, hasWriter, es, w, f)
    ensures forall w: nat | w < |es| && es[w].Writes? ::
              exists f :: WritesFile(t, hasWriter, es, w, f) && IsSnapshot(t, hasWriter, es, w, f)
  {
    RunKeepsInv(t, hasWriter, es);
    hide Shows, After, Valid, IsSnapshot, WritesFile;
    forall w: nat | w < |es| && es[w].Writes?
      ensures exists f :: WritesFile(t, hasWriter, es, w, f) && IsSnapshot(t, hasWriter, es, w, f)
    {
      var f := WriteHappens(t, hasWriter, es, w);
      WritesSnapshots(t, hasWriter, es, w, f);
    }
    forall f | f in After(t, hasWriter, es).files
      ensures exists w: nat :: WritesFile(t, hasWriter, es, w, f) && IsSnapshot(t, hasWriter, es, w, f)
    {
      FilesAreWritten(t, hasWriter, es, f);
      var w: nat :| WritesFile(t, hasWriter, es, w, f);
      WritesSnapshots(t, hasWriter, es, w, f);
    }
  }

  /** The coroutine's own assertion never fires and it never reads a missing report: only Fails ends an export badly. */
  lemma ReadsNeverFail(t: Texts, hasWriter: bool, es: seq<Event>, e: Event)
    requires Valid(t, hasWriter, es) && Enabled(After(t, hasWriter, es), e) && (e.GetsContext? || e.ReadsField?)
    ensures !Moved(After(t, hasWriter, es), e)[e.i].stage.Raised?
  {
    RunKeepsInv(t, hasWriter, es);
    var s := After(t, hasWriter, es);
    assert s.exports[e.i] in s.exports;
    if e.ReadsField? { ReadKeepsReads(t, s.page, s.exports[e.i]); }
    hide AfterRead, Shows, SingleFlight, After, Valid, Reads;
  }
}
