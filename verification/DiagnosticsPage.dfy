/**
  The diagnostics page's view-model: run every check, show the report, export
  it.  Every handler runs on the GTK main thread; what it asks of the scheduler
  is its `Effect`.
*/
module DiagnosticsPage {
  import opened Common
  import opened Pages
  import opened Checks
  import opened DiagnosticsRun

  /** The translated texts, whatever they are. */
  datatype Texts = Texts(
    title: CheckId -> string,
    status: Status -> string,
    skip: SkipCode -> string,
    confidence: Confidence -> string,
    metricLabel: MetricKey -> string,
    metricValue: Metric -> string,
    headline: Option<nat> -> string,
    coverage: (nat, nat) -> string)

  /** Finalized display data for one check. */
  datatype CheckCard = CheckCard(
    check: CheckId, title: string, statusText: string, statusCss: string, subtitle: string,
    evidence: seq<(string, string)>)

  datatype Toast = NoToast | ReportExported | ExportFailed

  datatype Effect = Quiet | SubmitRun | SubmitExport(path: string)

  datatype Page = Page(
    state: PageState,
    busyText: string,
    scoreText: string,
    coverageText: string,
    toast: Toast,
    lastReport: Option<Report>,
    cards: seq<CheckCard>)

  const RUNNING_TEXT := "Running diagnostics"
  const EXPORTING_TEXT := "Exporting report"

  // -- rendering a report ---------------------------------------------------

  function StatusCss(s: Status): string {
    match s case Fine => "success" case Warning => "warning" case Critical => "error" case Skipped => "dim-label"
  }

  /** An unknown skip code reads as an unavailable source. */
  function SkipText(t: Texts, code: SkipCode): string {
    if code == NotSkipped then t.skip(SourceUnavailable) else t.skip(code)
  }

  function Evidence(t: Texts, metrics: seq<Metric>): seq<(string, string)> {
    seq(|metrics|, i requires 0 <= i < |metrics| => (t.metricLabel(metrics[i].key), t.metricValue(metrics[i])))
  }

  function CardOf(t: Texts, r: DiagnosticResult): CheckCard {
    CheckCard(r.check, t.title(r.check), t.status(r.status), StatusCss(r.status),
              if r.status == Skipped then SkipText(t, r.skip) else t.confidence(r.confidence),
              Evidence(t, r.metrics))
  }

  function CardsOf(t: Texts, results: seq<DiagnosticResult>): seq<CheckCard> {
    seq(|results|, i requires 0 <= i < |results| => CardOf(t, results[i]))
  }

  /** result_cards() */
  method ResultCards(t: Texts, report: Report) returns (cards: seq<CheckCard>)
    ensures cards == CardsOf(t, report.results)
  {
    cards := [];
    for i := 0 to |report.results|
      invariant |cards| == i && forall k | 0 <= k < i :: cards[k] == CardOf(t, report.results[k])
    {
      var r := report.results[i];
      var subtitle;
      if r.status == Skipped {
        subtitle := SkipText(t, r.skip);
      } else {
        subtitle := t.confidence(r.confidence);
      }
      cards := cards + [CheckCard(r.check, t.title(r.check), t.status(r.status), StatusCss(r.status), subtitle,
          Evidence(t, r.metrics))];
    }
  }

  /** What of a report the page shows. */
  datatype Screen = Screen(scoreText: string, coverageText: string, cards: seq<CheckCard>)

  function ScreenOf(t: Texts, report: Report): Screen {
    Screen(t.headline(report.score), t.coverage(report.measured, report.total), CardsOf(t, report.results))
  }

  // -- handlers -------------------------------------------------------------

  function OnLoad(p: Page): (Page, Effect) { (p.(state := Ready), Quiet) }

  function OnRun(p: Page): (Page, Effect) {
    if p.busyText != "" then (p, Quiet) else (p.(busyText := RUNNING_TEXT), SubmitRun)
  }

  function OnRunDone(t: Texts, p: Page, report: Report): (Page, Effect) {
    var screen := ScreenOf(t, report);
    (p.(state := Ready, busyText := "", lastReport := Some(report),
        scoreText := screen.scoreText, coverageText := screen.coverageText, cards := screen.cards), Quiet)
  }

  function OnRunFailed(p: Page, e: Exc): (Page, Effect) { (p.(busyText := "", state := ErrorState(e)), Quiet) }

  predicate CanExport(p: Page, hasWriter: bool) { hasWriter && p.lastReport.Some? }

  function OnExport(p: Page, hasWriter: bool, path: string): (Page, Effect) {
    if !CanExport(p, hasWriter) || p.busyText != "" then (p, Quiet)
    else (p.(busyText := EXPORTING_TEXT), SubmitExport(path))
  }

  function OnExportDone(p: Page): (Page, Effect) { (p.(busyText := "", toast := ReportExported), Quiet) }

  function OnExportFailed(p: Page): (Page, Effect) { (p.(busyText := "", toast := ExportFailed), Quiet) }

  function NewPage(): Page { Page(Loading, "", "", "", NoToast, None, []) }

  /** The page shows its last report and nothing else. */
  ghost predicate Shows(t: Texts, p: Page) {
    Screen(p.scoreText, p.coverageText, p.cards) == if p.lastReport.Some? then ScreenOf(t, p.lastReport.value)
        else Screen("", "", [])
  }

  class DiagnosticsViewModel {
    const texts: Texts
    const hasWriter: bool
    var state: PageState
    var busyText: string
    var scoreText: string
    var coverageText: string
    var toast: Toast
    var lastReport: Option<Report>
    var cards: seq<CheckCard>

    function View(): Page
      reads this
    {
      Page(state, busyText, scoreText, coverageText, toast, lastReport, cards)
    }

    constructor (texts: Texts, hasWriter: bool)
      ensures View() == NewPage() && this.texts == texts && this.hasWriter == hasWriter
    {
      this.texts, this.hasWriter := texts, hasWriter;
      state, busyText, scoreText, coverageText, toast, lastReport, cards := Loading, "", "", "", NoToast, None, [];
    }

    method Load() returns (effect: Effect)
      modifies this
      ensures (View(), effect) == OnLoad(old(View()))
    {
      state := Ready;
      effect := Quiet;
    }

    method Run() returns (effect: Effect)
      modifies this
      ensures (View(), effect) == OnRun(old(View()))
    {
      if busyText != "" { return Quiet; }
      busyText := RUNNING_TEXT;
      effect := SubmitRun;
    }

    method RunDone(report: Report) returns (effect: Effect)
      modifies this
      ensures (View(), effect) == OnRunDone(texts, old(View()), report)
    {
      busyText := "";
      lastReport := Some(report);
      cards := ResultCards(texts, report);
      scoreText := texts.headline(report.score);
      coverageText := texts.coverage(report.measured, report.total);
      state := Ready;
      effect := Quiet;
    }

    method RunFailed(e: Exc) returns (effect: Effect)
      modifies this
      ensures (View(), effect) == OnRunFailed(old(View()), e)
    {
      busyText := "";
      state := ErrorState(e);
      effect := Quiet;
    }

    method Export(path: string) returns (effect: Effect)
      modifies this
      ensures (View(), effect) == OnExport(old(View()), hasWriter, path)
    {
      if !hasWriter || lastReport.None? || busyText != "" { return Quiet; }
      busyText := EXPORTING_TEXT;
      effect := SubmitExport(path);
    }

    method ExportDone() returns (effect: Effect)
      modifies this
      ensures (View(), effect) == OnExportDone(old(View()))
    {
      busyText := "";
      toast := ReportExported;
      effect := Quiet;
    }

    method ExportHasFailed() returns (effect: Effect)
      modifies this
      ensures (View(), effect) == OnExportFailed(old(View()))
    {
      busyText := "";
      toast := ExportFailed;
      effect := Quiet;
    }
  }

  // -- what a finished run puts on the page ---------------------------------

  /** The card of a result: its texts, the class of its status, and its evidence pair by pair. */
  ghost predicate ShowsResult(t: Texts, card: CheckCard, r: DiagnosticResult) {
    && card.check == r.check && card.title == t.title(r.check) && card.statusText == t.status(r.status)
    && (r.status == Fine ==> card.statusCss == "success")
    && (r.status == Warning ==> card.statusCss == "warning")
    && (r.status == Critical ==> card.statusCss == "error")
    && (r.status == Skipped ==> card.statusCss == "dim-label" && card.subtitle == t.skip(r.skip) && card.evidence == [])
    && (r.status != Skipped ==> card.subtitle == t.confidence(r.confidence))
    && |card.evidence| == |r.metrics|
    && forall k | 0 <= k < |r.metrics| ::
         card.evidence[k] == (t.metricLabel(r.metrics[k].key), t.metricValue(r.metrics[k]))
  }

  lemma CardShowsResult(t: Texts, r: DiagnosticResult)
    requires WellFormed(r)
    ensures ShowsResult(t, CardOf(t, r), r)
  {
  }

  /**
    A finished run over any sources frees the page and shows its score, its coverage and one card per check, in
    CHECK_IDS order, each with its result.
  */
  lemma RunShowsEveryCheck(t: Texts, s: Sources, report: Report, p: Page)
    requires report.results == Results(s)
    ensures var (q, effect) := OnRunDone(t, p, report);
            && effect == Quiet && q.state == Ready && q.busyText == "" && q.toast == p.toast
            && q.lastReport == Some(report)
            && q.scoreText == t.headline(report.score) && q.coverageText == t.coverage(report.measured, report.total)
            && |q.cards| == 5
            && forall i | 0 <= i < 5 ::
                 q.cards[i].check == CHECK_IDS[i] && ShowsResult(t, q.cards[i], report.results[i])
  {
    ResultsInOrder(s);
    hide Results, WellFormed, CardOf;
    var cards := OnRunDone(t, p, report).0.cards;
    forall i | 0 <= i < 5 ensures cards[i].check == CHECK_IDS[i] && ShowsResult(t, cards[i], report.results[i]) {
      CardShowsResult(t, report.results[i]);
    }
  }

  /** A failed run is an error of the page, an unavailable source makes it unavailable; a failed export is only told. */
  lemma EndingsAreTold(p: Page, e: Exc)
    ensures OnRunFailed(p, e)
         == (p.(busyText := "", state := if e == Exc.ProviderUnavailable then Unavailable else Error), Quiet)
    ensures OnExportDone(p).0.toast == ReportExported && OnExportFailed(p).0.toast == ExportFailed
    ensures OnExportDone(p).0.(toast := p.toast) == OnExportFailed(p).0.(toast := p.toast) == p.(busyText := "")
  {
  }
}
