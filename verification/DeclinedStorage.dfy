/** The whole error chain: from what pkexec did on each read to the skip code on the diagnostics page. */
module DeclinedStorage {
  import opened Common
  import C = Checks
  import D = DiagnosticsRun
  import V = DiagnosticsVerdicts
  import J = SmartJson
  import opened SmartHelper

  /** The part of a SMART report the storage check reads. */
  function ReadByCheck(r: J.SmartReport): C.DriveReport {
    C.DriveReport(r.deviceName, r.passed, r.pendingSectors, r.percentageUsed)
  }

  /** The provider's errors as run() tells them apart. */
  function AsError(e: ReadError): D.Error {
    match e
    case Denied => D.PrivilegedActionDenied
    case Unavailable(_) => D.ProviderUnavailable
    case _ => D.OtherLapcareError
  }

  function Answer(device: string, run: Run): Result<C.DriveReport, D.Error> {
    match ReadSmart(device, run)
    case Ok(report) => Ok(ReadByCheck(report))
    case Err(e) => Err(AsError(e))
  }

  /** A storage source whose reads run pkexec; list_devices itself never prompts. */
  function Source(listed: Result<seq<string>, D.Error>, runs: string -> Run): D.Storage {
    D.Storage(listed, (device: string) => Answer(device, runs(device)))
  }

  /** The reads come to the first failure's error. */
  lemma ReadsComeTo(names: seq<string>, runs: string -> Run, i: nat)
    requires D.FirstToFail(names, Source(Ok(names), runs).read, i)
    ensures D.ReadAll(names, Source(Ok(names), runs).read) == Err(Answer(names[i], runs(names[i])).error)
  {
    hide Answer, D.ReadAll;
    D.ReadAllExactly(names, Source(Ok(names), runs).read, Answer(names[i], runs(names[i])).error);
  }

  lemma DeclinedAnswer(device: string, run: Run)
    ensures Answer(device, run) == Err(D.PrivilegedActionDenied) <==> PkexecRefused(run)
  {
    DeclinedExactly(device, run);
    hide ReadSmart;
  }

  /** Storage health is skipped as declined exactly when the first read that fails is one pkexec refused. */
  lemma SkippedAsDeclinedExactly(s: D.Sources, names: seq<string>, runs: string -> Run)
    requires s.includeStorage && s.storage == Some(Source(Ok(names), runs))
    ensures D.Results(s)[1].skip == C.Declined
       <==> exists i :: D.FirstToFail(names, s.storage.value.read, i) && PkexecRefused(runs(names[i]))
  {
    D.StorageSkipExactly(s);
    forall i | D.FirstToFail(names, s.storage.value.read, i)
      ensures s.storage.value.read(names[i]) == Err(D.PrivilegedActionDenied) <==> PkexecRefused(runs(names[i]))
    {
      DeclinedAnswer(names[i], runs(names[i]));
    }
    hide D.Results, Answer, PkexecRefused, D.FirstToFail;
  }

  // -- the verdict in the documents -----------------------------------------

  /** pkexec ran to its end and left a JSON object of a size the runner takes. */
  ghost predicate Answers(run: Run) {
    && run.Ended? && run.exit.rc == 0 && run.exit.stdout.size <= 8388608
    && run.exit.stdout.json.Some? && run.exit.stdout.json.value.Obj?
  }

  /** The document says that the drive fails. */
  ghost predicate SaysFailing(doc: J.Json) { J.Leads(doc, ["smart_status", "passed"], J.Bool(false)) }

  /** It holds a raw value of attribute 197, pending sectors, other than 0, or at least 80% of the endurance is used. */
  ghost predicate SaysWorn(doc: J.Json) {
    || (exists n :: n != 0 && J.TableHolds(doc, 197, n))
    || (exists n :: n >= 80 && J.LeadsTo(doc, ["nvme_smart_health_information_log", "percentage_used"], n))
  }

  /** It says neither that the drive passes nor that it fails. */
  ghost predicate SaysNothing(doc: J.Json) {
    forall b :: !J.Leads(doc, ["smart_status", "passed"], J.Bool(b))
  }

  lemma DocumentInFields(name: string, doc: J.Json)
    ensures var d := ReadByCheck(J.Report(name, doc));
            && (d.passed == Some(false) <==> SaysFailing(doc))
            && (d.passed.None? <==> SaysNothing(doc))
            && (C.Clean(d) <==> !SaysFailing(doc) && !SaysWorn(doc))
  {
    var r := J.Report(name, doc);
    J.PassedIsExact(name, doc, false);
    J.PassedIsExact(name, doc, true);
    if r.pendingSectors.Some? { J.ReportIsExact(name, doc, r.pendingSectors.value); }
    if r.percentageUsed.Some? { J.ReportIsExact(name, doc, r.percentageUsed.value); }
    if n :| n != 0 && J.TableHolds(doc, 197, n) { J.ReportIsExact(name, doc, n); }
    if n :| n >= 80 && J.LeadsTo(doc, ["nvme_smart_health_information_log", "percentage_used"], n) {
      J.ReportIsExact(name, doc, n);
    }
    hide J.Report, J.Leads, J.LeadsTo, J.TableHolds;
  }

  lemma ReadIsDocument(name: string, run: Run)
    requires Answers(run)
    ensures Answer(name, run) == Ok(ReadByCheck(J.Report(name, run.exit.stdout.json.value)))
  {
    RunTellsError(name, run);
    hide ReadSmart, J.Report;
  }

  ghost function Doc(run: Run): J.Json
    requires Answers(run)
  {
    run.exit.stdout.json.value
  }

  /** A report reads as its document says. */
  ghost predicate Matches(d: C.DriveReport, run: Run) {
    && Answers(run)
    && (d.passed == Some(false) <==> SaysFailing(Doc(run)))
    && (d.passed.None? <==> SaysNothing(Doc(run)))
    && (C.Clean(d) <==> !SaysFailing(Doc(run)) && !SaysWorn(Doc(run)))
  }

  ghost predicate AllMatch(names: seq<string>, reports: seq<C.DriveReport>, runs: string -> Run) {
    |reports| == |names| && forall i | 0 <= i < |names| :: Matches(reports[i], runs(names[i]))
  }

  lemma ReportsMatch(names: seq<string>, runs: string -> Run, read: D.Read)
    requires forall name | name in names :: Answers(runs(name)) && read(name) == Answer(name, runs(name))
    ensures V.AllRead(names, read) && AllMatch(names, V.ReportsOf(names, read), runs)
  {
    forall name | name in names ensures read(name).Ok? && Matches(read(name).value, runs(name)) {
      ReadIsDocument(name, runs(name));
      DocumentInFields(name, Doc(runs(name)));
      hide Answer, ReadByCheck, SaysFailing, SaysWorn, SaysNothing, C.Clean, J.Report;
    }
    hide Answer, Matches, Answers;
  }

  /** What holds of some report, or of all, holds of some document, or of all. */
  lemma FailingMatch(names: seq<string>, reports: seq<C.DriveReport>, runs: string -> Run)
    requires AllMatch(names, reports, runs) && forall name | name in names :: Answers(runs(name))
    ensures (exists d :: d in reports && d.passed == Some(false)) <==>
            exists name :: name in names && SaysFailing(Doc(runs(name)))
    ensures (exists d :: d in reports && d.passed.None?) <==>
            exists name :: name in names && SaysNothing(Doc(runs(name)))
  {
    forall i | 0 <= i < |names| ensures Matches(reports[i], runs(names[i])) && names[i] in names {
    }
    hide SaysFailing, SaysWorn, SaysNothing, C.Clean, Answers, Doc;
  }

  lemma CleanMatch(names: seq<string>, reports: seq<C.DriveReport>, runs: string -> Run)
    requires AllMatch(names, reports, runs) && forall name | name in names :: Answers(runs(name))
    ensures (forall d | d in reports :: C.Clean(d)) <==>
            forall name | name in names :: !SaysFailing(Doc(runs(name))) && !SaysWorn(Doc(runs(name)))
  {
    forall i | 0 <= i < |names| ensures Matches(reports[i], runs(names[i])) && names[i] in names {
    }
    hide SaysFailing, SaysWorn, SaysNothing, C.Clean, Answers, Doc;
  }

  lemma FindingsOfSome(r: C.DiagnosticResult, reports: seq<C.DriveReport>)
    requires C.StorageFindings(r, reports) && reports != []
    ensures r.skip == C.NotSkipped && r.status != C.Skipped
    ensures r.status == C.Critical <==> exists d :: d in reports && d.passed == Some(false)
    ensures r.status == C.Fine <==> forall d | d in reports :: C.Clean(d)
    ensures r.confidence == if exists d :: d in reports && d.passed.None? then C.Medium else C.High
  {
    hide C.Clean, C.StorageNames;
  }

  /**
    A requested run over drives whose documents all arrive: critical exactly when one says its drive fails, clean
    exactly when none says that or shows wear, a warning otherwise; and surer when every drive gives a verdict.
  */
  lemma VerdictFromDocuments(s: D.Sources, names: seq<string>, runs: string -> Run)
    requires s.includeStorage && s.storage == Some(Source(Ok(names), runs)) && names != []
    requires forall name | name in names :: Answers(runs(name))
    ensures var r := D.Results(s)[1];
            && r.skip == C.NotSkipped && r.status != C.Skipped
            && (r.status == C.Critical <==> exists name :: name in names && SaysFailing(Doc(runs(name))))
            && (r.status == C.Fine <==>
                  forall name | name in names :: !SaysFailing(Doc(runs(name))) && !SaysWorn(Doc(runs(name))))
            && (r.confidence == C.High <==> forall name | name in names :: !SaysNothing(Doc(runs(name))))
            && (r.confidence == C.Medium <==> exists name :: name in names && SaysNothing(Doc(runs(name))))
  {
    var read := s.storage.value.read;
    ReportsMatch(names, runs, read);
    var reports := V.ReportsOf(names, read);
    V.StorageIsReported(s, names);
    FindingsOfSome(D.Results(s)[1], reports);
    FailingMatch(names, reports, runs);
    CleanMatch(names, reports, runs);
    hide *;
  }
}
