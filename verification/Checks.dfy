/**
  The diagnostic checks: loops that fold readings into a verdict and its
  evidence, proved equal to verdicts that do not depend on the readings' order.
*/
module Checks {
  import opened Common
  import opened BatteryAnalysis

  datatype CheckId = BatteryWear | StorageHealth | FirmwareCurrency | Thermal | DiskSpace

  datatype Status = Fine | Warning | Critical | Skipped

  datatype Confidence = High | Medium | Low

  datatype SkipCode = NotSkipped | NoData | SourceUnavailable | Declined | NotRequested

  datatype MetricKey =
    | WearPct | BatteryCount | FailingDevice | PendingSectors | EnduranceUsedPct | DeviceCount | PendingUpdates
    | MaxTempC | MaxTempSource | SensorCount | MinFreePct | MinFreeMount | CriticalMount | LowMount

  /** A metric's value before formatting. */
  datatype MetricValue = Count(n: int) | Measure(x: real) | Name(name: string)

  datatype Metric = Metric(key: MetricKey, value: MetricValue)

  datatype DiagnosticResult = DiagnosticResult(
    check: CheckId, status: Status, confidence: Confidence, metrics: seq<Metric>, skip: SkipCode)

  function SkippedResult(check: CheckId, code: SkipCode): DiagnosticResult {
    DiagnosticResult(check, Skipped, Low, [], code)
  }

  /** How bad a measured status is. */
  function Severity(s: Status): nat {
    match s case Critical => 2 case Warning => 1 case _ => 0
  }

  lemma SameMembers<T>(a: seq<T>, b: seq<T>)
    requires multiset(a) == multiset(b)
    ensures |a| == |b| && forall x | x in a :: x in b
  {
    assert |multiset(a)| == |multiset(b)|;
    forall x | x in a ensures x in b { assert x in multiset(b); }
  }

  // -- battery wear ---------------------------------------------------------

  function WearOf(b: Battery): Option<real> { WearPercent(b.full, b.design) }

  predicate Worse(a: Option<real>, b: Option<real>) { a.Some? && (b.None? || a.value > b.value) }

  /** The greatest known wear. */
  function WorstWear(wears: seq<Battery>): Option<real> {
    if wears == [] then None
    else
      var before, last := WorstWear(wears[..|wears|-1]), WearOf(wears[|wears|-1]);
      if Worse(last, before) then last else before
  }

  function WearStatus(health: HealthClass): Status {
    match health case Good => Fine case Fair => Warning case Poor => Critical case UnknownHealth => Skipped
  }

  function BatteryResult(wears: Option<seq<Battery>>): DiagnosticResult {
    if wears.None? then SkippedResult(BatteryWear, SourceUnavailable)
    else if WorstWear(wears.value).None? then SkippedResult(BatteryWear, NoData)
    else
      DiagnosticResult(BatteryWear, WearStatus(ClassifyWear(WorstWear(wears.value))), High,
                       [Metric(WearPct, Measure(WorstWear(wears.value).value)),
                        Metric(BatteryCount, Count(|wears.value|))],
                       NotSkipped)
  }

  method CheckBatteryWear(wears: Option<seq<Battery>>) returns (r: DiagnosticResult)
    ensures r == BatteryResult(wears)
  {
    if wears.None? { return SkippedResult(BatteryWear, SourceUnavailable); }
    var batteries := wears.value;
    if batteries == [] { return SkippedResult(BatteryWear, NoData); }
    var worst: Option<real> := None;
    for i := 0 to |batteries|
      invariant worst == WorstWear(batteries[..i])
    {
      assert batteries[..i+1][..i] == batteries[..i];
      var wear := WearPercent(batteries[i].full, batteries[i].design);
      if wear.Some? && (worst.None? || wear.value > worst.value) { worst := wear; }
    }
    assert batteries[..|batteries|] == batteries;
    if worst.None? { return SkippedResult(BatteryWear, NoData); }
    r := DiagnosticResult(BatteryWear, WearStatus(ClassifyWear(worst)), High,
                          [Metric(WearPct, Measure(worst.value)), Metric(BatteryCount, Count(|batteries|))],
                          NotSkipped);
  }

  lemma {:induction false} WorstWearIsMaximum(wears: seq<Battery>)
    ensures WorstWear(wears).None? <==> forall b | b in wears :: WearOf(b).None?
    ensures WorstWear(wears).Some? ==>
              && (exists b :: b in wears && WearOf(b) == WorstWear(wears))
              && forall b | b in wears && WearOf(b).Some? :: WearOf(b).value <= WorstWear(wears).value
  {
    if wears != [] {
      var init, last := wears[..|wears|-1], wears[|wears|-1];
      WorstWearIsMaximum(init);
      assert forall b :: b in wears <==> b in init || b == last;
      if WorstWear(init).Some? {
        var b :| b in init && WearOf(b) == WorstWear(init);
        assert b in wears;
      }
    }
  }

  /** Both capacities were read, and there is a design capacity to compare with. */
  ghost predicate Readable(b: Battery) { b.full.Some? && b.design.Some? && b.design.value > 0 }

  /** Down to `pct` percent of the design capacity or less. */
  ghost predicate DownTo(b: Battery, pct: int) { Readable(b) && 100 * b.full.value <= pct * b.design.value }

  /** `w` is the greatest wear of the readable batteries, in percent of design: 0 for one above its design. */
  ghost predicate GreatestWear(w: real, bs: seq<Battery>) {
    && w >= 0.0
    && (forall b | b in bs && Readable(b) ::
          w * b.design.value as real >= 100.0 * (b.design.value - b.full.value) as real)
    && (w == 0.0 || exists b :: b in bs && Readable(b) &&
                                w * b.design.value as real == 100.0 * (b.design.value - b.full.value) as real)
  }

  /** The battery check in the capacities: critical at 70% of design or less, a warning at 85% or less. */
  ghost predicate BatteryFindings(r: DiagnosticResult, bs: seq<Battery>) {
    && r.check == BatteryWear
    && (r.status == Critical <==> exists b :: b in bs && DownTo(b, 70))
    && (r.status == Warning <==> (exists b :: b in bs && DownTo(b, 85)) && forall b | b in bs :: !DownTo(b, 70))
    && (r.status == Skipped <==> forall b | b in bs :: !Readable(b))
    && (r.status == Skipped ==> r.skip == NoData && r.metrics == [])
    && (r.status != Skipped ==>
          && r.skip == NotSkipped && r.confidence == High
          && exists w :: GreatestWear(w, bs) &&
                         r.metrics == [Metric(WearPct, Measure(w)), Metric(BatteryCount, Count(|bs|))])
  }

  /** One battery's class and wear in its capacities. */
  lemma BatteryInCapacities(b: Battery)
    ensures WearOf(b).Some? <==> Readable(b)
    ensures ClassifyWear(WearOf(b)) == UnknownHealth <==> !Readable(b)
    ensures ClassifyWear(WearOf(b)) == Poor <==> DownTo(b, 70)
    ensures ClassifyWear(WearOf(b)) == Good <==> Readable(b) && !DownTo(b, 85)
    ensures Readable(b) ==>
              WearOf(b).value * b.design.value as real ==
              if b.full.value < b.design.value then 100.0 * (b.design.value - b.full.value) as real else 0.0
  {
    if Readable(b) {
      ClassesByCapacity(b.full.value, b.design.value);
      WearByCapacity(b.full.value, b.design.value);
    }
    hide ClassifyWear;
  }

  /** A wear at least that of every readable battery, and equal to that of one, is the greatest wear. */
  lemma {:induction false} GreatestIsGreatest(w: real, bs: seq<Battery>, worst: Battery)
    requires worst in bs && WearOf(worst) == Some(w)
    requires forall b | b in bs && WearOf(b).Some? :: WearOf(b).value <= w
    ensures GreatestWear(w, bs)
  {
    forall b | b in bs && Readable(b)
      ensures w * b.design.value as real >= 100.0 * (b.design.value - b.full.value) as real
    {
      BatteryInCapacities(b);
      ScaledOrder(w, WearOf(b).value, b.design.value as real);
    }
    BatteryInCapacities(worst);
    ScaledOrder(0.0, w, worst.design.value as real);
  }

  /** The battery verdict read off the batteries: the worst class any of them is in, and the greatest wear. */
  lemma {:induction false} BatteryVerdict(bs: seq<Battery>)
    ensures BatteryFindings(BatteryResult(Some(bs)), bs)
  {
    WorstWearIsMaximum(bs);
    forall b ensures WearOf(b).Some? <==> Readable(b) { BatteryInCapacities(b); }
    var worst := WorstWear(bs);
    if worst.Some? {
      var b :| b in bs && WearOf(b) == worst;
      GreatestIsGreatest(worst.value, bs, b);
      BatteryStatusOf(bs, b);
    }
    hide WearOf, GreatestWear, WorstWear, ClassifyWear;
  }

  /** The class of the most worn battery decides for all of them. */
  lemma {:induction false} BatteryStatusOf(bs: seq<Battery>, worst: Battery)
    requires worst in bs && WearOf(worst).Some?
    requires forall b | b in bs && WearOf(b).Some? :: WearOf(b).value <= WearOf(worst).value
    ensures var s := WearStatus(ClassifyWear(WearOf(worst)));
            && s != Skipped
            && (s == Critical <==> exists b :: b in bs && DownTo(b, 70))
            && (s == Warning <==> (exists b :: b in bs && DownTo(b, 85)) && forall b | b in bs :: !DownTo(b, 70))
  {
    forall b ensures (ClassifyWear(WearOf(b)) == Poor <==> DownTo(b, 70)) &&
                     (ClassifyWear(WearOf(b)) == Good <==> Readable(b) && !DownTo(b, 85)) &&
                     (WearOf(b).Some? <==> Readable(b))
    {
      BatteryInCapacities(b);
    }
    hide WearOf;
  }

  lemma BatteryOrderFree(a: seq<Battery>, b: seq<Battery>)
    requires multiset(a) == multiset(b)
    ensures BatteryResult(Some(a)) == BatteryResult(Some(b))
  {
    SameMembers(a, b);
    SameMembers(b, a);
    WorstWearIsMaximum(a);
    WorstWearIsMaximum(b);
  }

  /** Another battery never improves the verdict. */
  lemma BatteryNeverImproves(wears: seq<Battery>, b: Battery)
    requires BatteryResult(Some(wears)).status != Skipped
    ensures Severity(BatteryResult(Some(wears + [b])).status) >= Severity(BatteryResult(Some(wears)).status)
    ensures BatteryResult(Some(wears + [b])).status != Skipped
  {
    assert (wears + [b])[..|wears|] == wears;
  }

  // -- storage health -------------------------------------------------------

  datatype DriveReport = DriveReport(
    name: string, passed: Option<bool>, pendingSectors: Option<int>, percentageUsed: Option<int>)

  const ENDURANCE_WARN_PCT := 80

  predicate Failing(r: DriveReport) { r.passed == Some(false) }

  /** Any non-zero pending count, as the source tests it. */
  predicate HasPending(r: DriveReport) { r.pendingSectors.Some? && r.pendingSectors.value != 0 }

  predicate WornOut(r: DriveReport) { r.percentageUsed.Some? && r.percentageUsed.value >= ENDURANCE_WARN_PCT }

  /** One drive's own verdict. */
  function DriveStatus(r: DriveReport): Status {
    if Failing(r) then Critical else if HasPending(r) || WornOut(r) then Warning else Fine
  }

  /** The worst verdict of any drive. */
  function WorstDrive(rs: seq<DriveReport>): Status {
    if exists r | r in rs :: DriveStatus(r) == Critical then Critical
    else if exists r | r in rs :: DriveStatus(r) == Warning then Warning
    else Fine
  }

  /** What a drive adds to the evidence when the drives before it came to `status`. */
  function DriveEvidence(status: Status, r: DriveReport): seq<Metric> {
    if Failing(r) then [Metric(FailingDevice, Name(r.name))]
    else if status != Fine then []
    else if HasPending(r) then [Metric(PendingSectors, Count(r.pendingSectors.value))]
    else if WornOut(r) then [Metric(EnduranceUsedPct, Count(r.percentageUsed.value))]
    else []
  }

  function StorageEvidence(rs: seq<DriveReport>): seq<Metric> {
    if rs == [] then []
    else StorageEvidence(rs[..|rs|-1]) + DriveEvidence(WorstDrive(rs[..|rs|-1]), rs[|rs|-1])
  }

  function StorageConfidence(rs: seq<DriveReport>): Confidence {
    if exists r | r in rs :: r.passed.None? then Medium else High
  }

  function StorageResult(reports: Option<seq<DriveReport>>, code: SkipCode): DiagnosticResult {
    if reports.None? then SkippedResult(StorageHealth, code)
    else if reports.value == [] then SkippedResult(StorageHealth, NoData)
    else DiagnosticResult(StorageHealth, WorstDrive(reports.value), StorageConfidence(reports.value),
                          StorageEvidence(reports.value) + [Metric(DeviceCount, Count(|reports.value|))], NotSkipped)
  }

  method CheckStorageHealth(reports: Option<seq<DriveReport>>, code: SkipCode) returns (r: DiagnosticResult)
    ensures r == StorageResult(reports, code)
  {
    if reports.None? { return SkippedResult(StorageHealth, code); }
    var rs := reports.value;
    if rs == [] { return SkippedResult(StorageHealth, NoData); }
    var metrics: seq<Metric> := [];
    var status, confidence := Fine, High;
    for i := 0 to |rs|
      invariant status == WorstDrive(rs[..i]) && confidence == StorageConfidence(rs[..i])
      invariant metrics == StorageEvidence(rs[..i])
    {
      var report := rs[i];
      StorageStep(rs, i);
      hide WorstDrive, StorageEvidence, StorageConfidence;
      if report.passed == Some(false) {
        status := Critical;
        metrics := metrics + [Metric(FailingDevice, Name(report.name))];
      } else if report.passed.None? {
        confidence := Medium;
      }
      if report.pendingSectors.Some? && report.pendingSectors.value != 0 && status == Fine {
        status := Warning;
        metrics := metrics + [Metric(PendingSectors, Count(report.pendingSectors.value))];
      }
      if report.percentageUsed.Some? && report.percentageUsed.value >= ENDURANCE_WARN_PCT && status == Fine {
        status := Warning;
        metrics := metrics + [Metric(EnduranceUsedPct, Count(report.percentageUsed.value))];
      }
    }
    assert rs[..|rs|] == rs;
    metrics := metrics + [Metric(DeviceCount, Count(|rs|))];
    r := DiagnosticResult(StorageHealth, status, confidence, metrics, NotSkipped);
  }

  function Worst(a: Status, b: Status): Status { if Severity(b) > Severity(a) then b else a }

  /** What one round of the loop must do to status, confidence and evidence. */
  lemma StorageStep(rs: seq<DriveReport>, i: nat)
    requires i < |rs|
    ensures var before, after, r := rs[..i], rs[..i+1], rs[i];
            && WorstDrive(after) == Worst(WorstDrive(before), DriveStatus(r))
            && StorageConfidence(after) == (if r.passed.None? then Medium else StorageConfidence(before))
            && StorageEvidence(after) == StorageEvidence(before) + DriveEvidence(WorstDrive(before), r)
  {
    assert rs[..i+1] == rs[..i] + [rs[i]] && rs[..i+1][..i] == rs[..i];
    OneMoreDrive(rs[..i], rs[i]);
    hide WorstDrive, StorageConfidence, DriveEvidence;
  }

  lemma OneMoreDrive(rs: seq<DriveReport>, r: DriveReport)
    ensures WorstDrive(rs + [r]) == Worst(WorstDrive(rs), DriveStatus(r))
    ensures StorageConfidence(rs + [r]) == if r.passed.None? then Medium else StorageConfidence(rs)
  {
    var all := rs + [r];
    assert forall x :: x in all <==> x in rs || x == r;
  }

  /** The storage verdict and confidence ignore the order of the drives. */
  lemma StorageOrderFree(a: seq<DriveReport>, b: seq<DriveReport>, code: SkipCode)
    requires multiset(a) == multiset(b)
    ensures StorageResult(Some(a), code).status == StorageResult(Some(b), code).status
    ensures StorageResult(Some(a), code).confidence == StorageResult(Some(b), code).confidence
  {
    SameMembers(a, b);
    SameMembers(b, a);
  }

  lemma StorageNeverImproves(rs: seq<DriveReport>, r: DriveReport, code: SkipCode)
    requires rs != []
    ensures Severity(StorageResult(Some(rs + [r]), code).status) >= Severity(StorageResult(Some(rs), code).status)
  {
    OneMoreDrive(rs, r);
  }

  /** A drive neither failing, nor with pending sectors, nor at 80% of its endurance. */
  ghost predicate Clean(d: DriveReport) {
    && d.passed != Some(false)
    && (d.pendingSectors.None? || d.pendingSectors == Some(0))
    && (d.percentageUsed.None? || d.percentageUsed.value < 80)
  }

  /** Drive `i` is the first that is not clean, and it is not failing. */
  ghost predicate FirstToWarn(rs: seq<DriveReport>, i: int) {
    0 <= i < |rs| && !Clean(rs[i]) && rs[i].passed != Some(false) && forall k | 0 <= k < i :: Clean(rs[k])
  }

  /** A non-zero count of pending sectors, which is what a warning names first. */
  ghost predicate PendingIs(d: DriveReport, n: int) { d.pendingSectors == Some(n) && n != 0 }

  /** The failing drives by name, and what the first drive to warn has to say. */
  ghost predicate StorageNames(metrics: seq<Metric>, rs: seq<DriveReport>) {
    && (forall name :: Metric(FailingDevice, Name(name)) in metrics <==>
                       exists d :: d in rs && d.passed == Some(false) && d.name == name)
    && (forall n :: Metric(PendingSectors, Count(n)) in metrics <==>
                    exists i :: FirstToWarn(rs, i) && PendingIs(rs[i], n))
    && (forall n :: Metric(EnduranceUsedPct, Count(n)) in metrics <==>
                    exists i :: FirstToWarn(rs, i) && !(exists m :: PendingIs(rs[i], m))
                                && rs[i].percentageUsed == Some(n))
  }

  /**
    The storage check in the reports: critical for a drive that says it fails, a warning for pending sectors or 80%
    of the endurance used. The evidence names each failing drive, and one warning: that of the first drive that is
    not clean, unless that one fails.
  */
  ghost predicate StorageFindings(r: DiagnosticResult, rs: seq<DriveReport>) {
    && r.check == StorageHealth
    && (r.status == Skipped <==> rs == [])
    && (rs == [] ==> r.skip == NoData && r.metrics == [])
    && (r.status == Critical <==> exists d :: d in rs && d.passed == Some(false))
    && (r.status == Fine <==> rs != [] && forall d | d in rs :: Clean(d))
    && (rs != [] ==>
          && r.skip == NotSkipped
          && r.confidence == (if exists d :: d in rs && d.passed.None? then Medium else High)
          && r.metrics != [] && r.metrics[|r.metrics|-1] == Metric(DeviceCount, Count(|rs|)))
    && StorageNames(r.metrics, rs)
  }

  lemma DriveStatusByFields(d: DriveReport)
    ensures DriveStatus(d) == Fine <==> Clean(d)
    ensures DriveStatus(d) == Critical <==> d.passed == Some(false)
    ensures HasPending(d) <==> exists n :: PendingIs(d, n)
    ensures HasPending(d) <==> d.pendingSectors.Some? && PendingIs(d, d.pendingSectors.value)
  {
    if HasPending(d) { assert PendingIs(d, d.pendingSectors.value); }
  }

  /** What one drive adds, in its fields. */
  ghost predicate Adds(clean: bool, d: DriveReport, m: Metric) {
    || (m.key == FailingDevice && d.passed == Some(false) && m.value == Name(d.name))
    || (clean && d.passed != Some(false) && m.key == PendingSectors && m.value.Count? && PendingIs(d, m.value.n))
    || (clean && d.passed != Some(false) && m.key == EnduranceUsedPct && !(exists n :: PendingIs(d, n))
        && !Clean(d) && m.value.Count? && d.percentageUsed == Some(m.value.n))
  }

  lemma OneDriveAdds(status: Status, d: DriveReport, m: Metric)
    ensures m in DriveEvidence(status, d) <==> Adds(status == Fine, d, m)
  {
    DriveStatusByFields(d);
  }

  lemma {:induction false} AllClean(rs: seq<DriveReport>)
    ensures WorstDrive(rs) == Fine <==> forall d | d in rs :: Clean(d)
    ensures WorstDrive(rs) == Critical <==> exists d :: d in rs && d.passed == Some(false)
  {
    forall d
      ensures (DriveStatus(d) == Fine <==> Clean(d)) && (DriveStatus(d) == Critical <==> d.passed == Some(false))
    {
      DriveStatusByFields(d);
    }
    hide DriveStatus, Clean;
  }

  lemma FirstToWarnExtends(init: seq<DriveReport>, last: DriveReport, i: int)
    ensures FirstToWarn(init + [last], i) <==>
            FirstToWarn(init, i) || (i == |init| && (forall d | d in init :: Clean(d)) && !Clean(last)
                                     && last.passed != Some(false))
  {
    var rs := init + [last];
    assert forall k | 0 <= k < |init| :: rs[k] == init[k];
    if i < |init| {
      if FirstToWarn(rs, i) { assert forall k | 0 <= k < i :: Clean(rs[k]); }
    } else if i == |init| {
      assert (forall k | 0 <= k < i :: Clean(rs[k])) ==> forall d | d in init :: Clean(d);
    }
    hide Clean;
  }

  lemma AddsByKind(d: DriveReport, m: Metric)
    ensures d.passed == Some(false) ==> Adds(true, d, m) == Adds(false, d, m)
    ensures d.passed != Some(false) ==> !Adds(false, d, m)
    ensures Clean(d) ==> !Adds(true, d, m)
  {
  }

  /** The evidence in the reports: each failing drive, and what the first drive to warn adds. */
  lemma {:induction false} EvidenceByFields(rs: seq<DriveReport>, m: Metric)
    ensures m in StorageEvidence(rs) <==>
            || (exists d :: d in rs && d.passed == Some(false) && Adds(false, d, m))
            || (exists i :: FirstToWarn(rs, i) && Adds(true, rs[i], m))
  {
    if rs != [] {
      var init, last := rs[..|rs|-1], rs[|rs|-1];
      assert rs == init + [last];
      EvidenceByFields(init, m);
      OneDriveAdds(WorstDrive(init), last, m);
      AllClean(init);
      forall i ensures FirstToWarn(rs, i) <==>
                       FirstToWarn(init, i) || (i == |init| && (forall d | d in init :: Clean(d)) && !Clean(last)
                                                && last.passed != Some(false))
      {
        FirstToWarnExtends(init, last, i);
      }
      AddsByKind(last, m);
      hide DriveEvidence, WorstDrive, Clean, Adds, FirstToWarn;
    }
  }

  lemma EvidenceOfKind(rs: seq<DriveReport>, m: Metric)
    ensures m.key == FailingDevice ==>
              (m in StorageEvidence(rs) <==> exists d :: d in rs && d.passed == Some(false) && m.value == Name(d.name))
    ensures m.key == PendingSectors ==>
              (m in StorageEvidence(rs) <==>
                 exists i :: FirstToWarn(rs, i) && m.value.Count? && PendingIs(rs[i], m.value.n))
    ensures m.key == EnduranceUsedPct ==>
              (m in StorageEvidence(rs) <==>
                 exists i :: FirstToWarn(rs, i) && !(exists n :: PendingIs(rs[i], n))
                             && m.value.Count? && rs[i].percentageUsed == Some(m.value.n))
  {
    EvidenceByFields(rs, m);
    hide StorageEvidence, PendingIs;
  }

  /** The device count that ends the evidence hides none of it. */
  lemma {:induction false} EvidenceNames(rs: seq<DriveReport>, metrics: seq<Metric>)
    requires metrics == StorageEvidence(rs) + [Metric(DeviceCount, Count(|rs|))]
    ensures StorageNames(metrics, rs)
  {
    forall m: Metric ensures m.key != DeviceCount ==> (m in metrics <==> m in StorageEvidence(rs)) {
    }
    forall name { EvidenceOfKind(rs, Metric(FailingDevice, Name(name))); }
    forall n { EvidenceOfKind(rs, Metric(PendingSectors, Count(n))); }
    forall n { EvidenceOfKind(rs, Metric(EnduranceUsedPct, Count(n))); }
    hide StorageEvidence, FirstToWarn, PendingIs;
  }

  lemma {:induction false} NothingNamed()
    ensures StorageNames([], [])
  {
  }

  /** The storage verdict, confidence and evidence read off the reports. */
  lemma {:induction false} StorageVerdict(rs: seq<DriveReport>, code: SkipCode)
    ensures StorageFindings(StorageResult(Some(rs), code), rs)
  {
    AllClean(rs);
    if rs != [] { EvidenceNames(rs, StorageResult(Some(rs), code).metrics); } else { NothingNamed(); }
    hide StorageEvidence, WorstDrive, StorageNames, Clean;
  }

  /** The names the evidence calls failing. */
  function FailingNames(metrics: seq<Metric>): seq<MetricValue> {
    if metrics == [] then []
    else FailingNames(metrics[..|metrics|-1])
         + if metrics[|metrics|-1].key == FailingDevice then [metrics[|metrics|-1].value] else []
  }

  function NamesOfFailing(rs: seq<DriveReport>): seq<MetricValue> {
    if rs == [] then [] else NamesOfFailing(rs[..|rs|-1]) + if Failing(rs[|rs|-1]) then [Name(rs[|rs|-1].name)] else []
  }

  /** How many warnings the evidence holds. */
  function Warnings(metrics: seq<Metric>): nat {
    if metrics == [] then 0
    else Warnings(metrics[..|metrics|-1])
         + var key := metrics[|metrics|-1].key; if key == PendingSectors || key == EnduranceUsedPct then 1 else 0
  }

  /** Evidence grows by at most one metric at a time. */
  lemma OneMoreMetric(before: seq<Metric>, added: seq<Metric>)
    requires |added| <= 1
    ensures FailingNames(before + added) == FailingNames(before) + FailingNames(added)
    ensures Warnings(before + added) == Warnings(before) + Warnings(added)
  {
    if added == [] {
      assert before + added == before;
    } else {
      assert (before + added)[..|before|] == before && added[..0] == [];
    }
  }

  lemma OneDriveEvidence(status: Status, r: DriveReport)
    ensures var e := DriveEvidence(status, r);
            && |e| <= 1
            && FailingNames(e) == (if Failing(r) then [Name(r.name)] else [])
            && Warnings(e) == (if status == Fine && DriveStatus(r) == Warning then 1 else 0)
            && (e == [] <==> !Failing(r) && (status != Fine || DriveStatus(r) == Fine))
  {
    var e := DriveEvidence(status, r);
    if e != [] { assert e[..0] == []; }
  }

  lemma {:induction false} FailingAgrees(rs: seq<DriveReport>)
    ensures FailingNames(StorageEvidence(rs)) == NamesOfFailing(rs)
    ensures NamesOfFailing(rs) != [] <==> WorstDrive(rs) == Critical
  {
    if rs != [] {
      var init, last := rs[..|rs|-1], rs[|rs|-1];
      FailingAgrees(init);
      OneMoreDrive(init, last);
      assert rs == init + [last];
      OneDriveEvidence(WorstDrive(init), last);
      OneMoreMetric(StorageEvidence(init), DriveEvidence(WorstDrive(init), last));
      hide DriveEvidence, FailingNames, Warnings, WorstDrive;
    }
  }

  lemma {:induction false} WarningsAgree(rs: seq<DriveReport>)
    ensures Warnings(StorageEvidence(rs)) <= 1
    ensures WorstDrive(rs) == Warning ==> Warnings(StorageEvidence(rs)) == 1
    ensures WorstDrive(rs) == Fine ==> Warnings(StorageEvidence(rs)) == 0
    ensures WorstDrive(rs) == Fine <==> StorageEvidence(rs) == []
  {
    if rs != [] {
      var init, last := rs[..|rs|-1], rs[|rs|-1];
      WarningsAgree(init);
      OneMoreDrive(init, last);
      assert rs == init + [last];
      OneDriveEvidence(WorstDrive(init), last);
      OneMoreMetric(StorageEvidence(init), DriveEvidence(WorstDrive(init), last));
      hide DriveEvidence, FailingNames, Warnings, WorstDrive;
    }
  }

  /**
    Evidence and verdict agree: it names exactly the failing drives, in order; it gives at most one warning;
    a warning verdict has its one warning, and only a clean verdict has none of either.
  */
  lemma EvidenceAgrees(rs: seq<DriveReport>)
    ensures FailingNames(StorageEvidence(rs)) == NamesOfFailing(rs)
    ensures NamesOfFailing(rs) != [] <==> WorstDrive(rs) == Critical
    ensures Warnings(StorageEvidence(rs)) <= 1
    ensures WorstDrive(rs) == Warning ==> Warnings(StorageEvidence(rs)) == 1
    ensures WorstDrive(rs) == Fine <==> StorageEvidence(rs) == []
  {
    FailingAgrees(rs);
    WarningsAgree(rs);
  }

  // -- firmware currency ----------------------------------------------------

  /** `pending`: for each pending release, whether its urgency is critical. */
  function FirmwareResult(pending: Option<seq<bool>>): DiagnosticResult {
    if pending.None? then SkippedResult(FirmwareCurrency, SourceUnavailable)
    else if pending.value == [] then DiagnosticResult(FirmwareCurrency, Fine, Medium, [], NotSkipped)
    else DiagnosticResult(FirmwareCurrency, if true in pending.value then Critical else Warning, Medium,
                          [Metric(PendingUpdates, Count(|pending.value|))], NotSkipped)
  }

  /** The firmware check in the releases on offer; `pending` says of each whether its urgency is critical. */
  ghost predicate FirmwareFindings(r: DiagnosticResult, pending: seq<bool>) {
    && r.check == FirmwareCurrency && r.skip == NotSkipped && r.confidence == Medium && r.status != Skipped
    && (r.status == Fine <==> |pending| == 0)
    && (r.status == Critical <==> exists k :: 0 <= k < |pending| && pending[k])
    && r.metrics == if |pending| == 0 then [] else [Metric(PendingUpdates, Count(|pending|))]
  }

  /** Releases on offer are a warning, and one of critical urgency makes the check critical. */
  lemma {:induction false} FirmwareVerdict(pending: seq<bool>)
    ensures FirmwareFindings(FirmwareResult(Some(pending)), pending)
  {
    if true in pending {
      var k :| 0 <= k < |pending| && pending[k] == true;
    }
  }

  // -- thermal sanity -------------------------------------------------------

  datatype Reading = Reading(chip: string, sensor: string, celsius: real)

  predicate Plausible(t: Reading) { 1.0 < t.celsius && t.celsius < 119.0 }

  /** max(...): the first of the hottest. */
  function Hottest(temps: seq<Reading>): Reading
    requires temps != []
  {
    if |temps| == 1 then temps[0]
    else
      var before, last := Hottest(temps[..|temps|-1]), temps[|temps|-1];
      if last.celsius > before.celsius then last else before
  }

  function TempStatus(celsius: real): Status {
    if celsius >= 95.0 then Critical else if celsius >= 85.0 then Warning else Fine
  }

  function ThermalResult(temps: Option<seq<Reading>>): DiagnosticResult {
    if temps.None? then SkippedResult(Thermal, SourceUnavailable)
    else
      var plausible := Filter(Plausible, temps.value);
      if plausible == [] then SkippedResult(Thermal, NoData)
      else
        var hottest := Hottest(plausible);
        DiagnosticResult(Thermal, TempStatus(hottest.celsius), Medium,
                         [Metric(MaxTempC, Measure(hottest.celsius)),
                          Metric(MaxTempSource, Name(if hottest.sensor != "" then hottest.sensor else hottest.chip)),
                          Metric(SensorCount, Count(|plausible|))], NotSkipped)
  }

  lemma {:induction false} HottestIsMaximum(temps: seq<Reading>)
    requires temps != []
    ensures Hottest(temps) in temps && forall t | t in temps :: t.celsius <= Hottest(temps).celsius
  {
    if |temps| > 1 {
      var init := temps[..|temps|-1];
      HottestIsMaximum(init);
      assert temps == init + [temps[|temps|-1]];
    }
  }

  /** Reading `i` is the first of the hottest between 1 and 119 degrees. */
  ghost predicate FirstHottest(temps: seq<Reading>, i: int) {
    && 0 <= i < |temps| && 1.0 < temps[i].celsius < 119.0
    && forall k | 0 <= k < |temps| && 1.0 < temps[k].celsius < 119.0 ::
         temps[k].celsius <= temps[i].celsius && (k < i ==> temps[k].celsius < temps[i].celsius)
  }

  /** How many readings lie between 1 and 119 degrees. */
  ghost function Sensible(temps: seq<Reading>): nat {
    if temps == [] then 0
    else Sensible(temps[..|temps|-1]) + var c := temps[|temps|-1].celsius; if 1.0 < c < 119.0 then 1 else 0
  }

  /**
    The thermal check in degrees: critical at 95 or more, a warning at 85 or more, where a reading of 1 or less and
    one of 119 or more is an artifact. The evidence gives the first of the hottest readings and where it was read.
  */
  ghost predicate ThermalFindings(r: DiagnosticResult, temps: seq<Reading>) {
    && r.check == Thermal
    && (r.status == Skipped <==> !exists t :: t in temps && 1.0 < t.celsius < 119.0)
    && (r.status == Critical <==> exists t :: t in temps && 95.0 <= t.celsius < 119.0)
    && (r.status == Warning <==>
          && (exists t :: t in temps && 85.0 <= t.celsius < 119.0)
          && !exists t :: t in temps && 95.0 <= t.celsius < 119.0)
    && (r.status == Skipped ==> r.skip == NoData && r.metrics == [])
    && (r.status != Skipped ==>
          && r.skip == NotSkipped && r.confidence == Medium
          && exists i :: FirstHottest(temps, i) && r.metrics == HottestEvidence(temps[i], Sensible(temps)))
  }

  /** The evidence for the hottest reading: named by its sensor, or by its chip when the sensor has no label. */
  ghost function HottestEvidence(t: Reading, sensors: nat): seq<Metric> {
    [Metric(MaxTempC, Measure(t.celsius)), Metric(MaxTempSource, Name(if |t.sensor| == 0 then t.chip else t.sensor)),
     Metric(SensorCount, Count(sensors))]
  }

  lemma FilterOneMore(init: seq<Reading>, last: Reading)
    ensures Filter(Plausible, init + [last]) == Filter(Plausible, init) + if Plausible(last) then [last] else []
  {
    FilterConcat(Plausible, init, [last]);
    assert Filter(Plausible, [last]) == if Plausible(last) then [last] else [];
  }

  lemma {:induction false} PlausibleAreSensible(temps: seq<Reading>)
    ensures |Filter(Plausible, temps)| == Sensible(temps)
    ensures Filter(Plausible, temps) == [] <==> !exists t :: t in temps && 1.0 < t.celsius < 119.0
  {
    if temps != [] {
      var init, last := temps[..|temps|-1], temps[|temps|-1];
      PlausibleAreSensible(init);
      FilterOneMore(init, last);
      assert init + [last] == temps;
      hide Filter;
    }
  }

  lemma HottestOneMore(f: seq<Reading>, last: Reading)
    requires f != []
    ensures Hottest(f + [last]) == if last.celsius > Hottest(f).celsius then last else Hottest(f)
  {
    assert (f + [last])[..|f|] == f;
  }

  lemma FirstHottestExtends(init: seq<Reading>, last: Reading, i: int)
    requires FirstHottest(init, i)
    ensures FirstHottest(init + [last], if Plausible(last) && last.celsius > init[i].celsius then |init| else i)
  {
  }

  lemma {:induction false} FirstHottestAlone(init: seq<Reading>, last: Reading)
    requires Plausible(last) && !exists t :: t in init && 1.0 < t.celsius < 119.0
    ensures FirstHottest(init + [last], |init|)
  {
    var temps := init + [last];
    forall k | 0 <= k < |init| ensures !(1.0 < temps[k].celsius < 119.0) { assert temps[k] in init; }
  }

  /** One more reading keeps the index of the first of the hottest in step with the plausible readings. */
  lemma {:induction false} HottestStep(init: seq<Reading>, last: Reading, f: seq<Reading>)
    requires if f == [] then Plausible(last) && !exists t :: t in init && 1.0 < t.celsius < 119.0
             else exists i :: FirstHottest(init, i) && init[i] == Hottest(f)
    ensures var g, temps := f + (if Plausible(last) then [last] else []), init + [last];
            g != [] && exists i :: FirstHottest(temps, i) && temps[i] == Hottest(g)
  {
    if f == [] {
      FirstHottestAlone(init, last);
      assert f + [last] == [last];
    } else {
      var i :| FirstHottest(init, i) && init[i] == Hottest(f);
      FirstHottestExtends(init, last, i);
      HottestOneMore(f, last);
      assert f + [] == f;
      hide Hottest;
    }
    hide FirstHottest;
  }

  lemma {:induction false} HottestIsFirst(temps: seq<Reading>)
    requires Filter(Plausible, temps) != []
    ensures exists i :: FirstHottest(temps, i) && temps[i] == Hottest(Filter(Plausible, temps))
  {
    var init, last := temps[..|temps|-1], temps[|temps|-1];
    FilterOneMore(init, last);
    assert init + [last] == temps;
    PlausibleAreSensible(init);
    if Filter(Plausible, init) != [] { HottestIsFirst(init); }
    HottestStep(init, last, Filter(Plausible, init));
    hide Filter, FirstHottest, Hottest, Sensible;
  }

  lemma HottestDecides(temps: seq<Reading>, i: int)
    requires FirstHottest(temps, i)
    ensures TempStatus(temps[i].celsius) == Critical <==> exists t :: t in temps && 95.0 <= t.celsius < 119.0
    ensures TempStatus(temps[i].celsius) != Fine <==> exists t :: t in temps && 85.0 <= t.celsius < 119.0
    ensures TempStatus(temps[i].celsius) != Skipped && exists t :: t in temps && 1.0 < t.celsius < 119.0
  {
    assert temps[i] in temps;
    forall t | t in temps && 1.0 < t.celsius < 119.0 ensures t.celsius <= temps[i].celsius {
      var k :| 0 <= k < |temps| && temps[k] == t;
    }
  }

  lemma {:induction false} MeasuredThermal(temps: seq<Reading>, f: seq<Reading>, i: int)
    requires f == Filter(Plausible, temps) && f != [] && |f| == Sensible(temps)
    requires FirstHottest(temps, i) && temps[i] == Hottest(f)
    ensures ThermalFindings(ThermalResult(Some(temps)), temps)
  {
    HottestDecides(temps, i);
    assert ThermalResult(Some(temps)).metrics == HottestEvidence(temps[i], Sensible(temps));
    hide Hottest, Sensible, Filter, FirstHottest, TempStatus, HottestEvidence;
  }

  /** The thermal verdict read off the readings. */
  lemma {:induction false} ThermalVerdict(temps: seq<Reading>)
    ensures ThermalFindings(ThermalResult(Some(temps)), temps)
  {
    PlausibleAreSensible(temps);
    if Filter(Plausible, temps) != [] {
      HottestIsFirst(temps);
      var i :| FirstHottest(temps, i) && temps[i] == Hottest(Filter(Plausible, temps));
      MeasuredThermal(temps, Filter(Plausible, temps), i);
      hide *;
    } else {
      assert ThermalResult(Some(temps)) == SkippedResult(Thermal, NoData);
      forall t | t in temps ensures !(1.0 < t.celsius < 119.0) {
      }
      hide Hottest, Sensible, Filter, FirstHottest, TempStatus, HottestEvidence;
    }
  }

  // -- disk space -----------------------------------------------------------

  datatype Usage = Usage(mountpoint: string, total: int, free: int)

  predicate Measurable(u: Usage) { u.total > 0 }

  function FreePct(u: Usage): real
    requires Measurable(u)
  {
    u.free as real / u.total as real * 100.0
  }

  function FreeStatus(pct: real): Status {
    if pct < 5.0 then Critical else if pct < 10.0 then Warning else Fine
  }

  datatype Fullest = Fullest(pct: real, mountpoint: string)

  /** The least free space so far and the first mount that has it. */
  function LeastFree(us: seq<Usage>): Option<Fullest> {
    if us == [] then None
    else
      var before, last := LeastFree(us[..|us|-1]), us[|us|-1];
      if Measurable(last) && (before.None? || FreePct(last) < before.value.pct)
      then Some(Fullest(FreePct(last), last.mountpoint)) else before
  }

  /** The verdict as a function of the least free percentage alone. */
  function DiskStatus(us: seq<Usage>): Status {
    if LeastFree(us).None? then Fine else FreeStatus(LeastFree(us).value.pct)
  }

  function MountEvidence(status: Status, u: Usage): seq<Metric> {
    if !Measurable(u) then []
    else if FreePct(u) < 5.0 then [Metric(CriticalMount, Name(u.mountpoint))]
    else if FreePct(u) < 10.0 && status == Fine then [Metric(LowMount, Name(u.mountpoint))]
    else []
  }

  function DiskEvidence(us: seq<Usage>): seq<Metric> {
    if us == [] then [] else DiskEvidence(us[..|us|-1]) + MountEvidence(DiskStatus(us[..|us|-1]), us[|us|-1])
  }

  function DiskResult(usages: Option<seq<Usage>>): DiagnosticResult {
    if usages.None? then SkippedResult(DiskSpace, SourceUnavailable)
    else if LeastFree(usages.value).None? then SkippedResult(DiskSpace, NoData)
    else DiagnosticResult(DiskSpace, DiskStatus(usages.value), High,
                          DiskEvidence(usages.value)
                          + [Metric(MinFreePct, Measure(LeastFree(usages.value).value.pct))]
                          + [Metric(MinFreeMount, Name(LeastFree(usages.value).value.mountpoint))], NotSkipped)
  }

  /** The loop keeps its own status; it comes out as the status of the minimum it tracks beside it. */
  method CheckDiskSpace(usages: Option<seq<Usage>>) returns (r: DiagnosticResult)
    ensures r == DiskResult(usages)
  {
    if usages.None? { return SkippedResult(DiskSpace, SourceUnavailable); }
    var us := usages.value;
    if us == [] { return SkippedResult(DiskSpace, NoData); }
    var status := Fine;
    var metrics: seq<Metric> := [];
    var fullest: Option<Fullest> := None;
    for i := 0 to |us|
      invariant fullest == LeastFree(us[..i]) && status == DiskStatus(us[..i])
      invariant metrics == DiskEvidence(us[..i])
    {
      assert us[..i+1][..i] == us[..i];
      if us[i].total <= 0 {
        assert DiskEvidence(us[..i+1]) == DiskEvidence(us[..i]) + [];
        continue;
      }
      var pct := FreePct(us[i]);
      if fullest.None? || pct < fullest.value.pct { fullest := Some(Fullest(pct, us[i].mountpoint)); }
      if pct < 5.0 {
        status := Critical;
        metrics := metrics + [Metric(CriticalMount, Name(us[i].mountpoint))];
      } else if pct < 10.0 && status == Fine {
        status := Warning;
        metrics := metrics + [Metric(LowMount, Name(us[i].mountpoint))];
      }
    }
    assert us[..|us|] == us;
    if fullest.None? { return SkippedResult(DiskSpace, NoData); }
    metrics := metrics + [Metric(MinFreePct, Measure(fullest.value.pct))];
    metrics := metrics + [Metric(MinFreeMount, Name(fullest.value.mountpoint))];
    r := DiagnosticResult(DiskSpace, status, High, metrics, NotSkipped);
  }

  lemma {:induction false} LeastFreeIsMinimum(us: seq<Usage>)
    ensures LeastFree(us).None? <==> forall u | u in us :: !Measurable(u)
    ensures LeastFree(us).Some? ==>
              && (exists u :: u in us && Measurable(u) && LeastFree(us).value == Fullest(FreePct(u), u.mountpoint))
              && forall u | u in us && Measurable(u) :: LeastFree(us).value.pct <= FreePct(u)
  {
    if us != [] {
      var init, last := us[..|us|-1], us[|us|-1];
      LeastFreeIsMinimum(init);
      assert forall u :: u in us <==> u in init || u == last;
      if LeastFree(init).Some? {
        var u :| u in init && Measurable(u) && LeastFree(init).value == Fullest(FreePct(u), u.mountpoint);
        assert u in us;
      }
    }
  }

  /** Less than `pct` percent of a filesystem that has a size is free. */
  ghost predicate Below(u: Usage, pct: int) { u.total > 0 && 100 * u.free < pct * u.total }

  /** Exactly, or less than, `x` percent of a filesystem is free. */
  ghost predicate FreeIs(u: Usage, x: real) { x * u.total as real == 100.0 * u.free as real }

  ghost predicate LessFree(u: Usage, x: real) { x * u.total as real > 100.0 * u.free as real }

  /** Filesystem `i` has the percentage `x` free, is the first with so little, and none has less. */
  ghost predicate FirstFullest(us: seq<Usage>, i: int, x: real) {
    && 0 <= i < |us| && us[i].total > 0 && FreeIs(us[i], x)
    && forall k | 0 <= k < |us| && us[k].total > 0 :: !LessFree(us[k], x) && (k < i ==> !FreeIs(us[k], x))
  }

  /** Filesystem `i` is the first below ten percent, and not below five. */
  ghost predicate FirstLow(us: seq<Usage>, i: int) {
    0 <= i < |us| && Below(us[i], 10) && !Below(us[i], 5) && forall k | 0 <= k < i :: !Below(us[k], 10)
  }

  /** The critical filesystems by mount point, and the first that is low when none before it was. */
  ghost predicate DiskNames(metrics: seq<Metric>, us: seq<Usage>) {
    && (forall mount :: Metric(CriticalMount, Name(mount)) in metrics <==>
                        exists u :: u in us && Below(u, 5) && u.mountpoint == mount)
    && (forall mount :: Metric(LowMount, Name(mount)) in metrics <==>
                        exists i :: FirstLow(us, i) && us[i].mountpoint == mount)
  }

  /**
    The disk check in free and total: critical below 5% free, a warning below 10%. The evidence names each critical
    filesystem, the first that is low when none before it was, and the fullest of all.
  */
  ghost predicate DiskFindings(r: DiagnosticResult, us: seq<Usage>) {
    && r.check == DiskSpace
    && (r.status == Skipped <==> forall u | u in us :: u.total <= 0)
    && (r.status == Critical <==> exists u :: u in us && Below(u, 5))
    && (r.status == Warning <==> (exists u :: u in us && Below(u, 10)) && forall u | u in us :: !Below(u, 5))
    && (r.status == Skipped ==> r.skip == NoData && r.metrics == [])
    && (r.status != Skipped ==>
          && r.skip == NotSkipped && r.confidence == High
          && |r.metrics| >= 2
          && exists i, x :: FirstFullest(us, i, x) && r.metrics[|r.metrics|-2..] == FullestEvidence(us[i], x))
    && DiskNames(r.metrics, us)
  }

  ghost function FullestEvidence(u: Usage, x: real): seq<Metric> {
    [Metric(MinFreePct, Measure(x)), Metric(MinFreeMount, Name(u.mountpoint))]
  }

  /** Comparing percentages of free space, without dividing. */
  lemma FreeInSizes(u: Usage)
    requires Measurable(u)
    ensures FreePct(u) < 5.0 <==> Below(u, 5)
    ensures FreePct(u) < 10.0 <==> Below(u, 10)
    ensures FreeIs(u, FreePct(u))
  {
    PercentageOf(u.free as real, u.total as real, 5.0);
    PercentageOf(u.free as real, u.total as real, 10.0);
    BelowInReals(u, 5);
    BelowInReals(u, 10);
    hide Below;
  }

  lemma BelowInReals(u: Usage, pct: int)
    requires Measurable(u)
    ensures Below(u, pct) <==> 100.0 * u.free as real < pct as real * u.total as real
  {
    assert (100 * u.free) as real == 100.0 * u.free as real;
    assert (pct * u.total) as real == pct as real * u.total as real;
  }

  lemma FreeCompared(u: Usage, x: real)
    requires Measurable(u)
    ensures LessFree(u, x) <==> FreePct(u) < x
    ensures FreeIs(u, x) <==> FreePct(u) == x
  {
    FreeInSizes(u);
    ScaledOrder(x, FreePct(u), u.total as real);
    ScaledOrder(FreePct(u), x, u.total as real);
    hide FreePct;
  }

  /** The tracked minimum is that of the first of the fullest filesystems. */
  lemma {:induction false} LeastFreeIsFirst(us: seq<Usage>)
    ensures LeastFree(us).Some? ==>
              exists i :: FirstFullest(us, i, LeastFree(us).value.pct)
                          && LeastFree(us).value.mountpoint == us[i].mountpoint
  {
    if us != [] {
      var init, last := us[..|us|-1], us[|us|-1];
      LeastFreeIsFirst(init);
      LeastFreeIsMinimum(init);
      assert us == init + [last];
      if LeastFree(init).Some? {
        var x := LeastFree(init).value.pct;
        var i :| FirstFullest(init, i, x) && LeastFree(init).value.mountpoint == init[i].mountpoint;
        FirstFullestExtends(init, last, i, x);
      } else if Measurable(last) {
        FreeCompared(last, FreePct(last));
        assert forall k | 0 <= k < |init| :: init[k] in init;
        assert FirstFullest(us, |init|, FreePct(last));
      }
      hide FreePct, FreeIs, LessFree;
    }
  }

  lemma FirstFullestExtends(init: seq<Usage>, last: Usage, i: int, x: real)
    requires FirstFullest(init, i, x)
    ensures !Measurable(last) || x <= FreePct(last) ==> FirstFullest(init + [last], i, x)
    ensures Measurable(last) && FreePct(last) < x ==> FirstFullest(init + [last], |init|, FreePct(last))
  {
    if Measurable(last) {
      FreeCompared(last, x);
      FreeCompared(last, FreePct(last));
    }
    forall u | Measurable(u) && Measurable(last)
      ensures (LessFree(u, x) <==> FreePct(u) < x) && (LessFree(u, FreePct(last)) <==> FreePct(u) < FreePct(last))
              && (FreeIs(u, FreePct(last)) <==> FreePct(u) == FreePct(last))
    {
      FreeCompared(u, x);
      FreeCompared(u, FreePct(last));
    }
    hide FreePct, FreeIs, LessFree;
  }

  lemma {:induction false} LowMountNamed(us: seq<Usage>, mount: string)
    ensures Metric(LowMount, Name(mount)) in DiskEvidence(us) <==>
            exists i :: FirstLow(us, i) && us[i].mountpoint == mount
  {
    if us != [] {
      var init, last := us[..|us|-1], us[|us|-1];
      LowMountNamed(init, mount);
      DiskStatusInSizes(init);
      assert us == init + [last];
      forall i ensures FirstLow(us, i) <==>
                       FirstLow(init, i) || (i == |init| && Below(last, 10) && !Below(last, 5)
                                             && forall u | u in init :: !Below(u, 10))
      {
        FirstLowExtends(init, last, i);
      }
      if Measurable(last) { FreeInSizes(last); }
      hide FreePct, Below, FirstLow, DiskStatus;
    }
  }

  lemma FirstLowExtends(init: seq<Usage>, last: Usage, i: int)
    ensures FirstLow(init + [last], i) <==>
            FirstLow(init, i) || (i == |init| && Below(last, 10) && !Below(last, 5)
                                  && forall u | u in init :: !Below(u, 10))
  {
    var us := init + [last];
    assert forall k | 0 <= k < |init| :: us[k] == init[k];
    if i < |init| {
      if FirstLow(us, i) { assert forall k | 0 <= k < i :: !Below(us[k], 10); }
    } else if i == |init| {
      assert (forall k | 0 <= k < i :: !Below(us[k], 10)) ==> forall u | u in init :: !Below(u, 10);
    }
    hide Below;
  }

  /** The status of the tracked minimum, in sizes. */
  lemma {:induction false} DiskStatusInSizes(us: seq<Usage>)
    ensures DiskStatus(us) == Critical <==> exists u :: u in us && Below(u, 5)
    ensures DiskStatus(us) == Fine <==> forall u | u in us :: !Below(u, 10)
    ensures DiskStatus(us) != Skipped
  {
    LeastFreeIsMinimum(us);
    forall u | Measurable(u) ensures (FreePct(u) < 5.0 <==> Below(u, 5)) && (FreePct(u) < 10.0 <==> Below(u, 10)) {
      FreeInSizes(u);
    }
    hide FreePct, LeastFree;
  }

  /** The disk verdict and its evidence read off the filesystems. */
  lemma {:induction false} DiskVerdict(us: seq<Usage>)
    ensures DiskFindings(DiskResult(Some(us)), us)
  {
    LeastFreeIsMinimum(us);
    DiskStatusInSizes(us);
    if LeastFree(us).Some? {
      EndsWithFullest(us);
      DiskEvidenceNames(us, DiskResult(Some(us)).metrics);
    } else {
      NoneMeasurable(us);
    }
    hide FreePct, LeastFree, DiskStatus, DiskEvidence, FirstFullest, DiskNames, Below, FullestEvidence;
  }

  lemma {:induction false} NoneMeasurable(us: seq<Usage>)
    requires forall u | u in us :: !Measurable(u)
    ensures forall u | u in us :: u.total <= 0 && !Below(u, 5) && !Below(u, 10)
    ensures DiskNames([], us)
  {
    assert forall i | 0 <= i < |us| :: us[i] in us;
  }

  lemma {:induction false} EndsWithFullest(us: seq<Usage>)
    requires LeastFree(us).Some?
    ensures var m := DiskResult(Some(us)).metrics;
            && |m| >= 2 && m[..|m|-2] == DiskEvidence(us)
            && m[|m|-2].key == MinFreePct && m[|m|-1].key == MinFreeMount
            && exists i, x :: FirstFullest(us, i, x) && m[|m|-2..] == FullestEvidence(us[i], x)
  {
    LeastFreeIsFirst(us);
    var least := LeastFree(us).value;
    var i :| FirstFullest(us, i, least.pct) && least.mountpoint == us[i].mountpoint;
    var m := DiskResult(Some(us)).metrics;
    assert m == DiskEvidence(us) + FullestEvidence(us[i], least.pct);
    hide LeastFree, DiskEvidence, FirstFullest, DiskStatus;
  }

  lemma {:induction false} DiskEvidenceNames(us: seq<Usage>, metrics: seq<Metric>)
    requires |metrics| >= 2 && metrics[..|metrics|-2] == DiskEvidence(us)
    requires metrics[|metrics|-2].key == MinFreePct && metrics[|metrics|-1].key == MinFreeMount
    ensures DiskNames(metrics, us)
  {
    forall m: Metric
      ensures m.key != MinFreePct && m.key != MinFreeMount ==> (m in metrics <==> m in DiskEvidence(us))
    {
      assert metrics == DiskEvidence(us) + [metrics[|metrics|-2], metrics[|metrics|-1]];
    }
    forall mount { CriticalMountsNamed(us, mount); }
    forall mount { LowMountNamed(us, mount); }
    hide DiskEvidence, FirstLow;
  }

  lemma DiskOrderFree(a: seq<Usage>, b: seq<Usage>)
    requires multiset(a) == multiset(b)
    ensures DiskResult(Some(a)).status == DiskResult(Some(b)).status
    ensures LeastFree(a).Some? ==> LeastFree(b).Some? && LeastFree(a).value.pct == LeastFree(b).value.pct
  {
    SameMembers(a, b);
    SameMembers(b, a);
    LeastFreeIsMinimum(a);
    LeastFreeIsMinimum(b);
  }

  lemma DiskNeverImproves(us: seq<Usage>, u: Usage)
    requires DiskResult(Some(us)).status != Skipped
    ensures Severity(DiskResult(Some(us + [u])).status) >= Severity(DiskResult(Some(us)).status)
  {
    assert (us + [u])[..|us|] == us;
  }

  /** Every critically full mount is named, and no other. */
  lemma {:induction false} CriticalMountsNamed(us: seq<Usage>, mount: string)
    ensures Metric(CriticalMount, Name(mount)) in DiskEvidence(us) <==>
            exists u :: u in us && Below(u, 5) && u.mountpoint == mount
  {
    if us != [] {
      var init, last := us[..|us|-1], us[|us|-1];
      CriticalMountsNamed(init, mount);
      assert forall u :: u in us <==> u in init || u == last;
      if Measurable(last) { FreeInSizes(last); }
      hide FreePct, DiskStatus;
    }
  }
}
