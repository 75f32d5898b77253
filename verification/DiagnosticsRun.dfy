/**
  run(): gather every input with per-source degradation, then run the checks.
  A source is a script of what its provider answers.
*/
module DiagnosticsRun {
  import opened Common
  import opened BatteryAnalysis
  import opened Checks
  import opened Score

  /** The LapcareError a provider call can raise, as run() tells them apart. */
  datatype Error = PrivilegedActionDenied | ProviderUnavailable | OtherLapcareError

  type Read = string -> Result<DriveReport, Error>

  /** `listed` is list_devices(), `read` is read_smart() by device name. */
  datatype Storage = Storage(listed: Result<seq<string>, Error>, read: Read)

  datatype FirmwareDevice = FirmwareDevice(id: string, updatable: bool)

  type Upgrades = string -> Result<seq<bool>, Error>

  /** `upgrades` gives, for each release on offer, whether its urgency is critical. */
  datatype Firmware = Firmware(listed: Result<seq<FirmwareDevice>, Error>, upgrades: Upgrades)

  /** The five providers; an absent one is None. */
  datatype Sources = Sources(
    battery: Option<Result<seq<Battery>, Error>>,
    storage: Option<Storage>,
    firmware: Option<Firmware>,
    thermal: Option<Result<seq<Reading>, Error>>,
    disk: Option<Result<seq<Usage>, Error>>,
    includeStorage: bool)

  datatype Report = Report(results: seq<DiagnosticResult>, score: Option<nat>, measured: nat, total: nat)

  // -- what each source comes to --------------------------------------------

  function Answer<T>(source: Option<Result<T, Error>>): Option<T> {
    if source.Some? && source.value.Ok? then Some(source.value.value) else None
  }

  function ReadAll(names: seq<string>, read: Read): Result<seq<DriveReport>, Error> {
    if names == [] then Ok([])
    else
      match ReadAll(names[..|names|-1], read)
      case Err(e) => Err(e)
      case Ok(reports) =>
        match read(names[|names|-1])
        case Err(e) => Err(e)
        case Ok(report) => Ok(reports + [report])
  }

  /** The devices whose read_smart is called: all of them, cut after the first failure. */
  function Asked(names: seq<string>, read: Read): seq<string> {
    if names == [] then []
    else
      var init := names[..|names|-1];
      if ReadAll(init, read).Ok? then names else Asked(init, read)
  }

  function SkipFor(e: Error): SkipCode { if e == PrivilegedActionDenied then Declined else SourceUnavailable }

  datatype Collected = Collected(reports: Option<seq<DriveReport>>, skip: SkipCode, calls: seq<string>)

  /** What the privileged read comes to: the reports or why there are none, and the read_smart calls made. */
  function Collect(storage: Storage): Collected {
    match storage.listed
    case Err(e) => Collected(None, SkipFor(e), [])
    case Ok(names) =>
      match ReadAll(names, storage.read)
      case Err(e) => Collected(None, SkipFor(e), Asked(names, storage.read))
      case Ok(reports) => Collected(Some(reports), NotRequested, Asked(names, storage.read))
  }

  function StorageInput(s: Sources): Collected {
    if s.includeStorage && s.storage.Some? then Collect(s.storage.value) else Collected(None, NotRequested, [])
  }

  /** The SMART reads a run makes: the only calls that can prompt. */
  function SmartReads(s: Sources): seq<string> { StorageInput(s).calls }

  function Offered(devices: seq<FirmwareDevice>, upgrades: Upgrades): Result<seq<bool>, Error> {
    if devices == [] then Ok([])
    else
      match Offered(devices[..|devices|-1], upgrades)
      case Err(e) => Err(e)
      case Ok(pending) =>
        var last := devices[|devices|-1];
        if !last.updatable then Ok(pending)
        else match upgrades(last.id)
             case Err(e) => Err(e)
             case Ok(more) => Ok(pending + more)
  }

  function PendingReleases(s: Sources): Option<seq<bool>> {
    if s.firmware.None? || s.firmware.value.listed.Err? then None
    else Answer(Some(Offered(s.firmware.value.listed.value, s.firmware.value.upgrades)))
  }

  function Results(s: Sources): seq<DiagnosticResult> {
    [BatteryResult(Answer(s.battery)), StorageResult(StorageInput(s).reports, StorageInput(s).skip),
     FirmwareResult(PendingReleases(s)), ThermalResult(Answer(s.thermal)), DiskResult(Answer(s.disk))]
  }

  function Statuses(results: seq<DiagnosticResult>): seq<Status> {
    seq(|results|, i requires 0 <= i < |results| => results[i].status)
  }

  // -- the orchestrator -----------------------------------------------------

  /** Reading device i after a clean start. */
  lemma ReadOneMore(names: seq<string>, i: nat, read: Read, found: seq<DriveReport>)
    requires i < |names| && ReadAll(names[..i], read) == Ok(found)
    ensures read(names[i]).Ok? ==> ReadAll(names[..i+1], read) == Ok(found + [read(names[i]).value])
    ensures read(names[i]).Err? ==>
              ReadAll(names, read) == Err(read(names[i]).error) && Asked(names, read) == names[..i+1]
    ensures Asked(names[..i+1], read) == names[..i+1]
  {
    assert names[..i+1][..i] == names[..i];
    if read(names[i]).Err? {
      FailedReadStays(names, i + 1, read);
    }
  }

  lemma {:induction false} FailedReadStays(names: seq<string>, i: nat, read: Read)
    requires i <= |names| && ReadAll(names[..i], read).Err?
    ensures ReadAll(names, read) == ReadAll(names[..i], read) && Asked(names, read) == Asked(names[..i], read)
    decreases |names|
  {
    if i < |names| {
      assert names[..|names|-1][..i] == names[..i];
      FailedReadStays(names[..|names|-1], i, read);
    } else {
      assert names[..i] == names;
    }
  }

  method ReadStorage(storage: Storage) returns (r: Collected)
    ensures r == Collect(storage)
  {
    if storage.listed.Err? { return Collected(None, SkipFor(storage.listed.error), []); }
    var names, found, calls := storage.listed.value, [], [];
    for i := 0 to |names|
      invariant ReadAll(names[..i], storage.read) == Ok(found)
      invariant Asked(names[..i], storage.read) == calls == names[..i]
    {
      ReadOneMore(names, i, storage.read, found);
      hide ReadAll, Asked;
      calls := calls + [names[i]];
      match storage.read(names[i]) {
        case Err(e) => return Collected(None, SkipFor(e), calls);
        case Ok(report) => found := found + [report];
      }
    }
    assert names[..|names|] == names;
    return Collected(Some(found), NotRequested, calls);
  }

  method ReadFirmware(firmware: Firmware) returns (pending: Option<seq<bool>>)
    ensures forall s: Sources | s.firmware == Some(firmware) :: pending == PendingReleases(s)
  {
    if firmware.listed.Err? { return None; }
    var devices, found := firmware.listed.value, [];
    for i := 0 to |devices|
      invariant Offered(devices[..i], firmware.upgrades) == Ok(found)
    {
      assert devices[..i+1][..i] == devices[..i];
      if devices[i].updatable {
        match firmware.upgrades(devices[i].id) {
          case Err(e) =>
            FailedQueryStays(devices, i + 1, firmware.upgrades);
            return None;
          case Ok(more) => found := found + more;
        }
      }
    }
    assert devices[..|devices|] == devices;
    return Some(found);
  }

  lemma {:induction false} FailedQueryStays(devices: seq<FirmwareDevice>, i: nat, upgrades: Upgrades)
    requires i <= |devices| && Offered(devices[..i], upgrades).Err?
    ensures Offered(devices, upgrades) == Offered(devices[..i], upgrades)
    decreases |devices|
  {
    if i < |devices| {
      assert devices[..|devices|-1][..i] == devices[..i];
      FailedQueryStays(devices[..|devices|-1], i, upgrades);
    } else {
      assert devices[..i] == devices;
    }
  }

  /** run(): no source can make it fail. `calls` logs the SMART reads. */
  method Run(s: Sources) returns (report: Report, calls: seq<string>)
    ensures report.results == Results(s) && calls == SmartReads(s)
    ensures report.score == ScoreOf(Statuses(report.results))
    ensures report.measured == Measured(Statuses(report.results)) && report.total == 5
  {
    var wears := if s.battery.Some? && s.battery.value.Ok? then Some(s.battery.value.value) else None;
    var input := Collected(None, NotRequested, []);
    if s.includeStorage && s.storage.Some? {
      input := ReadStorage(s.storage.value);
    }
    calls := input.calls;
    var pending: Option<seq<bool>> := None;
    if s.firmware.Some? { pending := ReadFirmware(s.firmware.value); }
    var temps := if s.thermal.Some? && s.thermal.value.Ok? then Some(s.thermal.value.value) else None;
    var usages := if s.disk.Some? && s.disk.value.Ok? then Some(s.disk.value.value) else None;
    var battery := CheckBatteryWear(wears);
    var storage := CheckStorageHealth(input.reports, input.skip);
    var disk := CheckDiskSpace(usages);
    var results := [battery, storage, FirmwareResult(pending), ThermalResult(temps), disk];
    report := Report(results, ScoreOf(Statuses(results)), Measured(Statuses(results)), |results|);
    hide ScoreOf, Measured, Statuses, BatteryResult, StorageResult, FirmwareResult, ThermalResult, DiskResult;
  }

  // -- main results ---------------------------------------------------------

  const CHECK_IDS := [BatteryWear, StorageHealth, FirmwareCurrency, Thermal, DiskSpace]

  /** A result says why it was skipped exactly when it was, and then has low confidence and no evidence. */
  ghost predicate WellFormed(r: DiagnosticResult) {
    (r.status == Skipped <==> r.skip != NotSkipped) && (r.status == Skipped ==> r.metrics == [] && r.confidence == Low)
  }

  /** A well-formed result of `check` that is skipped as unavailable exactly when `missing`. */
  ghost predicate Reports(r: DiagnosticResult, check: CheckId, missing: bool) {
    r.check == check && WellFormed(r) && (r.skip == SourceUnavailable <==> missing)
  }

  lemma BatteryReports(wears: Option<seq<Battery>>)
    ensures Reports(BatteryResult(wears), BatteryWear, wears.None?)
  {
    hide WorstWear;
  }

  lemma StorageReports(reports: Option<seq<DriveReport>>, code: SkipCode)
    requires reports.None? ==> code != NotSkipped
    ensures Reports(StorageResult(reports, code), StorageHealth, reports.None? && code == SourceUnavailable)
    ensures StorageResult(reports, code).skip == Declined <==> reports.None? && code == Declined
  {
    hide StorageEvidence;
  }

  lemma FirmwareReports(pending: Option<seq<bool>>)
    ensures Reports(FirmwareResult(pending), FirmwareCurrency, pending.None?)
    ensures FirmwareResult(pending).status == Skipped <==> pending.None?
  {
  }

  lemma ThermalReports(temps: Option<seq<Reading>>)
    ensures Reports(ThermalResult(temps), Thermal, temps.None?)
  {
    hide Hottest, Filter;
  }

  lemma DiskReports(usages: Option<seq<Usage>>)
    ensures Reports(DiskResult(usages), DiskSpace, usages.None?)
  {
    hide DiskEvidence, LeastFree;
  }

  /** The five results by name. */
  lemma FiveResults(s: Sources)
    ensures |Results(s)| == 5
    ensures Reports(Results(s)[0], BatteryWear, Answer(s.battery).None?)
    ensures Reports(Results(s)[1], StorageHealth,
                    StorageInput(s).reports.None? && StorageInput(s).skip == SourceUnavailable)
    ensures Results(s)[1].skip == Declined <==> StorageInput(s).reports.None? && StorageInput(s).skip == Declined
    ensures Reports(Results(s)[2], FirmwareCurrency, PendingReleases(s).None?)
    ensures Results(s)[2].status == Skipped <==> PendingReleases(s).None?
    ensures Reports(Results(s)[3], Thermal, Answer(s.thermal).None?)
    ensures Reports(Results(s)[4], DiskSpace, Answer(s.disk).None?)
  {
    BatteryReports(Answer(s.battery));
    StorageReports(StorageInput(s).reports, StorageInput(s).skip);
    FirmwareReports(PendingReleases(s));
    ThermalReports(Answer(s.thermal));
    DiskReports(Answer(s.disk));
    hide BatteryResult, StorageResult, FirmwareResult, ThermalResult, DiskResult, Answer, StorageInput,
        PendingReleases, Reports;
  }

  /** For every behaviour of the sources: five results in CHECK_IDS order, each skipped one saying why. */
  lemma ResultsInOrder(s: Sources)
    ensures |Results(s)| == 5
    ensures forall i | 0 <= i < 5 :: Results(s)[i].check == CHECK_IDS[i] && WellFormed(Results(s)[i])
  {
    FiveResults(s);
    hide Results, WellFormed, Answer, StorageInput, PendingReleases;
  }

  /** A one-call source gave no answer. */
  predicate NoAnswer<T>(source: Option<Result<T, Error>>) { source.None? || source.value.Err? }

  /** The firmware source is absent, cannot list, or fails on the upgrades of some updatable device. */
  ghost predicate FirmwareFails(firmware: Option<Firmware>) {
    || firmware.None? || firmware.value.listed.Err?
    || exists d :: d in firmware.value.listed.value && d.updatable && firmware.value.upgrades(d.id).Err?
  }

  /** The upgrade queries fail as a whole exactly when one of an updatable device does. */
  lemma {:induction false} OfferedExactly(devices: seq<FirmwareDevice>, upgrades: Upgrades)
    ensures Offered(devices, upgrades).Err? <==> exists d :: d in devices && d.updatable && upgrades(d.id).Err?
  {
    if devices != [] {
      var init, last := devices[..|devices|-1], devices[|devices|-1];
      OfferedExactly(init, upgrades);
      assert forall d :: d in devices <==> d in init || d == last;
    }
  }

  /**
    Asking the storage source, when it is asked, raises `e` first: from the listing or from the
    first read that fails.
  */
  ghost predicate StorageRaises(s: Sources, e: Error) {
    && s.includeStorage && s.storage.Some?
    && var source := s.storage.value;
       if source.listed.Err? then source.listed.error == e
       else exists i ::
              FirstToFail(source.listed.value, source.read, i) && source.read(source.listed.value[i]) == Err(e)
  }

  ghost predicate FirstToFail(names: seq<string>, read: Read, i: int) {
    0 <= i < |names| && read(names[i]).Err? && forall k | 0 <= k < i :: read(names[k]).Ok?
  }

  lemma {:induction false} SomeFirstToFail(names: seq<string>, read: Read, n: nat)
    requires n <= |names| && exists i :: 0 <= i < n && read(names[i]).Err?
    ensures exists i :: FirstToFail(names, read, i)
  {
    if i :| 0 <= i < n - 1 && read(names[i]).Err? {
      SomeFirstToFail(names, read, n - 1);
    } else {
      assert FirstToFail(names, read, n - 1);
    }
  }

  lemma ReadAllExactly(names: seq<string>, read: Read, e: Error)
    ensures ReadAll(names, read) == Err(e) <==> exists i :: FirstToFail(names, read, i) && read(names[i]) == Err(e)
  {
    FirstFailureDecides(names, read);
    if ReadAll(names, read).Err? {
      SomeFirstToFail(names, read, |names|);
      var i :| FirstToFail(names, read, i);
      assert forall j | FirstToFail(names, read, j) :: j == i;
    }
  }

  /** What asking the storage source raises. */
  function StorageError(s: Sources): Option<Error> {
    if !s.includeStorage || s.storage.None? then None
    else if s.storage.value.listed.Err? then Some(s.storage.value.listed.error)
    else
      match ReadAll(s.storage.value.listed.value, s.storage.value.read)
      case Err(e) => Some(e)
      case Ok(_) => None
  }

  lemma StorageErrorExactly(s: Sources, e: Error)
    ensures StorageError(s) == Some(e) <==> StorageRaises(s, e)
  {
    if s.storage.Some? && s.storage.value.listed.Ok? {
      ReadAllExactly(s.storage.value.listed.value, s.storage.value.read, e);
    }
    hide ReadAll;
  }

  lemma StorageInputFollows(s: Sources)
    ensures StorageInput(s).reports.None? && StorageInput(s).skip == Declined <==>
              StorageError(s) == Some(PrivilegedActionDenied)
    ensures StorageInput(s).reports.None? && StorageInput(s).skip == SourceUnavailable <==>
              StorageError(s).Some? && StorageError(s) != Some(PrivilegedActionDenied)
  {
    hide ReadAll, Asked;
  }

  /** Storage health is skipped as declined exactly for a denial, and as unavailable exactly for any other failure. */
  lemma StorageSkipExactly(s: Sources)
    ensures Results(s)[1].skip == Declined <==> StorageRaises(s, PrivilegedActionDenied)
    ensures Results(s)[1].skip == SourceUnavailable <==> exists e :: e != PrivilegedActionDenied && StorageRaises(s, e)
  {
    FiveResults(s);
    StorageInputFollows(s);
    forall e ensures StorageError(s) == Some(e) <==> StorageRaises(s, e) { StorageErrorExactly(s, e); }
    hide Results, StorageInput, StorageError, StorageRaises, WellFormed, Answer, PendingReleases;
  }

  lemma PendingExactly(s: Sources)
    ensures PendingReleases(s).None? <==> FirmwareFails(s.firmware)
  {
    if s.firmware.Some? && s.firmware.value.listed.Ok? {
      OfferedExactly(s.firmware.value.listed.value, s.firmware.value.upgrades);
    }
    hide Offered;
  }

  lemma SkippedAreBare(s: Sources)
    ensures forall i | 0 <= i < 5 && Results(s)[i].skip != NotSkipped ::
              Results(s)[i] == SkippedResult(CHECK_IDS[i], Results(s)[i].skip)
  {
    ResultsInOrder(s);
    hide Results;
  }

  /**
    Each check is skipped as unavailable exactly when its own source fails, and the firmware check
    for no other reason.
  */
  lemma FailureSkipsItsCheck(s: Sources)
    ensures Results(s)[0].skip == SourceUnavailable <==> NoAnswer(s.battery)
    ensures Results(s)[1].skip == SourceUnavailable <==> exists e :: e != PrivilegedActionDenied && StorageRaises(s, e)
    ensures Results(s)[2].skip == SourceUnavailable <==> FirmwareFails(s.firmware)
    ensures Results(s)[2].status == Skipped <==> FirmwareFails(s.firmware)
    ensures Results(s)[3].skip == SourceUnavailable <==> NoAnswer(s.thermal)
    ensures Results(s)[4].skip == SourceUnavailable <==> NoAnswer(s.disk)
    ensures forall i | 0 <= i < 5 && Results(s)[i].skip != NotSkipped ::
              Results(s)[i] == SkippedResult(CHECK_IDS[i], Results(s)[i].skip)
  {
    FiveResults(s);
    StorageSkipExactly(s);
    PendingExactly(s);
    SkippedAreBare(s);
    hide Results, StorageInput, PendingReleases, StorageRaises, FirmwareFails;
  }

  /** Changing how one source behaves leaves the other four results as they were. */
  lemma SourcesAreIsolated(s: Sources, t: Sources)
    ensures t == s.(battery := t.battery) ==> Results(t) == Results(s)[0 := Results(t)[0]]
    ensures t == s.(storage := t.storage, includeStorage := t.includeStorage) ==>
              Results(t) == Results(s)[1 := Results(t)[1]]
    ensures t == s.(firmware := t.firmware) ==> Results(t) == Results(s)[2 := Results(t)[2]]
    ensures t == s.(thermal := t.thermal) ==> Results(t) == Results(s)[3 := Results(t)[3]]
    ensures t == s.(disk := t.disk) ==> Results(t) == Results(s)[4 := Results(t)[4]]
  {
    hide BatteryResult, StorageResult, FirmwareResult, ThermalResult, DiskResult, Offered, ReadAll;
  }

  /** The calls made are the device list cut after the first failure. */
  lemma {:induction false} AskedIsPrefix(names: seq<string>, read: Read)
    ensures Asked(names, read) <= names
    ensures forall i | 0 <= i < |Asked(names, read)| - 1 :: read(names[i]).Ok?
    ensures |Asked(names, read)| < |names| ==> Asked(names, read) != [] && read(names[|Asked(names, read)| - 1]).Err?
  {
    if names != [] {
      var init := names[..|names|-1];
      AskedIsPrefix(init, read);
      FirstFailureDecides(init, read);
    }
  }

  /** The privilege rule: no SMART read unless asked for. */
  lemma SmartReadsOnlyWhenAsked(s: Sources)
    ensures !s.includeStorage ==> SmartReads(s) == []
    ensures s.includeStorage && s.storage.Some? && s.storage.value.listed.Ok? ==>
              SmartReads(s) <= s.storage.value.listed.value
  {
    if s.storage.Some? && s.storage.value.listed.Ok? {
      AskedIsPrefix(s.storage.value.listed.value, s.storage.value.read);
    }
  }

  /** The first failing read decides. */
  lemma {:induction false} FirstFailureDecides(names: seq<string>, read: Read)
    ensures ReadAll(names, read).Err? <==> exists i :: 0 <= i < |names| && read(names[i]).Err?
    ensures forall i | 0 <= i < |names| && read(names[i]).Err? && (forall k | 0 <= k < i :: read(names[k]).Ok?) ::
              ReadAll(names, read) == Err(read(names[i]).error)
  {
    if names != [] {
      var init, last := names[..|names|-1], names[|names|-1];
      FirstFailureDecides(init, read);
      assert forall i | 0 <= i < |init| :: init[i] == names[i];
      if ReadAll(init, read).Err? {
        var i :| 0 <= i < |init| && read(init[i]).Err?;
        assert read(names[i]).Err?;
      }
    }
  }
}
