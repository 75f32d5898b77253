/**
  The firmware page's view-model: device cards, metadata refresh and the
  install flow.  Every handler runs on the GTK main thread; what it asks of the
  scheduler or of the GLib timeout queue is its `Effect`.
*/
module FirmwarePage {
  import opened Common
  import opened Pages
  import opened Text

  datatype UpdateState = Unknown | Pending | Success | Failed | FailedTransient | NeedsReboot

  /** Optional texts are "" when absent: the page treats both alike. */
  datatype Device = Device(
    id: string, name: string, vendor: string, plugin: string, version: string,
    updatable: bool, updateState: UpdateState, updateError: string)

  datatype Release = Release(version: string, name: string, summary: string)

  /** One gathered device; `degraded` when its upgrade query failed. */
  datatype Row = Row(device: Device, releases: seq<Release>, degraded: bool)

  datatype Card = Card(
    id: string, title: string, subtitle: string, versionText: string,
    updatable: bool, releases: seq<Release>, degraded: bool, updateError: string)

  datatype FlowBanner = NoBanner | BatteryTooLow(level: int, threshold: int) | InstallFailed(detail: string)

  datatype Toast = NoToast | MetadataRefreshed | RefreshFailed | UpdateCancelled

  datatype Task = Gather | Refresh | Install(deviceId: string, release: Release)

  datatype Effect = Quiet | Submit(task: Task) | ArmTimer

  datatype Page = Page(
    state: PageState,
    busyText: string,
    flowBanner: FlowBanner,
    rebootBanner: seq<string>,  // titles of the devices that wait for a reboot; none hides the banner
    result: Option<Release>,
    toast: Toast,
    reloadPending: bool,
    installing: bool,
    cards: seq<Card>)

  const PLACEHOLDER := "-"
  const UNKNOWN_BATTERY_LEVEL := 101

  function RefreshingText(): (text: string)
    ensures text != ""
  {
    "Refreshing update metadata"
  }

  function InstallingText(): (text: string)
    ensures text != ""
  {
    "Installing firmware update"
  }

  // -- gathering ------------------------------------------------------------

  type Upgrades = string -> Result<seq<Release>, Exc>

  /** One device's row: only updatable devices are asked, and only a LapcareError degrades. */
  function GatherRow(device: Device, upgrades: Upgrades): Result<Row, Exc> {
    if !device.updatable then Ok(Row(device, [], false))
    else match upgrades(device.id)
         case Ok(releases) => Ok(Row(device, releases, false))
         case Err(e) => if e.Unexpected? then Err(e) else Ok(Row(device, [], true))
  }

  function GatherRows(devices: seq<Device>, upgrades: Upgrades): Result<seq<Row>, Exc> {
    if devices == [] then Ok([])
    else
      match GatherRow(devices[0], upgrades)
      case Err(e) => Err(e)
      case Ok(row) =>
        match GatherRows(devices[1..], upgrades)
        case Err(e) => Err(e)
        case Ok(rows) => Ok([row] + rows)
  }

  /** _gather(): the device list is the page's core, one device's upgrade query is not. */
  method GatherDevices(listed: Result<seq<Device>, Exc>, upgrades: Upgrades) returns (r: Result<seq<Row>, Exc>)
    ensures listed.Err? ==> r == Err(listed.error)
    ensures listed.Ok? ==> r == GatherRows(listed.value, upgrades)
  {
    if listed.Err? { return Err(listed.error); }
    var devices := listed.value;
    var gathered: seq<Row> := [];
    assert devices[0..] == devices;
    assert forall rows: seq<Row> :: [] + rows == rows;
    for i := 0 to |devices|
      invariant GatherRows(devices, upgrades) == Prefixed(gathered, GatherRows(devices[i..], upgrades))
    {
      var releases, degraded := [], false;
      if devices[i].updatable {
        match upgrades(devices[i].id) {
          case Ok(offered) => releases := offered;
          case Err(e) =>
            if e.Unexpected? { return Err(e); }
            degraded := true;
        }
      }
      assert devices[i..][1..] == devices[i+1..];
      PrefixedTwice(gathered, [Row(devices[i], releases, degraded)], GatherRows(devices[i+1..], upgrades));
      gathered := gathered + [Row(devices[i], releases, degraded)];
    }
    assert gathered + [] == gathered;
    return Ok(gathered);
  }

  function Prefixed(rows: seq<Row>, r: Result<seq<Row>, Exc>): Result<seq<Row>, Exc> {
    match r
    case Err(e) => Err(e)
    case Ok(rest) => Ok(rows + rest)
  }

  lemma PrefixedTwice(a: seq<Row>, b: seq<Row>, r: Result<seq<Row>, Exc>)
    ensures Prefixed(a, Prefixed(b, r)) == Prefixed(a + b, r)
  {
    if r.Ok? {
      assert a + (b + r.value) == a + b + r.value;
    }
  }

  /** A LapcareError from one device's upgrade query changes that device's row and no other. */
  lemma {:induction false} OneDeviceDegradesAlone(devices: seq<Device>, before: Upgrades, after: Upgrades, id: string)
    requires forall d | d in devices && d.id != id :: before(d.id) == after(d.id)
    requires after(id).Err? ==> !after(id).error.Unexpected?
    requires GatherRows(devices, before).Ok?
    ensures GatherRows(devices, after).Ok?
    ensures var a, b := GatherRows(devices, after).value, GatherRows(devices, before).value;
            && |a| == |b| == |devices|
            && forall i | 0 <= i < |a| :: a[i].device == devices[i] && (devices[i].id != id ==> a[i] == b[i])
  {
    if devices != [] {
      OneDeviceDegradesAlone(devices[1..], before, after, id);
      assert devices[0] in devices;
    }
  }

  // -- cards ----------------------------------------------------------------

  function Joined(a: string, b: string): string {
    if a == "" then b else if b == "" then a else a + " \U{00B7} " + b
  }

  function CardOf(row: Row): Card {
    var d := row.device;
    Card(d.id, if d.name != "" then d.name else d.id, Joined(d.vendor, d.plugin),
         if d.version != "" then d.version else PLACEHOLDER,
         d.updatable, row.releases, row.degraded, d.updateError)
  }

  function CardsOf(rows: seq<Row>): seq<Card> {
    if rows == [] then [] else CardsOf(rows[..|rows|-1]) + [CardOf(rows[|rows|-1])]
  }

  predicate AwaitsReboot(row: Row) { row.device.updateState == NeedsReboot || row.device.updateState == Pending }

  function RebootTitles(rows: seq<Row>): seq<string> {
    if rows == [] then []
    else RebootTitles(rows[..|rows|-1]) + if AwaitsReboot(rows[|rows|-1]) then [CardOf(rows[|rows|-1]).title] else []
  }

  // -- handlers -------------------------------------------------------------

  function OnLoad(p: Page): (Page, Effect) { (p.(state := Loading), Submit(Gather)) }

  function OnLoadFailed(p: Page, e: Exc): (Page, Effect) { (p.(state := ErrorState(e)), Quiet) }

  function OnChanged(p: Page): (Page, Effect) {
    if p.reloadPending || p.installing then (p, Quiet) else (p.(reloadPending := true), ArmTimer)
  }

  function OnReloadTimer(p: Page): (Page, Effect) {
    (p.(reloadPending := false), if p.installing then Quiet else Submit(Gather))
  }

  function OnGathered(p: Page, rows: seq<Row>): (Page, Effect) {
    if rows == [] then (p.(state := Unavailable), Quiet)
    else (p.(cards := CardsOf(rows), rebootBanner := RebootTitles(rows), state := Ready), Quiet)
  }

  function OnRefreshRequest(p: Page): (Page, Effect) {
    if p.busyText != "" then (p, Quiet) else (p.(busyText := RefreshingText()), Submit(Refresh))
  }

  function OnRefreshDone(p: Page): (Page, Effect) {
    (p.(busyText := "", toast := MetadataRefreshed), Submit(Gather))
  }

  function OnRefreshFailed(p: Page): (Page, Effect) {
    (p.(busyText := "", toast := RefreshFailed), Quiet)
  }

  /** core.firmware_policy: an unreadable level or an unset threshold never blocks. */
  predicate BatteryOk(level: Option<int>, threshold: Option<int>) {
    level.None? || level.value >= UNKNOWN_BATTERY_LEVEL || threshold.None? || level.value >= threshold.value
  }

  function OnInstallRequest(p: Page, id: string, release: Release, level: Option<int>, threshold: Option<int>)
    : (Page, Effect)
  {
    if p.busyText != "" then (p, Quiet)
    else if !BatteryOk(level, threshold) then
      (p.(flowBanner := BatteryTooLow(level.value, threshold.value)), Quiet)
    else
      (p.(flowBanner := NoBanner, result := None, installing := true, busyText := InstallingText()),
       Submit(Install(id, release)))
  }

  function OnProgress(p: Page, percentage: Option<nat>, status: string): (Page, Effect) {
    if !p.installing then (p, Quiet) else (p.(busyText := ProgressText(percentage, status)), Quiet)
  }

  function OnInstallDone(p: Page, release: Release): (Page, Effect) {
    (p.(installing := false, busyText := "", result := Some(release)), Submit(Gather))
  }

  function OnInstallFailed(p: Page, e: Exc): (Page, Effect) {
    var q := p.(installing := false, busyText := "");
    match e
    case PrivilegedActionDenied => (q.(toast := UpdateCancelled), Quiet)
    case FirmwareInstallFailed(detail) => (q.(flowBanner := InstallFailed(detail)), Submit(Gather))
    case _ => (q.(state := ErrorState(e)), Quiet)
  }

  // -- progress text --------------------------------------------------------

  function Upper(c: char): char { if 'a' <= c <= 'z' then c - 'a' + 'A' else c }

  function Lower(c: char): char { if 'A' <= c <= 'Z' then c - 'A' + 'a' else c }

  function Capitalized(s: string): string
    requires s != ""
  {
    [Upper(s[0])] + seq(|s| - 1, i requires 0 <= i < |s| - 1 => Lower(s[i+1]))
  }

  function ProgressText(percentage: Option<nat>, status: string): (text: string)
    ensures text != ""
  {
    var base := if status == "" then InstallingText() else Capitalized(status);
    if percentage.Some? then base + " \U{00B7} " + Decimal(percentage.value) + "%" else base
  }

  // -- the object -----------------------------------------------------------

  class FirmwareViewModel {
    var state: PageState
    var busyText: string
    var flowBanner: FlowBanner
    var rebootBanner: seq<string>
    var result: Option<Release>
    var toast: Toast
    var reloadPending: bool
    var installing: bool
    var cards: seq<Card>

    ghost function View(): Page
      reads this
    {
      Page(state, busyText, flowBanner, rebootBanner, result, toast, reloadPending, installing, cards)
    }

    constructor ()
      ensures View() == NewPage()
    {
      state, busyText, flowBanner, rebootBanner, result := Loading, "", NoBanner, [], None;
      toast, reloadPending, installing, cards := NoToast, false, false, [];
    }

    method Load() returns (effect: Effect)
      modifies this
      ensures (View(), effect) == OnLoad(old(View()))
    {
      state := Loading;
      effect := Submit(Gather);
    }

    method HandleError(e: Exc)
      modifies this`state
      ensures View() == old(View()).(state := ErrorState(e))
    {
      match e {
        case ProviderUnavailable => state := Unavailable;
        case _ => state := Error;
      }
    }

    method LoadFailed(e: Exc) returns (effect: Effect)
      modifies this
      ensures (View(), effect) == OnLoadFailed(old(View()), e)
    {
      HandleError(e);
      effect := Quiet;
    }

    method Changed() returns (effect: Effect)
      modifies this
      ensures (View(), effect) == OnChanged(old(View()))
    {
      if reloadPending || installing { return Quiet; }
      reloadPending := true;
      effect := ArmTimer;
    }

    method ReloadTimer() returns (effect: Effect)
      modifies this
      ensures (View(), effect) == OnReloadTimer(old(View()))
    {
      reloadPending := false;
      effect := Quiet;
      if !installing { effect := Submit(Gather); }
    }

    method Apply(rows: seq<Row>) returns (effect: Effect)
      modifies this
      ensures (View(), effect) == OnGathered(old(View()), rows)
    {
      effect := Quiet;
      if rows == [] {
        state := Unavailable;
        return;
      }
      var newCards: seq<Card> := [];
      var titles: seq<string> := [];
      for i := 0 to |rows|
        invariant newCards == CardsOf(rows[..i]) && titles == RebootTitles(rows[..i])
        invariant View() == old(View())
      {
        assert rows[..i+1][..i] == rows[..i];
        var card := CardOf(rows[i]);
        newCards := newCards + [card];
        if AwaitsReboot(rows[i]) { titles := titles + [card.title]; }
      }
      assert rows[..|rows|] == rows;
      cards := newCards;
      rebootBanner := titles;
      state := Ready;
    }

    method RefreshMetadata() returns (effect: Effect)
      modifies this
      ensures (View(), effect) == OnRefreshRequest(old(View()))
    {
      if busyText != "" { return Quiet; }
      busyText := RefreshingText();
      effect := Submit(Refresh);
    }

    method RefreshDone() returns (effect: Effect)
      modifies this
      ensures (View(), effect) == OnRefreshDone(old(View()))
    {
      busyText := "";
      toast := MetadataRefreshed;
      effect := Submit(Gather);
    }

    method RefreshHasFailed() returns (effect: Effect)
      modifies this
      ensures (View(), effect) == OnRefreshFailed(old(View()))
    {
      busyText := "";
      toast := RefreshFailed;
      effect := Quiet;
    }

    method RequestInstall(id: string, release: Release, level: Option<int>, threshold: Option<int>)
      returns (effect: Effect)
      modifies this
      ensures (View(), effect) == OnInstallRequest(old(View()), id, release, level, threshold)
    {
      if busyText != "" { return Quiet; }
      if !BatteryOk(level, threshold) {
        flowBanner := BatteryTooLow(level.value, threshold.value);
        return Quiet;
      }
      flowBanner := NoBanner;
      result := None;
      installing := true;
      busyText := InstallingText();
      effect := Submit(Install(id, release));
    }

    method Progress(percentage: Option<nat>, status: string) returns (effect: Effect)
      modifies this
      ensures (View(), effect) == OnProgress(old(View()), percentage, status)
    {
      effect := Quiet;
      if !installing { return; }
      busyText := ProgressText(percentage, status);
    }

    method InstallDone(release: Release) returns (effect: Effect)
      modifies this
      ensures (View(), effect) == OnInstallDone(old(View()), release)
    {
      installing := false;
      busyText := "";
      result := Some(release);
      effect := Submit(Gather);
    }

    method InstallHasFailed(e: Exc) returns (effect: Effect)
      modifies this
      ensures (View(), effect) == OnInstallFailed(old(View()), e)
    {
      installing := false;
      busyText := "";
      match e {
        case PrivilegedActionDenied =>
          toast := UpdateCancelled;
          effect := Quiet;
        case FirmwareInstallFailed(detail) =>
          flowBanner := InstallFailed(detail);
          effect := Submit(Gather);
        case _ =>
          HandleError(e);
          effect := Quiet;
      }
    }
  }

  function NewPage(): Page { Page(Loading, "", NoBanner, [], None, NoToast, false, false, []) }

  // -- what the handlers come to --------------------------------------------

  /**
    A click on an idle page submits the install unless the battery level is known to be below the threshold; a level
    above 100 is no reading. A blocked click only raises the banner with both numbers, and a busy page ignores it.
  */
  lemma ClickInstalls(p: Page, id: string, release: Release, level: Option<int>, threshold: Option<int>)
    ensures var (q, effect) := OnInstallRequest(p, id, release, level, threshold);
            var tooLow := level.Some? && threshold.Some? && level.value <= 100 && level.value < threshold.value;
            && (effect == Submit(Install(id, release)) <==> p.busyText == "" && !tooLow)
            && (effect != Submit(Install(id, release)) ==> effect == Quiet)
            && (p.busyText != "" ==> q == p)
            && (p.busyText == "" && tooLow ==> q == p.(flowBanner := BatteryTooLow(level.value, threshold.value)))
            && (effect == Submit(Install(id, release)) ==>
                  q.busyText != "" &&
                  q == p.(flowBanner := NoBanner, result := None, installing := true, busyText := q.busyText))
  {
  }

  /** A gathering fails exactly when the query of an updatable device raises something that is no LapcareError. */
  lemma {:induction false} GatherFailsExactly(devices: seq<Device>, upgrades: Upgrades)
    ensures GatherRows(devices, upgrades).Err? <==>
            exists d :: d in devices && d.updatable && upgrades(d.id) == Err(Unexpected)
  {
    if devices != [] {
      GatherFailsExactly(devices[1..], upgrades);
      assert forall d :: d in devices <==> d == devices[0] || d in devices[1..];
    }
  }

  /** The name a device goes by. */
  ghost function TitleOf(d: Device): string { if |d.name| > 0 then d.name else d.id }

  /** What the card of a device shows, given what its query answered. */
  ghost predicate ShowsDevice(card: Card, d: Device, answer: Result<seq<Release>, Exc>) {
    && card.id == d.id && card.title == TitleOf(d) && card.updatable == d.updatable && card.updateError == d.updateError
    && card.versionText == (if |d.version| > 0 then d.version else "-")
    && card.subtitle == (if |d.vendor| > 0 && |d.plugin| > 0 then d.vendor + " \U{00B7} " + d.plugin
                         else d.vendor + d.plugin)
    && card.releases == (if d.updatable && answer.Ok? then answer.value else [])
    && (card.degraded <==> d.updatable && answer.Err?)
  }

  predicate Restarts(d: Device) { match d.updateState case NeedsReboot => true case Pending => true case _ => false }

  lemma {:induction false} RowsFollowDevices(devices: seq<Device>, upgrades: Upgrades)
    requires GatherRows(devices, upgrades).Ok?
    ensures var rows := GatherRows(devices, upgrades).value;
            && |rows| == |devices|
            && forall i | 0 <= i < |rows| ::
                 && rows[i].device == devices[i]
                 && ShowsDevice(CardOf(rows[i]), devices[i], upgrades(devices[i].id))
  {
    if devices != [] {
      RowsFollowDevices(devices[1..], upgrades);
      RowShown(devices[0], upgrades);
      hide CardOf, ShowsDevice, GatherRow;
    }
  }

  lemma RowShown(d: Device, upgrades: Upgrades)
    requires GatherRow(d, upgrades).Ok?
    ensures GatherRow(d, upgrades).value.device == d
    ensures ShowsDevice(CardOf(GatherRow(d, upgrades).value), d, upgrades(d.id))
  {
    assert d.vendor + [] == d.vendor && [] + d.plugin == d.plugin;
  }

  lemma {:induction false} CardsFollowRows(rows: seq<Row>)
    ensures |CardsOf(rows)| == |rows| && forall i | 0 <= i < |rows| :: CardsOf(rows)[i] == CardOf(rows[i])
  {
    if rows != [] { CardsFollowRows(rows[..|rows|-1]); }
  }

  /** The titles of the devices that wait for a restart, in order. */
  lemma {:induction false} TitlesFollowDevices(rows: seq<Row>, devices: seq<Device>)
    requires |rows| == |devices| && forall i | 0 <= i < |rows| :: rows[i].device == devices[i]
    ensures var waiting := Filter(Restarts, devices);
            && |RebootTitles(rows)| == |waiting|
            && forall k | 0 <= k < |waiting| :: RebootTitles(rows)[k] == TitleOf(waiting[k])
  {
    if rows != [] {
      var rest, last := devices[..|devices|-1], devices[|devices|-1];
      TitlesFollowDevices(rows[..|rows|-1], rest);
      assert devices == rest + [last];
      RestartsOneMore(rest, last);
      hide Filter, TitleOf;
      assert CardOf(rows[|rows|-1]).title == TitleOf(last) by { TitleIsShown(rows[|rows|-1]); }
      assert AwaitsReboot(rows[|rows|-1]) <==> Restarts(last);
      hide CardOf, AwaitsReboot, Restarts;
    }
  }

  lemma RestartsOneMore(rest: seq<Device>, last: Device)
    ensures Filter(Restarts, rest + [last]) == Filter(Restarts, rest) + if Restarts(last) then [last] else []
  {
    FilterConcat(Restarts, rest, [last]);
    assert Filter(Restarts, [last]) == if Restarts(last) then [last] else [];
  }

  lemma TitleIsShown(row: Row)
    ensures CardOf(row).title == TitleOf(row.device)
  {
  }

  /**
    What a gathering puts on the page: one card per device, in order, with its releases when its query answered and
    marked as degraded when it did not; and a banner of exactly the devices that wait for a restart.
  */
  lemma GatheringIsShown(p: Page, devices: seq<Device>, upgrades: Upgrades)
    requires devices != [] && GatherRows(devices, upgrades).Ok?
    ensures var q := OnGathered(p, GatherRows(devices, upgrades).value).0;
            var waiting := Filter(Restarts, devices);
            && q == p.(state := Ready, cards := q.cards, rebootBanner := q.rebootBanner)
            && |q.cards| == |devices|
            && (forall i | 0 <= i < |devices| :: ShowsDevice(q.cards[i], devices[i], upgrades(devices[i].id)))
            && |q.rebootBanner| == |waiting|
            && forall k | 0 <= k < |waiting| :: q.rebootBanner[k] == TitleOf(waiting[k])
  {
    RowsFollowDevices(devices, upgrades);
    CardsFollowRows(GatherRows(devices, upgrades).value);
    TitlesFollowDevices(GatherRows(devices, upgrades).value, devices);
    hide GatherRows, CardsOf, CardOf, ShowsDevice, RebootTitles, Filter, TitleOf;
  }

  /** Only an unavailable source makes the page unavailable, and only an error that is not a known outcome shows. */
  lemma EndingsAreTold(p: Page, e: Exc)
    ensures OnLoadFailed(p, e) == (p.(state := if e == ProviderUnavailable then Unavailable else Error), Quiet)
    ensures OnRefreshFailed(p) == (p.(busyText := "", toast := RefreshFailed), Quiet)
    ensures var (q, effect) := OnInstallFailed(p, e);
            && !q.installing && q.busyText == "" && q.cards == p.cards && q.result == p.result
            && (effect == Submit(Gather) <==> e.FirmwareInstallFailed?)
            && (q.state != p.state ==> e != PrivilegedActionDenied && !e.FirmwareInstallFailed?)
            && (e == PrivilegedActionDenied ==> q.toast == UpdateCancelled && q.flowBanner == p.flowBanner)
            && (e != PrivilegedActionDenied ==> q.toast == p.toast)
            && (e.FirmwareInstallFailed? ==> q.flowBanner == InstallFailed(e.detail))
            && (e == ProviderUnavailable ==> q.state == Unavailable)
            && (e == ProviderTimeout || e == ProviderParseError || e == Unexpected ==> q.state == Error)
  {
  }

  /** `c` is the letter `d`, made upper or lower case if it is one of the 26 letters of ASCII. */
  ghost predicate SameLetter(c: char, d: char, upper: bool) {
    if upper && 'a' <= d <= 'z' then c as int == d as int - 32
    else if !upper && 'A' <= d <= 'Z' then c as int == d as int + 32
    else c == d
  }

  lemma CapitalizedLetters(s: string)
    requires s != ""
    ensures |Capitalized(s)| == |s|
    ensures forall k | 0 <= k < |s| :: SameLetter(Capitalized(s)[k], s[k], k == 0)
  {
  }

  /** The status, capitalized, or the text an install starts with when there is none. */
  ghost predicate TellsStatus(text: string, status: string) {
    if status == "" then text == InstallingText()
    else |text| == |status| && forall k | 0 <= k < |text| :: SameLetter(text[k], status[k], k == 0)
  }

  /** Nothing without a percentage, and otherwise a separator and the percentage in digits. */
  ghost predicate TellsPercentage(text: string, percentage: Option<nat>) {
    if percentage.None? then text == ""
    else
      && |text| >= 4 && text[..3] == " \U{00B7} " && text[|text|-1] == '%'
      && IsNumeral(text[3..|text|-1]) && ValueOf(text[3..|text|-1]) == percentage.value
  }

  lemma PercentageTold(n: nat)
    ensures TellsPercentage(" \U{00B7} " + Decimal(n) + "%", Some(n))
  {
    DigitsReadBack(n);
    var text := " \U{00B7} " + Decimal(n) + "%";
    assert text[3..|text|-1] == Decimal(n);
    hide Digits, ValueOf, IsNumeral;
  }

  lemma StatusTold(status: string)
    ensures TellsStatus(if status == "" then InstallingText() else Capitalized(status), status)
  {
    if status != "" { CapitalizedLetters(status); }
    hide InstallingText, Capitalized, SameLetter;
  }

  lemma Regroup(a: string, b: string, c: string, d: string)
    ensures a + b + c + d == a + (b + c + d)
    ensures (a + (b + c + d))[..|a|] == a && (a + (b + c + d))[|a|..] == b + c + d
    ensures a[..|a|] == a && a[|a|..] == ""
  {
  }

  /** Progress during an install changes the busy text alone, to the status and the percentage. */
  lemma ProgressIsTold(p: Page, percentage: Option<nat>, status: string)
    requires p.installing
    ensures var (q, effect) := OnProgress(p, percentage, status);
            && effect == Quiet && q == p.(busyText := q.busyText)
            && exists n :: 0 <= n <= |q.busyText| && TellsStatus(q.busyText[..n], status)
                           && TellsPercentage(q.busyText[n..], percentage)
  {
    var base := if status == "" then InstallingText() else Capitalized(status);
    StatusTold(status);
    if percentage.Some? {
      PercentageTold(percentage.value);
      Regroup(base, " \U{00B7} ", Decimal(percentage.value), "%");
    } else {
      Regroup(base, "", "", "");
    }
    hide TellsStatus, TellsPercentage, Decimal, Capitalized, InstallingText;
  }
}
