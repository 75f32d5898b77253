/**
  The storage page: one privileged health read at a time over all devices,
  given up as a whole when asking again would not help, merged into the cards
  by device name.
*/
module StoragePage {
  import opened Common
  import opened Pages
  import opened SmartJson
  import opened SmartHelper

  datatype Summary = NotRead | Failing | Healthy | NotReported

  datatype HealthRow =
    | NumberRow(caption: string, n: int)
    | TextRow(caption: string, text: string)
    | NotesRow(notes: seq<string>)

  datatype StorageCard = StorageCard(
    name: string, title: string, subtitle: string,
    summary: Summary, failed: bool, rows: seq<HealthRow>, degraded: bool)

  datatype Device = Device(name: string, title: string, subtitle: string)

  /** One device of a finished read; no report means its read degraded. */
  datatype HealthResult = HealthResult(name: string, report: Option<SmartReport>)

  datatype Toast = NoToast | ReadCancelled | NeedsTool(tool: string) | ReadFailed

  datatype Task = ListDevices | ReadHealth(names: seq<string>)

  datatype Effect = Quiet | Submit(task: Task)

  datatype Page = Page(state: PageState, busy: bool, toast: Toast, cards: seq<StorageCard>)

  // -- the read -------------------------------------------------------------

  /** Asking for the next device would fail the same way. */
  predicate Hopeless(e: ReadError) { e.Denied? || e.Unavailable? }

  type Reader = string -> Result<SmartReport, ReadError>

  function GatherHealth(names: seq<string>, read: Reader): Result<seq<HealthResult>, ReadError> {
    if names == [] then Ok([])
    else
      var last := names[|names|-1];
      match GatherHealth(names[..|names|-1], read)
      case Err(e) => Err(e)
      case Ok(results) =>
        match read(last)
        case Ok(report) => Ok(results + [HealthResult(last, Some(report))])
        case Err(e) => if Hopeless(e) then Err(e) else Ok(results + [HealthResult(last, None)])
  }

  lemma {:induction false} GaveUpStays(names: seq<string>, i: nat, read: Reader)
    requires i <= |names| && GatherHealth(names[..i], read).Err?
    ensures GatherHealth(names, read) == GatherHealth(names[..i], read)
    decreases |names|
  {
    if i < |names| {
      assert names[..|names|-1][..i] == names[..i];
      GaveUpStays(names[..|names|-1], i, read);
    } else {
      assert names[..i] == names;
    }
  }

  /** _gather_health(); `calls` logs the devices asked. */
  method Gather(names: seq<string>, read: Reader) returns (r: Result<seq<HealthResult>, ReadError>, calls: seq<string>)
    ensures r == GatherHealth(names, read)
    ensures r.Ok? ==> calls == names
    ensures r.Err? ==> calls != [] && calls <= names && read(calls[|calls|-1]) == Err(r.error)
    ensures forall i | 0 <= i < |calls| - 1 :: read(calls[i]).Ok? || !Hopeless(read(calls[i]).error)
  {
    var results: seq<HealthResult> := [];
    calls := [];
    for i := 0 to |names|
      invariant GatherHealth(names[..i], read) == Ok(results) && calls == names[..i]
      invariant forall k | 0 <= k < i :: read(names[k]).Ok? || !Hopeless(read(names[k]).error)
    {
      assert names[..i+1][..i] == names[..i];
      assert names[..i+1] == calls + [names[i]];
      calls := calls + [names[i]];
      match read(names[i]) {
        case Ok(report) => results := results + [HealthResult(names[i], Some(report))];
        case Err(e) =>
          if Hopeless(e) {
            GaveUpStays(names, i + 1, read);
            return Err(e), calls;
          }
          results := results + [HealthResult(names[i], None)];
      }
    }
    assert names[..|names|] == names;
    r := Ok(results);
  }

  /** The read answered, or failed for this device alone: it timed out or could not be understood. */
  ghost predicate Worthwhile(r: Result<SmartReport, ReadError>) { r.Ok? || r.error.Timeout? || r.error.ParseError? }

  function ResultOf(name: string, r: Result<SmartReport, ReadError>): HealthResult {
    HealthResult(name, if r.Ok? then Some(r.value) else None)
  }

  function ResultsOf(names: seq<string>, read: Reader): seq<HealthResult> {
    seq(|names|, i requires 0 <= i < |names| => ResultOf(names[i], read(names[i])))
  }

  /** A read in which nothing is hopeless has one result per device; a failed read costs only its own report. */
  lemma {:induction false} WholeRead(names: seq<string>, read: Reader)
    requires forall i | 0 <= i < |names| :: Worthwhile(read(names[i]))
    ensures GatherHealth(names, read) == Ok(ResultsOf(names, read))
  {
    if names == [] {
      assert ResultsOf(names, read) == [];
    } else {
      var n := |names| - 1;
      WholeRead(names[..n], read);
      assert Worthwhile(read(names[n]));
      assert ResultsOf(names, read) == ResultsOf(names[..n], read) + [ResultOf(names[n], read(names[n]))];
    }
  }

  /** Device `i` is the first whose failure is hopeless. */
  ghost predicate GivesUpAt(names: seq<string>, read: Reader, i: nat) {
    i < |names| && !Worthwhile(read(names[i])) && forall k | 0 <= k < i :: Worthwhile(read(names[k]))
  }

  lemma GivenUpRead(names: seq<string>, read: Reader, i: nat)
    requires GivesUpAt(names, read, i)
    ensures GatherHealth(names, read) == Err(read(names[i]).error)
  {
    WholeRead(names[..i], read);
    assert names[..i+1][..i] == names[..i];
    GaveUpStays(names, i + 1, read);
  }

  lemma {:induction false} SomeGivesUp(names: seq<string>, read: Reader, n: nat)
    requires n <= |names| && exists i :: 0 <= i < n && !Worthwhile(read(names[i]))
    ensures exists i: nat :: GivesUpAt(names, read, i)
  {
    if i :| 0 <= i < n - 1 && !Worthwhile(read(names[i])) {
      SomeGivesUp(names, read, n - 1);
    } else {
      assert GivesUpAt(names, read, n - 1);
    }
  }

  /** The whole read raises exactly when some device's failure is hopeless, and then the first such failure. */
  lemma GatherExactly(names: seq<string>, read: Reader, e: ReadError)
    ensures GatherHealth(names, read) == Err(e)
            <==> exists i: nat :: GivesUpAt(names, read, i) && read(names[i]) == Err(e)
  {
    if exists i :: 0 <= i < |names| && !Worthwhile(read(names[i])) {
      SomeGivesUp(names, read, |names|);
      var i: nat :| GivesUpAt(names, read, i);
      GivenUpRead(names, read, i);
      assert forall j: nat | GivesUpAt(names, read, j) :: j == i;
    } else {
      WholeRead(names, read);
    }
    hide GatherHealth;
  }

  // -- the merge ------------------------------------------------------------

  function SummaryOf(r: SmartReport): Summary {
    match r.passed case None => NotReported case Some(passed) => if passed then Healthy else Failing
  }

  function Number(caption: string, n: Option<int>): seq<HealthRow> {
    if n.Some? then [NumberRow(caption, n.value)] else []
  }

  /** _health_rows(): a row for each value that was read. */
  function RowsOf(r: SmartReport): seq<HealthRow> {
    Number("Temperature", r.temperatureC) + Number("Rated endurance used", r.percentageUsed)
    + Number("Spare capacity available", r.availableSparePct) + Number("Media errors", r.mediaErrors)
    + Number("Reallocated sectors", r.reallocatedSectors) + Number("Sectors pending reallocation", r.pendingSectors)
    + Number("Powered on", r.powerOnHours) + Number("Power cycles", r.powerCycles)
    + Number("Unsafe shutdowns", r.unsafeShutdowns)
    + (if r.firmwareVersion.Some? then [TextRow("Firmware", r.firmwareVersion.value)] else [])
    + if r.messages != [] then [NotesRow(r.messages)] else []
  }

  /** The result of a device; the last one counts when a name occurs twice. */
  function ResultFor(results: seq<HealthResult>, name: string): Option<HealthResult> {
    if results == [] then None
    else if results[|results|-1].name == name then Some(results[|results|-1])
    else ResultFor(results[..|results|-1], name)
  }

  function Merged(card: StorageCard, results: seq<HealthResult>): StorageCard {
    match ResultFor(results, card.name)
    case None => card.(degraded := false)
    case Some(result) =>
      match result.report
      case None => card.(degraded := true)
      case Some(report) =>
        card.(degraded := false, summary := SummaryOf(report), failed := report.passed == Some(false),
              rows := RowsOf(report))
  }

  function MergedCards(cards: seq<StorageCard>, results: seq<HealthResult>): seq<StorageCard> {
    seq(|cards|, i requires 0 <= i < |cards| => Merged(cards[i], results))
  }

  function CardOf(d: Device): StorageCard { StorageCard(d.name, d.title, d.subtitle, NotRead, false, [], false) }

  function Names(cards: seq<StorageCard>): seq<string> {
    seq(|cards|, i requires 0 <= i < |cards| => cards[i].name)
  }

  // -- handlers -------------------------------------------------------------

  function OnLoad(p: Page): (Page, Effect) { (p.(state := Loading), Submit(ListDevices)) }

  function OnListed(p: Page, devices: seq<Device>): (Page, Effect) {
    if devices == [] then (p.(state := PageState.Unavailable), Quiet)
    else (p.(state := Ready, cards := seq(|devices|, i requires 0 <= i < |devices| => CardOf(devices[i]))), Quiet)
  }

  function OnReadClicked(p: Page): (Page, Effect) {
    if p.busy || p.cards == [] then (p, Quiet) else (p.(busy := true), Submit(ReadHealth(Names(p.cards))))
  }

  function OnHealthDone(p: Page, results: seq<HealthResult>): (Page, Effect) {
    (p.(busy := false, state := Ready, cards := MergedCards(p.cards, results)), Quiet)
  }

  /** None of these is an error page: the cards stay. */
  function OnHealthFailed(p: Page, e: ReadError): (Page, Effect) {
    var toast := match e case Denied => ReadCancelled case Unavailable(tool) => NeedsTool(tool) case _ => ReadFailed;
    (p.(busy := false, toast := toast), Quiet)
  }

  class StorageViewModel {
    var state: PageState
    var busy: bool
    var toast: Toast
    var cards: seq<StorageCard>

    function View(): Page
      reads this
    {
      Page(state, busy, toast, cards)
    }

    constructor ()
      ensures View() == Page(Loading, false, NoToast, [])
    {
      state, busy, toast, cards := Loading, false, NoToast, [];
    }

    method Load() returns (effect: Effect)
      modifies this
      ensures (View(), effect) == OnLoad(old(View()))
    {
      state := Loading;
      effect := Submit(ListDevices);
    }

    method Apply(devices: seq<Device>) returns (effect: Effect)
      modifies this
      ensures (View(), effect) == OnListed(old(View()), devices)
    {
      effect := Quiet;
      if devices == [] {
        state := PageState.Unavailable;
        return;
      }
      cards := seq(|devices|, i requires 0 <= i < |devices| => CardOf(devices[i]));
      state := Ready;
    }

    method Read() returns (effect: Effect)
      modifies this
      ensures (View(), effect) == OnReadClicked(old(View()))
    {
      if busy || cards == [] { return Quiet; }
      busy := true;
      effect := Submit(ReadHealth(Names(cards)));
    }

    method HealthDone(results: seq<HealthResult>) returns (effect: Effect)
      modifies this
      ensures (View(), effect) == OnHealthDone(old(View()), results)
    {
      busy := false;
      ghost var before := cards;
      for i := 0 to |cards|
        invariant state == old(state) && toast == old(toast) && !busy && |cards| == |before|
        invariant forall k | 0 <= k < |cards| :: cards[k] == if k < i then Merged(before[k], results) else before[k]
      {
        var card := cards[i];
        var result := ResultFor(results, card.name);
        hide ResultFor, RowsOf, SummaryOf;
        card := card.(degraded := result.Some? && result.value.report.None?);
        if result.Some? && result.value.report.Some? {
          var report := result.value.report.value;
          card := card.(summary := SummaryOf(report), failed := report.passed == Some(false), rows := RowsOf(report));
        }
        cards := cards[i := card];
      }
      assert cards == MergedCards(before, results);
      state := Ready;
      effect := Quiet;
    }

    method HealthFailed(e: ReadError) returns (effect: Effect)
      modifies this
      ensures (View(), effect) == OnHealthFailed(old(View()), e)
    {
      busy := false;
      match e {
        case Denied => toast := ReadCancelled;
        case Unavailable(tool) => toast := NeedsTool(tool);
        case _ => toast := ReadFailed;
      }
      effect := Quiet;
    }
  }

  // -- runs -----------------------------------------------------------------

  /** `pending` are the health reads that still owe a callback, `lists` the device listings. */
  datatype Sys = Sys(page: Page, lists: nat, pending: seq<seq<string>>)

  datatype Event =
    | LoadPage
    | ReadClicked
    | Listed(devices: seq<Device>)
    | ListRaised(exc: Exc)
    | HealthRead(results: seq<HealthResult>)
    | HealthRaised(error: ReadError)

  predicate Enabled(s: Sys, e: Event) {
    match e
    case Listed(_) => s.lists > 0
    case ListRaised(_) => s.lists > 0
    case HealthRead(_) => s.pending != []
    case HealthRaised(_) => s.pending != []
    case _ => true
  }

  function Handle(p: Page, e: Event): (Page, Effect) {
    match e
    case LoadPage => OnLoad(p)
    case ReadClicked => OnReadClicked(p)
    case Listed(devices) => OnListed(p, devices)
    case ListRaised(exc) => (p.(state := ErrorState(exc)), Quiet)
    case HealthRead(results) => OnHealthDone(p, results)
    case HealthRaised(error) => OnHealthFailed(p, error)
  }

  function Next(s: Sys, e: Event): Sys
    requires Enabled(s, e)
  {
    var (page, effect) := Handle(s.page, e);
    Sys(page,
        s.lists + (if effect == Submit(ListDevices) then 1 else 0) - (if e.Listed? || e.ListRaised? then 1 else 0),
        (if e.HealthRead? || e.HealthRaised? then s.pending[1..] else s.pending)
        + if effect.Submit? && effect.task.ReadHealth? then [effect.task.names] else [])
  }

  ghost predicate Valid(s: Sys, es: seq<Event>)
    decreases |es|
  {
    es != [] ==> Enabled(s, es[0]) && Valid(Next(s, es[0]), es[1..])
  }

  ghost function After(s: Sys, es: seq<Event>): Sys
    requires Valid(s, es)
    decreases |es|
  {
    if es == [] then s else After(Next(s, es[0]), es[1..])
  }

  ghost predicate SingleRead(s: Sys) { |s.pending| == if s.page.busy then 1 else 0 }

  /** A card that was never read shows nothing of a report. */
  ghost predicate Unread(c: StorageCard) { c.summary == NotRead ==> c.rows == [] && !c.failed }

  ghost predicate Inv(s: Sys) {
    SingleRead(s) && (forall c | c in s.page.cards :: Unread(c) && (c.failed <==> c.summary == Failing))
  }

  lemma MergedStays(c: StorageCard, results: seq<HealthResult>)
    requires Unread(c) && (c.failed <==> c.summary == Failing)
    ensures var m := Merged(c, results); Unread(m) && (m.failed <==> m.summary == Failing)
  {
  }

  lemma StepKeepsInv(s: Sys, e: Event)
    requires Inv(s) && Enabled(s, e)
    ensures Inv(Next(s, e))
  {
    if e.HealthRead? {
      forall i | 0 <= i < |s.page.cards|
        ensures var m := Merged(s.page.cards[i], e.results); Unread(m) && (m.failed <==> m.summary == Failing)
      {
        MergedStays(s.page.cards[i], e.results);
      }
    }
    hide Merged;
  }

  lemma {:induction false} RunKeepsInv(s: Sys, es: seq<Event>)
    requires Inv(s) && Valid(s, es)
    ensures Inv(After(s, es))
    decreases |es|
  {
    if es != [] {
      StepKeepsInv(s, es[0]);
      RunKeepsInv(Next(s, es[0]), es[1..]);
    }
  }

  function Start(): Sys { Sys(Page(Loading, false, NoToast, []), 0, []) }

  /** In every run: one read at a time, exactly while busy, and a card is styled as failing exactly when it says so. */
  lemma OneReadAtATime(es: seq<Event>)
    requires Valid(Start(), es)
    ensures var s := After(Start(), es);
            && |s.pending| == (if s.page.busy then 1 else 0)
            && forall c | c in s.page.cards ::
                 && (c.failed <==> c.summary == Failing)
                 && (c.summary == NotRead ==> c.rows == [])
  {
    RunKeepsInv(Start(), es);
    hide After, Valid;
  }

  /**
    A finished read of a page's own devices: a device that answered shows its report, one that failed keeps what
    it showed before, marked as degraded, and no card moves or is renamed.
  */
  lemma ReadIsMerged(p: Page, read: Reader, i: nat)
    requires i < |p.cards| && GatherHealth(Names(p.cards), read).Ok?
    ensures var before, answer := p.cards[i], read(p.cards[i].name);
            var q := OnHealthDone(p, GatherHealth(Names(p.cards), read).value).0;
            var cards := q.cards;
            && q == p.(busy := false, state := Ready, cards := cards) && |cards| == |p.cards|
            && cards[i] == if answer.Ok?
                           then before.(summary := SummaryOf(answer.value), rows := RowsOf(answer.value),
                                        failed := answer.value.passed == Some(false), degraded := false)
                           else before.(degraded := true)
  {
    var names := Names(p.cards);
    var results := GatherHealth(names, read).value;
    forall k | 0 <= k < |names| ensures Worthwhile(read(names[k])) {
      if !Worthwhile(read(names[k])) {
        SomeGivesUp(names, read, |names|);
        var j: nat :| GivesUpAt(names, read, j);
        GivenUpRead(names, read, j);
      }
    }
    WholeRead(names, read);
    assert results == ResultsOf(names, read);
    assert results[i] == ResultOf(names[i], read(names[i]));
    ResultForName(names, read, results, i);
    hide GatherHealth, ResultFor, RowsOf, SummaryOf;
  }

  lemma {:induction false} ResultForName(names: seq<string>, read: Reader, results: seq<HealthResult>, i: nat)
    requires |results| == |names| && forall k | 0 <= k < |names| :: results[k] == ResultOf(names[k], read(names[k]))
    requires i < |names|
    ensures ResultFor(results, names[i]) == Some(ResultOf(names[i], read(names[i])))
  {
    var n := |names| - 1;
    if names[n] != names[i] {
      ResultForName(names[..n], read, results[..n], i);
    }
  }

  /** The rows of the fields that were read, in order. */
  ghost function NumberRows(fields: seq<(string, Option<int>)>): seq<HealthRow> {
    if fields == [] then []
    else
      (match fields[0].1 case Some(n) => [NumberRow(fields[0].0, n)] case None => []) + NumberRows(fields[1..])
  }

  lemma OneMoreField(caption: string, n: Option<int>, fields: seq<(string, Option<int>)>)
    ensures NumberRows([(caption, n)] + fields) == Number(caption, n) + NumberRows(fields)
  {
    assert ([(caption, n)] + fields)[1..] == fields;
  }

  ghost function FieldsOf(r: SmartReport): seq<(string, Option<int>)> {
    [("Temperature", r.temperatureC)] + ([("Rated endurance used", r.percentageUsed)]
    + ([("Spare capacity available", r.availableSparePct)] + ([("Media errors", r.mediaErrors)]
    + ([("Reallocated sectors", r.reallocatedSectors)] + ([("Sectors pending reallocation", r.pendingSectors)]
    + ([("Powered on", r.powerOnHours)] + ([("Power cycles", r.powerCycles)]
    + ([("Unsafe shutdowns", r.unsafeShutdowns)] + []))))))))
  }

  lemma NineInOrder(
      a: seq<HealthRow>, b: seq<HealthRow>, c: seq<HealthRow>, d: seq<HealthRow>, e: seq<HealthRow>,
      f: seq<HealthRow>, g: seq<HealthRow>, h: seq<HealthRow>, i: seq<HealthRow>)
    ensures a + (b + (c + (d + (e + (f + (g + (h + (i + [])))))))) == a + b + c + d + e + f + g + h + i
  {
  }

  lemma NumbersInOrder(r: SmartReport)
    ensures NumberRows(FieldsOf(r)) ==
            Number("Temperature", r.temperatureC) + Number("Rated endurance used", r.percentageUsed)
            + Number("Spare capacity available", r.availableSparePct) + Number("Media errors", r.mediaErrors)
            + Number("Reallocated sectors", r.reallocatedSectors)
            + Number("Sectors pending reallocation", r.pendingSectors)
            + Number("Powered on", r.powerOnHours) + Number("Power cycles", r.powerCycles)
            + Number("Unsafe shutdowns", r.unsafeShutdowns)
  {
    var f9: seq<(string, Option<int>)> := [];
    assert NumberRows(f9) == [];
    hide NumberRows, Number;
    OneMoreField("Unsafe shutdowns", r.unsafeShutdowns, f9);
    var f8 := [("Unsafe shutdowns", r.unsafeShutdowns)] + f9;
    OneMoreField("Power cycles", r.powerCycles, f8);
    var f7 := [("Power cycles", r.powerCycles)] + f8;
    OneMoreField("Powered on", r.powerOnHours, f7);
    var f6 := [("Powered on", r.powerOnHours)] + f7;
    OneMoreField("Sectors pending reallocation", r.pendingSectors, f6);
    var f5 := [("Sectors pending reallocation", r.pendingSectors)] + f6;
    OneMoreField("Reallocated sectors", r.reallocatedSectors, f5);
    var f4 := [("Reallocated sectors", r.reallocatedSectors)] + f5;
    OneMoreField("Media errors", r.mediaErrors, f4);
    var f3 := [("Media errors", r.mediaErrors)] + f4;
    OneMoreField("Spare capacity available", r.availableSparePct, f3);
    var f2 := [("Spare capacity available", r.availableSparePct)] + f3;
    OneMoreField("Rated endurance used", r.percentageUsed, f2);
    var f1 := [("Rated endurance used", r.percentageUsed)] + f2;
    OneMoreField("Temperature", r.temperatureC, f1);
    NineInOrder(Number("Temperature", r.temperatureC), Number("Rated endurance used", r.percentageUsed),
                Number("Spare capacity available", r.availableSparePct), Number("Media errors", r.mediaErrors),
                Number("Reallocated sectors", r.reallocatedSectors),
                Number("Sectors pending reallocation", r.pendingSectors), Number("Powered on", r.powerOnHours),
                Number("Power cycles", r.powerCycles), Number("Unsafe shutdowns", r.unsafeShutdowns));
  }

  /** A report on its card: what the drive says of itself, a row for each value that was read, and the notes. */
  lemma ReportIsShown(r: SmartReport)
    ensures SummaryOf(r) == Failing <==> r.passed == Some(false)
    ensures SummaryOf(r) == Healthy <==> r.passed == Some(true)
    ensures SummaryOf(r) == NotReported <==> r.passed == None
    ensures RowsOf(r) == NumberRows(FieldsOf(r))
                         + (match r.firmwareVersion case Some(text) => [TextRow("Firmware", text)] case None => [])
                         + if |r.messages| > 0 then [NotesRow(r.messages)] else []
  {
    NumbersInOrder(r);
    hide NumberRows, FieldsOf, Number;
  }

  /** A listing gives each device an unread card, in order; a failed read keeps the page and tells why. */
  lemma ListingIsShown(p: Page, devices: seq<Device>)
    requires devices != []
    ensures var (q, effect) := OnListed(p, devices);
            && effect == Quiet && q == p.(state := Ready, cards := q.cards) && |q.cards| == |devices|
            && forall i | 0 <= i < |devices| ::
                 var c := q.cards[i];
                 && c.name == devices[i].name && c.title == devices[i].title && c.subtitle == devices[i].subtitle
                 && c.summary == NotRead && !c.failed && c.rows == [] && !c.degraded
  {
  }

  lemma FailureIsTold(p: Page, e: ReadError)
    ensures var (q, effect) := OnHealthFailed(p, e);
            && effect == Quiet && q == p.(busy := false, toast := q.toast)
            && (e == Denied ==> q.toast == ReadCancelled)
            && (e.Unavailable? ==> q.toast == NeedsTool(e.tool))
            && (e.Timeout? || e.ParseError? ==> q.toast == ReadFailed)
  {
  }
}
