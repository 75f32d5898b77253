/**
  What a run reports, from the answers of its sources: each result, measured or skipped, in the capacities, drive
  reports, offered releases, degrees and sizes the sources gave.
*/
module DiagnosticsVerdicts {
  import opened Common
  import opened BatteryAnalysis
  import opened Checks
  import opened Score
  import opened DiagnosticsRun

  /** Every read answers. */
  ghost predicate AllRead(names: seq<string>, read: Read) { forall name | name in names :: read(name).Ok? }

  /** The reports of the devices, in order. */
  ghost function ReportsOf(names: seq<string>, read: Read): seq<DriveReport>
    requires AllRead(names, read)
  {
    seq(|names|, i requires 0 <= i < |names| => read(names[i]).value)
  }

  lemma {:induction false} AllReadGivesAll(names: seq<string>, read: Read)
    requires AllRead(names, read)
    ensures ReadAll(names, read) == Ok(ReportsOf(names, read))
  {
    if names != [] {
      var init := names[..|names|-1];
      AllReadGivesAll(init, read);
      assert ReportsOf(names, read) == ReportsOf(init, read) + [read(names[|names|-1]).value];
    }
  }

  /** Every query of an updatable device answers. */
  ghost predicate AllAnswer(devices: seq<FirmwareDevice>, upgrades: Upgrades) {
    forall d | d in devices && d.updatable :: upgrades(d.id).Ok?
  }

  /** The releases on offer, device by device. */
  ghost function OnOffer(devices: seq<FirmwareDevice>, upgrades: Upgrades): seq<bool>
    requires AllAnswer(devices, upgrades)
  {
    if devices == [] then []
    else (if devices[0].updatable then upgrades(devices[0].id).value else []) + OnOffer(devices[1..], upgrades)
  }

  lemma {:induction false} OnOfferOneMore(init: seq<FirmwareDevice>, last: FirmwareDevice, upgrades: Upgrades)
    requires AllAnswer(init + [last], upgrades)
    ensures OnOffer(init + [last], upgrades)
         == OnOffer(init, upgrades) + if last.updatable then upgrades(last.id).value else []
  {
    var all := init + [last];
    if init == [] {
      assert all == [last] && all[1..] == [];
    } else {
      assert all[0] == init[0] && all[1..] == init[1..] + [last];
      OnOfferOneMore(init[1..], last, upgrades);
    }
  }

  lemma {:induction false} OfferedIsOnOffer(devices: seq<FirmwareDevice>, upgrades: Upgrades)
    requires AllAnswer(devices, upgrades)
    ensures Offered(devices, upgrades) == Ok(OnOffer(devices, upgrades))
  {
    if devices != [] {
      var init, last := devices[..|devices|-1], devices[|devices|-1];
      OfferedIsOnOffer(init, upgrades);
      OnOfferOneMore(init, last, upgrades);
      assert init + [last] == devices;
      assert OnOffer(init, upgrades) + [] == OnOffer(init, upgrades);
      hide OnOffer;
    }
  }

  lemma {:induction false} OnOfferMembers(devices: seq<FirmwareDevice>, upgrades: Upgrades)
    requires AllAnswer(devices, upgrades)
    ensures |OnOffer(devices, upgrades)| == 0 <==>
            forall d | d in devices && d.updatable :: |upgrades(d.id).value| == 0
    ensures true in OnOffer(devices, upgrades) <==>
            exists d :: d in devices && d.updatable && true in upgrades(d.id).value
  {
    if devices != [] {
      var first, rest := devices[0], devices[1..];
      OnOfferMembers(rest, upgrades);
      assert forall d :: d in devices <==> d == first || d in rest;
      var own := if first.updatable then upgrades(first.id).value else [];
      assert OnOffer(devices, upgrades) == own + OnOffer(rest, upgrades);
      assert true in OnOffer(devices, upgrades) <==> true in own || true in OnOffer(rest, upgrades);
      hide OnOffer;
    }
  }

  // -- main results ---------------------------------------------------------

  /** The battery result of a run whose battery source answers. */
  lemma BatteryIsReported(s: Sources, bs: seq<Battery>)
    requires s.battery == Some(Ok(bs))
    ensures BatteryFindings(Results(s)[0], bs)
  {
    BatteryVerdict(bs);
    hide BatteryResult, BatteryFindings, StorageInput, PendingReleases;
  }

  /** The storage result of a run that asks for it and whose drives all answer. */
  lemma StorageIsReported(s: Sources, names: seq<string>)
    requires s.includeStorage && s.storage.Some? && s.storage.value.listed == Ok(names)
    requires AllRead(names, s.storage.value.read)
    ensures StorageFindings(Results(s)[1], ReportsOf(names, s.storage.value.read))
  {
    AllReadGivesAll(names, s.storage.value.read);
    StorageVerdict(ReportsOf(names, s.storage.value.read), NotRequested);
    hide StorageResult, StorageFindings, PendingReleases, ReadAll, Asked, ReportsOf;
  }

  /** It is skipped as not requested exactly when it was not, or there is no source to ask. */
  lemma StorageNotRequested(s: Sources)
    ensures Results(s)[1].skip == NotRequested <==> !s.includeStorage || s.storage.None?
  {
    hide BatteryResult, PendingReleases, ReadAll, Asked, StorageEvidence;
  }

  /**
    The firmware result of a run whose firmware queries all answer: nothing to warn of exactly when no updatable
    device is offered a release, critical exactly when one is offered a critical release, and a warning otherwise.
    The evidence counts the releases on offer.
  */
  lemma FirmwareIsReported(s: Sources, devices: seq<FirmwareDevice>, upgrades: Upgrades)
    requires s.firmware == Some(Firmware(Ok(devices), upgrades)) && AllAnswer(devices, upgrades)
    ensures var r := Results(s)[2];
            && r.check == FirmwareCurrency && r.skip == NotSkipped && r.confidence == Medium && r.status != Skipped
            && (r.status == Fine <==> forall d | d in devices && d.updatable :: |upgrades(d.id).value| == 0)
            && (r.status == Critical <==> exists d :: d in devices && d.updatable && true in upgrades(d.id).value)
            && (r.status == Fine ==> r.metrics == [])
            && (r.status != Fine ==> r.metrics == [Metric(PendingUpdates, Count(|OnOffer(devices, upgrades)|))])
  {
    OfferedIsOnOffer(devices, upgrades);
    OnOfferMembers(devices, upgrades);
    FirmwareVerdict(OnOffer(devices, upgrades));
    hide BatteryResult, StorageInput, Offered, OnOffer, FirmwareResult;
  }

  /** One low-urgency release on one device is a warning, and one critical release is critical. */
  lemma UrgencyDecides(s: Sources, device: FirmwareDevice, critical: bool)
    requires s.firmware.Some? && s.firmware.value.listed == Ok([device]) && device.updatable
    requires s.firmware.value.upgrades(device.id) == Ok([critical])
    ensures Results(s)[2].status == if critical then Critical else Warning
  {
    FirmwareIsReported(s, [device], s.firmware.value.upgrades);
    assert device in [device];
    hide Results;
  }

  /** The thermal result of a run whose sensors answer. */
  lemma ThermalIsReported(s: Sources, temps: seq<Reading>)
    requires s.thermal == Some(Ok(temps))
    ensures ThermalFindings(Results(s)[3], temps)
  {
    ThermalVerdict(temps);
    hide ThermalResult, ThermalFindings, StorageInput, PendingReleases;
  }

  /** The disk result of a run whose disk source answers. */
  lemma DiskIsReported(s: Sources, us: seq<Usage>)
    requires s.disk == Some(Ok(us))
    ensures DiskFindings(Results(s)[4], us)
  {
    DiskVerdict(us);
    hide DiskResult, DiskFindings, StorageInput, PendingReleases;
  }
}
