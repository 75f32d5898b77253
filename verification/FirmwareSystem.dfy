/**
  The firmware page over any scheduler that keeps the port's contract: jobs
  call back in any order, change signals and progress reports arrive at any
  time.  The page is proved single-flight and proved to lose no change notice,
  except at one kind of step that is characterized exactly.
*/
module FirmwareSystem {
  import opened Common
  import opened FirmwarePage
  import opened Pages

  /**
    `jobs`   submitted coroutines that still owe a callback
    `timers` GLib timeouts that have not fired
    `flight` the refresh or install that is under way
    `shown`  the last non-empty device list applied to the page
    `dirty`  a change signal arrived after the last gather was submitted
    `lost`   an install ended without a reload while a change was waiting for that reload
  */
  datatype Sys = Sys(
    page: Page,
    jobs: multiset<Task>,
    timers: nat,
    flight: Option<Task>,
    shown: seq<Row>,
    dirty: bool,
    lost: bool)

  datatype Event =
    // the user and the outside world
    | Load
    | ChangeSignal
    | TimerFires
    | RefreshClicked
    | InstallClicked(id: string, release: Release, level: Option<int>, threshold: Option<int>)
    | ProgressSignal(percentage: Option<nat>, status: string)
    // callbacks of submitted coroutines
    | Gathered(rows: seq<Row>)
    | GatherRaised(exc: Exc)
    | RefreshEnded
    | RefreshRaised(exc: Exc)
    | InstallEnded(id: string, release: Release)
    | InstallRaised(id: string, release: Release, exc: Exc)

  /** The job whose callback an event is. */
  function Callback(e: Event): Option<Task> {
    match e
    case Gathered(_) => Some(Gather)
    case GatherRaised(_) => Some(Gather)
    case RefreshEnded => Some(Refresh)
    case RefreshRaised(_) => Some(Refresh)
    case InstallEnded(id, release) => Some(Install(id, release))
    case InstallRaised(id, release, _) => Some(Install(id, release))
    case _ => None
  }

  function Handle(p: Page, e: Event): (Page, Effect) {
    match e
    case Load => OnLoad(p)
    case ChangeSignal => OnChanged(p)
    case TimerFires => OnReloadTimer(p)
    case RefreshClicked => OnRefreshRequest(p)
    case InstallClicked(id, release, level, threshold) => OnInstallRequest(p, id, release, level, threshold)
    case ProgressSignal(percentage, status) => OnProgress(p, percentage, status)
    case Gathered(rows) => OnGathered(p, rows)
    case GatherRaised(exc) => OnLoadFailed(p, exc)
    case RefreshEnded => OnRefreshDone(p)
    case RefreshRaised(exc) => OnRefreshFailed(p)
    case InstallEnded(_, release) => OnInstallDone(p, release)
    case InstallRaised(_, _, exc) => OnInstallFailed(p, exc)
  }

  ghost predicate Enabled(s: Sys, e: Event) {
    && (e.TimerFires? ==> s.timers > 0)
    && (Callback(e).Some? ==> Callback(e).value in s.jobs)
  }

  /** The outstanding jobs after a callback and an effect. */
  function NextJobs(jobs: multiset<Task>, callback: Option<Task>, effect: Effect): multiset<Task> {
    jobs - (if callback.Some? then multiset{callback.value} else multiset{})
         + (if effect.Submit? then multiset{effect.task} else multiset{})
  }

  function NextFlight(flight: Option<Task>, callback: Option<Task>, effect: Effect): Option<Task> {
    if effect.Submit? && effect.task != Gather then Some(effect.task)
    else if callback.Some? && callback.value != Gather then None
    else flight
  }

  /** An install ends on a branch that does not reload, while a change is waiting and no timer is set. */
  predicate Loses(s: Sys, e: Event) {
    && e.InstallRaised? && !e.exc.FirmwareInstallFailed?
    && s.dirty && !s.page.reloadPending
  }

  function Next(s: Sys, e: Event): Sys {
    var (page, effect) := Handle(s.page, e);
    var reloads := effect == Submit(Gather);
    Sys(page,
        NextJobs(s.jobs, Callback(e), effect),
        (if e.TimerFires? && s.timers > 0 then s.timers - 1 else s.timers) + (if effect.ArmTimer? then 1 else 0),
        NextFlight(s.flight, Callback(e), effect),
        if e.Gathered? && e.rows != [] then e.rows else s.shown,
        !reloads && (s.dirty || e.ChangeSignal?),
        !reloads && (s.lost || Loses(s, e)))
  }

  function Start(): Sys { Sys(NewPage(), multiset{}, 0, None, [], false, false) }

  ghost predicate Valid(s: Sys, es: seq<Event>)
    decreases |es|
  {
    es == [] || (Enabled(s, es[0]) && Valid(Next(s, es[0]), es[1..]))
  }

  ghost function After(s: Sys, es: seq<Event>): Sys
    requires Valid(s, es)
    decreases |es|
  {
    if es == [] then s else After(Next(s, es[0]), es[1..])
  }

  // -- the inductive invariant ----------------------------------------------

  /** The page's flags say which refresh or install is under way. */
  ghost predicate Flags(s: Sys) {
    && s.flight != Some(Gather)
    && (s.page.busyText != "" <==> s.flight.Some?)
    && (s.page.installing <==> s.flight.Some? && s.flight.value.Install?)
  }

  /** That one, once, is all that is outstanding besides gathers. */
  ghost predicate OnlyJob(jobs: multiset<Task>, flight: Option<Task>) {
    forall task: Task | task != Gather :: jobs[task] == if flight == Some(task) then 1 else 0
  }

  ghost predicate OneJob(s: Sys) { OnlyJob(s.jobs, s.flight) }

  ghost predicate SingleFlight(s: Sys) { Flags(s) && OneJob(s) }

  ghost predicate OneTimer(s: Sys) { s.timers == if s.page.reloadPending then 1 else 0 }

  ghost predicate Shows(s: Sys) {
    && s.page.cards == CardsOf(s.shown) && s.page.rebootBanner == RebootTitles(s.shown)
    && (s.page.state == Ready ==> s.shown != [])
  }

  ghost predicate Covered(s: Sys) {
    && (s.dirty ==> s.page.reloadPending || s.page.installing || s.lost)
    && (s.lost ==> s.dirty)
  }

  ghost predicate Inv(s: Sys) {
    SingleFlight(s) && OneTimer(s) && Shows(s) && Covered(s)
  }

  /** Only the job under way can end. */
  lemma EndsTheFlight(s: Sys, e: Event)
    requires OneJob(s) && Enabled(s, e) && Callback(e).Some? && Callback(e) != Some(Gather)
    ensures s.flight == Callback(e)
  {
    assert s.jobs[Callback(e).value] > 0;
  }

  lemma StepKeepsFlags(s: Sys, e: Event)
    requires Flags(s) && (Callback(e).Some? && Callback(e) != Some(Gather) ==> s.flight == Callback(e))
    ensures Flags(Next(s, e))
  {
    hide RefreshingText, InstallingText, ProgressText, BatteryOk, CardsOf, RebootTitles;
  }

  /** A submission is a gather, or finds nothing under way. */
  lemma SubmitsWhenIdle(s: Sys, e: Event)
    requires Flags(s) && Handle(s.page, e).1.Submit? && Handle(s.page, e).1.task != Gather
    ensures s.flight == None && Callback(e) == None
  {
  }

  lemma JobsFollowFlight(jobs: multiset<Task>, flight: Option<Task>, callback: Option<Task>, effect: Effect)
    requires OnlyJob(jobs, flight)
    requires callback.Some? ==> callback.value in jobs
    requires effect.Submit? && effect.task != Gather ==> flight == callback == None
    ensures OnlyJob(NextJobs(jobs, callback, effect), NextFlight(flight, callback, effect))
  {
  }

  lemma StepKeepsOneJob(s: Sys, e: Event)
    requires SingleFlight(s) && Enabled(s, e)
    ensures OneJob(Next(s, e))
  {
    var effect := Handle(s.page, e).1;
    if effect.Submit? && effect.task != Gather { SubmitsWhenIdle(s, e); }
    hide Handle, Callback, Flags, NextJobs, NextFlight;
    JobsFollowFlight(s.jobs, s.flight, Callback(e), effect);
  }

  lemma StepKeepsSingleFlight(s: Sys, e: Event)
    requires SingleFlight(s) && Enabled(s, e)
    ensures SingleFlight(Next(s, e))
  {
    StepKeepsOneJob(s, e);
    if Callback(e).Some? && Callback(e) != Some(Gather) { EndsTheFlight(s, e); }
    StepKeepsFlags(s, e);
  }

  lemma StepKeepsOneTimer(s: Sys, e: Event)
    requires OneTimer(s) && Enabled(s, e)
    ensures OneTimer(Next(s, e))
  {
    hide RefreshingText, InstallingText, ProgressText, BatteryOk, CardsOf, RebootTitles, NextJobs, NextFlight;
  }

  lemma StepKeepsShows(s: Sys, e: Event)
    requires Shows(s)
    ensures Shows(Next(s, e))
  {
    hide RefreshingText, InstallingText, ProgressText, BatteryOk, CardsOf, RebootTitles, NextJobs, NextFlight;
  }

  lemma StepKeepsCovered(s: Sys, e: Event)
    requires Covered(s)
    ensures Covered(Next(s, e))
  {
    hide RefreshingText, InstallingText, ProgressText, BatteryOk, CardsOf, RebootTitles, NextJobs, NextFlight;
  }

  lemma StepKeepsInv(s: Sys, e: Event)
    requires Inv(s) && Enabled(s, e)
    ensures Inv(Next(s, e))
  {
    StepKeepsSingleFlight(s, e);
    StepKeepsOneTimer(s, e);
    StepKeepsShows(s, e);
    StepKeepsCovered(s, e);
    hide SingleFlight, OneTimer, Shows, Covered, Enabled, Next;
  }

  lemma {:induction false} RunKeepsInv(s: Sys, es: seq<Event>)
    requires Inv(s) && Valid(s, es)
    ensures Inv(After(s, es))
    decreases |es|
  {
    if es != [] {
      StepKeepsInv(s, es[0]);
      RunKeepsInv(Next(s, es[0]), es[1..]);
    }
  }

  // -- main results ---------------------------------------------------------

  lemma StartInv()
    ensures Inv(Start())
  {
  }

  /**
    In every run: the page is busy exactly while one refresh or install owes its callback, it never has two
    of them, it is installing exactly while that one is an install, and at most one reload timer is pending.
  */
  lemma NeverTwoInFlight(es: seq<Event>)
    requires Valid(Start(), es)
    ensures var s := After(Start(), es);
            && |s.jobs[Gather := 0]| == (if s.page.busyText != "" then 1 else 0)
            && (s.page.installing <==> exists id, release :: Install(id, release) in s.jobs)
            && s.timers == (if s.page.reloadPending then 1 else 0)
            && (s.page.state == Ready ==> s.page.cards != [])
  {
    StartInv();
    RunKeepsInv(Start(), es);
    var s := After(Start(), es);
    FlightIsTheRest(s.jobs, s.flight);
    if s.page.installing {
      assert s.jobs[s.flight.value] == 1;
    }
    if id, release :| Install(id, release) in s.jobs {
      assert s.jobs[Install(id, release)] > 0;
    }
  }

  lemma FlightIsTheRest(jobs: multiset<Task>, flight: Option<Task>)
    requires OnlyJob(jobs, flight) && flight != Some(Gather)
    ensures jobs[Gather := 0] == multiset(Maybe(flight))
  {
    forall task ensures jobs[Gather := 0][task] == multiset(Maybe(flight))[task] {}
  }

  /**
    Step `k` of a run requested the install on an idle page, where the battery level was not known, or the threshold
    not set, or the level (a number up to 100) not below the threshold.
  */
  ghost predicate PassedAt(s: Sys, es: seq<Event>, k: nat, id: string, release: Release) {
    && k < |es| && Valid(s, es[..k])
    && es[k].InstallClicked? && es[k].id == id && es[k].release == release
    && (es[k].level.Some? && es[k].threshold.Some? && es[k].level.value <= 100 ==>
          es[k].level.value >= es[k].threshold.value)
    && After(s, es[..k]).page.busyText == ""
  }

  lemma PassedLater(s: Sys, es: seq<Event>, k: nat, id: string, release: Release)
    requires es != [] && Enabled(s, es[0]) && PassedAt(Next(s, es[0]), es[1..], k, id, release)
    ensures PassedAt(s, es, k + 1, id, release)
  {
    assert es[..k+1][0] == es[0] && es[..k+1][1..] == es[1..][..k];
    hide Next, Enabled;
  }

  /** A job that is new after a step was submitted by it. */
  lemma NewInstall(s: Sys, e: Event, id: string, release: Release)
    requires Install(id, release) in Next(s, e).jobs && Install(id, release) !in s.jobs
    ensures e.InstallClicked? && e.id == id && e.release == release
    ensures s.page.busyText == ""
    ensures e.level.Some? && e.threshold.Some? && e.level.value <= 100 ==> e.level.value >= e.threshold.value
  {
    var effect := Handle(s.page, e).1;
    assert effect == Submit(Install(id, release)) by { hide Handle, Callback; }
    if e.InstallClicked? { ClickInstalls(s.page, e.id, e.release, e.level, e.threshold); }
  }

  lemma {:induction false} InstallsPassed(s: Sys, es: seq<Event>, id: string, release: Release)
    requires Valid(s, es) && Install(id, release) in After(s, es).jobs && Install(id, release) !in s.jobs
    ensures exists k: nat :: PassedAt(s, es, k, id, release)
    decreases |es|
  {
    if es != [] {
      var t := Next(s, es[0]);
      if Install(id, release) in t.jobs {
        NewInstall(s, es[0], id, release);
        assert es[..0] == [];
        assert PassedAt(s, es, 0, id, release);
      } else {
        InstallsPassed(t, es[1..], id, release);
        var k: nat :| PassedAt(t, es[1..], k, id, release);
        PassedLater(s, es, k, id, release);
      }
    }
  }

  /** Every install ever submitted was requested on an idle page by a click that passed the battery check. */
  lemma InstallsPassedTheBatteryCheck(es: seq<Event>, id: string, release: Release)
    requires Valid(Start(), es) && Install(id, release) in After(Start(), es).jobs
    ensures exists k: nat :: PassedAt(Start(), es, k, id, release)
  {
    InstallsPassed(Start(), es, id, release);
  }

  /** A change notice nobody will act on: no timer will reload for it and no install will. */
  predicate Uncovered(s: Sys) { s.dirty && !s.page.reloadPending && !s.page.installing }

  /** A notice becomes uncovered exactly at a losing step: an install declined, or failed in an unclassified way. */
  lemma UncoveredExactlyByLoss(s: Sys, e: Event)
    requires Inv(s) && Enabled(s, e)
    ensures !Uncovered(s) && Uncovered(Next(s, e)) <==> Loses(s, e)
  {
    if e.InstallRaised? { EndsTheFlight(s, e); }
    hide RefreshingText, InstallingText, ProgressText, BatteryOk, CardsOf, RebootTitles, NextJobs, NextFlight, OneJob,
        Shows;
  }

  /** A step that sees to a waiting notice: it reloads, sets a timer, or starts an install. */
  predicate Recovers(s: Sys, e: Event) {
    var effect := Handle(s.page, e).1;
    effect == Submit(Gather) || effect == ArmTimer || (effect.Submit? && effect.task.Install?)
  }

  /** A waiting notice stays uncovered exactly until such a step. */
  lemma UncoveredUntilRecovery(s: Sys, e: Event)
    requires Inv(s) && Enabled(s, e) && Uncovered(s)
    ensures Uncovered(Next(s, e)) <==> !Recovers(s, e)
  {
    if Callback(e).Some? && Callback(e) != Some(Gather) { EndsTheFlight(s, e); }
    hide RefreshingText, InstallingText, ProgressText, BatteryOk, CardsOf, RebootTitles, NextJobs, NextFlight, OneJob,
        Shows, Loses;
  }

  ghost predicate NeverRecovers(s: Sys, es: seq<Event>)
    requires Valid(s, es)
    decreases |es|
  {
    es == [] || (!Recovers(s, es[0]) && NeverRecovers(Next(s, es[0]), es[1..]))
  }

  /** Some step loses a notice and no later one sees to it. */
  ghost predicate LosesForGood(s: Sys, es: seq<Event>)
    requires Valid(s, es)
    decreases |es|
  {
    es != [] &&
      ((Loses(s, es[0]) && NeverRecovers(Next(s, es[0]), es[1..])) || LosesForGood(Next(s, es[0]), es[1..]))
  }

  lemma {:induction false} StaysUncovered(s: Sys, es: seq<Event>)
    requires Inv(s) && Valid(s, es) && Uncovered(s)
    ensures Uncovered(After(s, es)) <==> NeverRecovers(s, es) || LosesForGood(s, es)
    decreases |es|
  {
    if es != [] {
      StepKeepsInv(s, es[0]);
      UncoveredUntilRecovery(s, es[0]);
      if Recovers(s, es[0]) {
        CoveredUntilLoss(Next(s, es[0]), es[1..]);
        assert !Loses(s, es[0]) by { LossesReload(s, es[0]); }
      } else {
        StaysUncovered(Next(s, es[0]), es[1..]);
      }
      hide Next, Loses, Recovers, Uncovered, Enabled, Inv;
    }
  }

  lemma LossesReload(s: Sys, e: Event)
    ensures Loses(s, e) ==> !Recovers(s, e)
  {
  }

  lemma {:induction false} CoveredUntilLoss(s: Sys, es: seq<Event>)
    requires Inv(s) && Valid(s, es) && !Uncovered(s)
    ensures Uncovered(After(s, es)) <==> LosesForGood(s, es)
    decreases |es|
  {
    if es != [] {
      StepKeepsInv(s, es[0]);
      UncoveredExactlyByLoss(s, es[0]);
      if Uncovered(Next(s, es[0])) {
        StaysUncovered(Next(s, es[0]), es[1..]);
      } else {
        CoveredUntilLoss(Next(s, es[0]), es[1..]);
      }
      hide Next, Loses, Recovers, Uncovered, Enabled, Inv;
    }
  }

  /**
    Over whole runs: a change notice ends up with nobody to act on it if and only if an install ended declined or
    unclassified while it waited, with no timer set, and no later step reloads, sets a timer or starts an install.
  */
  lemma ChangeIsLostExactly(es: seq<Event>)
    requires Valid(Start(), es)
    ensures Uncovered(After(Start(), es)) <==> LosesForGood(Start(), es)
  {
    StartInv();
    CoveredUntilLoss(Start(), es);
    hide After, Valid, LosesForGood, Inv;
  }

  /** How many steps of a run lose a change notice. */
  ghost function Losses(s: Sys, es: seq<Event>): nat
    requires Valid(s, es)
    decreases |es|
  {
    if es == [] then 0 else (if Loses(s, es[0]) then 1 else 0) + Losses(Next(s, es[0]), es[1..])
  }

  lemma {:induction false} NoLossFrom(s: Sys, es: seq<Event>)
    requires Inv(s) && Valid(s, es) && Losses(s, es) == 0 && !Uncovered(s)
    ensures !Uncovered(After(s, es))
    decreases |es|
  {
    if es != [] {
      StepKeepsInv(s, es[0]);
      UncoveredExactlyByLoss(s, es[0]);
      NoLossFrom(Next(s, es[0]), es[1..]);
    }
  }

  /** No change notice is lost in a run in which no install ends on the two branches that skip the reload. */
  lemma NoChangeLost(es: seq<Event>)
    requires Valid(Start(), es) && Losses(Start(), es) == 0
    ensures !Uncovered(After(Start(), es))
  {
    StartInv();
    NoLossFrom(Start(), es);
  }

  lemma ThreeSteps(s: Sys, e0: Event, e1: Event, e2: Event)
    requires Enabled(s, e0) && Enabled(Next(s, e0), e1) && Enabled(Next(Next(s, e0), e1), e2)
    ensures Valid(s, [e0, e1, e2]) && After(s, [e0, e1, e2]) == Next(Next(Next(s, e0), e1), e2)
  {
    hide Next, Enabled;
    var s1 := Next(s, e0);
    var s2 := Next(s1, e1);
    var one, two, three := [e2], [e1, e2], [e0, e1, e2];
    assert one[1..] == [] && two[1..] == one && three[1..] == two;
    assert Valid(Next(s2, e2), []) && After(Next(s2, e2), []) == Next(s2, e2);
    assert Valid(s2, one) && After(s2, one) == Next(s2, e2);
    assert Valid(s1, two) && After(s1, two) == Next(s2, e2);
  }

  /** The exception is real: a change signalled during an install that the user then declines. */
  lemma DeclinedInstallLosesChange(id: string, r: Release)
    ensures var es := [InstallClicked(id, r, None, None), ChangeSignal, InstallRaised(id, r, PrivilegedActionDenied)];
            && Valid(Start(), es)
            && var s := After(Start(), es);
               Uncovered(s) && s.jobs == multiset{} && s.timers == 0
  {
    var e0, e1, e2 := InstallClicked(id, r, None, None), ChangeSignal, InstallRaised(id, r, PrivilegedActionDenied);
    var s1 := InstallRuns(id, r);
    SignalIsHeldBack(s1);
    DeclineDropsIt(Next(s1, e1), id, r);
    assert Enabled(Start(), e0) && Enabled(s1, e1);
    hide Next, Enabled, Valid, After;
    ThreeSteps(Start(), e0, e1, e2);
  }

  /** The state after an install was started on a fresh page. */
  lemma InstallRuns(id: string, r: Release) returns (s: Sys)
    ensures s == Next(Start(), InstallClicked(id, r, None, None))
    ensures s.page.installing && !s.page.reloadPending && s.timers == 0 && s.jobs == multiset{Install(id, r)}
  {
    s := Next(Start(), InstallClicked(id, r, None, None));
    hide InstallingText;
  }

  lemma SignalIsHeldBack(s: Sys)
    requires s.page.installing
    ensures Next(s, ChangeSignal) == s.(dirty := true)
  {
    assert s.jobs - multiset{} + multiset{} == s.jobs;
  }

  lemma DeclineDropsIt(s: Sys, id: string, r: Release)
    requires s.dirty && !s.page.reloadPending && s.timers == 0 && s.jobs == multiset{Install(id, r)}
    ensures var e := InstallRaised(id, r, PrivilegedActionDenied);
            Enabled(s, e) && Uncovered(Next(s, e)) && Next(s, e).jobs == multiset{} && Next(s, e).timers == 0
  {
  }
}
