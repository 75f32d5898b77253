/**
  The firmware page running on the thread scheduler against a changing machine:
  fwupd's devices change at any time, change signals travel to the main loop,
  and gathers read the devices on the loop thread.  Once everything has drained,
  the page shows what the machine looks like now.
*/
module FirmwareFreshness {
  import opened Common
  import opened Scheduling
  import opened SchedulerRuns
  import opened FirmwarePage
  import opened Pages
  import FS = FirmwareSystem

  /** What a coroutine returns: a gather returns the rows it read when the devices were at version `at`. */
  datatype Value = Rows(at: nat, rows: seq<Row>) | Done

  datatype Failure = Failure(at: nat, exc: Exc)

  type Pipe = Pipeline<Task, Value, Failure>

  type PageCall = Call<Task, Value, Failure>

  /**
    `version`    counts the changes fwupd's devices have gone through
    `signals`    change signals on their way to the main loop
    `seen`       the version the last finished gather read
    `unread`     the devices changed before live updates were on, or were never read, and no gather was submitted since
  */
  datatype World = World(
    sys: FS.Sys,
    pipe: Pipe,
    version: nat,
    signals: nat,
    subscribed: bool,
    seen: Option<nat>,
    unread: bool)

  datatype Move =
    | DeviceChange
    | SpuriousSignal
    | Subscribe
    | Interact(event: FS.Event, awaits: nat)
    | RunCallback(awaits: nat)
    | Background(step: Step<Task, Value, Failure>)

  /** Gathers and refreshes never suspend; an install hops to a worker thread. */
  function Awaits(task: Task, awaits: nat): nat { if task.Install? then awaits else 0 }

  /** The page event that delivering a call is. */
  function EventOf(c: PageCall): FS.Event {
    match c.outcome
    case Success(v) =>
      (match c.job.task
       case Gather => FS.Gathered(if v.Rows? then v.rows else [])
       case Refresh => FS.RefreshEnded
       case Install(id, release) => FS.InstallEnded(id, release))
    case Raised(f) =>
      (match c.job.task
       case Gather => FS.GatherRaised(f.exc)
       case Refresh => FS.RefreshRaised(f.exc)
       case Install(id, release) => FS.InstallRaised(id, release, f.exc))
  }

  /** The version a call's coroutine read, if it is a gather. */
  predicate ReadAt(c: PageCall, version: nat) {
    match c.outcome
    case Success(v) => v.Rows? && v.at == version
    case Raised(f) => f.at == version
  }

  predicate Possible(w: World, m: Move) {
    match m
    case DeviceChange => true
    case SpuriousSignal => w.subscribed
    case Subscribe => true
    case Interact(e, _) =>
      w.pipe.registering.None? && FS.Callback(e).None? && (e.TimerFires? ==> w.sys.timers > 0)
      && (e.ChangeSignal? ==> w.signals > 0)
    case RunCallback(_) => w.pipe.registering.None? && w.pipe.idle != []
    case Background(step) =>
      && (step.Attach? || step.Begin? || step.Suspend? || step.Wake? || step.Finish?)
      && Enabled(w.pipe, step)
      && (step.Finish? && w.pipe.ready[0].job.task == Gather ==>
            ReadAt(Call(w.pipe.ready[0].job, step.outcome), w.version))
  }

  function PostEffect(pipe: Pipe, effect: Effect, awaits: nat): Pipe {
    if effect.Submit? then Posted(pipe, effect.task, Awaits(effect.task, awaits)) else pipe
  }

  /** The main thread handles an event; what the handler submits is posted to the loop thread. */
  function React(w: World, pipe: Pipe, e: FS.Event, awaits: nat): World {
    var effect := FS.Handle(w.sys.page, e).1;
    w.(sys := FS.Next(w.sys, e),
       pipe := PostEffect(pipe, effect, awaits),
       unread := w.unread && effect != Submit(Gather))
  }

  function Moved(w: World, m: Move): World
    requires Possible(w, m)
  {
    match m
    case DeviceChange =>
      w.(version := w.version + 1,
         signals := if w.subscribed then w.signals + 1 else w.signals,
         unread := w.unread || !w.subscribed)
    case SpuriousSignal => w.(signals := w.signals + 1)
    case Subscribe => w.(subscribed := true)
    case Interact(e, awaits) =>
      React(if e.ChangeSignal? then w.(signals := w.signals - 1) else w, w.pipe, e, awaits)
    case RunCallback(awaits) => React(w, Delivered(w.pipe), EventOf(w.pipe.idle[0]), awaits)
    case Background(step) =>
      var gathers := step.Finish? && w.pipe.ready[0].job.task == Gather;
      w.(pipe := Next(w.pipe, step), seen := if gathers then Some(w.version) else w.seen)
  }

  function Opening(): World {
    World(FS.Start(), Started(Initial()), 0, 0, false, None, true)
  }

  ghost predicate Run(w: World, ms: seq<Move>)
    decreases |ms|
  {
    ms == [] || (Possible(w, ms[0]) && Run(Moved(w, ms[0]), ms[1..]))
  }

  ghost function RunTo(w: World, ms: seq<Move>): World
    requires Run(w, ms)
    decreases |ms|
  {
    if ms == [] then w else RunTo(Moved(w, ms[0]), ms[1..])
  }

  // -- the page's outstanding jobs are the contract's ------------------------

  /** How many jobs of a bag run `task`. */
  ghost function Running(bag: multiset<Job<Task>>, task: Task): nat
    decreases |bag|
  {
    if bag == multiset{} then 0
    else var j :| j in bag; Running(bag - multiset{j}, task) + (if j.task == task then 1 else 0)
  }

  lemma RemoveTwo(bag: multiset<Job<Task>>, j: Job<Task>, k: Job<Task>)
    ensures bag - multiset{j} - multiset{k} == bag - multiset{k} - multiset{j}
    ensures j in bag && k != j ==> j in bag - multiset{k}
    ensures bag + multiset{j} - multiset{j} == bag
  {
  }

  lemma {:induction false} RunningWithout(bag: multiset<Job<Task>>, j: Job<Task>, task: Task)
    requires j in bag
    ensures Running(bag, task) == Running(bag - multiset{j}, task) + (if j.task == task then 1 else 0)
    decreases |bag|
  {
    var k :| k in bag && Running(bag, task) == Running(bag - multiset{k}, task) + (if k.task == task then 1 else 0);
    if k != j {
      RemoveTwo(bag, j, k);
      RemoveTwo(bag, k, j);
      RunningWithout(bag - multiset{k}, j, task);
      RunningWithout(bag - multiset{j}, k, task);
      hide Running;
    }
  }

  lemma RunningWith(bag: multiset<Job<Task>>, j: Job<Task>, task: Task)
    ensures Running(bag + multiset{j}, task) == Running(bag, task) + (if j.task == task then 1 else 0)
  {
    RunningWithout(bag + multiset{j}, j, task);
    RemoveTwo(bag, j, j);
  }

  ghost predicate Matches(jobs: multiset<Task>, bag: multiset<Job<Task>>) {
    forall task :: jobs[task] == Running(bag, task)
  }

  lemma MatchesAdd(jobs: multiset<Task>, bag: multiset<Job<Task>>, j: Job<Task>)
    requires Matches(jobs, bag)
    ensures Matches(jobs + multiset{j.task}, bag + multiset{j})
  {
    forall task ensures (jobs + multiset{j.task})[task] == Running(bag + multiset{j}, task) {
      RunningWith(bag, j, task);
    }
  }

  lemma MatchesRemove(jobs: multiset<Task>, bag: multiset<Job<Task>>, j: Job<Task>)
    requires Matches(jobs, bag) && j in bag
    ensures j.task in jobs && Matches(jobs - multiset{j.task}, bag - multiset{j})
  {
    RunningWithout(bag, j, j.task);
    assert jobs[j.task] > 0;
    forall task ensures (jobs - multiset{j.task})[task] == Running(bag - multiset{j}, task) {
      RunningWithout(bag, j, task);
    }
  }

  lemma PostedBag(p: Pipe, task: Task, awaits: nat)
    requires Good(p) && p.running && p.registering.None?
    ensures Good(Posted(p, task, awaits))
    ensures OwedBag(Posted(p, task, awaits)) == OwedBag(p) + multiset{Job(|p.submitted|, task, awaits)}
  {
    assert Next(p, Post(task, awaits)) == Posted(p, task, awaits);
    StepKeepsGood(p, Post(task, awaits));
    ThreadRefinesContract(p, Post(task, awaits));
    hide Good, OwedBag, Posted, Next, Enabled;
  }

  lemma DeliveredBag(p: Pipe)
    requires Good(p) && p.registering.None? && p.idle != []
    ensures Good(Delivered(p)) && p.idle[0].job in OwedBag(p)
    ensures OwedBag(Delivered(p)) == OwedBag(p) - multiset{p.idle[0].job}
  {
    var e: Step<Task, Value, Failure> := Deliver;
    DeliverStep(p);
    hide Good, OwedBag, Delivered, Next, Enabled, Seen;
    StepKeepsGood(p, e);
    ThreadRefinesContract(p, e);
  }

  lemma DeliverStep(p: Pipe)
    requires p.registering.None? && p.idle != []
    ensures Enabled(p, Deliver) && Next(p, Deliver) == Delivered(p) && Seen(p, Deliver) == CalledBack(p.idle[0])
  {
  }

  lemma BackgroundBag(p: Pipe, step: Step<Task, Value, Failure>)
    requires Good(p) && Enabled(p, step)
    requires step.Attach? || step.Begin? || step.Suspend? || step.Wake? || step.Finish?
    ensures Good(Next(p, step)) && OwedBag(Next(p, step)) == OwedBag(p)
  {
    StepKeepsGood(p, step);
    ThreadRefinesContract(p, step);
    hide Good, OwedBag, Next;
  }

  ghost predicate Linked(w: World) {
    && Good(w.pipe) && w.pipe.running && FS.Inv(w.sys)
    && Matches(w.sys.jobs, OwedBag(w.pipe))
  }

  lemma PostKeepsMatch(jobs: multiset<Task>, pipe: Pipe, effect: Effect, awaits: nat)
    requires Good(pipe) && pipe.running && pipe.registering.None? && Matches(jobs, OwedBag(pipe))
    ensures var p := PostEffect(pipe, effect, awaits);
            Good(p) && p.running && Matches(FS.NextJobs(jobs, None, effect), OwedBag(p))
  {
    if effect.Submit? {
      var job := Job(|pipe.submitted|, effect.task, Awaits(effect.task, awaits));
      PostedBag(pipe, effect.task, job.awaits);
      MatchesAdd(jobs, OwedBag(pipe), job);
      assert Posted(pipe, effect.task, job.awaits).running;
      assert jobs - multiset{} + multiset{effect.task} == jobs + multiset{effect.task};
    } else {
      assert jobs - multiset{} + multiset{} == jobs;
    }
    hide Good, OwedBag, Posted, Matches, Awaits;
  }

  /** Taking out the callback's job and adding the submitted one are separate. */
  lemma JobsInTwo(jobs: multiset<Task>, callback: Option<Task>, effect: Effect)
    ensures FS.NextJobs(jobs, callback, effect) == FS.NextJobs(FS.NextJobs(jobs, callback, Quiet), None, effect)
  {
  }

  lemma NextJobsOf(s: FS.Sys, e: FS.Event)
    ensures FS.Next(s, e).jobs == FS.NextJobs(s.jobs, FS.Callback(e), FS.Handle(s.page, e).1)
  {
    hide FS.Handle, FS.Callback, FS.NextJobs, FS.NextFlight, FS.Loses;
  }

  lemma ReactParts(w: World, pipe: Pipe, e: FS.Event, awaits: nat)
    ensures React(w, pipe, e, awaits).sys == FS.Next(w.sys, e)
    ensures React(w, pipe, e, awaits).pipe == PostEffect(pipe, FS.Handle(w.sys.page, e).1, awaits)
  {
    hide FS.Handle, FS.Next, PostEffect;
  }

  /** A reaction keeps the link; the event's own callback is already taken out of the pipeline. */
  lemma ReactKeepsLink(w: World, pipe: Pipe, e: FS.Event, awaits: nat)
    requires Good(pipe) && pipe.running && pipe.registering.None? && FS.Inv(w.sys) && FS.Enabled(w.sys, e)
    requires Matches(FS.NextJobs(w.sys.jobs, FS.Callback(e), Quiet), OwedBag(pipe))
    ensures Linked(React(w, pipe, e, awaits))
  {
    hide *;
    var effect := FS.Handle(w.sys.page, e).1;
    FS.StepKeepsInv(w.sys, e);
    NextJobsOf(w.sys, e);
    JobsInTwo(w.sys.jobs, FS.Callback(e), effect);
    PostKeepsMatch(FS.NextJobs(w.sys.jobs, FS.Callback(e), Quiet), pipe, effect, awaits);
    ReactParts(w, pipe, e, awaits);
    LinkedFromParts(React(w, pipe, e, awaits));
  }

  lemma LinkedFromParts(w: World)
    requires Good(w.pipe) && w.pipe.running && FS.Inv(w.sys) && Matches(w.sys.jobs, OwedBag(w.pipe))
    ensures Linked(w)
  {
    hide Good, FS.Inv, Matches, OwedBag;
  }

  lemma EventIsCallback(c: PageCall)
    ensures FS.Callback(EventOf(c)) == Some(c.job.task) && !EventOf(c).TimerFires?
  {
  }

  lemma CallbackTaken(w: World)
    requires Linked(w) && w.pipe.registering.None? && w.pipe.idle != []
    ensures var c, rest := w.pipe.idle[0], Delivered(w.pipe);
            && Good(rest) && c.job.task in w.sys.jobs
            && Matches(FS.NextJobs(w.sys.jobs, Some(c.job.task), Quiet), OwedBag(rest))
  {
    LinkedParts(w);
    hide *;
    var c := w.pipe.idle[0];
    DeliveredBag(w.pipe);
    MatchesRemove(w.sys.jobs, OwedBag(w.pipe), c.job);
    TakenJobs(w.sys.jobs, c.job.task);
  }

  lemma TakenJobs(jobs: multiset<Task>, task: Task)
    ensures FS.NextJobs(jobs, Some(task), Quiet) == jobs - multiset{task}
    ensures FS.NextJobs(jobs, None, Quiet) == jobs
  {
  }

  lemma LinkedParts(w: World)
    requires Linked(w)
    ensures Good(w.pipe) && w.pipe.running && FS.Inv(w.sys) && Matches(w.sys.jobs, OwedBag(w.pipe))
  {
    hide Good, FS.Inv, Matches, OwedBag;
  }

  lemma CallbackReacts(w: World, awaits: nat)
    requires Linked(w) && Possible(w, RunCallback(awaits))
    ensures Linked(React(w, Delivered(w.pipe), EventOf(w.pipe.idle[0]), awaits))
  {
    var c, rest := w.pipe.idle[0], Delivered(w.pipe);
    assert rest.running && rest.registering.None?;
    EventIsCallback(c);
    CallbackTaken(w);
    hide Good, FS.Inv, Matches, OwedBag, EventOf, FS.Callback, FS.NextJobs, React, Delivered;
    assert FS.Enabled(w.sys, EventOf(c));
    ReactKeepsLink(w, rest, EventOf(c), awaits);
  }

  lemma CallbackKeepsLink(w: World, awaits: nat)
    requires Linked(w) && Possible(w, RunCallback(awaits))
    ensures Linked(Moved(w, RunCallback(awaits)))
  {
    CallbackReacts(w, awaits);
    hide React, EventOf, Delivered, Linked;
  }

  lemma InteractKeepsLink(w: World, e: FS.Event, awaits: nat)
    requires Linked(w) && Possible(w, Interact(e, awaits))
    ensures Linked(Moved(w, Interact(e, awaits)))
  {
    LinkedParts(w);
    TakenJobs(w.sys.jobs, Gather);
    var v := if e.ChangeSignal? then w.(signals := w.signals - 1) else w;
    InteractIsReaction(w, e, awaits);
    hide *;
    ReactKeepsLink(v, w.pipe, e, awaits);
  }

  lemma InteractIsReaction(w: World, e: FS.Event, awaits: nat)
    requires Possible(w, Interact(e, awaits))
    ensures var v := if e.ChangeSignal? then w.(signals := w.signals - 1) else w;
            Moved(w, Interact(e, awaits)) == React(v, w.pipe, e, awaits)
    ensures FS.Callback(e) == None && FS.Enabled(w.sys, e) && w.pipe.registering.None?
  {
    hide React;
  }

  lemma BackgroundKeepsRunning(p: Pipe, step: Step<Task, Value, Failure>)
    requires Enabled(p, step)
    requires step.Attach? || step.Begin? || step.Suspend? || step.Wake? || step.Finish?
    ensures Next(p, step).running == p.running && Next(p, step).dropped == p.dropped && Next(p, step).called == p.called
  {
  }

  lemma StepKeepsLink(w: World, m: Move)
    requires Linked(w) && Possible(w, m)
    ensures Linked(Moved(w, m))
  {
    match m
    case Interact(e, awaits) => InteractKeepsLink(w, e, awaits);
    case RunCallback(awaits) => CallbackKeepsLink(w, awaits);
    case Background(step) =>
      BackgroundBag(w.pipe, step);
      BackgroundKeepsRunning(w.pipe, step);
      hide Good, FS.Inv, Matches, OwedBag, Next;
    case _ =>
      hide Good, FS.Inv, Matches, OwedBag;
  }

  // -- gathers never suspend, so they finish in submission order -------------

  predicate GatherIsPrompt(j: Job<Task>) { j.task == Gather ==> Prompt(j) }

  ghost predicate GathersPrompt(p: Pipe) {
    && (forall j | j in p.inbox :: GatherIsPrompt(j))
    && (forall a | a in p.ready :: GatherIsPrompt(a.job))
    && (forall a | a in p.waiting :: GatherIsPrompt(a.job))
    && (p.held.Some? ==> GatherIsPrompt(p.held.value.job))
  }

  lemma BackgroundKeepsPrompt(p: Pipe, step: Step<Task, Value, Failure>)
    requires GathersPrompt(p) && Enabled(p, step)
    requires step.Attach? || step.Begin? || step.Suspend? || step.Wake? || step.Finish?
    ensures GathersPrompt(Next(p, step))
  {
  }

  lemma StepKeepsPrompt(w: World, m: Move)
    requires GathersPrompt(w.pipe) && Possible(w, m)
    ensures GathersPrompt(Moved(w, m).pipe)
  {
    match m
    case Background(step) => BackgroundKeepsPrompt(w.pipe, step);
    case _ => hide FS.Handle, FS.Next, EventOf;
  }

  /** The last gather in a log of calls. */
  function LastRead(calls: seq<PageCall>): Option<PageCall> {
    if calls == [] then None
    else if calls[|calls|-1].job.task == Gather then Some(calls[|calls|-1])
    else LastRead(calls[..|calls|-1])
  }

  lemma {:induction false} LastReadConcat(a: seq<PageCall>, b: seq<PageCall>)
    ensures LastRead(a + b) == if LastRead(b).Some? then LastRead(b) else LastRead(a)
    decreases |b|
  {
    if b == [] {
      assert a + b == a;
    } else {
      assert (a + b)[..|a + b|-1] == a + b[..|b|-1];
      LastReadConcat(a, b[..|b|-1]);
    }
  }

  /** The calls of finished coroutines, delivered or not, in the order the loop finished them. */
  function Log(p: Pipe): seq<PageCall> { p.called + p.idle + Maybe(p.held) }

  /** `seen` is what the last finished gather read. */
  ghost predicate SeenIsLast(p: Pipe, seen: Option<nat>) {
    match LastRead(Log(p))
    case None => seen == None
    case Some(c) => seen.Some? && ReadAt(c, seen.value)
  }

  lemma FinishExtendsLog(p: Pipe, o: Outcome<Value, Failure>)
    requires Good(p) && GathersPrompt(p) && Enabled(p, Finish(o))
    ensures var c := Call(p.ready[0].job, o);
            LastRead(Log(Finished(p, o))) == if c.job.task == Gather then Some(c) else LastRead(Log(p))
  {
    var c := Call(p.ready[0].job, o);
    assert c.job.task == Gather ==> LastRead(Maybe(p.held)) == None by {
      if c.job.task == Gather && p.held.Some? && p.held.value.job.task == Gather {
        HeldIsLast(p);
        PromptTasksHead(p.ready);
      }
    }
    if p.held.Some? { HeldHasLeftTheLoop(p); }
    FinishLog(p, o);
  }

  lemma FinishLog(p: Pipe, o: Outcome<Value, Failure>)
    requires p.ready != [] && (p.registering == Some(p.ready[0].job.id) ==> p.held == None)
    requires p.ready[0].job.task == Gather ==> LastRead(Maybe(p.held)) == None
    ensures var c := Call(p.ready[0].job, o);
            LastRead(Log(Finished(p, o))) == if c.job.task == Gather then Some(c) else LastRead(Log(p))
  {
    var c, q := Call(p.ready[0].job, o), Finished(p, o);
    assert LastRead([c]) == if c.job.task == Gather then Some(c) else None;
    LastReadConcat(p.called + p.idle, Maybe(p.held));
    LastReadConcat(q.called + q.idle, Maybe(q.held));
    LastReadConcat(p.called + p.idle, [c]);
    assert p.called + p.idle + [c] == p.called + (p.idle + [c]);
  }

  lemma DeliverKeepsLog(p: Pipe)
    requires p.idle != []
    ensures Log(Delivered(p)) == Log(p)
  {
  }

  lemma BackgroundKeepsLog(p: Pipe, step: Step<Task, Value, Failure>)
    requires Enabled(p, step) && (step.Attach? || step.Begin? || step.Suspend? || step.Wake?)
    ensures Log(Next(p, step)) == Log(p)
  {
  }

  lemma BackgroundKeepsSeen(w: World, m: Move)
    requires m.Background? && Good(w.pipe) && GathersPrompt(w.pipe) && SeenIsLast(w.pipe, w.seen) && Possible(w, m)
    ensures SeenIsLast(Moved(w, m).pipe, Moved(w, m).seen)
  {
    if m.step.Finish? { FinishExtendsLog(w.pipe, m.step.outcome); } else { BackgroundKeepsLog(w.pipe, m.step); }
    hide Good, GathersPrompt, Log, LastRead;
  }

  lemma CallbackKeepsSeen(w: World, m: Move)
    requires m.RunCallback? && Good(w.pipe) && SeenIsLast(w.pipe, w.seen) && Possible(w, m)
    ensures SeenIsLast(Moved(w, m).pipe, Moved(w, m).seen)
  {
    var e, rest := EventOf(w.pipe.idle[0]), Delivered(w.pipe);
    assert Moved(w, m) == React(w, rest, e, m.awaits) by { hide React, Delivered, EventOf; }
    DeliverKeepsLog(w.pipe);
    PostKeepsLog(rest, FS.Handle(w.sys.page, e).1, m.awaits);
    ReactParts(w, rest, e, m.awaits);
    ReactSees(w, rest, e, m.awaits);
    hide React, LastRead, Log, PostEffect, Delivered, FS.Handle, FS.Next, EventOf, Good, Moved, Possible;
  }

  lemma ReactSees(w: World, pipe: Pipe, e: FS.Event, awaits: nat)
    ensures React(w, pipe, e, awaits).seen == w.seen
  {
    hide FS.Handle, FS.Next, PostEffect;
  }

  lemma PostKeepsLog(p: Pipe, effect: Effect, awaits: nat)
    ensures Log(PostEffect(p, effect, awaits)) == Log(p)
  {
  }

  lemma StepKeepsSeen(w: World, m: Move)
    requires Good(w.pipe) && GathersPrompt(w.pipe) && SeenIsLast(w.pipe, w.seen) && Possible(w, m)
    ensures SeenIsLast(Moved(w, m).pipe, Moved(w, m).seen)
  {
    match m
    case Background(_) =>
      BackgroundKeepsSeen(w, m);
      hide *;
    case RunCallback(_) =>
      CallbackKeepsSeen(w, m);
      hide *;
    case Interact(_, _) =>
      hide Good, GathersPrompt, LastRead, FS.Handle, FS.Next;
    case _ =>
      hide Good, GathersPrompt, LastRead, Log;
  }

  // -- every change is on its way to the page --------------------------------

  ghost predicate Queued(p: Pipe) {
    || (exists j | j in p.inbox :: j.task == Gather)
    || (exists a | a in p.ready :: a.job.task == Gather)
  }

  /** The devices' current version has been read, or something is on its way that will have it read. */
  ghost predicate OnItsWay(w: World) {
    w.seen == Some(w.version) || Queued(w.pipe) || w.signals > 0 || w.sys.dirty || w.unread
  }

  lemma PostQueues(p: Pipe, task: Task, awaits: nat)
    ensures Queued(Posted(p, task, awaits)) <==> Queued(p) || task == Gather
  {
    var job := Job(|p.submitted|, task, awaits);
    var q := Posted(p, task, awaits);
    assert q.inbox[|p.inbox|] == job;
    assert forall j | j in p.inbox :: j in q.inbox;
  }

  lemma BackgroundQueue(p: Pipe, step: Step<Task, Value, Failure>)
    requires GathersPrompt(p) && Bounded(p) && Enabled(p, step) && Queued(p)
    requires step.Attach? || step.Begin? || step.Suspend? || step.Wake? || step.Finish?
    ensures Queued(Next(p, step)) || (step.Finish? && p.ready[0].job.task == Gather)
  {
    var q := Next(p, step);
    if j :| j in p.inbox && j.task == Gather {
      if step.Begin? {
        if j == p.inbox[0] {
          assert q.ready[|p.ready|].job == j;
        } else {
          assert j in q.inbox;
        }
      }
    } else {
      var a :| a in p.ready && a.job.task == Gather;
      if step.Suspend? || step.Finish? {
        assert a.left == 0;
        assert a == p.ready[0] || a in q.ready;
      } else {
        assert a in q.ready;
      }
    }
  }

  lemma ReactKeepsOnItsWay(w: World, pipe: Pipe, e: FS.Event, awaits: nat)
    requires w.seen == Some(w.version) || Queued(pipe) || w.signals > 0 || w.sys.dirty || w.unread || e.ChangeSignal?
    ensures OnItsWay(React(w, pipe, e, awaits))
  {
    var effect := FS.Handle(w.sys.page, e).1;
    if effect.Submit? {
      PostQueues(pipe, effect.task, Awaits(effect.task, awaits));
    }
    hide Queued, Posted, FS.Handle, FS.NextJobs, FS.NextFlight, FS.Callback, FS.Loses;
  }

  lemma StepKeepsOnItsWay(w: World, m: Move)
    requires OnItsWay(w) && GathersPrompt(w.pipe) && Bounded(w.pipe) && Possible(w, m)
    ensures OnItsWay(Moved(w, m))
  {
    match m
    case Background(step) =>
      if Queued(w.pipe) { BackgroundQueue(w.pipe, step); }
      hide Queued, GathersPrompt, Bounded, Next;
    case Interact(e, awaits) =>
      ReactKeepsOnItsWay(if e.ChangeSignal? then w.(signals := w.signals - 1) else w, w.pipe, e, awaits);
      hide Queued, GathersPrompt, Bounded, React;
    case RunCallback(awaits) =>
      assert Queued(Delivered(w.pipe)) == Queued(w.pipe);
      ReactKeepsOnItsWay(w, Delivered(w.pipe), EventOf(w.pipe.idle[0]), awaits);
      hide Queued, GathersPrompt, Bounded, React, EventOf;
    case _ => hide Queued, GathersPrompt, Bounded;
  }

  // -- what the page shows came from delivered gathers -----------------------

  /** The rows of the last delivered gather that found devices. */
  function LastShown(calls: seq<PageCall>): seq<Row> {
    if calls == [] then []
    else
      var e := EventOf(calls[|calls|-1]);
      if e.Gathered? && e.rows != [] then e.rows else LastShown(calls[..|calls|-1])
  }

  lemma ReactShows(w: World, pipe: Pipe, e: FS.Event, awaits: nat)
    ensures React(w, pipe, e, awaits).sys.shown == if e.Gathered? && e.rows != [] then e.rows else w.sys.shown
    ensures React(w, pipe, e, awaits).pipe.called == pipe.called
  {
    hide FS.Handle, FS.NextJobs, FS.NextFlight, FS.Callback, FS.Loses;
  }

  lemma StepKeepsShown(w: World, m: Move)
    requires w.sys.shown == LastShown(w.pipe.called) && Possible(w, m)
    ensures Moved(w, m).sys.shown == LastShown(Moved(w, m).pipe.called)
  {
    match m
    case Background(step) =>
      BackgroundKeepsRunning(w.pipe, step);
      hide Next, LastShown;
    case Interact(e, awaits) =>
      var v := if e.ChangeSignal? then w.(signals := w.signals - 1) else w;
      ReactShows(v, w.pipe, e, awaits);
      assert FS.Callback(e).None? ==> !e.Gathered?;
      hide LastShown, React;
    case RunCallback(awaits) =>
      var c := w.pipe.idle[0];
      assert (w.pipe.called + [c])[..|w.pipe.called|] == w.pipe.called;
      ReactShows(w, Delivered(w.pipe), EventOf(c), awaits);
      hide React, EventOf;
    case _ =>
  }

  // -- main results ---------------------------------------------------------

  ghost predicate Steady(w: World) {
    && Linked(w) && GathersPrompt(w.pipe) && SeenIsLast(w.pipe, w.seen) && OnItsWay(w)
    && w.sys.shown == LastShown(w.pipe.called)
  }

  lemma OpeningIsSteady()
    ensures Steady(Opening())
  {
    InitialGood<Task, Value, Failure>();
    StepKeepsGood(Initial<Task, Value, Failure>(), Start);
    FS.StartInv();
    assert OwedBag(Opening().pipe) == multiset{};
  }

  lemma StepKeepsSteady(w: World, m: Move)
    requires Steady(w) && Possible(w, m)
    ensures Steady(Moved(w, m))
  {
    assert Good(w.pipe) && Bounded(w.pipe);
    hide Linked, GathersPrompt, SeenIsLast, OnItsWay, LastShown, Good, Bounded, Moved, Possible;
    assert Linked(w);
    StepKeepsLink(w, m);
    StepKeepsPrompt(w, m);
    StepKeepsSeen(w, m);
    StepKeepsOnItsWay(w, m);
    StepKeepsShown(w, m);
  }

  lemma {:induction false} RunKeepsSteady(w: World, ms: seq<Move>)
    requires Steady(w) && Run(w, ms)
    ensures Steady(RunTo(w, ms))
    decreases |ms|
  {
    if ms != [] {
      StepKeepsSteady(w, ms[0]);
      RunKeepsSteady(Moved(w, ms[0]), ms[1..]);
    }
  }

  /** Nothing is left to happen by itself: no job, no timer, no signal under way. */
  predicate Drained(w: World) { Work(w.pipe) == 0 && w.sys.timers == 0 && w.signals == 0 }

  lemma NothingOwedNothingInFlight(w: World)
    requires Linked(w) && Work(w.pipe) == 0
    ensures w.sys.flight == None && w.sys.page.busyText == "" && !w.sys.page.installing
  {
    assert OwedBag(w.pipe) == multiset{};
    assert forall task :: w.sys.jobs[task] == Running(OwedBag(w.pipe), task) == 0;
    assert w.sys.flight.Some? ==> w.sys.jobs[w.sys.flight.value] == 1;
  }

  lemma {:induction false} LastReadIsShown(calls: seq<PageCall>)
    requires LastRead(calls).Some?
    ensures var e := EventOf(LastRead(calls).value); e.Gathered? && e.rows != [] ==> LastShown(calls) == e.rows
    decreases |calls|
  {
    if calls[|calls|-1].job.task != Gather {
      LastReadIsShown(calls[..|calls|-1]);
    }
  }

  /**
    In every run, once everything has drained: unless an install swallowed a change, or the devices changed
    before live updates were on and nothing reloaded since, the last delivered gather read the devices'
    current version; and if it found devices, the cards and the reboot banner are theirs.
  */
  lemma DrainedPageIsFresh(ms: seq<Move>)
    requires Run(Opening(), ms) && Drained(RunTo(Opening(), ms))
    ensures var w := RunTo(Opening(), ms);
            w.sys.lost || w.unread ||
            var last := LastRead(w.pipe.called);
            && last.Some? && ReadAt(last.value, w.version)
            && (EventOf(last.value).Gathered? && EventOf(last.value).rows != [] ==>
                  && w.sys.page.cards == CardsOf(EventOf(last.value).rows)
                  && w.sys.page.rebootBanner == RebootTitles(EventOf(last.value).rows))
    ensures RunTo(Opening(), ms).sys.page.busyText == ""
  {
    OpeningIsSteady();
    RunKeepsSteady(Opening(), ms);
    FreshWhenDrained(RunTo(Opening(), ms));
  }

  lemma FreshWhenDrained(w: World)
    requires Steady(w) && Drained(w)
    ensures w.sys.page.busyText == ""
    ensures !w.sys.lost && !w.unread ==>
              var last := LastRead(w.pipe.called);
              && last.Some? && ReadAt(last.value, w.version)
              && (EventOf(last.value).Gathered? && EventOf(last.value).rows != [] ==>
                    && w.sys.page.cards == CardsOf(EventOf(last.value).rows)
                    && w.sys.page.rebootBanner == RebootTitles(EventOf(last.value).rows))
  {
    NothingOwedNothingInFlight(w);
    assert FS.Covered(w.sys) && FS.OneTimer(w.sys) && FS.Shows(w.sys);
    assert w.pipe.idle == [] && w.pipe.held == None && !Queued(w.pipe);
    assert Log(w.pipe) == w.pipe.called;
    if LastRead(w.pipe.called).Some? { LastReadIsShown(w.pipe.called); }
    hide Linked, GathersPrompt, LastShown, LastRead, CardsOf, RebootTitles, EventOf, Log, Queued;
  }

  /** What can happen without the user and without a change of the devices. */
  predicate ByItself(m: Move) {
    m.RunCallback? || m.Background? || (m.Interact? && (m.event.TimerFires? || m.event.ChangeSignal?))
  }

  /** The moves left: a callback or a timer can start one gather, a signal can start one timer. */
  function Rank(w: World): nat {
    Work(w.pipe) + (if w.sys.flight.Some? then 6 else 0) + 6 * w.sys.timers + 7 * w.signals
  }

  lemma GatherWork(p: Pipe)
    requires Good(p) && p.running && p.registering.None?
    ensures Work(Posted(p, Gather, 0)) == Work(p) + 5
  {
    assert Next(p, Post(Gather, 0)) == Posted(p, Gather, 0);
    WorkFalls(p, Post(Gather, 0));
    hide Good, Work, Posted, Next;
  }

  /**
    Only the timer and the callbacks of a refresh or an install submit, and only gathers; only a
    signal sets a timer.
  */
  lemma EffectsOf(s: FS.Sys, e: FS.Event)
    requires e.TimerFires? || e.ChangeSignal? || FS.Callback(e).Some?
    ensures var effect := FS.Handle(s.page, e).1;
            && (effect.Submit? ==> effect.task == Gather)
            && (effect.Submit? ==> e.TimerFires? || (FS.Callback(e).Some? && FS.Callback(e) != Some(Gather)))
            && (effect.ArmTimer? ==> e.ChangeSignal?)
  {
    hide CardsOf, RebootTitles;
  }

  /** An upper bound on the rank after a reaction to `e`. */
  function RankAfter(w: World, pipe: Pipe, e: FS.Event): int {
    Work(pipe) + (if w.sys.flight.Some? then 6 else 0) + 6 * w.sys.timers + 7 * w.signals
    + (if e.TimerFires? then -1 else if e.ChangeSignal? then 6 else 0)
  }

  lemma ReactRank(w: World, pipe: Pipe, e: FS.Event, awaits: nat)
    requires Good(pipe) && pipe.running && pipe.registering.None? && FS.OneJob(w.sys) && FS.Enabled(w.sys, e)
    requires e.TimerFires? || e.ChangeSignal? || FS.Callback(e).Some?
    ensures Rank(React(w, pipe, e, awaits)) <= RankAfter(w, pipe, e)
  {
    ReactParts(w, pipe, e, awaits);
    SignalsStay(w, pipe, e, awaits);
    FlightAndTimers(w.sys, e);
    EffectsOf(w.sys, e);
    PostWork(pipe, FS.Handle(w.sys.page, e).1, awaits);
    assert FS.Callback(e).Some? ==> !e.TimerFires? && !e.ChangeSignal?;
    hide Good, React, FS.Next, FS.OneJob, FS.Handle, FS.Callback, FS.Enabled, Work, PostEffect;
  }

  lemma SignalsStay(w: World, pipe: Pipe, e: FS.Event, awaits: nat)
    ensures React(w, pipe, e, awaits).signals == w.signals
  {
    hide FS.Handle, FS.Next, PostEffect;
  }

  lemma PostWork(pipe: Pipe, effect: Effect, awaits: nat)
    requires Good(pipe) && pipe.running && pipe.registering.None? && (effect.Submit? ==> effect.task == Gather)
    ensures Work(PostEffect(pipe, effect, awaits)) == Work(pipe) + if effect.Submit? then 5 else 0
  {
    GatherWork(pipe);
    hide Good, Work, Posted;
  }

  /** What such an event does to the flight and the timers. */
  lemma FlightAndTimers(s: FS.Sys, e: FS.Event)
    requires FS.OneJob(s) && FS.Enabled(s, e) && (e.TimerFires? || e.ChangeSignal? || FS.Callback(e).Some?)
    ensures var t, ends := FS.Next(s, e), FS.Callback(e).Some? && FS.Callback(e) != Some(Gather);
            && (ends ==> s.flight.Some? && t.flight.None?) && (!ends ==> t.flight == s.flight)
            && t.timers == s.timers - (if e.TimerFires? then 1 else 0)
                + (if FS.Handle(s.page, e).1.ArmTimer? then 1 else 0)
  {
    if FS.Callback(e).Some? && FS.Callback(e) != Some(Gather) { FS.EndsTheFlight(s, e); }
    EffectsOf(s, e);
    hide FS.OneJob, FS.Handle, FS.Callback, FS.NextJobs, FS.Loses;
  }

  lemma InteractionRank(w: World, e: FS.Event, awaits: nat)
    requires Linked(w) && Possible(w, Interact(e, awaits)) && (e.TimerFires? || e.ChangeSignal?)
    ensures Rank(Moved(w, Interact(e, awaits))) < Rank(w)
  {
    var v := if e.ChangeSignal? then w.(signals := w.signals - 1) else w;
    assert FS.OneJob(v.sys) && FS.Enabled(v.sys, e);
    hide Good, FS.OneJob, FS.Enabled, Linked, Work, React, FS.Callback;
    assert Good(w.pipe) && w.pipe.running by { PipeIsGood(w); }
    ReactRank(v, w.pipe, e, awaits);
  }

  lemma PipeIsGood(w: World)
    requires Linked(w)
    ensures Good(w.pipe) && w.pipe.running
  {
  }

  lemma CallbackRank(w: World, awaits: nat)
    requires Linked(w) && Possible(w, RunCallback(awaits))
    ensures Rank(React(w, Delivered(w.pipe), EventOf(w.pipe.idle[0]), awaits)) < Rank(w)
  {
    var e := EventOf(w.pipe.idle[0]);
    assert Delivered(w.pipe).running && Delivered(w.pipe).registering.None?;
    assert FS.OneJob(w.sys);
    assert Work(Delivered(w.pipe)) < Work(w.pipe);
    EventIsCallback(w.pipe.idle[0]);
    CallbackTaken(w);
    hide Linked, Work, React, EventOf, Good, FS.OneJob, Delivered, FS.NextJobs, OwedBag;
    assert FS.Enabled(w.sys, e);
    assert !e.TimerFires? && !e.ChangeSignal?;
    hide FS.Enabled, FS.Callback;
    ReactRank(w, Delivered(w.pipe), e, awaits);
  }

  /** Left to itself the world comes to rest: every such move lowers the rank. */
  lemma ItComesToRest(w: World, m: Move)
    requires Steady(w) && Possible(w, m) && ByItself(m)
    ensures Rank(Moved(w, m)) < Rank(w)
  {
    assert Linked(w);
    hide Steady, Linked, Rank;
    match m
    case Background(step) => BackgroundRank(w, step); hide *;
    case Interact(e, awaits) => InteractionRank(w, e, awaits); hide *;
    case RunCallback(awaits) =>
      CallbackRank(w, awaits);
      assert Moved(w, m) == React(w, Delivered(w.pipe), EventOf(w.pipe.idle[0]), awaits)
          by { hide React, Delivered, EventOf; }
      hide *;
  }

  lemma BackgroundRank(w: World, step: Step<Task, Value, Failure>)
    requires Linked(w) && Possible(w, Background(step))
    ensures Rank(Moved(w, Background(step))) < Rank(w)
  {
    PipeIsGood(w);
    BackgroundMoves(w, step);
    hide Linked, Good, Work, Next, Enabled, Moved, Possible;
    WorkFalls(w.pipe, step);
  }

  lemma BackgroundMoves(w: World, step: Step<Task, Value, Failure>)
    requires Possible(w, Background(step))
    ensures Enabled(w.pipe, step) && Internal(step)
    ensures var v := Moved(w, Background(step));
            v.pipe == Next(w.pipe, step) && v.sys == w.sys && v.signals == w.signals
  {
    hide Enabled, Next;
  }

  /** A move that can be taken while the world is not at rest. */
  function NextMove(w: World): Move {
    if w.pipe.registering.Some? then Background(Attach)
    else if w.pipe.inbox != [] then Background(Begin)
    else if w.pipe.ready != [] then
      if w.pipe.ready[0].left > 0 then Background(Suspend)
      else Background(Finish(Outcome.Success(if w.pipe.ready[0].job.task == Gather then Rows(w.version, []) else Done)))
    else if w.pipe.waiting != [] then Background(Wake(0))
    else if w.pipe.idle != [] then RunCallback(0)
    else if w.sys.timers > 0 then Interact(FS.TimerFires, 0)
    else Interact(FS.ChangeSignal, 0)
  }

  /** At rest is drained, and before that there is always a move. */
  lemma RestIsDrained(w: World)
    requires Steady(w)
    ensures Rank(w) == 0 <==> Drained(w)
    ensures !Drained(w) ==> Possible(w, NextMove(w)) && ByItself(NextMove(w))
  {
    if Drained(w) { NothingOwedNothingInFlight(w); }
    assert Registration(w.pipe);
    hide Steady;
    if !Drained(w) { AlwaysAMove(w); }
    hide Work, Possible, NextMove, Registration;
  }

  lemma AlwaysAMove(w: World)
    requires Registration(w.pipe) && !Drained(w)
    ensures Possible(w, NextMove(w)) && ByItself(NextMove(w))
  {
    assert w.pipe.registering.None? ==> w.pipe.held.None?;
  }
}
