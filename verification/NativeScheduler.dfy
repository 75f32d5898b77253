/**
  The native scheduler: asyncio on the GLib main loop, no second thread.
  Every step of it is a short run of the thread scheduler, so it inherits the
  callback guarantees; and it restores the process's asyncio policy.
*/
module NativeScheduler {
  import opened Common
  import opened Scheduling
  import opened SchedulerRuns

  /** `done`: finished tasks whose done callback the loop has scheduled. */
  datatype Native<!T, V, E> = Native(
    started: bool,
    submitted: seq<Job<T>>,
    ready: seq<Active<T>>,
    waiting: seq<Active<T>>,
    done: seq<Call<T, V, E>>,
    called: seq<Call<T, V, E>>)

  datatype Action<T, V, E> =
    | StartLoop
    | StopLoop
    | Submit(task: T, awaits: nat)
    | Pause
    | Resume(index: nat)
    | End(outcome: Outcome<V, E>)
    | RunDoneCallback

  predicate CanAct<T, V, E>(n: Native<T, V, E>, a: Action<T, V, E>) {
    match a
    case StartLoop => true
    case StopLoop => true
    case Submit(_, _) => n.started
    case Pause => n.ready != [] && n.ready[0].left > 0
    case Resume(i) => i < |n.waiting|
    case End(_) => n.ready != [] && n.ready[0].left == 0
    case RunDoneCallback => n.done != []
  }

  /** stop() only forgets the loop: the GLib main context still owns its tasks and keeps running them. */
  function Act<T, V, E>(n: Native<T, V, E>, a: Action<T, V, E>): Native<T, V, E>
    requires CanAct(n, a)
  {
    match a
    case StartLoop => n.(started := true)
    case StopLoop => n.(started := false)
    case Submit(task, awaits) =>
      var job := Job(|n.submitted|, task, awaits);
      n.(submitted := n.submitted + [job], ready := n.ready + [Active(job, awaits)])
    case Pause => n.(ready := n.ready[1..], waiting := n.waiting + [n.ready[0].(left := n.ready[0].left - 1)])
    case Resume(i) => n.(waiting := n.waiting[..i] + n.waiting[i+1..], ready := n.ready + [n.waiting[i]])
    case End(outcome) => n.(ready := n.ready[1..], done := n.done + [Call(n.ready[0].job, outcome)])
    case RunDoneCallback => n.(done := n.done[1..], called := n.called + [n.done[0]])
  }

  ghost predicate Acts<T(!new), V, E>(n: Native<T, V, E>, actions: seq<Action<T, V, E>>)
    decreases |actions|
  {
    actions == [] || (CanAct(n, actions[0]) && Acts(Act(n, actions[0]), actions[1..]))
  }

  ghost function ActAll<T(!new), V, E>(n: Native<T, V, E>, actions: seq<Action<T, V, E>>): Native<T, V, E>
    requires Acts(n, actions)
    decreases |actions|
  {
    if actions == [] then n else ActAll(Act(n, actions[0]), actions[1..])
  }

  function Fresh<T, V, E>(): Native<T, V, E> { Native(false, [], [], [], [], []) }

  /** The same jobs, seen as a thread scheduler that is never stopped. */
  function Embed<T, V, E>(n: Native<T, V, E>): Pipeline<T, V, E> {
    Pipeline(true, n.submitted, [], n.ready, n.waiting, None, None, n.done, n.called, [])
  }

  function Image<T, V, E>(a: Action<T, V, E>): seq<Step<T, V, E>> {
    match a
    case StartLoop => []
    case StopLoop => []
    case Submit(task, awaits) => [Post(task, awaits), Begin, Attach]
    case Pause => [Suspend]
    case Resume(i) => [Wake(i)]
    case End(outcome) => [Finish(outcome)]
    case RunDoneCallback => [Deliver]
  }

  lemma OneStep<T(!new), V, E>(s: Pipeline<T, V, E>, e: Step<T, V, E>)
    requires Enabled(s, e)
    ensures Valid(s, [e]) && After(s, [e]) == Next(s, e)
  {
    assert [e][1..] == [];
  }

  lemma SubmitIsThreeSteps<T(!new), V, E>(n: Native<T, V, E>, task: T, awaits: nat)
    ensures var a, s := Submit(task, awaits), Embed(n);
            && Valid(s, Image(a))
            && (n.started ==> After(s, Image(a)) == Embed(Act(n, a)))
  {
    var s := Embed(n);
    var s1 := Posted(s, task, awaits);
    var s2 := Begun(s1);
    var s3 := Attached(s2);
    var es: seq<Step<T, V, E>> := [Post(task, awaits), Begin, Attach];
    assert es[1..][1..] == [Attach];
    OneStep(s2, Attach);
    assert Valid(s1, es[1..]) && After(s1, es[1..]) == s3;
    assert s3.idle == n.done + [] == n.done;
  }

  /** Each action of the native scheduler is a run of the thread scheduler. */
  lemma NativeActsAsThread<T(!new), V, E>(n: Native<T, V, E>, a: Action<T, V, E>)
    requires CanAct(n, a) && Good(Embed(n))
    ensures Valid(Embed(n), Image(a)) && After(Embed(n), Image(a)) == Embed(Act(n, a))
    ensures Good(Embed(Act(n, a)))
  {
    match a {
      case StartLoop =>
      case StopLoop =>
      case Submit(task, awaits) => SubmitIsThreeSteps(n, task, awaits);
      case Pause => OneStep(Embed(n), Suspend);
      case Resume(i) => OneStep(Embed(n), Wake(i));
      case End(outcome) => OneStep(Embed(n), Finish(outcome));
      case RunDoneCallback => OneStep(Embed(n), Deliver);
    }
    RunKeepsGood(Embed(n), Image(a));
  }

  lemma {:induction false} ActionsKeepGood<T(!new), V, E>(n: Native<T, V, E>, actions: seq<Action<T, V, E>>)
    requires Good(Embed(n)) && Acts(n, actions)
    ensures Good(Embed(ActAll(n, actions)))
    decreases |actions|
  {
    if actions != [] {
      NativeActsAsThread(n, actions[0]);
      ActionsKeepGood(Act(n, actions[0]), actions[1..]);
    }
  }

  lemma FreshIsGood<T(!new), V, E>()
    ensures Good(Embed(Fresh<T, V, E>()))
  {
    InitialGood<T, V, E>();
    StepKeepsGood(Initial<T, V, E>(), Start);
  }

  /**
    In every run of the native scheduler, stop() included: at most one callback per job, prompt jobs called
    back in submission order, and exactly one callback per job once nothing is ready, waiting or done.
  */
  lemma NativeCallsBackOnce<T(!new), V, E>(actions: seq<Action<T, V, E>>)
    requires Acts(Fresh<T, V, E>(), actions)
    ensures var n := ActAll(Fresh<T, V, E>(), actions);
            && Accounted(Abs(Embed(n)))
            && InSubmissionOrder(PromptCalls(n.called))
            && (n.ready == [] && n.waiting == [] && n.done == [] ==> multiset(Jobs(n.called)) == multiset(n.submitted))
  {
    FreshIsGood<T, V, E>();
    ActionsKeepGood(Fresh<T, V, E>(), actions);
    GoodGivesAll(ActAll(Fresh<T, V, E>(), actions));
    hide *;
  }

  lemma GoodGivesAll<T(!new), V, E>(n: Native<T, V, E>)
    requires Good(Embed(n))
    ensures Accounted(Abs(Embed(n)))
    ensures InSubmissionOrder(PromptCalls(n.called))
    ensures n.ready == [] && n.waiting == [] && n.done == [] ==> multiset(Jobs(n.called)) == multiset(n.submitted)
  {
    GoodIsAccounted(Embed(n));
    assert PromptCalls(n.called) <= PromptLine(Embed(n));
    if n.ready == [] && n.waiting == [] && n.done == [] {
      DrainedIsExactlyOnce(Embed(n));
    }
    hide Conserved, Registration, PromptLine, PromptCalls, Abs, Jobs, Bounded;
  }

  // -- the process-wide asyncio policy --------------------------------------

  datatype Policy = Original | GLibPolicy

  class GLibEventLoopScheduler {
    var current: Policy  // the process's asyncio policy
    var previous: Option<Policy>
    var loop: bool

    ghost function View(): Life
      reads this
    {
      Life(current, previous)
    }

    constructor ()
      ensures View() == Life(Original, None) && !loop
    {
      current, previous, loop := Original, None, false;
    }

    method Start()
      modifies this
      ensures View() == AfterCall(old(View()), true) && loop
    {
      previous := Some(current);
      current := GLibPolicy;
      loop := true;
    }

    method Stop()
      modifies this
      ensures View() == AfterCall(old(View()), false) && !loop
    {
      if previous.Some? {
        current := previous.value;
        previous := None;
      }
      loop := false;
    }
  }

  datatype Life = Life(current: Policy, previous: Option<Policy>)

  function AfterCall(l: Life, start: bool): Life {
    if start then Life(GLibPolicy, Some(l.current))
    else if l.previous.Some? then Life(l.previous.value, None)
    else l
  }

  /** start() and stop() calls in order; true is a start. */
  function AfterCalls(l: Life, starts: seq<bool>): Life
    decreases |starts|
  {
    if starts == [] then l else AfterCalls(AfterCall(l, starts[0]), starts[1..])
  }

  /** start() is called while an earlier start() has not been stopped. */
  ghost predicate StartedTwice(starts: seq<bool>) {
    exists i | 0 <= i < |starts| - 1 :: starts[i] && starts[i+1]
  }

  lemma {:induction false} OnceLostAlwaysLost(l: Life, starts: seq<bool>)
    requires l.current == GLibPolicy && l.previous != Some(Original)
    ensures AfterCalls(l, starts).current == GLibPolicy
    decreases |starts|
  {
    if starts != [] {
      OnceLostAlwaysLost(AfterCall(l, starts[0]), starts[1..]);
    }
  }

  /**
    stop() gives the process its own policy back exactly when start() was never called twice in a row:
    a second start() records the scheduler's own policy as the previous one.
  */
  lemma {:induction false} StopRestoresPolicy(starts: seq<bool>)
    ensures AfterCall(AfterCalls(Life(Original, None), starts), false).current == Original <==> !StartedTwice(starts)
    decreases |starts|
  {
    if starts == [] {
    } else if !starts[0] {
      StopRestoresPolicy(starts[1..]);
      Shifted(starts);
    } else if |starts| == 1 {
      assert starts == [true];
      assert AfterCalls(Life(GLibPolicy, Some(Original)), []) == Life(GLibPolicy, Some(Original));
    } else if starts[1] {
      var l := Life(GLibPolicy, Some(GLibPolicy));
      assert AfterCalls(Life(Original, None), starts) == AfterCalls(l, starts[2..]);
      OnceLostAlwaysLost(l, starts[2..] + [false]);
      LastCall(l, starts[2..]);
    } else {
      assert AfterCalls(Life(Original, None), starts) == AfterCalls(Life(Original, None), starts[2..]);
      StopRestoresPolicy(starts[2..]);
      Shifted(starts);
      Shifted(starts[1..]);
    }
  }

  lemma LastCall(l: Life, starts: seq<bool>)
    ensures AfterCalls(l, starts + [false]) == AfterCall(AfterCalls(l, starts), false)
    decreases |starts|
  {
    if starts == [] {
      assert [false][1..] == [];
    } else {
      assert (starts + [false])[1..] == starts[1..] + [false];
      LastCall(AfterCall(l, starts[0]), starts[1..]);
    }
  }

  lemma Shifted(starts: seq<bool>)
    requires starts != [] && !(|starts| > 1 && starts[0] && starts[1])
    ensures StartedTwice(starts) <==> StartedTwice(starts[1..])
  {
    if i :| 0 <= i < |starts| - 1 && starts[i] && starts[i+1] {
      assert starts[1..][i-1] && starts[1..][i-1+1];
    }
    if i :| 0 <= i < |starts[1..]| - 1 && starts[1..][i] && starts[1..][i+1] {
      assert starts[i+1] && starts[i+1+1];
    }
  }
}
