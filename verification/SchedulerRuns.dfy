/**
  Whole runs of the thread scheduler: at most one callback in every
  interleaving, exactly one once the pipeline has drained, and a bound that
  makes every run without new submissions drain.
*/
module SchedulerRuns {
  import opened Common
  import opened Scheduling

  ghost predicate Valid<T(!new), V, E>(s: Pipeline<T, V, E>, es: seq<Step<T, V, E>>)
    decreases |es|
  {
    es == [] || (Enabled(s, es[0]) && Valid(Next(s, es[0]), es[1..]))
  }

  ghost function After<T(!new), V, E>(s: Pipeline<T, V, E>, es: seq<Step<T, V, E>>): Pipeline<T, V, E>
    requires Valid(s, es)
    decreases |es|
  {
    if es == [] then s else After(Next(s, es[0]), es[1..])
  }

  lemma InitialGood<T(!new), V, E>()
    ensures Good(Initial<T, V, E>())
  {
    var s := Initial<T, V, E>();
    forall j ensures Balanced(s, j) {
      assert CountJobs([], j) == 0;
    }
  }

  lemma {:induction false} RunKeepsGood<T(!new), V, E>(s: Pipeline<T, V, E>, es: seq<Step<T, V, E>>)
    requires Good(s) && Valid(s, es)
    ensures Good(After(s, es))
    decreases |es|
  {
    if es != [] {
      StepKeepsGood(s, es[0]);
      RunKeepsGood(Next(s, es[0]), es[1..]);
    }
  }

  lemma GoodIsAccounted<T(!new), V, E>(s: Pipeline<T, V, E>)
    requires Good(s)
    ensures Accounted(Abs(s))
  {
    forall j ensures (multiset(Jobs(s.called)) + OwedBag(s))[j] <= multiset(s.submitted)[j] {
      assert Balanced(s, j);
      OwedAt(s, j);
      hide OwedBag, Owes, Ordered, Registration;
    }
  }

  /**
    In every run, whatever the interleaving of the two threads and the idle queue: no job gets two
    callbacks, and each callback belongs to a submitted job, in submission order among those that never suspend.
  */
  lemma AtMostOnceInEveryRun<T(!new), V, E>(es: seq<Step<T, V, E>>)
    requires Valid(Initial<T, V, E>(), es)
    ensures var s := After(Initial<T, V, E>(), es);
            && (forall i, k | 0 <= i < k < |s.called| :: s.called[i].job != s.called[k].job)
            && (forall i | 0 <= i < |s.called| :: s.called[i].job in s.submitted)
            && InSubmissionOrder(PromptCalls(s.called))
  {
    InitialGood<T, V, E>();
    RunKeepsGood(Initial<T, V, E>(), es);
    CalledAtMostOnce(After(Initial<T, V, E>(), es));
    PromptCallsInOrder(After(Initial<T, V, E>(), es));
    hide *;
  }

  lemma CalledAtMostOnce<T(!new), V, E>(s: Pipeline<T, V, E>)
    requires Good(s)
    ensures forall i, k | 0 <= i < k < |s.called| :: s.called[i].job != s.called[k].job
    ensures forall i | 0 <= i < |s.called| :: s.called[i].job in s.submitted
  {
    GoodIsAccounted(s);
    hide Good;
    forall i, k | 0 <= i < k < |s.called| ensures s.called[i].job != s.called[k].job {
      AtMostOneCallback(Abs(s), i, k);
    }
    forall i | 0 <= i < |s.called| ensures s.called[i].job in s.submitted {
      CalledWasSubmitted(s, i);
    }
  }

  lemma PromptCallsInOrder<T(!new), V, E>(s: Pipeline<T, V, E>)
    requires Good(s)
    ensures InSubmissionOrder(PromptCalls(s.called))
  {
    assert PromptCalls(s.called) <= PromptLine(s);
  }

  lemma CalledWasSubmitted<T(!new), V, E>(s: Pipeline<T, V, E>, i: nat)
    requires Good(s) && i < |s.called|
    ensures s.called[i].job in s.submitted
  {
    JobAt(s.called, i);
    assert s.called[i].job in Jobs(s.called);
    assert Balanced(s, s.called[i].job);
    assert s.called[i].job in multiset(s.submitted);
  }

  // -- progress -------------------------------------------------------------

  /** Steps left for a task: every await is passed by Suspend and Wake, then Finish and Deliver. */
  function TaskWork<T>(actives: seq<Active<T>>, extra: nat): nat {
    if actives == [] then 0 else 2 * actives[0].left + extra + TaskWork(actives[1..], extra)
  }

  function InboxWork<T>(js: seq<Job<T>>): nat {
    if js == [] then 0 else 2 * js[0].awaits + 4 + InboxWork(js[1..])
  }

  function Work<T, V, E>(s: Pipeline<T, V, E>): nat {
    InboxWork(s.inbox) + TaskWork(s.ready, 3) + TaskWork(s.waiting, 4) + |s.idle| + |Maybe(s.held)|
    + |Maybe(s.registering)|
  }

  predicate Internal<T, V, E>(e: Step<T, V, E>) { !e.Start? && !e.Stop? && !e.Post? }

  lemma TaskWorkAppend<T>(q: seq<Active<T>>, x: Active<T>, extra: nat)
    ensures TaskWork(q + [x], extra) == TaskWork(q, extra) + 2 * x.left + extra
  {
    if q != [] {
      assert (q + [x])[0] == q[0] && (q + [x])[1..] == q[1..] + [x];
      TaskWorkAppend(q[1..], x, extra);
    }
  }

  lemma TaskWorkRemove<T>(q: seq<Active<T>>, i: nat, extra: nat)
    requires i < |q|
    ensures TaskWork(q, extra) == TaskWork(q[..i] + q[i+1..], extra) + 2 * q[i].left + extra
  {
    if i == 0 {
      assert q[..0] + q[1..] == q[1..];
    } else {
      var r := q[..i] + q[i+1..];
      assert r[0] == q[0] && r[1..] == q[1..][..i-1] + q[1..][i..];
      TaskWorkRemove(q[1..], i - 1, extra);
    }
  }

  lemma InboxWorkAppend<T>(q: seq<Job<T>>, x: Job<T>)
    ensures InboxWork(q + [x]) == InboxWork(q) + 2 * x.awaits + 4
  {
    if q != [] {
      assert (q + [x])[0] == q[0] && (q + [x])[1..] == q[1..] + [x];
      InboxWorkAppend(q[1..], x);
    }
  }

  /** Every step but Start, Stop and Post leaves less to do; Post adds its own work and nothing else. */
  lemma WorkFalls<T(!new), V, E>(s: Pipeline<T, V, E>, e: Step<T, V, E>)
    requires Good(s) && Enabled(s, e)
    ensures Internal(e) ==> Work(Next(s, e)) < Work(s)
    ensures e.Post? ==> Work(Next(s, e)) == Work(s) + 2 * e.awaits + 5
    ensures e.Start? || e.Stop? ==> Work(Next(s, e)) <= Work(s)
  {
    match e
    case Post(task, awaits) => InboxWorkAppend(s.inbox, Job(|s.submitted|, task, awaits));
    case Start =>
    case Stop =>
    case _ =>
      InternalWorkFalls(s, e);
      hide Work, Good, Next;
  }

  lemma InternalWorkFalls<T(!new), V, E>(s: Pipeline<T, V, E>, e: Step<T, V, E>)
    requires Good(s) && Enabled(s, e) && Internal(e)
    ensures Work(Next(s, e)) < Work(s)
  {
    match e
    case Begin => BeginWork(s); hide Work, Good, Begun;
    case Suspend => SuspendWork(s); hide Work, Good, Suspended;
    case Wake(i) => WakeWork(s, i); hide Work, Good, Woken;
    case Finish(o) =>
      if s.held.Some? { HeldHasLeftTheLoop(s); }
      FinishWork(s, o);
      hide Work, Good, Finished;
    case _ => hide Good, InboxWork, TaskWork;
  }

  lemma FinishWork<T, V, E>(s: Pipeline<T, V, E>, o: Outcome<V, E>)
    requires Enabled(s, Finish(o)) && (s.registering == Some(s.ready[0].job.id) ==> s.held.None?)
    ensures Work(Finished(s, o)) < Work(s)
  {
    hide InboxWork;
  }

  lemma BeginWork<T, V, E>(s: Pipeline<T, V, E>)
    requires s.inbox != []
    ensures Work(Begun(s)) < Work(s)
  {
    TaskWorkAppend(s.ready, Active(s.inbox[0], s.inbox[0].awaits), 3);
    hide TaskWork;
  }

  lemma SuspendWork<T, V, E>(s: Pipeline<T, V, E>)
    requires s.ready != [] && s.ready[0].left > 0
    ensures Work(Suspended(s)) < Work(s)
  {
    TaskWorkAppend(s.waiting, s.ready[0].(left := s.ready[0].left - 1), 4);
    hide InboxWork;
  }

  lemma WakeWork<T, V, E>(s: Pipeline<T, V, E>, i: nat)
    requires i < |s.waiting|
    ensures Work(Woken(s, i)) < Work(s)
  {
    TaskWorkRemove(s.waiting, i, 4);
    TaskWorkAppend(s.ready, s.waiting[i], 3);
    hide TaskWork, InboxWork;
  }

  /** A step that can be taken while work is left; `o` is how the next coroutine ends, should one end. */
  function Scheduled<T, V, E>(s: Pipeline<T, V, E>, o: Outcome<V, E>): Step<T, V, E> {
    if s.registering.Some? then Attach
    else if s.inbox != [] then Begin
    else if s.ready != [] then if s.ready[0].left > 0 then Suspend else Finish(o)
    else if s.waiting != [] then Wake(0)
    else Deliver
  }

  lemma NeverStuck<T(!new), V, E>(s: Pipeline<T, V, E>, o: Outcome<V, E>)
    requires Good(s) && Work(s) > 0
    ensures Enabled(s, Scheduled(s, o)) && Internal<T, V, E>(Scheduled(s, o))
  {
  }

  /** Drained without a stop(): every submitted job got exactly one callback. */
  lemma DrainedIsExactlyOnce<T(!new), V, E>(s: Pipeline<T, V, E>)
    requires Good(s) && Work(s) == 0 && s.dropped == []
    ensures multiset(Jobs(s.called)) == multiset(s.submitted)
    ensures forall j | j in s.submitted :: multiset(Jobs(s.called))[j] == 1
  {
    forall j ensures multiset(Jobs(s.called))[j] == multiset(s.submitted)[j] {
      assert Balanced(s, j);
      assert CountJobs([], j) == 0;
    }
    forall j | j in s.submitted ensures multiset(Jobs(s.called))[j] == 1 {
      NumberedOnce(s.submitted, j);
    }
  }

  function Internals<T, V, E>(es: seq<Step<T, V, E>>): nat {
    if es == [] then 0 else (if Internal(es[0]) then 1 else 0) + Internals(es[1..])
  }

  function PostedWork<T, V, E>(es: seq<Step<T, V, E>>): nat {
    if es == [] then 0 else (if es[0].Post? then 2 * es[0].awaits + 5 else 0) + PostedWork(es[1..])
  }

  /** The steps a run takes beyond its submissions are bounded by what it submitted: it cannot run forever. */
  lemma {:induction false} RunsAreBounded<T(!new), V, E>(s: Pipeline<T, V, E>, es: seq<Step<T, V, E>>)
    requires Good(s) && Valid(s, es)
    ensures Work(After(s, es)) + Internals(es) <= Work(s) + PostedWork(es)
    decreases |es|
  {
    if es != [] {
      StepKeepsGood(s, es[0]);
      WorkFalls(s, es[0]);
      RunsAreBounded(Next(s, es[0]), es[1..]);
      hide Good, Next, Work;
    }
  }

  lemma DroppedOnlyByStop<T(!new), V, E>(s: Pipeline<T, V, E>, e: Step<T, V, E>)
    requires Enabled(s, e) && !e.Stop?
    ensures Next(s, e).dropped == s.dropped
  {
  }

  lemma {:induction false} NothingDroppedWithoutStop<T(!new), V, E>(s: Pipeline<T, V, E>, es: seq<Step<T, V, E>>)
    requires Valid(s, es) && forall e | e in es :: !e.Stop?
    ensures After(s, es).dropped == s.dropped
    decreases |es|
  {
    if es != [] {
      assert es[0] in es;
      DroppedOnlyByStop(s, es[0]);
      NothingDroppedWithoutStop(Next(s, es[0]), es[1..]);
      hide Next, Enabled;
    }
  }

  /**
    The port's promise over whole runs: without a stop(), once nothing is left each submission got
    exactly one callback.
  */
  lemma ExactlyOnceInEveryRun<T(!new), V, E>(es: seq<Step<T, V, E>>)
    requires Valid(Initial<T, V, E>(), es) && (forall e | e in es :: !e.Stop?)
    requires Work(After(Initial<T, V, E>(), es)) == 0
    ensures var s := After(Initial<T, V, E>(), es);
            && multiset(Jobs(s.called)) == multiset(s.submitted)
            && forall j | j in s.submitted :: multiset(Jobs(s.called))[j] == 1
  {
    InitialGood<T, V, E>();
    RunKeepsGood(Initial<T, V, E>(), es);
    NothingDroppedWithoutStop(Initial<T, V, E>(), es);
    var s := After(Initial<T, V, E>(), es);
    assert s.dropped == [];
    hide After, Valid, Good, Work;
    DrainedIsExactlyOnce(s);
  }

  /** From every reachable state the pipeline can be driven to the point where all callbacks have run. */
  lemma {:induction false} CanAlwaysDrain<T(!new), V, E>(s: Pipeline<T, V, E>, o: Outcome<V, E>)
    returns (es: seq<Step<T, V, E>>)
    requires Good(s)
    ensures Valid(s, es) && (forall e | e in es :: Internal<T, V, E>(e))
    ensures Work(After(s, es)) == 0 && After(s, es).dropped == s.dropped
    decreases Work(s)
  {
    if Work(s) == 0 {
      es := [];
    } else {
      var e := Scheduled(s, o);
      NeverStuck(s, o);
      StepKeepsGood(s, e);
      WorkFalls(s, e);
      DroppedOnlyByStop(s, e);
      var rest := CanAlwaysDrain(Next(s, e), o);
      es := [e] + rest;
      assert es[0] == e && es[1..] == rest;
      hide Good, Next, Work;
    }
  }

  /** A step makes no call but that of the coroutine it finishes. */
  lemma CallsComeFromFinish<T(!new), V, E>(s: Pipeline<T, V, E>, e: Step<T, V, E>, c: Call<T, V, E>)
    requires Enabled(s, e)
    requires c in Next(s, e).called + Next(s, e).idle + Maybe(Next(s, e).held)
    ensures c in s.called + s.idle + Maybe(s.held) || (e.Finish? && c == Call(s.ready[0].job, e.outcome))
  {
  }

  ghost predicate Holds<T, V, E>(s: Pipeline<T, V, E>, c: Call<T, V, E>) { c in s.called + s.idle + Maybe(s.held) }

  /** Some step of the run finishes the coroutine of `c.job` with `c.outcome`. */
  ghost predicate FinishesIn<T(!new), V(!new), E(!new)>(s: Pipeline<T, V, E>, es: seq<Step<T, V, E>>, c: Call<T, V, E>)
    requires Valid(s, es)
    decreases |es|
  {
    es != [] && ((es[0].Finish? && c == Call(s.ready[0].job, es[0].outcome)) || FinishesIn(Next(s, es[0]), es[1..], c))
  }

  /** In every run, a callback's outcome is the one its own coroutine ended with: success or error, never both. */
  lemma {:induction false} OutcomesComeFromFinish<T(!new), V(!new), E(!new)>(
    s: Pipeline<T, V, E>, es: seq<Step<T, V, E>>, c: Call<T, V, E>)
    requires Valid(s, es) && Holds(After(s, es), c)
    ensures Holds(s, c) || FinishesIn(s, es, c)
    decreases |es|
  {
    if es != [] {
      OutcomesComeFromFinish(Next(s, es[0]), es[1..], c);
      if Holds(Next(s, es[0]), c) { CallsComeFromFinish(s, es[0], c); }
      hide Next, Enabled;
    }
  }
}
