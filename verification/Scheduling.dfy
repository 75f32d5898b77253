/**
  The asynchronous execution port and its thread-based implementation.

  `Contract` is what view-models are promised: a submitted coroutine gets
  exactly one callback, on the GTK main thread.  `Pipeline` is the fallback
  scheduler as a transition system whose steps interleave the main thread, the
  loop thread and the GLib idle queue; `ThreadLoopScheduler` is the same
  machine as an object.
*/
module Scheduling {
  import opened Common

  /** A submitted coroutine: it suspends `awaits` times before it finishes. */
  datatype Job<T> = Job(id: nat, task: T, awaits: nat)

  datatype Outcome<V, E> = Success(value: V) | Raised(error: E)

  /** One run of a callback: `on_success` or `on_error`, never both. */
  datatype Call<T, V, E> = Call(job: Job<T>, outcome: Outcome<V, E>)

  function Jobs<T, V, E>(calls: seq<Call<T, V, E>>): seq<Job<T>> {
    if calls == [] then [] else [calls[0].job] + Jobs(calls[1..])
  }

  lemma JobAt<T, V, E>(calls: seq<Call<T, V, E>>, i: nat)
    requires i < |calls|
    ensures |Jobs(calls)| == |calls| && Jobs(calls)[i] == calls[i].job
  {
    if |calls| > 1 {
      JobAt(calls[1..], if i == 0 then 0 else i - 1);
    }
  }

  // ---------------------------------------------------------------- contract

  /** The abstract scheduler: a bag of jobs that still owe a callback. */
  datatype Contract<!T(==), V, E> = Contract(
    submitted: seq<Job<T>>,
    owed: multiset<Job<T>>,
    called: seq<Call<T, V, E>>)

  /** What a caller can observe of one step. */
  datatype Observed<T, V, E> =
    | Nothing
    | Submitted(job: Job<T>)
    | CalledBack(call: Call<T, V, E>)
    | Abandoned(jobs: seq<Job<T>>)

  ghost predicate Allowed<T, V, E>(c: Contract<T, V, E>, o: Observed<T, V, E>) {
    match o
    case Nothing => true
    case Submitted(j) => j.id == |c.submitted|
    case CalledBack(call) => call.job in c.owed
    case Abandoned(js) => multiset(js) <= c.owed
  }

  ghost function Observe<T, V, E>(c: Contract<T, V, E>, o: Observed<T, V, E>): Contract<T, V, E> {
    match o
    case Nothing => c
    case Submitted(j) => c.(submitted := c.submitted + [j], owed := c.owed + multiset{j})
    case CalledBack(call) => c.(owed := c.owed - multiset{call.job}, called := c.called + [call])
    case Abandoned(js) => c.(owed := c.owed - multiset(js))
  }

  ghost predicate Numbered<T>(js: seq<Job<T>>) {
    forall i | 0 <= i < |js| :: js[i].id == i
  }

  /** Every job that was called back or still owes a callback was submitted, and is counted once. */
  ghost predicate Accounted<T, V, E>(c: Contract<T, V, E>) {
    && Numbered(c.submitted)
    && multiset(Jobs(c.called)) + c.owed <= multiset(c.submitted)
  }

  lemma JobsConcat<T, V, E>(a: seq<Call<T, V, E>>, b: seq<Call<T, V, E>>)
    ensures Jobs(a + b) == Jobs(a) + Jobs(b)
  {
    if a == [] {
      assert a + b == b;
    } else {
      assert (a + b)[0] == a[0] && (a + b)[1..] == a[1..] + b;
      JobsConcat(a[1..], b);
    }
  }

  lemma NumberedOnce<T>(js: seq<Job<T>>, j: Job<T>)
    requires Numbered(js)
    ensures multiset(js)[j] <= 1
    ensures j in js ==> j.id < |js| && js[j.id] == j
  {
    if multiset(js)[j] >= 1 {
      assert j in js;
      var k := j.id;
      assert js == js[..k] + [js[k]] + js[k+1..];
      assert j !in js[..k] && j !in js[k+1..];
    }
  }

  lemma AllowedKeepsAccounts<T, V, E>(c: Contract<T, V, E>, o: Observed<T, V, E>)
    requires Accounted(c) && Allowed(c, o)
    ensures Accounted(Observe(c, o))
  {
    match o
    case Nothing =>
    case Submitted(j) => hide Jobs;
    case CalledBack(call) =>
      JobsConcat(c.called, [call]);
      assert Jobs([call]) == [call.job];
      hide Jobs;
      MoveOne(multiset(Jobs(c.called)), c.owed, call.job);
    case Abandoned(js) => hide Jobs;
  }

  lemma MoveOne<X>(called: multiset<X>, owed: multiset<X>, x: X)
    requires x in owed
    ensures (called + multiset{x}) + (owed - multiset{x}) == called + owed
  {
  }

  /** No job is called back twice, and none that was called back still owes a callback. */
  lemma AtMostOneCallback<T, V, E>(c: Contract<T, V, E>, i: nat, k: nat)
    requires Accounted(c) && i < k < |c.called|
    ensures c.called[i].job != c.called[k].job
    ensures c.called[i].job in c.submitted && c.called[i].job !in c.owed
  {
    JobAt(c.called, i);
    JobAt(c.called, k);
    var js := Jobs(c.called);
    var j := js[i];
    NumberedOnce(c.submitted, j);
    assert js == js[..i] + [j] + js[i+1..];
    assert j in multiset(c.submitted);
    assert js[i+1..][k-i-1] == js[k];
  }

  // ------------------------------------------------------- thread scheduler

  /** A task the event loop knows, with the awaits it still has to pass. */
  datatype Active<T> = Active(job: Job<T>, left: nat)

  function Tasks<T>(actives: seq<Active<T>>): seq<Job<T>> {
    if actives == [] then [] else [actives[0].job] + Tasks(actives[1..])
  }

  /**
    `inbox`       posted with call_soon_threadsafe, not yet a task
    `ready`       tasks the loop steps next, first in first out
    `waiting`     tasks suspended at an await
    `registering` the job whose submit() has posted it but has not attached its done callback
    `held`        that job's call, when the loop thread finished it first
    `idle`        GLib idle sources holding finished jobs
    `called`      callbacks run so far; `dropped` jobs that stop() abandoned
  */
  datatype Pipeline<!T, V, E> = Pipeline(
    running: bool,
    submitted: seq<Job<T>>,
    inbox: seq<Job<T>>,
    ready: seq<Active<T>>,
    waiting: seq<Active<T>>,
    registering: Option<nat>,
    held: Option<Call<T, V, E>>,
    idle: seq<Call<T, V, E>>,
    called: seq<Call<T, V, E>>,
    dropped: seq<Job<T>>)

  datatype Step<T, V, E> =
    // main thread
    | Start
    | Stop
    | Post(task: T, awaits: nat)
    | Attach
    | Deliver
    // loop thread
    | Begin
    | Suspend
    | Wake(index: nat)
    | Finish(outcome: Outcome<V, E>)

  predicate OnMainThread<T, V, E>(e: Step<T, V, E>) {
    e.Start? || e.Stop? || e.Post? || e.Attach? || e.Deliver?
  }

  /** The main thread is inside submit() between Post and Attach, so nothing else of its runs there. */
  predicate Enabled<T, V, E>(s: Pipeline<T, V, E>, e: Step<T, V, E>) {
    && (OnMainThread(e) && !e.Attach? ==> s.registering.None?)
    && match e
       case Start => true
       case Stop => true
       case Post(_, _) => s.running
       case Attach => s.registering.Some?
       case Deliver => s.idle != []
       case Begin => s.inbox != []
       case Suspend => s.ready != [] && s.ready[0].left > 0
       case Wake(i) => i < |s.waiting|
       case Finish(_) => s.ready != [] && s.ready[0].left == 0
  }

  function Started<T, V, E>(s: Pipeline<T, V, E>): Pipeline<T, V, E> { s.(running := true) }

  /** The loop stops: what it had not finished is abandoned; idle sources stay in the GLib main context. */
  function Stopped<T, V, E>(s: Pipeline<T, V, E>): Pipeline<T, V, E> {
    s.(running := false, inbox := [], ready := [], waiting := [],
       dropped := s.dropped + Tasks(s.waiting) + Tasks(s.ready) + s.inbox)
  }

  function Posted<T, V, E>(s: Pipeline<T, V, E>, task: T, awaits: nat): Pipeline<T, V, E> {
    var job := Job(|s.submitted|, task, awaits);
    s.(submitted := s.submitted + [job], inbox := s.inbox + [job], registering := Some(job.id))
  }

  /** add_done_callback: a future that is already done dispatches at once. */
  function Attached<T, V, E>(s: Pipeline<T, V, E>): Pipeline<T, V, E> {
    s.(registering := None, held := None, idle := s.idle + Maybe(s.held))
  }

  function Delivered<T, V, E>(s: Pipeline<T, V, E>): Pipeline<T, V, E>
    requires s.idle != []
  {
    s.(idle := s.idle[1..], called := s.called + [s.idle[0]])
  }

  function Begun<T, V, E>(s: Pipeline<T, V, E>): Pipeline<T, V, E>
    requires s.inbox != []
  {
    s.(inbox := s.inbox[1..], ready := s.ready + [Active(s.inbox[0], s.inbox[0].awaits)])
  }

  function Suspended<T, V, E>(s: Pipeline<T, V, E>): Pipeline<T, V, E>
    requires s.ready != [] && s.ready[0].left > 0
  {
    s.(ready := s.ready[1..], waiting := s.waiting + [s.ready[0].(left := s.ready[0].left - 1)])
  }

  function Woken<T, V, E>(s: Pipeline<T, V, E>, i: nat): Pipeline<T, V, E>
    requires i < |s.waiting|
  {
    s.(waiting := s.waiting[..i] + s.waiting[i+1..], ready := s.ready + [s.waiting[i]])
  }

  function Finished<T, V, E>(s: Pipeline<T, V, E>, outcome: Outcome<V, E>): Pipeline<T, V, E>
    requires s.ready != []
  {
    var call := Call(s.ready[0].job, outcome);
    if s.registering == Some(call.job.id) then s.(ready := s.ready[1..], held := Some(call))
    else s.(ready := s.ready[1..], idle := s.idle + [call])
  }

  function Next<T, V, E>(s: Pipeline<T, V, E>, e: Step<T, V, E>): Pipeline<T, V, E>
    requires Enabled(s, e)
  {
    match e
    case Start => Started(s)
    case Stop => Stopped(s)
    case Post(task, awaits) => Posted(s, task, awaits)
    case Attach => Attached(s)
    case Deliver => Delivered(s)
    case Begin => Begun(s)
    case Suspend => Suspended(s)
    case Wake(i) => Woken(s, i)
    case Finish(outcome) => Finished(s, outcome)
  }

  function Initial<T, V, E>(): Pipeline<T, V, E> {
    Pipeline(false, [], [], [], [], None, None, [], [], [])
  }

  // -- conservation ---------------------------------------------------------

  /** How often job `j` occurs in a stage. */
  ghost function CountJobs<T>(js: seq<Job<T>>, j: Job<T>): nat { multiset(js)[j] }

  ghost function CountCalls<T, V, E>(calls: seq<Call<T, V, E>>, j: Job<T>): nat { CountJobs(Jobs(calls), j) }

  ghost function CountTasks<T>(actives: seq<Active<T>>, j: Job<T>): nat { CountJobs(Tasks(actives), j) }

  ghost function Is<T>(a: Job<T>, b: Job<T>): nat { if a == b then 1 else 0 }

  lemma TasksConcat<T>(a: seq<Active<T>>, b: seq<Active<T>>)
    ensures Tasks(a + b) == Tasks(a) + Tasks(b)
  {
    if a == [] {
      assert a + b == b;
    } else {
      assert (a + b)[0] == a[0] && (a + b)[1..] == a[1..] + b;
      TasksConcat(a[1..], b);
    }
  }

  // Appending to, taking the head of and removing from a stage.

  lemma JobsAppend<T>(q: seq<Job<T>>, x: Job<T>, j: Job<T>)
    ensures CountJobs(q + [x], j) == CountJobs(q, j) + Is(x, j)
  {
  }

  lemma JobsHead<T>(q: seq<Job<T>>, j: Job<T>)
    requires q != []
    ensures CountJobs(q, j) == Is(q[0], j) + CountJobs(q[1..], j)
  {
    assert q == [q[0]] + q[1..];
  }

  lemma CallsAppend<T, V, E>(q: seq<Call<T, V, E>>, x: Call<T, V, E>, j: Job<T>)
    ensures CountCalls(q + [x], j) == CountCalls(q, j) + Is(x.job, j)
    ensures CountCalls([x], j) == Is(x.job, j) && CountCalls<T, V, E>([], j) == 0
  {
    JobsConcat(q, [x]);
    assert Jobs([x]) == [x.job];
  }

  lemma CallsHead<T, V, E>(q: seq<Call<T, V, E>>, j: Job<T>)
    requires q != []
    ensures CountCalls(q, j) == Is(q[0].job, j) + CountCalls(q[1..], j)
  {
    JobsHead(Jobs(q), j);
  }

  lemma TasksAppend<T>(q: seq<Active<T>>, x: Active<T>, j: Job<T>)
    ensures CountTasks(q + [x], j) == CountTasks(q, j) + Is(x.job, j)
  {
    TasksConcat(q, [x]);
    assert Tasks([x]) == [x.job];
  }

  lemma TasksHead<T>(q: seq<Active<T>>, j: Job<T>)
    requires q != []
    ensures CountTasks(q, j) == Is(q[0].job, j) + CountTasks(q[1..], j)
  {
    JobsHead(Tasks(q), j);
  }

  lemma TasksRemove<T>(q: seq<Active<T>>, i: nat, j: Job<T>)
    requires i < |q|
    ensures CountTasks(q, j) == Is(q[i].job, j) + CountTasks(q[..i] + q[i+1..], j)
  {
    TasksConcat(q[..i], q[i+1..]);
    TasksConcat(q[..i], q[i..]);
    assert q == q[..i] + q[i..];
    TasksHead(q[i..], j);
  }

  /** How many callbacks the pipeline still owes job `j`. */
  ghost function Owes<T, V, E>(s: Pipeline<T, V, E>, j: Job<T>): nat {
    CountCalls(s.idle, j) + CountCalls(Maybe(s.held), j) + CountTasks(s.ready, j) + CountTasks(s.waiting, j)
    + CountJobs(s.inbox, j)
  }

  ghost predicate Balanced<T, V, E>(s: Pipeline<T, V, E>, j: Job<T>) {
    CountJobs(s.submitted, j) == CountCalls(s.called, j) + Owes(s, j) + CountJobs(s.dropped, j)
  }

  /** Each submitted job is in exactly one place. */
  ghost predicate Conserved<T(!new), V, E>(s: Pipeline<T, V, E>) {
    && Numbered(s.submitted)
    && forall j :: Balanced(s, j)
  }

  ghost predicate Registration<T, V, E>(s: Pipeline<T, V, E>) {
    && (s.registering.Some? ==> s.submitted != [] && s.registering.value == |s.submitted| - 1)
    && (s.held.Some? ==> s.registering == Some(s.held.value.job.id))
  }

  /** The held job is not also waiting to be stepped: it would have been counted twice. */
  lemma HeldHasLeftTheLoop<T(!new), V, E>(s: Pipeline<T, V, E>)
    requires Conserved(s) && s.held.Some? && s.ready != []
    ensures s.held.value.job.id != s.ready[0].job.id
  {
    var h, x := s.held.value.job, s.ready[0].job;
    forall j ensures CountJobs(s.submitted, j) >= Is(h, j) + Is(x, j) {
      assert Balanced(s, j);
      CallsAppend([], s.held.value, j);
      TasksHead(s.ready, j);
    }
    assert Is(h, h) == 1 && Is(x, x) == 1;
    NumberedOnce(s.submitted, h);
    NumberedOnce(s.submitted, x);
  }

  lemma FinishOwes<T, V, E>(s: Pipeline<T, V, E>, o: Outcome<V, E>, j: Job<T>)
    requires s.ready != []
    requires s.registering == Some(s.ready[0].job.id) ==> s.held.None?
    ensures Owes(Finished(s, o), j) == Owes(s, j)
  {
    var call := Call(s.ready[0].job, o);
    TasksHead(s.ready, j);
    CallsAppend(s.idle, call, j);
    hide CountCalls, CountTasks, CountJobs;
  }

  lemma SuspendOwes<T, V, E>(s: Pipeline<T, V, E>, j: Job<T>)
    requires s.ready != [] && s.ready[0].left > 0
    ensures Owes(Suspended(s), j) == Owes(s, j)
  {
    var x := s.ready[0];
    TasksHead(s.ready, j);
    TasksAppend(s.waiting, x.(left := x.left - 1), j);
    hide CountCalls, CountTasks, CountJobs;
  }

  lemma WakeOwes<T, V, E>(s: Pipeline<T, V, E>, i: nat, j: Job<T>)
    requires i < |s.waiting|
    ensures Owes(Woken(s, i), j) == Owes(s, j)
  {
    TasksRemove(s.waiting, i, j);
    TasksAppend(s.ready, s.waiting[i], j);
    hide CountCalls, CountTasks, CountJobs;
  }

  lemma BeginOwes<T, V, E>(s: Pipeline<T, V, E>, j: Job<T>)
    requires s.inbox != []
    ensures Owes(Begun(s), j) == Owes(s, j)
  {
    var x := s.inbox[0];
    JobsHead(s.inbox, j);
    TasksAppend(s.ready, Active(x, x.awaits), j);
    hide CountCalls, CountTasks, CountJobs;
  }

  lemma AttachOwes<T, V, E>(s: Pipeline<T, V, E>, j: Job<T>)
    ensures Owes(Attached(s), j) == Owes(s, j)
  {
    match s.held {
      case None => assert s.idle + [] == s.idle;
      case Some(call) => CallsAppend(s.idle, call, j);
    }
  }

  lemma DeliverOwes<T, V, E>(s: Pipeline<T, V, E>, j: Job<T>)
    requires s.idle != []
    ensures var t := Delivered(s);
            && Owes(s, j) == Owes(t, j) + Is(s.idle[0].job, j)
            && CountCalls(t.called, j) == CountCalls(s.called, j) + Is(s.idle[0].job, j)
  {
    CallsHead(s.idle, j);
    CallsAppend(s.called, s.idle[0], j);
    hide CountCalls, CountTasks, CountJobs;
  }

  lemma PostOwes<T, V, E>(s: Pipeline<T, V, E>, task: T, awaits: nat, j: Job<T>)
    ensures var t, x := Posted(s, task, awaits), Job(|s.submitted|, task, awaits);
            Owes(t, j) == Owes(s, j) + Is(x, j) && CountJobs(t.submitted, j) == CountJobs(s.submitted, j) + Is(x, j)
  {
    var x := Job(|s.submitted|, task, awaits);
    JobsAppend(s.inbox, x, j);
    JobsAppend(s.submitted, x, j);
    hide CountCalls, CountTasks, CountJobs;
  }

  lemma StopOwes<T, V, E>(s: Pipeline<T, V, E>, j: Job<T>)
    ensures var t := Stopped(s); Owes(t, j) + CountJobs(t.dropped, j) == Owes(s, j) + CountJobs(s.dropped, j)
  {
    assert CountTasks([], j) == 0 == CountJobs([], j);
    hide CountCalls;
  }

  lemma KeepsConserved<T(!new), V, E>(s: Pipeline<T, V, E>, e: Step<T, V, E>)
    requires Conserved(s) && Registration(s) && Enabled(s, e)
    ensures Conserved(Next(s, e))
  {
    assert Numbered(Next(s, e).submitted);
    forall j ensures Balanced(Next(s, e), j) {
      assert Balanced(s, j);
      if e.Finish? && s.held.Some? { HeldHasLeftTheLoop(s); }
      StepKeepsBalance(s, e, j);
    }
  }

  lemma StepKeepsBalance<T, V, E>(s: Pipeline<T, V, E>, e: Step<T, V, E>, j: Job<T>)
    requires Balanced(s, j) && Enabled(s, e)
    requires e.Finish? && s.registering == Some(s.ready[0].job.id) ==> s.held.None?
    ensures Balanced(Next(s, e), j)
  {
    match e
    case Stop => StopKeepsBalance(s, j); hide Balanced, Stopped;
    case Post(task, awaits) => PostKeepsBalance(s, task, awaits, j); hide Balanced, Posted;
    case Deliver => DeliverKeepsBalance(s, j); hide Balanced, Delivered;
    case _ =>
      QuietOwes(s, e, j);
      QuietLogs(s, e);
      hide Owes, CountCalls, CountJobs, Next;
  }

  lemma StopKeepsBalance<T, V, E>(s: Pipeline<T, V, E>, j: Job<T>)
    requires Balanced(s, j)
    ensures Balanced(Stopped(s), j)
  {
    StopOwes(s, j);
    hide Owes, CountCalls, CountJobs;
  }

  lemma PostKeepsBalance<T, V, E>(s: Pipeline<T, V, E>, task: T, awaits: nat, j: Job<T>)
    requires Balanced(s, j)
    ensures Balanced(Posted(s, task, awaits), j)
  {
    PostOwes(s, task, awaits, j);
    hide Owes, CountCalls, CountJobs;
  }

  lemma DeliverKeepsBalance<T, V, E>(s: Pipeline<T, V, E>, j: Job<T>)
    requires Balanced(s, j) && s.idle != []
    ensures Balanced(Delivered(s), j)
  {
    DeliverOwes(s, j);
    hide Owes, CountCalls, CountJobs;
  }

  /** The steps the contract does not see. */
  predicate IsQuiet<T, V, E>(e: Step<T, V, E>) { !e.Stop? && !e.Post? && !e.Deliver? }

  lemma QuietLogs<T, V, E>(s: Pipeline<T, V, E>, e: Step<T, V, E>)
    requires Enabled(s, e) && IsQuiet(e)
    ensures var t := Next(s, e); t.submitted == s.submitted && t.called == s.called && t.dropped == s.dropped
  {
  }

  lemma QuietOwes<T, V, E>(s: Pipeline<T, V, E>, e: Step<T, V, E>, j: Job<T>)
    requires Enabled(s, e) && IsQuiet(e)
    requires e.Finish? && s.registering == Some(s.ready[0].job.id) ==> s.held.None?
    ensures Owes(Next(s, e), j) == Owes(s, j)
  {
    match e
    case Start =>
    case Attach => AttachOwes(s, j); hide Owes;
    case Begin => BeginOwes(s, j); hide Owes;
    case Suspend => SuspendOwes(s, j); hide Owes;
    case Wake(i) => WakeOwes(s, i, j); hide Owes;
    case Finish(o) => FinishOwes(s, o, j); hide Owes;
  }

  lemma KeepsRegistration<T, V, E>(s: Pipeline<T, V, E>, e: Step<T, V, E>)
    requires Registration(s) && Enabled(s, e)
    ensures Registration(Next(s, e))
  {
  }

  // -- order ----------------------------------------------------------------

  /** A job that never suspends. */
  predicate Prompt<T>(j: Job<T>) { j.awaits == 0 }

  function IfPrompt<T>(j: Job<T>): seq<Job<T>> { if Prompt(j) then [j] else [] }

  function PromptJobs<T>(js: seq<Job<T>>): seq<Job<T>> {
    if js == [] then [] else IfPrompt(js[0]) + PromptJobs(js[1..])
  }

  function PromptCalls<T, V, E>(calls: seq<Call<T, V, E>>): seq<Job<T>> { PromptJobs(Jobs(calls)) }

  function PromptTasks<T>(actives: seq<Active<T>>): seq<Job<T>> { PromptJobs(Tasks(actives)) }

  /** The prompt jobs from the delivery end of the pipeline to its submission end. */
  function PromptLine<T, V, E>(s: Pipeline<T, V, E>): seq<Job<T>> {
    PromptCalls(s.called) + PromptCalls(s.idle) + PromptCalls(Maybe(s.held)) + PromptTasks(s.ready)
        + PromptJobs(s.inbox)
  }

  predicate InSubmissionOrder<T>(js: seq<Job<T>>) {
    forall i, k | 0 <= i < k < |js| :: js[i].id < js[k].id
  }

  /** Tasks never have more awaits left than they started with, and a waiting one has passed one. */
  ghost predicate Bounded<T, V, E>(s: Pipeline<T, V, E>) {
    && (forall a | a in s.ready :: a.left <= a.job.awaits)
    && (forall a | a in s.waiting :: a.left < a.job.awaits)
  }

  ghost predicate Ordered<T, V, E>(s: Pipeline<T, V, E>) {
    && Bounded(s)
    && InSubmissionOrder(PromptLine(s))
  }

  ghost predicate Good<T(!new), V, E>(s: Pipeline<T, V, E>) {
    Conserved(s) && Registration(s) && Ordered(s)
  }

  lemma PromptAppend<T>(q: seq<Job<T>>, x: Job<T>)
    ensures PromptJobs(q + [x]) == PromptJobs(q) + IfPrompt(x)
  {
    if q != [] {
      assert (q + [x])[0] == q[0] && (q + [x])[1..] == q[1..] + [x];
      PromptAppend(q[1..], x);
    }
  }

  lemma PromptCallsAppend<T, V, E>(q: seq<Call<T, V, E>>, x: Call<T, V, E>)
    ensures PromptCalls(q + [x]) == PromptCalls(q) + IfPrompt(x.job)
    ensures PromptCalls([x]) == IfPrompt(x.job) && PromptCalls<T, V, E>([]) == []
  {
    JobsConcat(q, [x]);
    assert Jobs([x]) == [x.job];
    PromptAppend([], x.job);
    PromptAppend(Jobs(q), x.job);
  }

  lemma PromptCallsHead<T, V, E>(q: seq<Call<T, V, E>>)
    requires q != []
    ensures PromptCalls(q) == IfPrompt(q[0].job) + PromptCalls(q[1..])
  {
  }

  lemma PromptTasksAppend<T>(q: seq<Active<T>>, x: Active<T>)
    ensures PromptTasks(q + [x]) == PromptTasks(q) + IfPrompt(x.job)
  {
    TasksConcat(q, [x]);
    assert Tasks([x]) == [x.job];
    PromptAppend(Tasks(q), x.job);
  }

  lemma PromptTasksHead<T>(q: seq<Active<T>>)
    requires q != []
    ensures PromptTasks(q) == IfPrompt(q[0].job) + PromptTasks(q[1..])
  {
  }

  lemma PromptsAreThere<T>(js: seq<Job<T>>, j: Job<T>)
    ensures j in PromptJobs(js) <==> Prompt(j) && CountJobs(js, j) > 0
  {
    if js != [] {
      PromptsAreThere(js[1..], j);
      JobsHead(js, j);
    }
  }

  lemma LineIsSubmitted<T(!new), V, E>(s: Pipeline<T, V, E>, j: Job<T>)
    requires Conserved(s) && j in PromptLine(s)
    ensures j.id < |s.submitted|
  {
    assert Balanced(s, j);
    PromptsAreThere(Jobs(s.called), j);
    PromptsAreThere(Jobs(s.idle), j);
    PromptsAreThere(Jobs(Maybe(s.held)), j);
    PromptsAreThere(Tasks(s.ready), j);
    PromptsAreThere(s.inbox, j);
    assert CountJobs(s.submitted, j) > 0;
    NumberedOnce(s.submitted, j);
  }

  /** While a prompt job is held, no other prompt job is left in the loop: the held one was submitted last. */
  lemma HeldIsLast<T(!new), V, E>(s: Pipeline<T, V, E>)
    requires Good(s) && s.held.Some? && Prompt(s.held.value.job)
    ensures PromptTasks(s.ready) + PromptJobs(s.inbox) == []
  {
    var h, line := s.held.value.job, PromptLine(s);
    PromptCallsAppend([], s.held.value);
    var at := |PromptCalls(s.called) + PromptCalls(s.idle)|;
    assert line[at] == h;
    if at + 1 < |line| {
      LineIsSubmitted(s, line[at + 1]);
    }
  }

  lemma Shift<X>(a: seq<X>, b: seq<X>, c: seq<X>)
    ensures a + (b + c) == a + b + c
  {
  }

  /** Finish moves the first ready job past a held one only if one of the two suspends. */
  lemma FinishLine<T(!new), V, E>(s: Pipeline<T, V, E>, o: Outcome<V, E>)
    requires Good(s) && s.ready != []
    ensures PromptLine(Finished(s, o)) == PromptLine(s)
  {
    var x := s.ready[0].job;
    var p, gap := IfPrompt(x), PromptCalls(Maybe(s.held));
    if s.held.Some? {
      HeldHasLeftTheLoop(s);
      PromptCallsAppend([], s.held.value);
      PromptTasksHead(s.ready);
      if Prompt(s.held.value.job) { HeldIsLast(s); }
    }
    assert p == [] || gap == [] by {
      hide Conserved, Ordered, PromptJobs;
    }
    FinishPasses(s, o);
  }

  lemma FinishPasses<T, V, E>(s: Pipeline<T, V, E>, o: Outcome<V, E>)
    requires s.ready != []
    requires s.registering == Some(s.ready[0].job.id) ==> s.held.None?
    requires IfPrompt(s.ready[0].job) == [] || PromptCalls(Maybe(s.held)) == []
    ensures PromptLine(Finished(s, o)) == PromptLine(s)
  {
    var call, t := Call(s.ready[0].job, o), Finished(s, o);
    var p, gap := IfPrompt(call.job), PromptCalls(Maybe(s.held));
    PromptTasksHead(s.ready);
    PromptCallsAppend(s.idle, call);
    hide PromptCalls, PromptTasks, PromptJobs, IfPrompt;
    var c, i := PromptCalls(s.called), PromptCalls(s.idle);
    Shift(c + i + gap, p, PromptTasks(t.ready));
    Shift(c, i, p);
    assert gap + p == p + gap;
    Shift(c + i, gap, p);
    Shift(c + i, p, gap);
    if s.registering == Some(call.job.id) {
      assert gap == [];
    }
  }

  lemma SuspendLine<T, V, E>(s: Pipeline<T, V, E>)
    requires s.ready != [] && 0 < s.ready[0].left <= s.ready[0].job.awaits
    ensures PromptLine(Suspended(s)) == PromptLine(s)
  {
    PromptTasksHead(s.ready);
    hide PromptCalls, PromptTasks, PromptJobs;
  }

  lemma WakeLine<T, V, E>(s: Pipeline<T, V, E>, i: nat)
    requires i < |s.waiting| && s.waiting[i].left < s.waiting[i].job.awaits
    ensures PromptLine(Woken(s, i)) == PromptLine(s)
  {
    PromptTasksAppend(s.ready, s.waiting[i]);
    hide PromptCalls, PromptTasks, PromptJobs;
  }

  lemma BeginLine<T, V, E>(s: Pipeline<T, V, E>)
    requires s.inbox != []
    ensures PromptLine(Begun(s)) == PromptLine(s)
  {
    PromptTasksAppend(s.ready, Active(s.inbox[0], s.inbox[0].awaits));
    assert PromptJobs(s.inbox) == IfPrompt(s.inbox[0]) + PromptJobs(s.inbox[1..]);
    hide PromptCalls, PromptTasks, PromptJobs;
  }

  lemma AttachLine<T, V, E>(s: Pipeline<T, V, E>)
    ensures PromptLine(Attached(s)) == PromptLine(s)
  {
    match s.held {
      case None => assert s.idle + [] == s.idle;
      case Some(call) =>
        PromptCallsAppend(s.idle, call);
        PromptCallsAppend([], call);
        hide PromptTasks, PromptJobs;
    }
  }

  lemma DeliverLine<T, V, E>(s: Pipeline<T, V, E>)
    requires s.idle != []
    ensures PromptLine(Delivered(s)) == PromptLine(s)
  {
    PromptCallsHead(s.idle);
    PromptCallsAppend(s.called, s.idle[0]);
    hide PromptCalls, PromptTasks, PromptJobs, IfPrompt;
    Shift(PromptCalls(s.called), IfPrompt(s.idle[0].job), PromptCalls(s.idle[1..]));
  }

  lemma PostLine<T, V, E>(s: Pipeline<T, V, E>, task: T, awaits: nat)
    ensures PromptLine(Posted(s, task, awaits)) == PromptLine(s) + IfPrompt(Job(|s.submitted|, task, awaits))
  {
    PromptAppend(s.inbox, Job(|s.submitted|, task, awaits));
    hide PromptCalls, PromptTasks, PromptJobs;
  }

  lemma StopLine<T, V, E>(s: Pipeline<T, V, E>)
    ensures PromptLine(s) == PromptLine(Stopped(s)) + PromptTasks(s.ready) + PromptJobs(s.inbox)
  {
    assert PromptTasks<T>([]) == [] == PromptJobs<T>([]);
    hide PromptCalls, PromptTasks, PromptJobs;
    NothingBetween(PromptCalls(s.called) + PromptCalls(s.idle) + PromptCalls(Maybe(s.held)),
                   PromptTasks(s.ready), PromptJobs(s.inbox));
  }

  lemma NothingBetween<X>(a: seq<X>, b: seq<X>, c: seq<X>)
    ensures a + [] + [] + b + c == a + b + c
  {
  }

  lemma PostKeepsOrder<T(!new), V, E>(s: Pipeline<T, V, E>, task: T, awaits: nat)
    requires Good(s) && Enabled(s, Post(task, awaits))
    ensures InSubmissionOrder(PromptLine(Posted(s, task, awaits)))
  {
    PostLine(s, task, awaits);
    forall j | j in PromptLine(s) ensures j.id < |s.submitted| { LineIsSubmitted(s, j); }
    hide PromptLine, Conserved;
  }

  lemma KeepsOrder<T(!new), V, E>(s: Pipeline<T, V, E>, e: Step<T, V, E>)
    requires Good(s) && Enabled(s, e)
    ensures InSubmissionOrder(PromptLine(Next(s, e)))
  {
    match e
    case Start =>
    case Stop =>
      StopLine(s);
      assert PromptLine(Stopped(s)) <= PromptLine(s);
    case Post(task, awaits) =>
      PostKeepsOrder(s, task, awaits);
      hide PromptLine, Conserved, Posted;
    case Attach => AttachLine(s);
    case Deliver => DeliverLine(s);
    case Begin => BeginLine(s);
    case Suspend => SuspendLine(s);
    case Wake(i) => WakeLine(s, i);
    case Finish(o) => FinishLine(s, o);
    hide PromptLine, Conserved;
  }

  lemma KeepsBounded<T, V, E>(s: Pipeline<T, V, E>, e: Step<T, V, E>)
    requires Bounded(s) && Enabled(s, e)
    ensures Bounded(Next(s, e))
  {
  }

  lemma KeepsOrdered<T(!new), V, E>(s: Pipeline<T, V, E>, e: Step<T, V, E>)
    requires Good(s) && Enabled(s, e)
    ensures Ordered(Next(s, e))
  {
    KeepsOrder(s, e);
    KeepsBounded(s, e);
    hide PromptLine, Conserved, InSubmissionOrder, Next, Bounded;
  }

  // ---------------------------------------------------------- main results

  lemma StepKeepsGood<T(!new), V, E>(s: Pipeline<T, V, E>, e: Step<T, V, E>)
    requires Good(s) && Enabled(s, e)
    ensures Good(Next(s, e))
  {
    KeepsConserved(s, e);
    KeepsRegistration(s, e);
    KeepsOrdered(s, e);
  }

  /** The contract's view of the pipeline. */
  ghost function Abs<T, V, E>(s: Pipeline<T, V, E>): Contract<T, V, E> {
    Contract(s.submitted, OwedBag(s), s.called)
  }

  ghost function OwedBag<T, V, E>(s: Pipeline<T, V, E>): multiset<Job<T>> {
    multiset(Jobs(s.idle)) + multiset(Jobs(Maybe(s.held))) + multiset(Tasks(s.ready)) + multiset(Tasks(s.waiting))
    + multiset(s.inbox)
  }

  lemma OwedAt<T, V, E>(s: Pipeline<T, V, E>, j: Job<T>)
    ensures OwedBag(s)[j] == Owes(s, j)
  {
  }

  function Seen<T, V, E>(s: Pipeline<T, V, E>, e: Step<T, V, E>): Observed<T, V, E>
    requires Enabled(s, e)
  {
    match e
    case Post(task, awaits) => Submitted(Job(|s.submitted|, task, awaits))
    case Deliver => CalledBack(s.idle[0])
    case Stop => Abandoned(Abandons(s))
    case _ => Nothing
  }

  function Abandons<T, V, E>(s: Pipeline<T, V, E>): seq<Job<T>> { Tasks(s.waiting) + Tasks(s.ready) + s.inbox }

  /** How what is seen of a step changes the number of callbacks owed to job `j`. */
  ghost predicate Moves<T, V, E>(before: int, after: int, o: Observed<T, V, E>, j: Job<T>) {
    match o
    case Nothing => after == before
    case Submitted(x) => after == before + Is(x, j)
    case CalledBack(c) => before == after + Is(c.job, j)
    case Abandoned(js) => before == after + CountJobs(js, j)
  }

  lemma StepOwes<T(!new), V, E>(s: Pipeline<T, V, E>, e: Step<T, V, E>, j: Job<T>)
    requires Good(s) && Enabled(s, e)
    ensures Moves(Owes(s, j), Owes(Next(s, e), j), Seen(s, e), j)
  {
    match e
    case Stop => StopMoves(s, j); hide *;
    case Post(task, awaits) => PostMoves(s, task, awaits, j); hide *;
    case Deliver => DeliverMoves(s, j); hide *;
    case _ => QuietMoves(s, e, j); hide *;
  }

  lemma StopMoves<T, V, E>(s: Pipeline<T, V, E>, j: Job<T>)
    requires Enabled(s, Stop)
    ensures Moves(Owes(s, j), Owes(Next(s, Stop), j), Seen(s, Stop), j)
  {
    StopAbandons(s, j);
    hide Owes;
  }

  lemma PostMoves<T, V, E>(s: Pipeline<T, V, E>, task: T, awaits: nat, j: Job<T>)
    requires Enabled(s, Post(task, awaits))
    ensures Moves(Owes(s, j), Owes(Next(s, Post(task, awaits)), j), Seen(s, Post(task, awaits)), j)
  {
    PostOwes(s, task, awaits, j);
    hide Owes;
  }

  lemma DeliverMoves<T, V, E>(s: Pipeline<T, V, E>, j: Job<T>)
    requires Enabled(s, Deliver)
    ensures Moves(Owes(s, j), Owes(Next(s, Deliver), j), Seen(s, Deliver), j)
  {
    DeliverOwes(s, j);
    hide Owes;
  }

  lemma QuietMoves<T(!new), V, E>(s: Pipeline<T, V, E>, e: Step<T, V, E>, j: Job<T>)
    requires Good(s) && Enabled(s, e) && IsQuiet(e)
    ensures Moves(Owes(s, j), Owes(Next(s, e), j), Seen(s, e), j)
  {
    if e.Finish? && s.held.Some? { HeldHasLeftTheLoop(s); }
    QuietOwes(s, e, j);
    hide Owes, Next;
  }

  lemma StopAbandons<T, V, E>(s: Pipeline<T, V, E>, j: Job<T>)
    ensures Owes(s, j) == Owes(Stopped(s), j) + CountJobs(Abandons(s), j)
  {
    assert CountTasks([], j) == 0 == CountJobs([], j);
  }

  /** The thread scheduler refines the port's contract, and only main-thread steps show. */
  lemma ThreadRefinesContract<T(!new), V, E>(s: Pipeline<T, V, E>, e: Step<T, V, E>)
    requires Good(s) && Enabled(s, e)
    ensures Allowed(Abs(s), Seen(s, e)) && Abs(Next(s, e)) == Observe(Abs(s), Seen(s, e))
    ensures !Seen(s, e).Nothing? ==> OnMainThread(e)
  {
    StepMovesBag(s, e);
    StepLogs(s, e);
    BagsMove(OwedBag(s), OwedBag(Next(s, e)), Seen(s, e));
    hide OwedBag, Good, Moves, Abandons, Next, Seen, Enabled;
  }

  /** The logs record what is seen. */
  lemma StepLogs<T, V, E>(s: Pipeline<T, V, E>, e: Step<T, V, E>)
    requires Enabled(s, e)
    ensures var t, o := Next(s, e), Seen(s, e);
            && t.submitted == (if o.Submitted? then s.submitted + [o.job] else s.submitted)
            && t.called == (if o.CalledBack? then s.called + [o.call] else s.called)
            && (o.Submitted? ==> o.job.id == |s.submitted|)
            && (o.Nothing? || OnMainThread(e))
  {
  }

  lemma StepMovesBag<T(!new), V, E>(s: Pipeline<T, V, E>, e: Step<T, V, E>)
    requires Good(s) && Enabled(s, e)
    ensures forall j :: Moves(OwedBag(s)[j], OwedBag(Next(s, e))[j], Seen(s, e), j)
  {
    forall j ensures Moves(OwedBag(s)[j], OwedBag(Next(s, e))[j], Seen(s, e), j) {
      StepOwes(s, e, j);
      OwedAt(s, j);
      OwedAt(Next(s, e), j);
      hide *;
    }
  }

  lemma BagsMove<T(!new), V, E>(before: multiset<Job<T>>, after: multiset<Job<T>>, o: Observed<T, V, E>)
    requires forall j :: Moves(before[j], after[j], o, j)
    ensures o.Nothing? ==> after == before
    ensures o.Submitted? ==> after == before + multiset{o.job}
    ensures o.CalledBack? ==> o.call.job in before && after == before - multiset{o.call.job}
    ensures o.Abandoned? ==> multiset(o.jobs) <= before && after == before - multiset(o.jobs)
  {
    forall j ensures Moves(before[j], after[j], o, j) {}
    if o.CalledBack? {
      assert Moves(before[o.call.job], after[o.call.job], o, o.call.job);
    }
  }
}
