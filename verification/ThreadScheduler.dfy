/**
  The fallback scheduler as an object: its fields are the queues a job moves
  through, and each method is one thread's atomic step on them.  A valid object
  is one whose steps so far kept the books, so the guarantees of whole runs are
  facts about it.
*/
module ThreadScheduler {
  import opened Common
  import opened Scheduling
  import opened SchedulerRuns

  class ThreadLoopScheduler<!T(!new), V, E> {
    var loop: bool  // self._loop is set: start() ran, stop() did not
    var inbox: seq<Job<T>>
    var ready: seq<Active<T>>
    var waiting: seq<Active<T>>
    var registering: Option<nat>
    var held: Option<Call<T, V, E>>
    var idle: seq<Call<T, V, E>>
    var called: seq<Call<T, V, E>>
    var submitted: seq<Job<T>>
    var dropped: seq<Job<T>>

    ghost function View(): Pipeline<T, V, E>
      reads this
    {
      Pipeline(loop, submitted, inbox, ready, waiting, registering, held, idle, called, dropped)
    }

    /** Every submitted job is in exactly one place, and prompt jobs are in submission order. */
    ghost predicate Valid()
      reads this
    {
      Good(View())
    }

    /** The main thread runs one call at a time: it is not inside submit(). */
    predicate MainThreadIsFree()
      reads this
    {
      registering.None?
    }

    constructor ()
      ensures Valid() && View() == Initial()
    {
      loop, inbox, ready, waiting, registering, held := false, [], [], [], None, None;
      idle, called, submitted, dropped := [], [], [], [];
      new;
      InitialGood<T, V, E>();
      assert View() == Initial();
      hide Good;
    }

    /** start(): a second call changes nothing. */
    method Start()
      requires Valid() && MainThreadIsFree()
      modifies this
      ensures Valid() && View() == Started(old(View()))
    {
      StepKeepsGood(View(), Step.Start);
      hide Good;
      if loop { return; }
      loop := true;
    }

    method Stop()
      requires Valid() && MainThreadIsFree()
      modifies this
      ensures Valid() && View() == Stopped(old(View()))
    {
      StepKeepsGood(View(), Step.Stop);
      hide Good;
      dropped := dropped + Tasks(waiting) + Tasks(ready) + inbox;
      inbox, ready, waiting := [], [], [];
      loop := false;
    }

    /** submit(), first half: refused before start(), else the coroutine is posted to the loop thread. */
    method Submit(task: T, awaits: nat) returns (accepted: bool)
      requires Valid() && MainThreadIsFree()
      modifies this
      ensures Valid() && accepted == old(loop)
      ensures View() == if accepted then Posted(old(View()), task, awaits) else old(View())
    {
      accepted := loop;
      if accepted {
        StepKeepsGood(View(), Post(task, awaits));
        hide Good;
        var job := Job(|submitted|, task, awaits);
        submitted := submitted + [job];
        inbox := inbox + [job];
        registering := Some(job.id);
      }
    }

    /** submit(), second half: add_done_callback, which dispatches at once if the future is already done. */
    method AddDoneCallback()
      requires Valid() && !MainThreadIsFree()
      modifies this
      ensures Valid() && MainThreadIsFree() && View() == Attached(old(View()))
    {
      StepKeepsGood(View(), Attach);
      assert Next(View(), Attach) == Attached(View());
      hide Good, Enabled, Next;
      match held {
        case None => assert idle + [] == idle;
        case Some(call) => idle := idle + [call];
      }
      registering, held := None, None;
      assert View() == Attached(old(View()));
      hide Attached;
    }

    /** The main loop runs the oldest idle source. */
    method Deliver() returns (call: Call<T, V, E>)
      requires Valid() && MainThreadIsFree() && idle != []
      modifies this
      ensures Valid() && View() == Delivered(old(View())) && call == old(idle[0])
    {
      StepKeepsGood(View(), Step.Deliver);
      hide Good;
      call := idle[0];
      idle := idle[1..];
      called := called + [call];
    }

    /** The loop thread turns the oldest posted coroutine into a task. */
    method CreateTask()
      requires Valid() && inbox != []
      modifies this
      ensures Valid() && View() == Begun(old(View()))
    {
      StepKeepsGood(View(), Begin);
      hide Good;
      var job := inbox[0];
      inbox := inbox[1..];
      ready := ready + [Active(job, job.awaits)];
    }

    /** The loop thread steps the first ready task: it suspends, or ends with `outcome` and is dispatched. */
    method StepTask(outcome: Outcome<V, E>)
      requires Valid() && ready != []
      modifies this
      ensures Valid()
      ensures View() == if old(ready[0].left) > 0 then Suspended(old(View())) else Finished(old(View()), outcome)
    {
      LoopStepKeepsGood(View(), outcome);
      hide Good;
      var task := ready[0];
      ready := ready[1..];
      if task.left > 0 {
        waiting := waiting + [task.(left := task.left - 1)];
      } else {
        var call := Call(task.job, outcome);
        if registering == Some(task.job.id) {
          held := Some(call);
        } else {
          idle := idle + [call];
        }
      }
      assert View() == if old(ready[0].left) > 0 then Suspended(old(View())) else Finished(old(View()), outcome);
      hide Suspended, Finished;
    }

    /** What task `i` awaited is done. */
    method Wake(i: nat)
      requires Valid() && i < |waiting|
      modifies this
      ensures Valid() && View() == Woken(old(View()), i)
    {
      StepKeepsGood(View(), Step.Wake(i));
      hide Good;
      var task := waiting[i];
      waiting := waiting[..i] + waiting[i+1..];
      ready := ready + [task];
    }
  }

  lemma LoopStepKeepsGood<T(!new), V, E>(s: Pipeline<T, V, E>, outcome: Outcome<V, E>)
    requires Good(s) && s.ready != []
    ensures Good(if s.ready[0].left > 0 then Suspended(s) else Finished(s, outcome))
  {
    StepKeepsGood(s, if s.ready[0].left > 0 then Suspend else Finish(outcome));
    hide Good;
  }

  /** The callbacks a valid scheduler has run: none twice, only for submitted jobs, in order among the prompt ones. */
  lemma CallsOfAnObject<T(!new), V, E>(o: ThreadLoopScheduler<T, V, E>)
    requires o.Valid()
    ensures forall i, k | 0 <= i < k < |o.called| :: o.called[i].job != o.called[k].job
    ensures forall i | 0 <= i < |o.called| :: o.called[i].job in o.submitted
    ensures InSubmissionOrder(PromptCalls(o.called))
  {
    CalledAtMostOnce(o.View());
    PromptCallsInOrder(o.View());
    hide Good;
  }

  /** An object with empty queues that was never stopped has called back every submission exactly once. */
  lemma DrainedObject<T(!new), V, E>(o: ThreadLoopScheduler<T, V, E>)
    requires o.Valid() && o.MainThreadIsFree() && o.dropped == []
    requires o.inbox == [] && o.ready == [] && o.waiting == [] && o.idle == []
    ensures multiset(Jobs(o.called)) == multiset(o.submitted)
    ensures forall j | j in o.submitted :: multiset(Jobs(o.called))[j] == 1
  {
    assert Registration(o.View());
    assert Work(o.View()) == 0;
    hide Good, Work, Registration;
    DrainedIsExactlyOnce(o.View());
  }
}
