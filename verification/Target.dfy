/**
 The code of one target, critical section by critical section, as it mutates the fields the threads
 share. Each method is an uninterrupted execution of a path of the transition system.
 */
module Target {
  import opened Common
  import opened Connection
  import opened View
  import opened Lifecycle
  import opened LifecycleTheorems

  /** Where a list of steps leads, if each of them can be taken. */
  function Path<S, A>(next: (S, A) -> Option<S>, s: S, steps: seq<A>): Option<S> {
    if steps == [] then Some(s)
    else
      match Path(next, s, steps[..|steps| - 1])
      case Some(before) => next(before, steps[|steps| - 1])
      case None => None
  }

  lemma {:induction false} PathThrough<S, A>(next: (S, A) -> Option<S>, a: S, first: seq<A>, b: S, second: seq<A>)
    requires Path(next, a, first) == Some(b)
    ensures Path(next, a, first + second) == Path(next, b, second)
  {
    if second == [] {
      assert first + second == first;
    } else {
      var n := |second| - 1;
      PathThrough(next, a, first, b, second[..n]);
      assert (first + second)[..|first| + n] == first + second[..n];
    }
  }

  function Next(): (State, Step) -> Option<State> {
    (s: State, step: Step) => if Enabled(s, step) then Some(Apply(s, step)) else None
  }

  /** `after` is where these steps lead from `before`, each enabled when its turn comes. */
  ghost predicate Leads(before: State, steps: seq<Step>, after: State) {
    Path(Next(), before, steps) == Some(after)
  }

  lemma OneStep(a: State, step: Step, b: State)
    requires Follows(a, step, b)
    ensures Leads(a, [step], b)
  {
    assert [step][..0] == [];
    assert Next()(a, step) == Some(b);
  }

  lemma LeadsThrough(a: State, first: seq<Step>, b: State, second: seq<Step>, c: State)
    requires Leads(a, first, b) && Leads(b, second, c)
    ensures Leads(a, first + second, c)
  {
    PathThrough(Next(), a, first, b, second);
  }

  lemma LeadsOn(a: State, steps: seq<Step>, b: State, step: Step, c: State)
    requires Leads(a, steps, b) && Follows(b, step, c)
    ensures Leads(a, steps + [step], c)
  {
    OneStep(b, step, c);
    LeadsThrough(a, steps, b, [step], c);
  }

  lemma TwoSteps(a: State, first: Step, b: State, second: Step, c: State)
    requires Follows(a, first, b) && Follows(b, second, c)
    ensures Leads(a, [first, second], c)
  {
    OneStep(a, first, b);
    LeadsOn(a, [first], b, second, c);
    assert [first] + [second] == [first, second];
  }

  lemma FourSteps(a: State, s1: Step, b: State, s2: Step, c: State, s3: Step, d: State, s4: Step, e: State)
    requires Follows(a, s1, b) && Follows(b, s2, c) && Follows(c, s3, d) && Follows(d, s4, e)
    ensures Leads(a, [s1, s2, s3, s4], e)
  {
    TwoSteps(a, s1, b, s2, c);
    TwoSteps(c, s3, d, s4, e);
    LeadsThrough(a, [s1, s2], c, [s3, s4], e);
    assert [s1, s2] + [s3, s4] == [s1, s2, s3, s4];
  }

  /** Whatever path a call takes, the invariant of every run survives it. */
  lemma {:induction false} PathsKeepInv(before: State, steps: seq<Step>, after: State)
    requires Inv(before) && Leads(before, steps, after)
    ensures Inv(after)
  {
    if steps != [] {
      var n := |steps| - 1;
      var last := Path(Next(), before, steps[..n]).value;
      PathsKeepInv(before, steps[..n], last);
      assert Next()(last, steps[n]) == Some(after);
      StepKeepsInv(last, steps[n]);
    }
  }

  const START: seq<Step> := [StartCheck, StartPublish, StartSpawn, StartStore]
  const STOP: seq<Step> := [StopTake, StopPublish]

  /** Report the loss, refuse what is queued, and go to sleep or end. */
  function LossPath(t: TaskId, queued: nat): seq<Step> {
    [Loop(t, ReportLoss)] + Drains(t, queued) + [Loop(t, DrainEmpty)]
  }

  function Drains(t: TaskId, queued: nat): seq<Step> {
    seq(queued, _ => Loop(t, Lifecycle.DrainOne))
  }

  /** Loop `t` has refused this many of the commands it held in `s0`. */
  ghost predicate Drained(s0: State, t: TaskId, drained: nat, s: State) {
    && |s.tasks| == |s0.tasks| && t < |s0.tasks| && drained <= |s0.tasks[t].inbox|
    && s.tasks[t] == s0.tasks[t].(inbox := s0.tasks[t].inbox[drained..])
    && Leads(s0, Drains(t, drained), s)
  }

  lemma DrainsNone(s0: State, t: TaskId)
    requires t < |s0.tasks|
    ensures Drained(s0, t, 0, s0)
  {
    assert Drains(t, 0) == [];
  }

  lemma DrainsOn(s0: State, t: TaskId, drained: nat, b: State, c: State)
    requires Drained(s0, t, drained, b) && b.tasks[t].inbox != [] && Follows(b, Loop(t, Lifecycle.DrainOne), c)
    requires |c.tasks| == |b.tasks| && c.tasks[t] == b.tasks[t].(inbox := b.tasks[t].inbox[1..])
    ensures Drained(s0, t, drained + 1, c)
  {
    LeadsOn(s0, Drains(t, drained), b, Loop(t, Lifecycle.DrainOne), c);
    assert Drains(t, drained) + [Loop(t, Lifecycle.DrainOne)] == Drains(t, drained + 1);
  }

  /** How a command that was run comes back. */
  function Answered(answer: Result<string, TransportError>): LoopStep {
    match answer
    case Ok(output) => CommandAnswered(output)
    case Err(error) => CommandBroke(error)
  }

  class Target {
    var generation: nat
    var snapshot: TargetSnapshot
    var lock: Lock
    var slot: Option<TaskId>
    var tasks: seq<Task>
    var jobs: seq<Job>
    var handed: seq<Handover>

    constructor ()
      ensures View() == Initial(Placeholder(Idle)) && Inv(View())
    {
      generation, lock, slot, tasks, jobs, handed := 0, Free, None, [], [], [];
      snapshot := Placeholder(Idle);
      new;
      InitialInv(snapshot);
    }

    function View(): State
      reads this
    {
      State(generation, snapshot, lock, slot, tasks, jobs, handed)
    }

    method Start()
      requires lock == Free
      modifies this
      ensures old(slot.Some? && slot.value < |tasks| && !tasks[slot.value].finished) ==> View() == old(View())
      ensures old(!(slot.Some? && slot.value < |tasks| && !tasks[slot.value].finished)) ==>
                && Leads(old(View()), START, View())
                && slot == Some(old(|tasks|)) && |tasks| == old(|tasks|) + 1
                && tasks[slot.value].generation == generation == old(generation) + 1
                && tasks[slot.value].inbox == [] && snapshot.state == Connecting
      ensures lock == Free
    {
      if slot.Some? && slot.value < |tasks| && !tasks[slot.value].finished {
        return;
      }
      ghost var s0 := View();
      TakeLock();
      ghost var s1 := View();
      BeginGeneration();
      ghost var s2 := View();
      Spawn();
      ghost var s3 := View();
      FillSlot();
      FourSteps(s0, StartCheck, s1, StartPublish, s2, StartSpawn, s3, StartStore, View());
    }

    method TakeLock()
      requires lock == Free && SlotIdle(View())
      modifies `lock
      ensures Follows(old(View()), StartCheck, View()) && lock == StartChecked
    {
      lock := StartChecked;
    }

    /** The loop spawned last becomes the running one, and the lock is given back. */
    method FillSlot()
      requires lock == StartSpawned && tasks != []
      modifies `lock, `slot
      ensures Follows(old(View()), StartStore, View()) && lock == Free && slot == Some(|tasks| - 1)
    {
      lock, slot := Free, Some(|tasks| - 1);
    }

    /** Under the snapshot lock: a new generation, and Connecting on screen. */
    method BeginGeneration()
      requires lock == StartChecked
      modifies this
      ensures Follows(old(View()), StartPublish, View())
      ensures generation == old(generation) + 1 && snapshot.state == Connecting && tasks == old(tasks)
      ensures lock == StartPublished
    {
      lock, generation, snapshot := StartPublished, generation + 1, SetState(snapshot, Connecting);
    }

    /** A loop of the new generation, with an inbox of its own. */
    method Spawn()
      requires lock == StartPublished
      modifies this
      ensures Follows(old(View()), StartSpawn, View())
      ensures generation == old(generation) && snapshot == old(snapshot) && |tasks| == old(|tasks|) + 1
      ensures tasks[old(|tasks|)].generation == generation && tasks[old(|tasks|)].inbox == []
      ensures lock == StartSpawned
    {
      lock, tasks := StartSpawned, tasks + [Task(generation, Announcing, 0, 0, false, [], false, false, [])];
    }

    method Stop()
      requires lock == Free
      modifies this
      ensures Leads(old(View()), STOP, View())
      ensures lock == Free && slot == None && snapshot.state == Idle && generation == old(generation) + 1
      ensures |tasks| == old(|tasks|)
      ensures old(slot).Some? && old(slot).value < old(|tasks|) ==> tasks[old(slot).value].aborted
    {
      ghost var s0 := View();
      lock := Stopping;
      if slot.Some? && slot.value < |tasks| {
        tasks := tasks[slot.value := tasks[slot.value].(aborted := true)];
      }
      slot := None;
      ghost var s1 := View();
      generation, snapshot := generation + 1, SetState(snapshot, Idle);
      lock := Free;
      TwoSteps(s0, StopTake, s1, StopPublish, View());
    }

    /** The locked part of `run_command`: accept the command into the inbox of the running loop, or refuse. */
    method Accept() returns (accepted: Option<JobId>)
      requires lock == Free
      modifies this
      ensures Follows(old(View()), Enqueue, View())
      ensures accepted.Some? <==> old(Accepts(View()))
      ensures accepted == None ==> View() == old(View())
      ensures accepted.Some? ==> old(snapshot.state) == Online && old(slot.Some? && slot.value < |tasks| && !tasks[slot.value].finished)
      ensures accepted.Some? ==>
                && accepted.value == old(|jobs|) < |jobs|
                && slot == old(slot) && slot.Some? && slot.value < |tasks|
                && jobs[accepted.value] == Job(slot.value, tasks[slot.value].session, Pending, Waiting)
                && tasks[slot.value].inbox == old(tasks[slot.value].inbox) + [accepted.value]
    {
      if slot == None || slot.value >= |tasks| || tasks[slot.value].finished {
        return None;
      }
      if snapshot.state != Online {
        return None;
      }
      var t := slot.value;
      if tasks[t].pc.Returned? {
        return None;
      }
      var j := |jobs|;
      tasks := tasks[t := tasks[t].(inbox := tasks[t].inbox + [j])];
      jobs := jobs + [Job(t, tasks[t].session, Pending, Waiting)];
      return Some(j);
    }

    /** `publish` */
    method Publish(t: TaskId, state: ConnectionState)
      requires t < |tasks|
      modifies `snapshot
      ensures View() == Lifecycle.Publish(old(View()), t, SetState(old(snapshot), state))
    {
      if tasks[t].generation == generation {
        snapshot := SetState(snapshot, state);
      }
    }

    /** A successful tick: the first one of a session only announces it, later ones replace the snapshot. */
    method PublishTick(t: TaskId)
      requires t < |tasks| && tasks[t].pc.Publishing?
      modifies this
      ensures Follows(old(View()), Loop(t, Lifecycle.PublishTick), View())
      ensures old(tasks[t].generation) == generation ==> snapshot.state == Online
      ensures !old(tasks[t].publishedFirst) ==> snapshot.gauges == old(snapshot.gauges)
      ensures old(tasks[t].publishedFirst) && old(tasks[t].generation) == generation ==>
                snapshot == BuildSnapshot(old(tasks[t].pc.reading), Online)
    {
      var reading := tasks[t].pc.reading;
      if tasks[t].publishedFirst {
        var built := BuildSnapshot(reading, Online);
        if tasks[t].generation == generation {
          snapshot := built;
        }
      } else {
        Publish(t, Online);
      }
      tasks := tasks[t := tasks[t].(pc := Gap, publishedFirst := true)];
    }

    /** The gap between refreshes: take the oldest command, and hand it to the session unless its caller has given up. */
    method ServeNext(t: TaskId, answer: Result<string, TransportError>)
      requires t < |tasks| && tasks[t].pc == Gap && tasks[t].inbox != [] && tasks[t].inbox[0] < |jobs|
      modifies this
      ensures old(jobs[tasks[t].inbox[0]].caller) == TimedOut ==>
                Follows(old(View()), Loop(t, Dequeue), View()) && handed == old(handed)
      ensures old(jobs[tasks[t].inbox[0]].caller) != TimedOut ==>
                Leads(old(View()), [Loop(t, Dequeue), Loop(t, Answered(answer))], View())
      ensures |tasks| == old(|tasks|) && |jobs| == old(|jobs|)
      ensures old(jobs[tasks[t].inbox[0]].caller) != TimedOut ==>
                && handed == old(handed + [Handover(tasks[t].inbox[0], t, tasks[t].session)])
                && match answer
                   case Ok(output) => jobs[old(tasks[t].inbox[0])].reply == HostSaid(output) && tasks[t].pc == Gap
                   case Err(error) =>
                     && jobs[old(tasks[t].inbox[0])].reply == TransportFailed(error.message)
                     && tasks[t].pc == ReportingLoss(error)
    {
      if jobs[tasks[t].inbox[0]].caller == TimedOut {
        DropWithdrawn(t);
        return;
      }
      ghost var s0 := View();
      HandOver(t);
      ghost var s1 := View();
      Answer(t, answer);
      TwoSteps(s0, Loop(t, Dequeue), s1, Loop(t, Answered(answer)), View());
    }

    method DropWithdrawn(t: TaskId)
      requires t < |tasks| && tasks[t].pc == Gap && tasks[t].inbox != [] && tasks[t].inbox[0] < |jobs|
      requires jobs[tasks[t].inbox[0]].caller == TimedOut
      modifies `tasks, `jobs
      ensures Follows(old(View()), Loop(t, Dequeue), View())
      ensures |tasks| == old(|tasks|) && |jobs| == old(|jobs|)
    {
      var j := tasks[t].inbox[0];
      tasks := tasks[t := tasks[t].(inbox := tasks[t].inbox[1..])];
      jobs := jobs[j := jobs[j].(reply := SenderDropped)];
    }

    method HandOver(t: TaskId)
      requires t < |tasks| && tasks[t].pc == Gap && tasks[t].inbox != [] && tasks[t].inbox[0] < |jobs|
      requires jobs[tasks[t].inbox[0]].caller != TimedOut
      modifies `tasks, `handed
      ensures Follows(old(View()), Loop(t, Dequeue), View())
      ensures |tasks| == old(|tasks|) && tasks[t].pc == AwaitCommand(old(tasks[t].inbox[0]))
      ensures handed == old(handed + [Handover(tasks[t].inbox[0], t, tasks[t].session)])
    {
      var j := tasks[t].inbox[0];
      tasks := tasks[t := tasks[t].(inbox := tasks[t].inbox[1..], pc := AwaitCommand(j))];
      handed := handed + [Handover(j, t, tasks[t].session)];
    }

    /** The command came back: reply, and on a failure report the session as lost. */
    method Answer(t: TaskId, answer: Result<string, TransportError>)
      requires t < |tasks| && tasks[t].pc.AwaitCommand? && tasks[t].pc.job < |jobs|
      modifies `tasks, `jobs
      ensures Follows(old(View()), Loop(t, Answered(answer)), View())
      ensures |tasks| == old(|tasks|) && |jobs| == old(|jobs|)
      ensures match answer
        case Ok(output) => jobs[old(tasks[t].pc.job)].reply == HostSaid(output) && tasks[t].pc == Gap
        case Err(error) =>
          jobs[old(tasks[t].pc.job)].reply == TransportFailed(error.message) && tasks[t].pc == ReportingLoss(error)
    {
      var j := tasks[t].pc.job;
      var reply := if answer.Ok? then HostSaid(answer.value) else TransportFailed(answer.error.message);
      jobs := jobs[j := jobs[j].(reply := reply)];
      tasks := tasks[t := tasks[t].(pc := if answer.Ok? then Gap else ReportingLoss(answer.error))];
    }

    /** The end of a session: publish the loss first, then refuse everything still queued. */
    method LoseSession(t: TaskId)
      requires t < |tasks| && tasks[t].pc.ReportingLoss?
      modifies this
      ensures Leads(old(View()), LossPath(t, |old(tasks[t].inbox)|), View())
      ensures |tasks| == old(|tasks|) && tasks[t].inbox == []
      ensures tasks[t].pc == if old(tasks[t].pc.error.transient) then Sleeping else Returned
      ensures tasks[t].generation == generation ==>
                snapshot.state == if old(tasks[t].pc.error.transient) then Reconnecting(1, 1_000)
                                  else Failed(old(tasks[t].pc.error.message), false)
    {
      ghost var s0, queued := View(), |tasks[t].inbox|;
      PublishLoss(t);
      ghost var s1 := View();
      Drain(t);
      ghost var s2 := View();
      AfterDrain(t);
      OneStep(s0, Loop(t, ReportLoss), s1);
      LeadsThrough(s0, [Loop(t, ReportLoss)], s1, Drains(t, queued), s2);
      LeadsOn(s0, [Loop(t, ReportLoss)] + Drains(t, queued), s2, Loop(t, DrainEmpty), View());
    }

    method PublishLoss(t: TaskId)
      requires t < |tasks| && tasks[t].pc.ReportingLoss?
      modifies this
      ensures Follows(old(View()), Loop(t, ReportLoss), View())
      ensures |tasks| == old(|tasks|) && tasks[t].inbox == old(tasks[t].inbox)
      ensures tasks[t].pc == Draining(old(tasks[t].pc.error))
      ensures tasks[t].generation == generation ==>
                snapshot.state == if old(tasks[t].pc.error.transient) then Reconnecting(1, 1_000)
                                  else Failed(old(tasks[t].pc.error.message), false)
    {
      var error := tasks[t].pc.error;
      var state := StateAfterLoss(0, error);
      var retry := if state.Reconnecting? then state.retryInMs else 0;
      tasks := tasks[t := tasks[t].(pc := Draining(error), trace := tasks[t].trace + [SessionLost(error.transient, retry)])];
      Publish(t, state);
    }

    /** `while let Ok((_, reply)) = inbox.try_recv()` */
    method Drain(t: TaskId)
      requires t < |tasks| && tasks[t].pc.Draining?
      modifies `tasks, `jobs
      ensures Leads(old(View()), Drains(t, |old(tasks[t].inbox)|), View())
      ensures |tasks| == old(|tasks|) && tasks[t] == old(tasks[t]).(inbox := [])
    {
      ghost var s0, drained := View(), 0;
      DrainsNone(s0, t);
      while tasks[t].inbox != []
        invariant Drained(s0, t, drained, View())
        decreases |tasks[t].inbox|
      {
        ghost var before := View();
        DrainOne(t);
        DrainsOn(s0, t, drained, before, View());
        drained := drained + 1;
      }
    }

    method DrainOne(t: TaskId)
      requires t < |tasks| && tasks[t].pc.Draining? && tasks[t].inbox != []
      modifies `tasks, `jobs
      ensures Follows(old(View()), Loop(t, Lifecycle.DrainOne), View())
      ensures |tasks| == old(|tasks|) && tasks[t] == old(tasks[t]).(inbox := old(tasks[t].inbox)[1..])
    {
      var j := tasks[t].inbox[0];
      tasks := tasks[t := tasks[t].(inbox := tasks[t].inbox[1..])];
      if j < |jobs| {
        jobs := jobs[j := jobs[j].(reply := Refused)];
      }
    }

    /** Sleep before the next attempt, or end if there is no point in one. */
    method AfterDrain(t: TaskId)
      requires t < |tasks| && tasks[t].pc.Draining? && tasks[t].inbox == []
      modifies this
      ensures Follows(old(View()), Loop(t, DrainEmpty), View())
      ensures |tasks| == old(|tasks|) && tasks[t].inbox == [] && tasks[t].generation == old(tasks[t].generation)
      ensures tasks[t].pc == if old(tasks[t].pc.error.transient) then Sleeping else Returned
      ensures snapshot == old(snapshot) && generation == old(generation)
    {
      if tasks[t].pc.error.transient {
        Sleep(t);
      } else {
        End(t);
      }
    }

    /** One more consecutive failure, and the wait that goes with it. */
    method Sleep(t: TaskId)
      requires t < |tasks|
      modifies `tasks
      ensures tasks == old(tasks)[t := BackOff(old(tasks[t]))]
    {
      var attempt := SaturatingAdd(tasks[t].attempt, 1, U32_MAX);
      var trace := tasks[t].trace + [Slept(BackoffFor(attempt))];
      tasks := tasks[t := tasks[t].(pc := Sleeping, attempt := attempt, trace := trace)];
    }

    /** A failed connect: say so, and sleep if there is a point in trying again. */
    method FailConnect(t: TaskId, error: TransportError)
      requires t < |tasks| && tasks[t].pc.AwaitConnect?
      modifies this
      ensures Leads(old(View()), [Loop(t, ConnectFails(error)), Loop(t, Lifecycle.ReportFailure)], View())
      ensures |tasks| == old(|tasks|) && tasks[t].pc == if error.transient then Sleeping else Returned
      ensures tasks[t].generation == generation ==> snapshot.state == Failed(error.message, error.transient)
    {
      ghost var s0 := View();
      tasks := tasks[t := tasks[t].(pc := ReportingFailure(error))];
      ghost var s1 := View();
      OneStep(s0, Loop(t, ConnectFails(error)), s1);
      ReportFailure(t, error);
      LeadsOn(s0, [Loop(t, ConnectFails(error))], s1, Loop(t, Lifecycle.ReportFailure), View());
      assert [Loop(t, ConnectFails(error))] + [Loop(t, Lifecycle.ReportFailure)]
          == [Loop(t, ConnectFails(error)), Loop(t, Lifecycle.ReportFailure)];
    }

    method ReportFailure(t: TaskId, error: TransportError)
      requires t < |tasks| && tasks[t].pc == ReportingFailure(error)
      modifies this
      ensures Follows(old(View()), Loop(t, Lifecycle.ReportFailure), View())
      ensures |tasks| == old(|tasks|) && tasks[t].pc == if error.transient then Sleeping else Returned
      ensures tasks[t].generation == generation ==> snapshot.state == Failed(error.message, error.transient)
    {
      Publish(t, Failed(error.message, error.transient));
      tasks := tasks[t := tasks[t].(trace := tasks[t].trace + [ConnectFailed(error.transient)])];
      if error.transient {
        Sleep(t);
      } else {
        End(t);
      }
    }

    /** The loop returns: its inbox, and every reply channel in it, is dropped. */
    method End(t: TaskId)
      requires t < |tasks|
      modifies this
      ensures View() == Abandon(old(View()), t)
    {
      jobs := Abandon(View(), t).jobs;
      tasks := tasks[t := tasks[t].(pc := Returned, inbox := [])];
    }
  }
}
