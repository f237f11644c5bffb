/**
 Where an accepted command can be. Every pending job is held by the run that accepted it, inboxes
 only hold jobs of the loop's current session, and what is handed to a session respects both.
 */
module LifecycleJobs {
  import opened Common
  import opened Connection
  import opened View
  import opened Lifecycle
  import opened LifecycleControl

  ghost predicate WasHandedOver(log: seq<Handover>, j: JobId) {
    exists a :: 0 <= a < |log| && log[a].job == j
  }

  /** Every command handed over was accepted by this task under this session. */
  ghost predicate HandoverOk(s: State, e: Handover) {
    && e.job < |s.jobs|
    && e.task == s.jobs[e.job].run
    && e.session == s.jobs[e.job].session
  }

  ghost predicate HandoversOk(s: State) {
    && (forall a :: 0 <= a < |s.handed| ==> HandoverOk(s, s.handed[a]))
    && (forall a, b :: 0 <= a < b < |s.handed| && s.handed[a].task == s.handed[b].task
          ==> s.handed[a].job < s.handed[b].job)
  }

  /** A queued job belongs to this task and its current session, and nobody has answered it. */
  ghost predicate OwnPending(s: State, t: TaskId, j: JobId)
    requires t < |s.tasks|
  {
    j < |s.jobs| && s.jobs[j].run == t && s.jobs[j].session == s.tasks[t].session && s.jobs[j].reply == Pending
  }

  /** Everything this task has handed over came before job `j`. */
  ghost predicate RanBefore(s: State, t: TaskId, j: JobId) {
    forall a :: 0 <= a < |s.handed| && s.handed[a].task == t ==> s.handed[a].job < j
  }

  ghost predicate InboxOk(s: State, t: TaskId)
    requires t < |s.tasks|
  {
    var task := s.tasks[t];
    && StrictlyIncreasing(task.inbox)
    && (forall k :: 0 <= k < |task.inbox| ==> OwnPending(s, t, task.inbox[k]) && RanBefore(s, t, task.inbox[k]))
    && (task.inbox != [] ==> InSession(task.pc) || task.pc.Draining?)
    && (task.pc.AwaitCommand? ==> OwnPending(s, t, task.pc.job) && WasHandedOver(s.handed, task.pc.job))
  }

  ghost predicate JobOk(s: State, j: JobId)
    requires j < |s.jobs|
  {
    var job := s.jobs[j];
    && job.run < |s.tasks|
    && (job.reply == Pending ==> Holds(s.tasks[job.run], j))
    && (job.reply.HostSaid? || job.reply.TransportFailed? ==> WasHandedOver(s.handed, j))
    && (job.reply.Refused? ==> !WasHandedOver(s.handed, j))
    && (job.caller.Got? ==> job.caller.reply == job.reply != Pending)
  }

  ghost predicate JobsInv(s: State) {
    && HandoversOk(s)
    && (forall t :: 0 <= t < |s.tasks| ==> InboxOk(s, t))
    && (forall j :: 0 <= j < |s.jobs| ==> JobOk(s, j))
  }

  // ---------------------------------------------------------------------------------------
  // UI steps

  /** A command is only ever accepted into the inbox of a loop that is in a session. */
  lemma AcceptedWhileInSession(s: State)
    requires Control(s) && s.lock == Free && s.snapshot.state == Online && s.slot.Some? && s.slot.value < |s.tasks|
    ensures InSession(s.tasks[s.slot.value].pc) && s.tasks[s.slot.value].generation == s.generation
  {
    var i :| 0 <= i < |s.tasks| && s.tasks[i].generation == s.generation && InSession(s.tasks[i].pc);
    assert i == s.slot.value;
  }

  lemma EnqueueKeepsOtherInbox(s: State, i: TaskId)
    requires s.lock == Free && Accepts(s) && i < |s.tasks| && i != s.slot.value && InboxOk(s, i)
    ensures InboxOk(ApplyUi(s, Enqueue), i)
  {
    var s' := ApplyUi(s, Enqueue);
    forall j | OwnPending(s, i, j) ensures OwnPending(s', i, j) {}
  }

  lemma EnqueueKeepsItsInbox(s: State)
    requires s.lock == Free && Accepts(s) && InboxOk(s, s.slot.value) && HandoversOk(s) && InSession(s.tasks[s.slot.value].pc)
    ensures InboxOk(ApplyUi(s, Enqueue), s.slot.value)
  {
    var s', t := ApplyUi(s, Enqueue), s.slot.value;
    var before, after := s.tasks[t].inbox, s'.tasks[t].inbox;
    assert after == before + [|s.jobs|];
    forall a | 0 <= a < |s.handed| ensures s.handed[a].job < |s.jobs| {
      assert HandoverOk(s, s.handed[a]);
    }
    forall k | 0 <= k < |after| ensures OwnPending(s', t, after[k]) && RanBefore(s', t, after[k]) {
      if k < |before| {
        assert OwnPending(s, t, before[k]) && RanBefore(s, t, before[k]);
      }
    }
  }

  lemma EnqueueKeepsJobs(s: State)
    requires Control(s) && JobsInv(s) && s.lock == Free && Accepts(s)
    ensures JobsInv(ApplyUi(s, Enqueue))
  {
    AcceptedWhileInSession(s);
    var s' := ApplyUi(s, Enqueue);
    forall i | 0 <= i < |s'.tasks| ensures InboxOk(s', i) {
      assert InboxOk(s, i);
      if i == s.slot.value {
        EnqueueKeepsItsInbox(s);
      } else {
        EnqueueKeepsOtherInbox(s, i);
      }
    }
    assert s'.tasks[s.slot.value].inbox == s.tasks[s.slot.value].inbox + [|s.jobs|];
    forall j | 0 <= j < |s'.jobs| ensures JobOk(s', j) {
      if j < |s.jobs| {
        assert JobOk(s, j);
      }
    }
  }

  lemma CallerKeepsJobs(s: State, step: Step)
    requires JobsInv(s) && (step.CallerReads? || step.CallerTimesOut?) && EnabledUi(s, step)
    ensures JobsInv(ApplyUi(s, step))
  {
    var s' := ApplyUi(s, step);
    forall i | 0 <= i < |s'.tasks| ensures InboxOk(s', i) {
      assert InboxOk(s, i);
    }
    forall j | 0 <= j < |s'.jobs| ensures JobOk(s', j) {
      assert JobOk(s, j);
    }
  }

  /** No job, no inbox and no session is touched, and new loops have none. */
  ghost predicate LeavesJobsAlone(s: State, s': State) {
    && s'.jobs == s.jobs && s'.handed == s.handed
    && |s.tasks| <= |s'.tasks|
    && (forall i :: 0 <= i < |s.tasks| ==>
          && s'.tasks[i].inbox == s.tasks[i].inbox
          && s'.tasks[i].pc == s.tasks[i].pc
          && s'.tasks[i].session == s.tasks[i].session)
    && (forall i :: |s.tasks| <= i < |s'.tasks| ==> s'.tasks[i].inbox == [] && s'.tasks[i].pc.Announcing?)
  }

  lemma AloneKeepsJobs(s: State, s': State)
    requires JobsInv(s) && LeavesJobsAlone(s, s')
    ensures JobsInv(s')
  {
    forall i | 0 <= i < |s'.tasks| ensures InboxOk(s', i) {
      if i < |s.tasks| {
        assert InboxOk(s, i);
        assert forall k :: 0 <= k < |s.tasks[i].inbox| ==> OwnPending(s, i, s.tasks[i].inbox[k]);
      }
    }
    forall j | 0 <= j < |s'.jobs| ensures JobOk(s', j) {
      assert JobOk(s, j);
    }
  }

  lemma UiLeavesJobsAlone(s: State, step: Step)
    requires !step.Loop? && EnabledUi(s, step)
    requires !(step.Enqueue? && Accepts(s)) && !step.CallerReads? && !step.CallerTimesOut?
    ensures LeavesJobsAlone(s, ApplyUi(s, step))
  {
  }

  lemma UiKeepsJobs(s: State, step: Step)
    requires Control(s) && JobsInv(s) && !step.Loop? && EnabledUi(s, step)
    ensures JobsInv(ApplyUi(s, step))
  {
    if step.Enqueue? && Accepts(s) {
      EnqueueKeepsJobs(s);
    } else if step.CallerReads? || step.CallerTimesOut? {
      CallerKeepsJobs(s, step);
    } else {
      UiLeavesJobsAlone(s, step);
      AloneKeepsJobs(s, ApplyUi(s, step));
    }
  }

  // ---------------------------------------------------------------------------------------
  // Loop steps

  /** A step that leaves the jobs and the log alone and moves one task without losing a job. */
  lemma QuietKeepsJobs(s: State, s': State, t: TaskId)
    requires JobsInv(s) && t < |s.tasks| == |s'.tasks|
    requires s'.jobs == s.jobs && s'.handed == s.handed
    requires forall i :: 0 <= i < |s.tasks| && i != t ==> s'.tasks[i] == s.tasks[i]
    requires s'.tasks[t].inbox == s.tasks[t].inbox
    requires !s.tasks[t].pc.AwaitCommand? && !s'.tasks[t].pc.AwaitCommand?
    requires s.tasks[t].inbox != [] ==>
               && s'.tasks[t].session == s.tasks[t].session
               && (InSession(s'.tasks[t].pc) || s'.tasks[t].pc.Draining?)
    ensures JobsInv(s')
  {
    forall i | 0 <= i < |s'.tasks| ensures InboxOk(s', i) {
      assert InboxOk(s, i);
      assert forall k :: 0 <= k < |s.tasks[i].inbox| ==> OwnPending(s, i, s.tasks[i].inbox[k]);
    }
    forall j | 0 <= j < |s'.jobs| ensures JobOk(s', j) {
      assert JobOk(s, j);
    }
  }

  lemma AbandonKeepsJobs(s: State, t: TaskId)
    requires JobsInv(s) && t < |s.tasks|
    ensures JobsInv(Abandon(s, t))
  {
    var s' := Abandon(s, t);
    assert InboxOk(s, t);
    forall i | 0 <= i < |s'.tasks| ensures InboxOk(s', i) {
      assert InboxOk(s, i);
      if i != t {
        forall j | OwnPending(s, i, j) ensures OwnPending(s', i, j) {
          assert !Holds(s.tasks[t], j);
        }
      }
    }
    forall j | 0 <= j < |s'.jobs| ensures JobOk(s', j) {
      assert JobOk(s, j);
      if Holds(s.tasks[t], j) {
        assert OwnPending(s, t, j);
        assert s.jobs[j].reply == Pending;
      }
    }
  }

  /** Taking the oldest job out of the inbox and answering it (or starting it). */
  lemma PopKeepsInboxes(s: State, s': State, t: TaskId, reply: Reply)
    requires JobsInv(s) && t < |s.tasks| == |s'.tasks| && s.tasks[t].inbox != []
    requires s'.tasks[t].inbox == s.tasks[t].inbox[1..] && s'.tasks[t].session == s.tasks[t].session
    requires s'.tasks[t].pc == s.tasks[t].pc && !s.tasks[t].pc.AwaitCommand?
    requires forall i :: 0 <= i < |s.tasks| && i != t ==> s'.tasks[i] == s.tasks[i]
    requires s'.handed == s.handed
    requires var j := s.tasks[t].inbox[0]; j < |s.jobs| && s'.jobs == s.jobs[j := s.jobs[j].(reply := reply)]
    requires reply == Refused || reply == SenderDropped
    ensures JobsInv(s')
  {
    var head := s.tasks[t].inbox[0];
    assert InboxOk(s, t) && OwnPending(s, t, head) && RanBefore(s, t, head);
    forall a | 0 <= a < |s.handed| ensures s.handed[a].job != head {
      assert HandoverOk(s, s.handed[a]);
    }
    forall i | 0 <= i < |s'.tasks| ensures InboxOk(s', i) {
      assert InboxOk(s, i);
      forall j | OwnPending(s, i, j) && j != head ensures OwnPending(s', i, j) {}
    }
    forall j | 0 <= j < |s'.jobs| ensures JobOk(s', j) {
      assert JobOk(s, j);
      assert j in s.tasks[t].inbox ==> j == head || j in s.tasks[t].inbox[1..];
    }
  }

  /** Job `j` leaves the front of the inbox for the session. */
  ghost predicate HandsOver(s: State, s': State, t: TaskId, j: JobId)
    requires t < |s.tasks|
  {
    && s.tasks[t].pc.Gap? && s.tasks[t].inbox != [] && s.tasks[t].inbox[0] == j
    && s'.jobs == s.jobs
    && s'.handed == s.handed + [Handover(j, t, s.tasks[t].session)]
    && s'.tasks == s.tasks[t := s.tasks[t].(inbox := s.tasks[t].inbox[1..], pc := AwaitCommand(j))]
  }

  lemma HandedOverMore(s: State, s': State, t: TaskId, j: JobId)
    requires t < |s.tasks| && HandsOver(s, s', t, j)
    ensures forall x :: WasHandedOver(s'.handed, x) <==> WasHandedOver(s.handed, x) || x == j
  {
    assert s'.handed[|s.handed|].job == j;
    forall x ensures WasHandedOver(s'.handed, x) <==> WasHandedOver(s.handed, x) || x == j {
      if a :| 0 <= a < |s.handed| && s.handed[a].job == x {
        assert s'.handed[a].job == x;
      }
    }
  }

  lemma HandOverKeepsInbox(s: State, s': State, t: TaskId, j: JobId, i: TaskId)
    requires JobsInv(s) && t < |s.tasks| && HandsOver(s, s', t, j) && i < |s.tasks|
    ensures InboxOk(s', i)
  {
    assert InboxOk(s, t) && OwnPending(s, t, j);
    assert InboxOk(s, i);
    HandedOverMore(s, s', t, j);
    forall k | 0 <= k < |s'.tasks[i].inbox|
      ensures OwnPending(s', i, s'.tasks[i].inbox[k]) && RanBefore(s', i, s'.tasks[i].inbox[k])
    {
      var x := s'.tasks[i].inbox[k];
      assert i == t ==> x == s.tasks[t].inbox[k + 1];
      assert i != t ==> x == s.tasks[i].inbox[k];
      assert OwnPending(s, i, x) && RanBefore(s, i, x);
    }
  }

  lemma HandOverKeepsLog(s: State, s': State, t: TaskId, j: JobId)
    requires JobsInv(s) && t < |s.tasks| && HandsOver(s, s', t, j)
    ensures HandoversOk(s')
  {
    assert InboxOk(s, t) && OwnPending(s, t, s.tasks[t].inbox[0]) && RanBefore(s, t, s.tasks[t].inbox[0]);
    forall a | 0 <= a < |s'.handed| ensures HandoverOk(s', s'.handed[a]) {
      assert a < |s.handed| ==> HandoverOk(s, s.handed[a]);
    }
  }

  lemma HandOverKeepsJob(s: State, s': State, t: TaskId, j: JobId, x: JobId)
    requires JobsInv(s) && t < |s.tasks| && HandsOver(s, s', t, j) && x < |s.jobs|
    ensures JobOk(s', x)
  {
    assert InboxOk(s, t) && OwnPending(s, t, s.tasks[t].inbox[0]);
    assert JobOk(s, x);
    HandedOverMore(s, s', t, j);
    assert x in s.tasks[t].inbox ==> x == j || x in s.tasks[t].inbox[1..];
  }

  lemma HandOverKeepsJobs(s: State, t: TaskId)
    requires JobsInv(s) && t < |s.tasks| && EnabledLoop(s.tasks[t], Dequeue)
    requires s.tasks[t].inbox[0] < |s.jobs| && s.jobs[s.tasks[t].inbox[0]].caller != TimedOut
    ensures JobsInv(ApplyLoop(s, t, Dequeue))
  {
    var s', j := ApplyLoop(s, t, Dequeue), s.tasks[t].inbox[0];
    assert HandsOver(s, s', t, j);
    HandOverKeepsLog(s, s', t, j);
    forall i | 0 <= i < |s'.tasks| ensures InboxOk(s', i) {
      HandOverKeepsInbox(s, s', t, j, i);
    }
    forall x | 0 <= x < |s'.jobs| ensures JobOk(s', x) {
      HandOverKeepsJob(s, s', t, j, x);
    }
  }

  /** The command in the loop's hands is answered, and the loop moves on within its session. */
  ghost predicate Answers(s: State, s': State, t: TaskId, reply: Reply)
    requires t < |s.tasks| && s.tasks[t].pc.AwaitCommand? && s.tasks[t].pc.job < |s.jobs|
  {
    var j := s.tasks[t].pc.job;
    && s'.handed == s.handed
    && s'.jobs == s.jobs[j := s.jobs[j].(reply := reply)]
    && |s'.tasks| == |s.tasks|
    && (forall i :: 0 <= i < |s.tasks| && i != t ==> s'.tasks[i] == s.tasks[i])
    && s'.tasks[t] == s.tasks[t].(pc := s'.tasks[t].pc) && InSession(s'.tasks[t].pc) && !s'.tasks[t].pc.AwaitCommand?
  }

  lemma AnswerKeepsInbox(s: State, s': State, t: TaskId, reply: Reply, i: TaskId)
    requires JobsInv(s) && t < |s.tasks| && s.tasks[t].pc.AwaitCommand? && s.tasks[t].pc.job < |s.jobs|
    requires Answers(s, s', t, reply) && i < |s.tasks|
    ensures InboxOk(s', i)
  {
    var j0 := s.tasks[t].pc.job;
    assert InboxOk(s, t) && OwnPending(s, t, j0);
    assert InboxOk(s, i);
    forall k | 0 <= k < |s.tasks[i].inbox| ensures OwnPending(s', i, s.tasks[i].inbox[k]) {
      assert OwnPending(s, i, s.tasks[i].inbox[k]) && RanBefore(s, i, s.tasks[i].inbox[k]);
      if i == t {
        var a :| 0 <= a < |s.handed| && s.handed[a].job == j0;
        assert HandoverOk(s, s.handed[a]);
      }
    }
  }

  lemma AnswerKeepsJob(s: State, s': State, t: TaskId, reply: Reply, x: JobId)
    requires JobsInv(s) && t < |s.tasks| && s.tasks[t].pc.AwaitCommand? && s.tasks[t].pc.job < |s.jobs|
    requires Answers(s, s', t, reply) && (reply.HostSaid? || reply.TransportFailed?) && x < |s.jobs|
    ensures JobOk(s', x)
  {
    assert InboxOk(s, t) && OwnPending(s, t, s.tasks[t].pc.job);
    assert JobOk(s, x);
  }

  lemma AnswerKeepsJobs(s: State, t: TaskId, step: LoopStep)
    requires JobsInv(s) && t < |s.tasks| && EnabledLoop(s.tasks[t], step)
    requires step.CommandAnswered? || step.CommandBroke?
    ensures JobsInv(ApplyLoop(s, t, step))
  {
    var s' := ApplyLoop(s, t, step);
    assert InboxOk(s, t) && OwnPending(s, t, s.tasks[t].pc.job);
    var reply := if step.CommandAnswered? then HostSaid(step.output) else TransportFailed(step.error.message);
    assert Answers(s, s', t, reply);
    forall a | 0 <= a < |s'.handed| ensures HandoverOk(s', s'.handed[a]) {
      assert HandoverOk(s, s.handed[a]);
    }
    forall i | 0 <= i < |s'.tasks| ensures InboxOk(s', i) {
      AnswerKeepsInbox(s, s', t, reply, i);
    }
    forall x | 0 <= x < |s'.jobs| ensures JobOk(s', x) {
      AnswerKeepsJob(s, s', t, reply, x);
    }
  }

  /** The steps that neither answer, start nor drop a command. */
  predicate IsQuiet(step: LoopStep) {
    || step.Announce? || step.ConnectSucceeds? || step.ConnectFails? || step.TickSucceeds? || step.TickFails?
    || step.PublishTick? || step.RefreshDue? || step.ReportLoss? || step.Wake? || step.Finish?
  }

  lemma QuietStepKeepsJobs(s: State, t: TaskId, step: LoopStep)
    requires JobsInv(s) && t < |s.tasks| && EnabledLoop(s.tasks[t], step) && IsQuiet(step)
    ensures JobsInv(ApplyLoop(s, t, step))
  {
    assert InboxOk(s, t);
    QuietKeepsJobs(s, ApplyLoop(s, t, step), t);
  }

  lemma PopStepKeepsJobs(s: State, t: TaskId, step: LoopStep)
    requires JobsInv(s) && t < |s.tasks| && EnabledLoop(s.tasks[t], step) && (step.Dequeue? || step.DrainOne?)
    ensures JobsInv(ApplyLoop(s, t, step))
  {
    assert InboxOk(s, t) && OwnPending(s, t, s.tasks[t].inbox[0]);
    if step.DrainOne? {
      PopKeepsInboxes(s, ApplyLoop(s, t, step), t, Refused);
    } else if s.jobs[s.tasks[t].inbox[0]].caller == TimedOut {
      PopKeepsInboxes(s, ApplyLoop(s, t, step), t, SenderDropped);
    } else {
      HandOverKeepsJobs(s, t);
    }
  }

  lemma DrainedKeepsJobs(s: State, t: TaskId)
    requires JobsInv(s) && t < |s.tasks| && EnabledLoop(s.tasks[t], DrainEmpty)
    ensures JobsInv(ApplyLoop(s, t, DrainEmpty))
  {
    if s.tasks[t].pc.error.transient {
      QuietKeepsJobs(s, ApplyLoop(s, t, DrainEmpty), t);
    } else {
      AbandonKeepsJobs(s, t);
    }
  }

  lemma FailureKeepsJobs(s: State, t: TaskId)
    requires JobsInv(s) && t < |s.tasks| && EnabledLoop(s.tasks[t], ReportFailure)
    ensures JobsInv(ApplyLoop(s, t, ReportFailure))
  {
    var task := s.tasks[t];
    var error := task.pc.error;
    assert InboxOk(s, t);
    if error.transient {
      QuietKeepsJobs(s, ApplyLoop(s, t, ReportFailure), t);
    } else {
      var published := Publish(s, t, SetState(s.snapshot, Failed(error.message, error.transient)));
      var reported := WithTask(published, t, task.(trace := task.trace + [ConnectFailed(error.transient)]));
      QuietKeepsJobs(s, reported, t);
      AbandonKeepsJobs(reported, t);
    }
  }

  lemma LoopKeepsJobs(s: State, t: TaskId, step: LoopStep)
    requires JobsInv(s) && t < |s.tasks| && EnabledLoop(s.tasks[t], step)
    ensures JobsInv(ApplyLoop(s, t, step))
  {
    match step
    case Dequeue => PopStepKeepsJobs(s, t, step);
    case DrainOne => PopStepKeepsJobs(s, t, step);
    case CommandAnswered(_) => AnswerKeepsJobs(s, t, step);
    case CommandBroke(_) => AnswerKeepsJobs(s, t, step);
    case Cancelled => AbandonKeepsJobs(s, t);
    case DrainEmpty => DrainedKeepsJobs(s, t);
    case ReportFailure => FailureKeepsJobs(s, t);
    case _ => QuietStepKeepsJobs(s, t, step);
  }

  lemma StepKeepsJobs(s: State, step: Step)
    requires Control(s) && JobsInv(s) && Enabled(s, step)
    ensures JobsInv(Apply(s, step))
  {
    match step
    case Loop(t, loopStep) => LoopKeepsJobs(s, t, loopStep);
    case _ => UiKeepsJobs(s, step);
  }
}
