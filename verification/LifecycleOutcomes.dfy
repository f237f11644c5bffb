/**
 What every run makes of its commands, its waits and its screens, told from the steps taken alone.
 */
module LifecycleOutcomes {
  import opened Common
  import opened Lifecycle
  import opened LifecycleControl
  import opened LifecycleJobs
  import opened LifecycleTheorems

  // ---------------------------------------------------------------------------------------
  // Every reply has its cause

  /** The step that tells the caller of job `j` this, taken in this state. */
  predicate Causes(s: State, step: Step, j: JobId, reply: Reply) {
    && j < |s.jobs| && step.Loop? && step.task == s.jobs[j].run && step.task < |s.tasks|
    && var task := s.tasks[step.task];
       match reply
       case HostSaid(output) => step.step == CommandAnswered(output) && task.pc == AwaitCommand(j)
       case TransportFailed(message) =>
         step.step.CommandBroke? && step.step.error.message == message && task.pc == AwaitCommand(j)
       case Refused => step.step == DrainOne && task.pc.Draining? && task.inbox != [] && task.inbox[0] == j
       case SenderDropped =>
         || (step.step == Dequeue && task.inbox != [] && task.inbox[0] == j && s.jobs[j].caller == TimedOut)
         || (step.step == Cancelled && Holds(task, j))
       case Pending => false
  }

  /** A loop that has drained its inbox, or has failed to connect, holds no command. */
  lemma NothingHeldOutside(s: State, t: TaskId)
    requires JobsInv(s) && t < |s.tasks| && !InSession(s.tasks[t].pc)
    requires !s.tasks[t].pc.Draining? || s.tasks[t].inbox == []
    ensures forall j :: !Holds(s.tasks[t], j)
  {
    assert InboxOk(s, t);
  }

  lemma HeldByItsRun(s: State, t: TaskId, j: JobId)
    requires JobsInv(s) && t < |s.tasks| && Holds(s.tasks[t], j)
    ensures j < |s.jobs| && s.jobs[j].run == t && s.jobs[j].reply == Pending
  {
    assert InboxOk(s, t);
    if j in s.tasks[t].inbox {
      var k :| 0 <= k < |s.tasks[t].inbox| && s.tasks[t].inbox[k] == j;
      assert OwnPending(s, t, s.tasks[t].inbox[k]);
    }
  }

  /** Which loop steps write to which reply, and what. */
  lemma LoopWritesReply(s: State, t: TaskId, step: LoopStep, j: JobId)
    requires t < |s.tasks| && EnabledLoop(s.tasks[t], step) && j < |s.jobs| == |ApplyLoop(s, t, step).jobs|
    requires step.ReportFailure? || step.DrainEmpty? ==> !Holds(s.tasks[t], j)
    requires Holds(s.tasks[t], j) ==> s.jobs[j].run == t
    ensures var reply := ApplyLoop(s, t, step).jobs[j].reply;
      reply == s.jobs[j].reply || Causes(s, Loop(t, step), j, reply)
  {
  }

  lemma StepWritesReply(s: State, step: Step, s': State, j: JobId)
    requires Inv(s) && Follows(s, step, s') && j < |s'.jobs|
    ensures if j < |s.jobs| then s'.jobs[j].reply == s.jobs[j].reply || Causes(s, step, j, s'.jobs[j].reply)
            else s'.jobs[j].reply == Pending
  {
    match step
    case Loop(t, loopStep) =>
      LoopSharedFrame(s, t, loopStep);
      WhatIsHeld(s, t, loopStep, j);
      LoopWritesReply(s, t, loopStep, j);
    case _ =>
  }

  lemma WhatIsHeld(s: State, t: TaskId, step: LoopStep, j: JobId)
    requires JobsInv(s) && t < |s.tasks| && EnabledLoop(s.tasks[t], step) && j < |s.jobs|
    ensures step.ReportFailure? || step.DrainEmpty? ==> !Holds(s.tasks[t], j)
    ensures Holds(s.tasks[t], j) ==> s.jobs[j].run == t
  {
    if Holds(s.tasks[t], j) {
      HeldByItsRun(s, t, j);
    }
    if step.ReportFailure? || step.DrainEmpty? {
      NothingHeldOutside(s, t);
    }
  }

  lemma CauseWritesReply(s: State, step: Step, s': State, j: JobId, reply: Reply)
    requires Follows(s, step, s') && Causes(s, step, j, reply)
    ensures j < |s'.jobs| && s'.jobs[j].reply == reply
  {
  }

  /** Before step `i` of the run, some step told the caller of job `j` this. */
  ghost predicate WasTold(states: seq<State>, steps: seq<Step>, i: nat, j: JobId, reply: Reply)
    requires i <= |steps| && i < |states|
  {
    exists n :: 0 <= n < i && Causes(states[n], steps[n], j, reply)
  }

  lemma {:induction false} RepliesHaveCauses(states: seq<State>, steps: seq<Step>, i: nat, j: JobId)
    requires IsRun(states, steps) && i < |states| && j < |states[i].jobs| && states[i].jobs[j].reply != Pending
    ensures WasTold(states, steps, i, j, states[i].jobs[j].reply)
  {
    if i > 0 {
      RunStep(states, steps, i - 1);
      ReachableInv(states, steps, i - 1);
      StepWritesReply(states[i - 1], steps[i - 1], states[i], j);
      var reply := states[i].jobs[j].reply;
      if !Causes(states[i - 1], steps[i - 1], j, reply) {
        RepliesHaveCauses(states, steps, i - 1, j);
        var n :| 0 <= n < i - 1 && Causes(states[n], steps[n], j, reply);
      }
    }
  }

  /**
   A command has been answered in some way exactly if the step that answers it so was taken: an answer is
   what the host said to this very command, a failure is the one that broke it off, a refusal came out
   of the drain, and a dropped sender is a withdrawn command or an aborted loop.
   */
  lemma RepliesAreWhatHappened(states: seq<State>, steps: seq<Step>, i: nat, j: JobId, reply: Reply)
    requires IsRun(states, steps) && i < |states| && j < |states[i].jobs| && reply != Pending
    ensures states[i].jobs[j].reply == reply <==> WasTold(states, steps, i, j, reply)
  {
    if states[i].jobs[j].reply == reply {
      RepliesHaveCauses(states, steps, i, j);
    }
    if WasTold(states, steps, i, j, reply) {
      var n :| 0 <= n < i && Causes(states[n], steps[n], j, reply);
      RunStep(states, steps, n);
      CauseWritesReply(states[n], steps[n], states[n + 1], j, reply);
      RunExtends(states, steps, n + 1, i);
    }
  }

  /** The step by which the caller of job `j` comes to this. */
  predicate Resolves(s: State, step: Step, j: JobId, caller: Caller) {
    match caller
    case Waiting => false
    case Got(reply) => step == CallerReads(j) && j < |s.jobs| && s.jobs[j].reply == reply
    case TimedOut => step == CallerTimesOut(j)
  }

  ghost predicate WasResolved(states: seq<State>, steps: seq<Step>, i: nat, j: JobId, caller: Caller)
    requires i <= |steps| && i < |states|
  {
    exists n :: 0 <= n < i && Resolves(states[n], steps[n], j, caller)
  }

  lemma LoopLeavesCallers(s: State, t: TaskId, step: LoopStep, j: JobId)
    requires t < |s.tasks| && EnabledLoop(s.tasks[t], step) && j < |s.jobs| == |ApplyLoop(s, t, step).jobs|
    ensures ApplyLoop(s, t, step).jobs[j].caller == s.jobs[j].caller
  {
  }

  lemma StepWritesCaller(s: State, step: Step, s': State, j: JobId)
    requires Follows(s, step, s') && j < |s'.jobs|
    ensures if j < |s.jobs| then s'.jobs[j].caller == s.jobs[j].caller || Resolves(s, step, j, s'.jobs[j].caller)
            else s'.jobs[j].caller == Waiting
  {
    match step
    case Loop(t, loopStep) =>
      LoopSharedFrame(s, t, loopStep);
      LoopLeavesCallers(s, t, loopStep, j);
    case _ =>
  }

  lemma ResolvingWritesCaller(s: State, step: Step, s': State, j: JobId, caller: Caller)
    requires Follows(s, step, s') && Resolves(s, step, j, caller)
    ensures j < |s'.jobs| && s'.jobs[j].caller == caller
  {
  }

  lemma {:induction false} CallersWereResolved(states: seq<State>, steps: seq<Step>, i: nat, j: JobId)
    requires IsRun(states, steps) && i < |states| && j < |states[i].jobs| && states[i].jobs[j].caller != Waiting
    ensures WasResolved(states, steps, i, j, states[i].jobs[j].caller)
  {
    if i > 0 {
      RunStep(states, steps, i - 1);
      StepWritesCaller(states[i - 1], steps[i - 1], states[i], j);
      var caller := states[i].jobs[j].caller;
      if !Resolves(states[i - 1], steps[i - 1], j, caller) {
        CallersWereResolved(states, steps, i - 1, j);
        var n :| 0 <= n < i - 1 && Resolves(states[n], steps[n], j, caller);
      }
    }
  }

  /** A caller has come to some end exactly if it timed out, or read this very reply. */
  lemma CallersEndAsTheyDid(states: seq<State>, steps: seq<Step>, i: nat, j: JobId, caller: Caller)
    requires IsRun(states, steps) && i < |states| && j < |states[i].jobs| && caller != Waiting
    ensures states[i].jobs[j].caller == caller <==> WasResolved(states, steps, i, j, caller)
  {
    if states[i].jobs[j].caller == caller {
      CallersWereResolved(states, steps, i, j);
    }
    if WasResolved(states, steps, i, j, caller) {
      var n :| 0 <= n < i && Resolves(states[n], steps[n], j, caller);
      RunStep(states, steps, n);
      ResolvingWritesCaller(states[n], steps[n], states[n + 1], j, caller);
      RunExtends(states, steps, n + 1, i);
    }
  }

  /**
   What a caller is told is what happened to its command: the output is the one the host gave while the
   loop that accepted the command was waiting for this command, and a failure is the one it waited into.
   */
  lemma CallersHearTheHost(states: seq<State>, steps: seq<Step>, i: nat, j: JobId) returns (n: nat)
    requires IsRun(states, steps) && i < |states| && j < |states[i].jobs|
    requires states[i].jobs[j].caller.Got?
    requires states[i].jobs[j].caller.reply.HostSaid? || states[i].jobs[j].caller.reply.TransportFailed?
    ensures n < i && states[i].jobs[j].run < |states[n].tasks|
    ensures states[n].tasks[states[i].jobs[j].run].pc == AwaitCommand(j)
    ensures steps[n].Loop? && steps[n].task == states[i].jobs[j].run
    ensures match states[i].jobs[j].caller.reply
      case HostSaid(output) => steps[n].step == CommandAnswered(output)
      case TransportFailed(message) => steps[n].step.CommandBroke? && steps[n].step.error.message == message
  {
    ReachableInv(states, steps, i);
    assert JobOk(states[i], j);
    var reply := states[i].jobs[j].caller.reply;
    RepliesAreWhatHappened(states, steps, i, j, reply);
    n :| 0 <= n < i && Causes(states[n], steps[n], j, reply);
    RunExtends(states, steps, n, i);
  }

  // ---------------------------------------------------------------------------------------
  // Stopping ends the loop that was running

  /** A `stop` was called while loop `t` was in the slot. */
  ghost predicate WasStopped(states: seq<State>, steps: seq<Step>, k: nat, t: TaskId)
    requires k <= |steps| && k < |states|
  {
    exists n :: 0 <= n < k && steps[n] == StopTake && states[n].slot == Some(t)
  }

  lemma StepAborts(s: State, step: Step, s': State, t: TaskId)
    requires Follows(s, step, s') && t < |s'.tasks|
    ensures s'.tasks[t].aborted
       <==> (t < |s.tasks| && (s.tasks[t].aborted || (step == StopTake && s.slot == Some(t))))
  {
    match step
    case Loop(u, loopStep) => LoopFrame(s, u, loopStep);
    case _ =>
  }

  lemma StepKeepsTasks(s: State, step: Step, s': State)
    requires Follows(s, step, s')
    ensures |s.tasks| <= |s'.tasks| && (step == StopTake ==> |s'.tasks| == |s.tasks|)
  {
    match step
    case Loop(u, loopStep) => LoopFrame(s, u, loopStep);
    case _ => UiFrame(s, step);
  }

  lemma {:induction false} TasksStay(states: seq<State>, steps: seq<Step>, n: nat, k: nat)
    requires IsRun(states, steps) && n <= k < |states|
    ensures |states[n].tasks| <= |states[k].tasks|
  {
    if n < k {
      TasksStay(states, steps, n, k - 1);
      RunStep(states, steps, k - 1);
      StepKeepsTasks(states[k - 1], steps[k - 1], states[k]);
    }
  }

  /** A loop that does not exist yet has not been stopped. */
  lemma NotYetStopped(states: seq<State>, steps: seq<Step>, k: nat, t: TaskId)
    requires IsRun(states, steps) && k < |states| && t >= |states[k].tasks|
    ensures !WasStopped(states, steps, k, t)
  {
    forall n | 0 <= n < k && steps[n] == StopTake ensures states[n].slot != Some(t) {
      RunStep(states, steps, n);
      ReachableInv(states, steps, n);
      TasksStay(states, steps, n, k);
    }
  }

  lemma WasStoppedBy(states: seq<State>, steps: seq<Step>, k: nat, t: TaskId)
    requires 0 < k <= |steps| && k < |states|
    ensures WasStopped(states, steps, k, t)
       <==> WasStopped(states, steps, k - 1, t) || (steps[k - 1] == StopTake && states[k - 1].slot == Some(t))
  {
  }

  /** A loop is told to end by a `stop` that found it in the slot, by nothing else, and for good. */
  lemma {:induction false} OnlyStopAborts(states: seq<State>, steps: seq<Step>, k: nat, t: TaskId)
    requires IsRun(states, steps) && k < |states| && t < |states[k].tasks|
    ensures states[k].tasks[t].aborted <==> WasStopped(states, steps, k, t)
  {
    if k > 0 {
      RunStep(states, steps, k - 1);
      StepAborts(states[k - 1], steps[k - 1], states[k], t);
      StepKeepsTasks(states[k - 1], steps[k - 1], states[k]);
      WasStoppedBy(states, steps, k, t);
      if t < |states[k - 1].tasks| {
        OnlyStopAborts(states, steps, k - 1, t);
      } else {
        NotYetStopped(states, steps, k - 1, t);
      }
    }
  }
}
