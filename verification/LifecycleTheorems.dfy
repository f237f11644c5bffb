/**
 What holds of every run, whatever the interleaving of UI threads, current loops and aborted ones.
 */
module LifecycleTheorems {
  import opened Connection
  import opened View
  import opened Lifecycle
  import opened LifecycleControl
  import opened LifecycleJobs
  import opened LifecycleRetry
  import Plain

  ghost predicate Inv(s: State) {
    Control(s) && JobsInv(s) && RetryInv(s) && ScreenOk(s)
  }

  lemma StepKeepsInv(s: State, step: Step)
    requires Inv(s) && Enabled(s, step)
    ensures Inv(Apply(s, step))
  {
    StepKeepsControl(s, step);
    StepKeepsJobs(s, step);
    StepKeepsRetry(s, step);
    StepKeepsScreen(s, step);
  }

  lemma InitialInv(placeholder: TargetSnapshot)
    requires placeholder.state == Idle && SelfConsistent(placeholder)
    ensures Inv(Initial(placeholder))
  {
  }

  lemma RunStep(states: seq<State>, steps: seq<Step>, i: nat)
    requires IsRun(states, steps) && i < |steps|
    ensures Enabled(states[i], steps[i]) && states[i + 1] == Apply(states[i], steps[i])
  {
    assert StepAt(states, steps, i);
  }

  /** The invariant holds in every reachable state. */
  lemma {:induction false} ReachableInv(states: seq<State>, steps: seq<Step>, i: nat)
    requires IsRun(states, steps) && i < |states|
    ensures Inv(states[i])
  {
    if i == 0 {
      InitialInv(Placeholder(Idle));
    } else {
      ReachableInv(states, steps, i - 1);
      RunStep(states, steps, i - 1);
      StepKeepsInv(states[i - 1], steps[i - 1]);
    }
  }

  // ---------------------------------------------------------------------------------------
  // Commands stay in their session

  /** A queued command belongs to the session its loop is in, or is about to be refused. */
  lemma QueuedCommandsAreCurrent(states: seq<State>, steps: seq<Step>, i: nat, t: TaskId, j: JobId)
    requires IsRun(states, steps) && i < |states|
    requires t < |states[i].tasks| && j in states[i].tasks[t].inbox
    ensures j < |states[i].jobs| && states[i].jobs[j].run == t && states[i].jobs[j].session == states[i].tasks[t].session
    ensures InSession(states[i].tasks[t].pc) || states[i].tasks[t].pc.Draining?
  {
    ReachableInv(states, steps, i);
    assert InboxOk(states[i], t);
    var k :| 0 <= k < |states[i].tasks[t].inbox| && states[i].tasks[t].inbox[k] == j;
    assert OwnPending(states[i], t, states[i].tasks[t].inbox[k]);
  }

  /** A command is only ever handed to the session that accepted it, by the run that accepted it. */
  lemma NoCommandCrossesSessions(states: seq<State>, steps: seq<Step>, i: nat, e: Handover)
    requires IsRun(states, steps) && i < |states| && e in states[i].handed
    ensures e.job < |states[i].jobs|
    ensures e.task == states[i].jobs[e.job].run && e.session == states[i].jobs[e.job].session
  {
    ReachableInv(states, steps, i);
    var a :| 0 <= a < |states[i].handed| && states[i].handed[a] == e;
    assert HandoverOk(states[i], states[i].handed[a]);
  }

  /** Passing the liveness and Online checks means the send succeeds, into a loop in a session. */
  lemma AcceptanceIsSound(states: seq<State>, steps: seq<Step>, i: nat)
    requires IsRun(states, steps) && i < |states|
    requires var s := states[i];
      s.lock == Free && s.slot.Some? && s.slot.value < |s.tasks| && s.snapshot.state == Online
    ensures Accepts(states[i]) && InSession(states[i].tasks[states[i].slot.value].pc)
  {
    ReachableInv(states, steps, i);
    AcceptedWhileInSession(states[i]);
  }

  // ---------------------------------------------------------------------------------------
  // At most once, in order, and resolved in exactly one way

  /** Everything a job remembers only ever gets filled in. */
  ghost predicate Extends(before: State, after: State) {
    && before.handed <= after.handed
    && |before.jobs| <= |after.jobs|
    && forall j :: 0 <= j < |before.jobs| ==>
         && after.jobs[j].run == before.jobs[j].run && after.jobs[j].session == before.jobs[j].session
         && (before.jobs[j].reply != Pending ==> after.jobs[j].reply == before.jobs[j].reply)
         && (before.jobs[j].caller != Waiting ==> after.jobs[j].caller == before.jobs[j].caller)
  }

  lemma ExtendsIsTransitive(a: State, b: State, c: State)
    requires Extends(a, b) && Extends(b, c)
    ensures Extends(a, c)
  {
    forall j | 0 <= j < |a.jobs|
      ensures c.jobs[j].run == a.jobs[j].run && c.jobs[j].session == a.jobs[j].session
      ensures a.jobs[j].reply != Pending ==> c.jobs[j].reply == a.jobs[j].reply
      ensures a.jobs[j].caller != Waiting ==> c.jobs[j].caller == a.jobs[j].caller
    {
      assert b.jobs[j].run == a.jobs[j].run;
    }
  }

  /** A loop step changes the reply of a job only if it holds the job, or the job is first in its inbox. */
  lemma LoopTouchesItsOwn(s: State, t: TaskId, step: LoopStep, j: JobId)
    requires t < |s.tasks| && EnabledLoop(s.tasks[t], step) && j < |s.jobs| == |ApplyLoop(s, t, step).jobs|
    ensures var job := ApplyLoop(s, t, step).jobs[j];
      job == s.jobs[j] || (Holds(s.tasks[t], j) && job == s.jobs[j].(reply := job.reply))
  {
  }

  lemma HeldIsPending(s: State, t: TaskId, j: JobId)
    requires JobsInv(s) && t < |s.tasks| && Holds(s.tasks[t], j)
    ensures j < |s.jobs| && s.jobs[j].reply == Pending
  {
    assert InboxOk(s, t);
    if j in s.tasks[t].inbox {
      var k :| 0 <= k < |s.tasks[t].inbox| && s.tasks[t].inbox[k] == j;
      assert OwnPending(s, t, s.tasks[t].inbox[k]);
    }
  }

  lemma LoopOnlyHandsOver(s: State, t: TaskId, step: LoopStep)
    requires t < |s.tasks| && EnabledLoop(s.tasks[t], step)
    ensures s.handed <= ApplyLoop(s, t, step).handed
  {
  }

  lemma LoopExtends(s: State, t: TaskId, step: LoopStep)
    requires JobsInv(s) && t < |s.tasks| && EnabledLoop(s.tasks[t], step)
    ensures Extends(s, ApplyLoop(s, t, step))
  {
    LoopSharedFrame(s, t, step);
    LoopOnlyHandsOver(s, t, step);
    forall j | 0 <= j < |s.jobs|
      ensures var job := ApplyLoop(s, t, step).jobs[j];
        job == s.jobs[j] || (s.jobs[j].reply == Pending && job == s.jobs[j].(reply := job.reply))
    {
      LoopTouchesItsOwn(s, t, step, j);
      if Holds(s.tasks[t], j) {
        HeldIsPending(s, t, j);
      }
    }
  }

  lemma StepExtends(s: State, step: Step)
    requires Inv(s) && Enabled(s, step)
    ensures Extends(s, Apply(s, step))
  {
    match step
    case Loop(t, loopStep) => LoopExtends(s, t, loopStep);
    case _ => UiFrame(s, step);
  }

  lemma RunStepExtends(states: seq<State>, steps: seq<Step>, k: nat)
    requires IsRun(states, steps) && k < |steps|
    ensures Extends(states[k], states[k + 1])
  {
    ReachableInv(states, steps, k);
    RunStep(states, steps, k);
    StepExtends(states[k], steps[k]);
  }

  lemma {:induction false} RunExtends(states: seq<State>, steps: seq<Step>, i: nat, k: nat)
    requires IsRun(states, steps) && i <= k < |states|
    ensures Extends(states[i], states[k])
  {
    if i < k {
      RunExtends(states, steps, i, k - 1);
      RunStepExtends(states, steps, k - 1);
      ExtendsIsTransitive(states[i], states[k - 1], states[k]);
    }
  }

  /** Each command is handed over at most once, and the commands of one run in acceptance order. */
  lemma AtMostOnceInOrder(states: seq<State>, steps: seq<Step>, i: nat, a: nat, b: nat)
    requires IsRun(states, steps) && i < |states| && a < b < |states[i].handed|
    ensures states[i].handed[a].job != states[i].handed[b].job
    ensures states[i].handed[a].task == states[i].handed[b].task ==>
              states[i].handed[a].job < states[i].handed[b].job
  {
    ReachableInv(states, steps, i);
    assert HandoverOk(states[i], states[i].handed[a]) && HandoverOk(states[i], states[i].handed[b]);
  }

  /** The caller has stopped waiting, and the command has not been handed to a session. */
  ghost predicate GivenUp(s: State, j: JobId) {
    j < |s.jobs| && s.jobs[j].caller != Waiting && !WasHandedOver(s.handed, j)
  }

  lemma DequeueSparesGivenUp(s: State, t: TaskId, j: JobId)
    requires JobsInv(s) && t < |s.tasks| && EnabledLoop(s.tasks[t], Dequeue) && GivenUp(s, j)
    ensures !WasHandedOver(ApplyLoop(s, t, Dequeue).handed, j)
  {
    var head := s.tasks[t].inbox[0];
    assert InboxOk(s, t) && OwnPending(s, t, head);
    assert JobOk(s, head);
  }

  lemma StepSparesGivenUp(s: State, step: Step, j: JobId)
    requires Inv(s) && Enabled(s, step) && GivenUp(s, j)
    ensures !WasHandedOver(Apply(s, step).handed, j)
  {
    match step
    case Loop(t, Dequeue) => DequeueSparesGivenUp(s, t, j);
    case Loop(t, loopStep) => OnlyDequeueHandsOver(s, t, loopStep);
    case _ => UiFrame(s, step);
  }

  lemma OnlyDequeueHandsOver(s: State, t: TaskId, step: LoopStep)
    requires t < |s.tasks| && EnabledLoop(s.tasks[t], step) && !step.Dequeue?
    ensures ApplyLoop(s, t, step).handed == s.handed
  {
  }

  lemma RunStepSparesGivenUp(states: seq<State>, steps: seq<Step>, k: nat, j: JobId)
    requires IsRun(states, steps) && k < |steps| && GivenUp(states[k], j)
    ensures GivenUp(states[k + 1], j)
  {
    ReachableInv(states, steps, k);
    RunStep(states, steps, k);
    StepSparesGivenUp(states[k], steps[k], j);
    RunStepExtends(states, steps, k);
  }

  /**
   Once a caller has timed out, or been told anything, whether its command was handed to a session no longer
   changes: a command withdrawn before it was handed over never is.
   */
  lemma {:induction false} WithdrawnIsNeverHandedOver(states: seq<State>, steps: seq<Step>, i: nat, k: nat, j: JobId)
    requires IsRun(states, steps) && i <= k < |states|
    requires j < |states[i].jobs| && states[i].jobs[j].caller != Waiting && !WasHandedOver(states[i].handed, j)
    ensures !WasHandedOver(states[k].handed, j)
    ensures GivenUp(states[k], j)
  {
    if i < k {
      WithdrawnIsNeverHandedOver(states, steps, i, k - 1, j);
      RunStepSparesGivenUp(states, steps, k - 1, j);
    }
  }

  lemma HandedOverStays(states: seq<State>, steps: seq<Step>, i: nat, k: nat, j: JobId)
    requires IsRun(states, steps) && i <= k < |states| && WasHandedOver(states[i].handed, j)
    ensures WasHandedOver(states[k].handed, j)
  {
    RunExtends(states, steps, i, k);
    var a :| 0 <= a < |states[i].handed| && states[i].handed[a].job == j;
    assert states[k].handed[a].job == j;
  }

  /**
   A resolved caller stays resolved the same way for the rest of the run, and what it was told stays
   true. An answer means the command had been handed to its session, a transport failure that it had
   and may or may not have run, a refusal that it never is; after a timeout or a dropped connection it
   is not handed over unless it already had been.
   */
  lemma ResolutionIsFinalAndTrue(states: seq<State>, steps: seq<Step>, i: nat, k: nat, j: JobId)
    requires IsRun(states, steps) && i <= k < |states|
    requires j < |states[i].jobs| && states[i].jobs[j].caller != Waiting
    ensures j < |states[k].jobs| && states[k].jobs[j].caller == states[i].jobs[j].caller
    ensures WasHandedOver(states[k].handed, j) <==> WasHandedOver(states[i].handed, j)
    ensures match states[i].jobs[j].caller
            case Got(HostSaid(_)) => WasHandedOver(states[i].handed, j)
            case Got(TransportFailed(_)) => WasHandedOver(states[i].handed, j)
            case Got(Refused) => !WasHandedOver(states[i].handed, j)
            case Got(SenderDropped) => states[k].jobs[j].reply == SenderDropped
            case Got(Pending) => false
            case TimedOut => true
  {
    ReachableInv(states, steps, i);
    RunExtends(states, steps, i, k);
    assert JobOk(states[i], j);
    if WasHandedOver(states[i].handed, j) {
      HandedOverStays(states, steps, i, k, j);
    } else {
      WithdrawnIsNeverHandedOver(states, steps, i, k, j);
    }
  }

  /** No accepted command is lost: unanswered, the run that accepted it holds it, and no other does. */
  lemma UnansweredMeansHeld(states: seq<State>, steps: seq<Step>, i: nat, j: JobId)
    requires IsRun(states, steps) && i < |states| && j < |states[i].jobs|
    ensures var s := states[i];
      && s.jobs[j].run < |s.tasks|
      && (s.jobs[j].reply == Pending ==> !s.tasks[s.jobs[j].run].pc.Returned?)
    ensures var s := states[i];
      forall t :: 0 <= t < |s.tasks| ==> (Holds(s.tasks[t], j) <==> t == s.jobs[j].run && s.jobs[j].reply == Pending)
  {
    ReachableInv(states, steps, i);
    var s := states[i];
    assert JobOk(s, j) && InboxOk(s, s.jobs[j].run);
    forall t | 0 <= t < |s.tasks| && Holds(s.tasks[t], j) ensures OwnPending(s, t, j) {
      assert InboxOk(s, t);
    }
  }

  // ---------------------------------------------------------------------------------------
  // Only the current run is published

  lemma AtMostOneCurrentTask(states: seq<State>, steps: seq<Step>, i: nat, t: TaskId, u: TaskId)
    requires IsRun(states, steps) && i < |states| && t < |states[i].tasks| && u < |states[i].tasks|
    requires states[i].tasks[t].generation == states[i].tasks[u].generation
    ensures t == u
  {
    ReachableInv(states, steps, i);
  }

  /** A loop that changes the snapshot is the one the current generation belongs to. */
  lemma OnlyTheCurrentLoopPublishes(states: seq<State>, steps: seq<Step>, i: nat)
    requires IsRun(states, steps) && i < |steps| && steps[i].Loop?
    requires states[i + 1].snapshot != states[i].snapshot
    ensures steps[i].task < |states[i].tasks|
    ensures states[i].tasks[steps[i].task].generation == states[i].generation
    ensures states[i].lock == Free && states[i].slot.Some? ==> states[i].slot.value == steps[i].task
  {
    ReachableInv(states, steps, i);
    RunStep(states, steps, i);
    LoopFrame(states[i], steps[i].task, steps[i].step);
  }

  /** Nobody may publish, and no `start` is past the point where somebody could. */
  ghost predicate Stopped(s: State) {
    s.snapshot.state == Idle && NoneCurrent(s) && s.lock != StartPublished && s.lock != StartSpawned
  }

  lemma StoppedUntilStart(s: State, step: Step)
    requires Stopped(s) && Enabled(s, step) && step != StartPublish
    ensures Stopped(Apply(s, step))
  {
    match step
    case Loop(t, loopStep) => LoopFrame(s, t, loopStep);
    case _ => UiFrame(s, step);
  }

  lemma StopStops(s: State)
    requires Control(s) && s.lock == Stopping
    ensures Stopped(ApplyUi(s, StopPublish))
  {
  }

  lemma {:induction false} StaysStopped(states: seq<State>, steps: seq<Step>, i: nat, k: nat)
    requires IsRun(states, steps) && i <= k < |states| && Stopped(states[i])
    requires forall n :: i <= n < k ==> steps[n] != StartPublish
    ensures Stopped(states[k])
  {
    if i < k {
      StaysStopped(states, steps, i, k - 1);
      RunStep(states, steps, k - 1);
      StoppedUntilStart(states[k - 1], steps[k - 1]);
    }
  }

  /** From the end of `stop` until the next `start` publishes, the host shows as Idle. */
  lemma IdleFromStopToStart(states: seq<State>, steps: seq<Step>, i: nat, k: nat)
    requires IsRun(states, steps) && i < k < |states| && steps[i] == StopPublish
    requires forall n :: i < n < k ==> steps[n] != StartPublish
    ensures Stopped(states[k])
  {
    ReachableInv(states, steps, i);
    RunStep(states, steps, i);
    StopStops(states[i]);
    StaysStopped(states, steps, i + 1, k);
  }

  /** Whatever is on screen, its verdict is the one its own state and readings deserve. */
  lemma EveryPublishedSnapshotIsConsistent(states: seq<State>, steps: seq<Step>, i: nat)
    requires IsRun(states, steps) && i < |states|
    ensures SelfConsistent(states[i].snapshot)
  {
    ReachableInv(states, steps, i);
  }

  /**
   A host on screen as doing well is online with the current loop in a session; `offline` is on
   screen exactly while the connection is lost or has failed.
   */
  lemma LookingGoodMeansConnected(states: seq<State>, steps: seq<Step>, i: nat)
    requires IsRun(states, steps) && i < |states|
    ensures var s := states[i];
      && (s.snapshot.health.level == Plain.Good ==>
            s.snapshot.state == Online && (s.lock != Stopping ==> CurrentInSession(s)))
      && (s.snapshot.health.level == Plain.Offline <==> s.snapshot.state.Reconnecting? || s.snapshot.state.Failed?)
  {
    ReachableInv(states, steps, i);
    var shown := states[i].snapshot;
    Plain.LooksGoodIff(shown.state, AllGauges(shown), AllGauges(shown) != []);
    Plain.OfflineIff(shown.state, AllGauges(shown), AllGauges(shown) != []);
  }

  // ---------------------------------------------------------------------------------------
  // The first tick of a session

  /** How many times loop `t` has connected in the first `k` steps. */
  function Connects(steps: seq<Step>, k: nat, t: TaskId): nat
    requires k <= |steps|
  {
    if k == 0 then 0 else Connects(steps, k - 1, t) + if steps[k - 1] == Loop(t, ConnectSucceeds) then 1 else 0
  }

  /** In the first `k` steps loop `t` has published a tick since it last connected. */
  predicate Ticked(steps: seq<Step>, k: nat, t: TaskId)
    requires k <= |steps|
  {
    && k > 0
    && steps[k - 1] != Loop(t, ConnectSucceeds)
    && (steps[k - 1] == Loop(t, PublishTick) || Ticked(steps, k - 1, t))
  }

  /** A loop counts its sessions and its first tick as the history of the run does. */
  ghost predicate Remembers(s: State, t: TaskId, connects: nat, ticked: bool) {
    if t < |s.tasks| then
      && s.tasks[t].session == connects
      && s.tasks[t].publishedFirst == ticked
      && (InSession(s.tasks[t].pc) ==> connects > 0)
    else
      connects == 0 && !ticked
  }

  lemma UiRemembers(s: State, step: Step, t: TaskId, connects: nat, ticked: bool)
    requires !step.Loop? && EnabledUi(s, step) && Remembers(s, t, connects, ticked)
    ensures Remembers(ApplyUi(s, step), t, connects, ticked)
  {
  }

  lemma LoopCountsSessions(s: State, t: TaskId, step: LoopStep)
    requires t < |s.tasks| && EnabledLoop(s.tasks[t], step)
    ensures var s' := ApplyLoop(s, t, step);
      && t < |s'.tasks|
      && s'.tasks[t].session == s.tasks[t].session + if step.ConnectSucceeds? then 1 else 0
  {
  }

  lemma LoopMarksTicks(s: State, t: TaskId, step: LoopStep)
    requires t < |s.tasks| && EnabledLoop(s.tasks[t], step)
    ensures var s' := ApplyLoop(s, t, step);
      && t < |s'.tasks|
      && s'.tasks[t].publishedFirst == (!step.ConnectSucceeds? && (step.PublishTick? || s.tasks[t].publishedFirst))
  {
  }

  lemma LoopEntersByConnect(s: State, t: TaskId, step: LoopStep)
    requires t < |s.tasks| && EnabledLoop(s.tasks[t], step)
    ensures var s' := ApplyLoop(s, t, step);
      t < |s'.tasks| && (InSession(s'.tasks[t].pc) ==> InSession(s.tasks[t].pc) || step.ConnectSucceeds?)
  {
  }

  lemma LoopRemembers(s: State, t: TaskId, step: LoopStep, connects: nat, ticked: bool)
    requires t < |s.tasks| && EnabledLoop(s.tasks[t], step) && Remembers(s, t, connects, ticked)
    ensures Remembers(ApplyLoop(s, t, step), t, connects + if step.ConnectSucceeds? then 1 else 0,
                      !step.ConnectSucceeds? && (step.PublishTick? || ticked))
  {
    LoopCountsSessions(s, t, step);
    LoopMarksTicks(s, t, step);
    LoopEntersByConnect(s, t, step);
  }

  lemma StepRemembers(s: State, step: Step, s': State, t: TaskId, connects: nat, ticked: bool)
    requires Enabled(s, step) && s' == Apply(s, step) && Remembers(s, t, connects, ticked)
    ensures Remembers(s', t, connects + if step == Loop(t, ConnectSucceeds) then 1 else 0,
                      step != Loop(t, ConnectSucceeds) && (step == Loop(t, PublishTick) || ticked))
  {
    match step
    case Loop(u, loopStep) =>
      if u == t {
        LoopRemembers(s, t, loopStep, connects, ticked);
      } else {
        LoopFrame(s, u, loopStep);
      }
    case _ => UiRemembers(s, step, t, connects, ticked);
  }

  /** In every run the session number of a loop is how often it has connected, and it is in a session only after that. */
  lemma {:induction false} LoopsRememberTheRun(states: seq<State>, steps: seq<Step>, k: nat, t: TaskId)
    requires IsRun(states, steps) && k < |states|
    ensures Remembers(states[k], t, Connects(steps, k, t), Ticked(steps, k, t))
  {
    if k > 0 {
      LoopsRememberTheRun(states, steps, k - 1, t);
      RunStep(states, steps, k - 1);
      StepRemembers(states[k - 1], steps[k - 1], states[k], t, Connects(steps, k - 1, t), Ticked(steps, k - 1, t));
    }
  }

  lemma TickPublishes(s: State, t: TaskId)
    requires Enabled(s, Loop(t, PublishTick)) && s.tasks[t].generation == s.generation
    ensures s.tasks[t].pc.Publishing? && InSession(s.tasks[t].pc)
    ensures Apply(s, Loop(t, PublishTick)).snapshot
         == if s.tasks[t].publishedFirst then BuildSnapshot(s.tasks[t].pc.reading, Online) else SetState(s.snapshot, Online)
  {
  }

  /**
   A tick is only published after a connect. The first one since only announces that the host is
   online: the readings on screen stay as they were. Every later one puts its own readings there.
   */
  lemma FirstTickIsHeldBack(states: seq<State>, steps: seq<Step>, k: nat, t: TaskId)
    requires IsRun(states, steps) && k < |steps| && steps[k] == Loop(t, PublishTick)
    ensures t < |states[k].tasks| && states[k].tasks[t].pc.Publishing?
    ensures Connects(steps, k, t) > 0
    ensures states[k].tasks[t].generation == states[k].generation ==>
              states[k + 1].snapshot == if Ticked(steps, k, t)
                                        then BuildSnapshot(states[k].tasks[t].pc.reading, Online)
                                        else SetState(states[k].snapshot, Online)
  {
    RunStep(states, steps, k);
    LoopsRememberTheRun(states, steps, k, t);
    if states[k].tasks[t].generation == states[k].generation {
      TickPublishes(states[k], t);
    }
  }

  // ---------------------------------------------------------------------------------------
  // The retry ladder

  /**
   In every run of a poll loop: the wait after the first failure since the last connect is 1 s, then 2, 5,
   10 and 20 s, and 30 s from the sixth on; a lost session waits exactly what it announced, every attempt but the first comes out
   of a wait, and nothing follows an error that cannot be recovered from.
   */
  lemma RetryLadder(states: seq<State>, steps: seq<Step>, i: nat, t: TaskId, n: nat)
    requires IsRun(states, steps) && i < |states| && t < |states[i].tasks| && n < |states[i].tasks[t].trace|
    ensures var trace := states[i].tasks[t].trace;
      match trace[n]
      case Slept(ms) =>
        var failures := Streak(trace[..n]);
        && failures >= 1
        && ms == if failures == 1 then 1_000
                 else if failures == 2 then 2_000
                 else if failures == 3 then 5_000
                 else if failures == 4 then 10_000
                 else if failures == 5 then 20_000
                 else 30_000
      case SessionLost(transient, retryInMs) => n + 1 < |trace| ==> transient && trace[n + 1] == Slept(retryInMs)
      case ConnectFailed(recoverable) =>
        && (n + 1 < |trace| ==> recoverable && trace[n + 1].Slept?)
        && (n > 0 ==> trace[n - 1].Slept?)
      case Connected => n > 0 ==> trace[n - 1].Slept?
  {
    ReachableInv(states, steps, i);
    assert RetryOk(states[i].tasks[t]);
    if states[i].tasks[t].trace[n].Slept? {
      WaitsHaveStreaks(states[i].tasks[t].trace, n);
      BackoffSchedule(Streak(states[i].tasks[t].trace[..n]));
    }
  }

  /** Within one streak the waits never shrink, and each is between 1 and 30 seconds. */
  lemma RetryWaitsGrow(states: seq<State>, steps: seq<Step>, i: nat, t: TaskId, m: nat, n: nat)
    requires IsRun(states, steps) && i < |states| && t < |states[i].tasks|
    requires var trace := states[i].tasks[t].trace;
      && m <= n < |trace| && trace[m].Slept? && trace[n].Slept?
      && forall k :: m <= k < n ==> !trace[k].Connected?
    ensures 1_000 <= states[i].tasks[t].trace[m].ms <= states[i].tasks[t].trace[n].ms <= 30_000
  {
    ReachableInv(states, steps, i);
    assert RetryOk(states[i].tasks[t]);
    WaitsNeverShrink(states[i].tasks[t].trace, m, n);
  }

  /** While the screen says "retrying in r", the current loop's wait is r. */
  lemma ScreenShowsTheRealWait(states: seq<State>, steps: seq<Step>, i: nat)
    requires IsRun(states, steps) && i < |states|
    requires states[i].snapshot.state.Reconnecting? && states[i].lock != Stopping
    ensures CurrentServes(states[i], states[i].snapshot.state.retryInMs)
  {
    ReachableInv(states, steps, i);
  }
}
