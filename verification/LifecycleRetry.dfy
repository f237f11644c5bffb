/**
 The retry ladder of a poll loop, read off its trace of connects, losses and sleeps.
 */
module LifecycleRetry {
  import opened Common
  import opened Connection
  import opened Lifecycle
  import opened LifecycleControl

  /** Consecutive failures since the last successful connect. */
  function Streak(trace: seq<LoopEvent>): nat {
    if trace == [] then 0
    else match trace[|trace| - 1]
      case Connected => 0
      case Slept(_) => Streak(trace[..|trace| - 1])
      case _ => Streak(trace[..|trace| - 1]) + 1
  }

  /** Each wait is the schedule's entry for the failures so far. */
  ghost predicate WaitsFollowSchedule(trace: seq<LoopEvent>) {
    forall i :: 0 <= i < |trace| && trace[i].Slept? ==> trace[i].ms == BackoffFor(Streak(trace[..i]))
  }

  /** A lost session is retried only if transient, and then after exactly the wait it announced. */
  ghost predicate LossesKeepTheirWord(trace: seq<LoopEvent>) {
    forall i :: 0 <= i < |trace| - 1 && trace[i].SessionLost? ==>
      trace[i].transient && trace[i + 1] == Slept(trace[i].retryInMs)
  }

  /** A failed connect is retried only if recoverable. */
  ghost predicate HopelessStops(trace: seq<LoopEvent>) {
    forall i :: 0 <= i < |trace| - 1 && trace[i].ConnectFailed? ==> trace[i].recoverable && trace[i + 1].Slept?
  }

  /** Every connect attempt but the first comes straight out of a wait. */
  ghost predicate AttemptsWaitFirst(trace: seq<LoopEvent>) {
    forall i :: 0 < i < |trace| && (trace[i].Connected? || trace[i].ConnectFailed?) ==> trace[i - 1].Slept?
  }

  /** Every wait comes straight after a failure. */
  ghost predicate WaitsFollowFailures(trace: seq<LoopEvent>) {
    forall i :: 0 <= i < |trace| && trace[i].Slept? ==>
      i > 0 && (trace[i - 1].SessionLost? || trace[i - 1].ConnectFailed?)
  }

  ghost predicate TraceOk(trace: seq<LoopEvent>) {
    && WaitsFollowSchedule(trace)
    && LossesKeepTheirWord(trace)
    && HopelessStops(trace)
    && AttemptsWaitFirst(trace)
    && WaitsFollowFailures(trace)
  }

  ghost predicate LastSlept(trace: seq<LoopEvent>) {
    trace == [] || trace[|trace| - 1].Slept?
  }

  function AnnouncedRetry(error: TransportError): nat {
    if error.transient then BackoffFor(1) else 0
  }

  /** What the program counter says about the end of the trace. */
  ghost predicate ShapeOk(task: Task) {
    var trace := task.trace;
    match task.pc
    case Returned => true
    case Draining(error) =>
      && trace != [] && trace[|trace| - 1] == SessionLost(error.transient, AnnouncedRetry(error))
      && task.attempt == 0 && Streak(trace) == 1
    case Sleeping => trace != [] && trace[|trace| - 1].Slept? && task.attempt == Min(Streak(trace), U32_MAX)
    case _ =>
      && task.attempt == Min(Streak(trace), U32_MAX)
      && if InSession(task.pc) then trace != [] && trace[|trace| - 1] == Connected else LastSlept(trace)
  }

  ghost predicate RetryOk(task: Task) {
    TraceOk(task.trace) && ShapeOk(task)
  }

  ghost predicate RetryInv(s: State) {
    forall t :: 0 <= t < |s.tasks| ==> RetryOk(s.tasks[t])
  }

  /** The event may come after the trace. */
  ghost predicate Fits(trace: seq<LoopEvent>, event: LoopEvent) {
    && (event.Slept? ==>
          && event.ms == BackoffFor(Streak(trace))
          && trace != [] && (trace[|trace| - 1].SessionLost? || trace[|trace| - 1].ConnectFailed?))
    && (trace != [] && trace[|trace| - 1].SessionLost? ==>
          trace[|trace| - 1].transient && event == Slept(trace[|trace| - 1].retryInMs))
    && (trace != [] && trace[|trace| - 1].ConnectFailed? ==> trace[|trace| - 1].recoverable && event.Slept?)
    && (event.Connected? || event.ConnectFailed? ==> LastSlept(trace))
  }

  lemma AppendToStreak(trace: seq<LoopEvent>, event: LoopEvent)
    ensures Streak(trace + [event])
         == if event.Connected? then 0 else if event.Slept? then Streak(trace) else Streak(trace) + 1
  {
    assert (trace + [event])[..|trace|] == trace;
  }

  lemma AppendToWaits(trace: seq<LoopEvent>, event: LoopEvent)
    requires WaitsFollowSchedule(trace) && Fits(trace, event)
    ensures WaitsFollowSchedule(trace + [event])
  {
    var longer := trace + [event];
    forall i | 0 <= i < |longer| && longer[i].Slept? ensures longer[i].ms == BackoffFor(Streak(longer[..i])) {
      assert longer[..i] == trace[..i];
      assert i == |trace| ==> longer[..i] == trace;
    }
  }

  lemma AppendToPairs(trace: seq<LoopEvent>, event: LoopEvent)
    requires LossesKeepTheirWord(trace) && HopelessStops(trace) && Fits(trace, event)
    ensures LossesKeepTheirWord(trace + [event])
    ensures HopelessStops(trace + [event])
  {
  }

  lemma AppendToWaitPairs(trace: seq<LoopEvent>, event: LoopEvent)
    requires AttemptsWaitFirst(trace) && WaitsFollowFailures(trace) && Fits(trace, event)
    ensures AttemptsWaitFirst(trace + [event])
    ensures WaitsFollowFailures(trace + [event])
  {
  }

  /** Appending an event keeps the trace well formed if the event fits the one before it. */
  lemma Append(trace: seq<LoopEvent>, event: LoopEvent)
    requires TraceOk(trace) && Fits(trace, event)
    ensures TraceOk(trace + [event])
    ensures Streak(trace + [event])
         == if event.Connected? then 0 else if event.Slept? then Streak(trace) else Streak(trace) + 1
  {
    AppendToStreak(trace, event);
    AppendToWaits(trace, event);
    AppendToPairs(trace, event);
    AppendToWaitPairs(trace, event);
  }

  lemma BackOffKeepsRetry(task: Task)
    requires TraceOk(task.trace) && task.trace != []
    requires task.attempt == Min(Streak(task.trace) - 1, U32_MAX)
    requires match task.trace[|task.trace| - 1]
      case SessionLost(transient, retryInMs) => transient && retryInMs == BackoffFor(Streak(task.trace))
      case ConnectFailed(recoverable) => recoverable
      case _ => false
    ensures RetryOk(BackOff(task))
  {
    var attempt := SaturatingAdd(task.attempt, 1, U32_MAX);
    assert BackoffFor(attempt) == BackoffFor(Streak(task.trace));
    Append(task.trace, Slept(BackoffFor(attempt)));
  }

  /** The steps that write to the trace. */
  predicate WritesTrace(step: LoopStep) {
    step.ConnectSucceeds? || step.ReportFailure? || step.ReportLoss? || step.DrainEmpty?
  }

  lemma ConnectKeepsRetry(task: Task)
    requires RetryOk(task) && task.pc.AwaitConnect?
    ensures RetryOk(task.(pc := AwaitTick, attempt := 0, session := task.session + 1,
                          publishedFirst := false, trace := task.trace + [Connected]))
  {
    assert LastSlept(task.trace);
    Append(task.trace, Connected);
    var trace := task.trace + [Connected];
    assert trace[|trace| - 1] == Connected && Streak(trace) == 0;
  }

  lemma LossKeepsRetry(task: Task, error: TransportError)
    requires RetryOk(task) && task.pc == ReportingLoss(error)
    ensures RetryOk(task.(pc := Draining(error),
                          trace := task.trace + [SessionLost(error.transient, AnnouncedRetry(error))]))
  {
    Append(task.trace, SessionLost(error.transient, AnnouncedRetry(error)));
  }

  lemma FailureKeepsRetry(task: Task, error: TransportError)
    requires RetryOk(task) && task.pc == ReportingFailure(error)
    ensures var failed := task.(trace := task.trace + [ConnectFailed(error.transient)]);
      TraceOk(failed.trace) && (error.transient ==> RetryOk(BackOff(failed)))
  {
    Append(task.trace, ConnectFailed(error.transient));
    if error.transient {
      BackOffKeepsRetry(task.(trace := task.trace + [ConnectFailed(true)]));
    }
  }

  lemma LadderStep(s: State, t: TaskId, step: LoopStep)
    requires t < |s.tasks| && EnabledLoop(s.tasks[t], step) && RetryOk(s.tasks[t]) && WritesTrace(step)
    ensures RetryOk(ApplyLoop(s, t, step).tasks[t])
  {
    var task := s.tasks[t];
    match step
    case ConnectSucceeds => ConnectKeepsRetry(task);
    case ReportFailure => FailureKeepsRetry(task, task.pc.error);
    case ReportLoss => LossKeepsRetry(task, task.pc.error);
    case DrainEmpty =>
      if task.pc.error.transient {
        BackOffKeepsRetry(task);
      }
  }

  lemma TraceUntouched(s: State, t: TaskId, step: LoopStep)
    requires t < |s.tasks| && EnabledLoop(s.tasks[t], step) && !WritesTrace(step)
    ensures var task' := ApplyLoop(s, t, step).tasks[t];
      task'.trace == s.tasks[t].trace && task'.attempt == s.tasks[t].attempt
  {
  }

  /** Where a step that writes no trace can lead. */
  ghost predicate Onward(before: Pc, after: Pc) {
    || after == before
    || after.Returned?
    || (InSession(before) && InSession(after))
    || (before.Announcing? && after.AwaitConnect?)
    || (before.AwaitConnect? && after.ReportingFailure?)
    || (before.Sleeping? && after.Announcing?)
  }

  lemma OthersGoOnward(s: State, t: TaskId, step: LoopStep)
    requires t < |s.tasks| && EnabledLoop(s.tasks[t], step) && !WritesTrace(step)
    ensures Onward(s.tasks[t].pc, ApplyLoop(s, t, step).tasks[t].pc)
  {
  }

  lemma OnwardKeepsRetry(before: Task, after: Task)
    requires RetryOk(before) && after.trace == before.trace && after.attempt == before.attempt
    requires Onward(before.pc, after.pc)
    ensures RetryOk(after)
  {
  }

  lemma OtherStep(s: State, t: TaskId, step: LoopStep)
    requires t < |s.tasks| && EnabledLoop(s.tasks[t], step) && RetryOk(s.tasks[t]) && !WritesTrace(step)
    ensures RetryOk(ApplyLoop(s, t, step).tasks[t])
  {
    TraceUntouched(s, t, step);
    OthersGoOnward(s, t, step);
    OnwardKeepsRetry(s.tasks[t], ApplyLoop(s, t, step).tasks[t]);
  }

  lemma LoopKeepsRetry(s: State, t: TaskId, step: LoopStep)
    requires RetryInv(s) && t < |s.tasks| && EnabledLoop(s.tasks[t], step)
    ensures RetryInv(ApplyLoop(s, t, step))
  {
    LoopFrame(s, t, step);
    if WritesTrace(step) {
      LadderStep(s, t, step);
    } else {
      OtherStep(s, t, step);
    }
  }

  lemma UiKeepsRetry(s: State, step: Step)
    requires RetryInv(s) && !step.Loop? && EnabledUi(s, step)
    ensures RetryInv(ApplyUi(s, step))
  {
    UiFrame(s, step);
    var s' := ApplyUi(s, step);
    forall t | 0 <= t < |s'.tasks| ensures RetryOk(s'.tasks[t]) {
      assert t < |s.tasks| ==> RetryOk(s.tasks[t]);
    }
  }

  lemma StepKeepsRetry(s: State, step: Step)
    requires RetryInv(s) && Enabled(s, step)
    ensures RetryInv(Apply(s, step))
  {
    match step
    case Loop(t, loopStep) => LoopKeepsRetry(s, t, loopStep);
    case _ => UiKeepsRetry(s, step);
  }

  // ---------------------------------------------------------------------------------------
  // What the user is told

  /** The current loop is serving, or about to serve, a wait of exactly `ms`. */
  ghost predicate Serving(task: Task, ms: nat) {
    && task.trace != []
    && var last := task.trace[|task.trace| - 1];
       match task.pc
       case Draining(error) => error.transient && last == SessionLost(true, ms)
       case Sleeping => last == Slept(ms)
       case Announcing => last == Slept(ms)
       case _ => false
  }

  ghost predicate CurrentServes(s: State, ms: nat) {
    exists i :: 0 <= i < |s.tasks| && s.tasks[i].generation == s.generation && Serving(s.tasks[i], ms)
  }

  ghost predicate ScreenOk(s: State) {
    s.snapshot.state.Reconnecting? && s.lock != Stopping ==> CurrentServes(s, s.snapshot.state.retryInMs)
  }

  lemma UiKeepsScreen(s: State, step: Step)
    requires ScreenOk(s) && !step.Loop? && EnabledUi(s, step)
    ensures ScreenOk(ApplyUi(s, step))
  {
    UiFrame(s, step);
    var s' := ApplyUi(s, step);
    if s'.snapshot.state.Reconnecting? && s'.lock != Stopping {
      var ms := s.snapshot.state.retryInMs;
      var i :| 0 <= i < |s.tasks| && s.tasks[i].generation == s.generation && Serving(s.tasks[i], ms);
      assert s'.tasks[i].generation == s'.generation && Serving(s'.tasks[i], ms);
    }
  }

  /** Only a current loop that reports a loss puts a wait on screen. */
  lemma OnlyLossesAnnounceWaits(s: State, t: TaskId, step: LoopStep)
    requires t < |s.tasks| && EnabledLoop(s.tasks[t], step)
    ensures var s' := ApplyLoop(s, t, step);
      s'.snapshot.state.Reconnecting? ==>
        s'.snapshot == s.snapshot || (step.ReportLoss? && s.tasks[t].generation == s.generation)
  {
  }

  lemma LossServesItsWait(s: State, t: TaskId)
    requires t < |s.tasks| && EnabledLoop(s.tasks[t], ReportLoss) && s.tasks[t].generation == s.generation
    ensures var s' := ApplyLoop(s, t, ReportLoss);
      s'.snapshot.state.Reconnecting? ==> CurrentServes(s', s'.snapshot.state.retryInMs)
  {
    var s' := ApplyLoop(s, t, ReportLoss);
    if s'.snapshot.state.Reconnecting? {
      assert Serving(s'.tasks[t], s'.snapshot.state.retryInMs);
    }
  }

  /** A loop goes on serving its wait until something else is published. */
  lemma ServingGoesOn(s: State, t: TaskId, step: LoopStep, ms: nat)
    requires t < |s.tasks| && EnabledLoop(s.tasks[t], step) && RetryOk(s.tasks[t])
    requires s.tasks[t].generation == s.generation && Serving(s.tasks[t], ms)
    requires s.lock != Stopping ==> !s.tasks[t].aborted
    requires s.snapshot.state.Reconnecting? && ApplyLoop(s, t, step).snapshot == s.snapshot && s.lock != Stopping
    ensures Serving(ApplyLoop(s, t, step).tasks[t], ms)
  {
  }

  lemma LoopKeepsScreen(s: State, t: TaskId, step: LoopStep)
    requires Control(s) && RetryInv(s) && ScreenOk(s) && t < |s.tasks| && EnabledLoop(s.tasks[t], step)
    ensures ScreenOk(ApplyLoop(s, t, step))
  {
    LoopFrame(s, t, step);
    OnlyLossesAnnounceWaits(s, t, step);
    var s' := ApplyLoop(s, t, step);
    if s'.snapshot.state.Reconnecting? && s'.lock != Stopping {
      if s'.snapshot == s.snapshot {
        var ms := s'.snapshot.state.retryInMs;
        var i :| 0 <= i < |s.tasks| && s.tasks[i].generation == s.generation && Serving(s.tasks[i], ms);
        if i == t {
          assert RetryOk(s.tasks[t]);
          ServingGoesOn(s, t, step, ms);
        }
        assert Serving(s'.tasks[i], ms);
      } else {
        LossServesItsWait(s, t);
      }
    }
  }

  lemma StepKeepsScreen(s: State, step: Step)
    requires Control(s) && RetryInv(s) && ScreenOk(s) && Enabled(s, step)
    ensures ScreenOk(Apply(s, step))
  {
    match step
    case Loop(t, loopStep) => LoopKeepsScreen(s, t, loopStep);
    case _ => UiKeepsScreen(s, step);
  }

  // ---------------------------------------------------------------------------------------
  // Consequences of a well-formed trace

  /** Without a connect in between, the streak never goes down. */
  lemma {:induction false} StreakGrows(trace: seq<LoopEvent>, i: nat, k: nat)
    requires i <= k <= |trace|
    requires forall n :: i <= n < k ==> !trace[n].Connected?
    ensures Streak(trace[..i]) <= Streak(trace[..k])
  {
    if i < k {
      StreakGrows(trace, i, k - 1);
      assert trace[..k][..k - 1] == trace[..k - 1];
    }
  }

  /** What a wait was for: there has been a failure since the last connect. */
  lemma WaitsHaveStreaks(trace: seq<LoopEvent>, i: nat)
    requires TraceOk(trace) && i < |trace| && trace[i].Slept?
    ensures Streak(trace[..i]) >= 1
  {
    assert trace[..i][i - 1] == trace[i - 1];
  }

  /** Waits within one streak never shrink, and all of them last between 1 and 30 seconds. */
  lemma WaitsNeverShrink(trace: seq<LoopEvent>, i: nat, k: nat)
    requires TraceOk(trace)
    requires i <= k < |trace| && trace[i].Slept? && trace[k].Slept?
    requires forall n :: i <= n < k ==> !trace[n].Connected?
    ensures 1_000 <= trace[i].ms <= trace[k].ms <= 30_000
  {
    StreakGrows(trace, i, k);
    BackoffNeverShrinks(Streak(trace[..i]), Streak(trace[..k]));
  }
}
