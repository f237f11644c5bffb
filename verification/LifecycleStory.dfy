/**
 The trace, the session and the screen of every loop, retold from the steps of the run alone.
 */
module LifecycleStory {
  import opened Common
  import opened Connection
  import opened Lifecycle
  import opened LifecycleControl
  import opened LifecycleRetry
  import opened LifecycleTheorems

  // ---------------------------------------------------------------------------------------
  // The same story twice

  /** The last transport error loop `t` met in the first `k` steps. */
  function LastError(steps: seq<Step>, k: nat, t: TaskId): Option<TransportError>
    requires k <= |steps|
  {
    if k == 0 then None
    else
      match steps[k - 1]
      case Loop(u, ConnectFails(error)) => if u == t then Some(error) else LastError(steps, k - 1, t)
      case Loop(u, TickFails(error)) => if u == t then Some(error) else LastError(steps, k - 1, t)
      case Loop(u, CommandBroke(error)) => if u == t then Some(error) else LastError(steps, k - 1, t)
      case _ => LastError(steps, k - 1, t)
  }

  /** Failures loop `t` has reported since it last connected. */
  function Failures(steps: seq<Step>, k: nat, t: TaskId): nat
    requires k <= |steps|
  {
    if k == 0 || steps[k - 1] == Loop(t, ConnectSucceeds) then 0
    else if steps[k - 1] == Loop(t, ReportFailure) || steps[k - 1] == Loop(t, ReportLoss)
    then Failures(steps, k - 1, t) + 1
    else Failures(steps, k - 1, t)
  }

  /** Loop `t` has connected, and has neither reported a loss nor been cancelled since. */
  predicate Connected(steps: seq<Step>, k: nat, t: TaskId)
    requires k <= |steps|
  {
    && k > 0
    && steps[k - 1] != Loop(t, ReportLoss) && steps[k - 1] != Loop(t, Cancelled)
    && (steps[k - 1] == Loop(t, ConnectSucceeds) || Connected(steps, k - 1, t))
  }

  /** How long to wait after this many failures in a row. */
  function WaitAfter(failures: nat): nat {
    if failures <= 1 then 1_000
    else if failures == 2 then 2_000
    else if failures == 3 then 5_000
    else if failures == 4 then 10_000
    else if failures == 5 then 20_000
    else 30_000
  }

  /** What a step writes to the story of its loop, given the last error and the failures before it. */
  function Written(step: LoopStep, error: Option<TransportError>, failures: nat): seq<LoopEvent> {
    match step
    case ConnectSucceeds => [LoopEvent.Connected]
    case ReportFailure =>
      if error.None? then []
      else if error.value.transient then [ConnectFailed(true), Slept(WaitAfter(failures + 1))]
      else [ConnectFailed(false)]
    case ReportLoss =>
      if error.None? then []
      else [SessionLost(error.value.transient, if error.value.transient then 1_000 else 0)]
    case DrainEmpty =>
      if error.Some? && error.value.transient then [Slept(WaitAfter(failures))] else []
    case _ => []
  }

  function Story(steps: seq<Step>, k: nat, t: TaskId): seq<LoopEvent>
    requires k <= |steps|
  {
    if k == 0 then []
    else
      var earlier := Story(steps, k - 1, t);
      if steps[k - 1].Loop? && steps[k - 1].task == t
      then earlier + Written(steps[k - 1].step, LastError(steps, k - 1, t), Failures(steps, k - 1, t))
      else earlier
  }

  /** What is known of a loop from the steps of the run. */
  datatype Facts = Facts(story: seq<LoopEvent>, failures: nat, error: Option<TransportError>, connected: bool)

  const NOTHING: Facts := Facts([], 0, None, false)

  /** The error a loop is dealing with. */
  function Facing(pc: Pc): Option<TransportError> {
    match pc
    case ReportingFailure(error) => Some(error)
    case ReportingLoss(error) => Some(error)
    case Draining(error) => Some(error)
    case _ => None
  }

  ghost predicate Fitting(task: Task, facts: Facts) {
    && task.trace == facts.story
    && Streak(task.trace) == facts.failures
    && (Facing(task.pc).Some? ==> facts.error == Facing(task.pc))
    && InSession(task.pc) == facts.connected
  }

  ghost predicate Tells(s: State, t: TaskId, facts: Facts) {
    if t < |s.tasks| then Fitting(s.tasks[t], facts) else facts == NOTHING
  }

  /** The error a step brings up. */
  function Raised(step: LoopStep): Option<TransportError> {
    match step
    case ConnectFails(error) => Some(error)
    case TickFails(error) => Some(error)
    case CommandBroke(error) => Some(error)
    case _ => None
  }

  function Told(step: LoopStep, facts: Facts): Facts {
    Facts(facts.story + Written(step, facts.error, facts.failures),
          if step.ConnectSucceeds? then 0 else if step.ReportFailure? || step.ReportLoss? then facts.failures + 1 else facts.failures,
          if Raised(step).Some? then Raised(step) else facts.error,
          step.ConnectSucceeds? || (facts.connected && !step.ReportLoss? && !step.Cancelled?))
  }

  /** The facts after a step. */
  function Next(step: Step, t: TaskId, facts: Facts): Facts {
    if step.Loop? && step.task == t then Told(step.step, facts) else facts
  }

  /** What is known after `k` steps, learnt step by step. */
  function FactsAt(steps: seq<Step>, k: nat, t: TaskId): Facts
    requires k <= |steps|
  {
    if k == 0 then NOTHING else Next(steps[k - 1], t, FactsAt(steps, k - 1, t))
  }

  lemma {:induction false} FactsAreTheStory(steps: seq<Step>, k: nat, t: TaskId)
    requires k <= |steps|
    ensures FactsAt(steps, k, t) == Facts(Story(steps, k, t), Failures(steps, k, t), LastError(steps, k, t), Connected(steps, k, t))
  {
    if k > 0 {
      FactsAreTheStory(steps, k - 1, t);
      LastErrorStep(steps, k - 1, t);
    }
  }

  lemma LastErrorStep(steps: seq<Step>, k: nat, t: TaskId)
    requires k < |steps|
    ensures LastError(steps, k + 1, t)
         == if steps[k].Loop? && steps[k].task == t && Raised(steps[k].step).Some? then Raised(steps[k].step)
            else LastError(steps, k, t)
  {
  }

  lemma LoopFaces(s: State, t: TaskId, step: LoopStep)
    requires t < |s.tasks| && EnabledLoop(s.tasks[t], step) && t < |ApplyLoop(s, t, step).tasks|
    ensures var now := Facing(ApplyLoop(s, t, step).tasks[t].pc);
      now == None || now == (if Raised(step).Some? then Raised(step) else Facing(s.tasks[t].pc))
  {
  }

  lemma LoopConnects(s: State, t: TaskId, step: LoopStep)
    requires t < |s.tasks| && EnabledLoop(s.tasks[t], step) && t < |ApplyLoop(s, t, step).tasks|
    ensures InSession(ApplyLoop(s, t, step).tasks[t].pc)
       <==> step.ConnectSucceeds? || (InSession(s.tasks[t].pc) && !step.ReportLoss? && !step.Cancelled?)
  {
  }

  /** The wait the loop takes is the one the failures call for. */
  lemma BackOffWaits(task: Task, failures: nat)
    requires failures >= 1 && task.attempt == Min(failures - 1, U32_MAX)
    ensures BackOff(task).trace == task.trace + [Slept(WaitAfter(failures))]
  {
    var attempt := SaturatingAdd(task.attempt, 1, U32_MAX);
    BackoffSchedule(attempt);
  }

  /** What a step that writes to the trace writes. */
  lemma LoopWrites(s: State, t: TaskId, step: LoopStep)
    requires t < |s.tasks| && EnabledLoop(s.tasks[t], step) && t < |ApplyLoop(s, t, step).tasks|
    requires RetryOk(s.tasks[t]) && WritesTrace(step)
    ensures ApplyLoop(s, t, step).tasks[t].trace
         == s.tasks[t].trace + Written(step, Facing(s.tasks[t].pc), Streak(s.tasks[t].trace))
  {
    var task := s.tasks[t];
    match step
    case ReportFailure =>
      if task.pc.error.transient {
        BackOffWaits(task.(trace := task.trace + [ConnectFailed(true)]), Streak(task.trace) + 1);
        Associative(task.trace, [ConnectFailed(true)], [Slept(WaitAfter(Streak(task.trace) + 1))]);
        assert [ConnectFailed(true)] + [Slept(WaitAfter(Streak(task.trace) + 1))]
            == [ConnectFailed(true), Slept(WaitAfter(Streak(task.trace) + 1))];
      }
    case DrainEmpty =>
      if task.pc.error.transient {
        BackOffWaits(task, Streak(task.trace));
      }
    case _ =>
  }

  /** How an event changes the number of failures in a row. */
  function Counted(event: LoopEvent, failures: nat): nat {
    if event.Connected? then 0 else if event.Slept? then failures else failures + 1
  }

  lemma StreakOfOne(trace: seq<LoopEvent>, event: LoopEvent)
    ensures Streak(trace + [event]) == Counted(event, Streak(trace))
  {
    AppendToStreak(trace, event);
  }

  lemma StreakOfTwo(trace: seq<LoopEvent>, one: LoopEvent, two: LoopEvent)
    ensures Streak(trace + [one, two]) == Counted(two, Counted(one, Streak(trace)))
  {
    assert trace + [one, two] == trace + [one] + [two];
    StreakOfOne(trace, one);
    StreakOfOne(trace + [one], two);
  }

  lemma StreakOfWritten(trace: seq<LoopEvent>, step: LoopStep, error: Option<TransportError>)
    requires step.ReportFailure? || step.ReportLoss? ==> error.Some?
    ensures Streak(trace + Written(step, error, Streak(trace))) == Told(step, Facts(trace, Streak(trace), error, true)).failures
  {
    assert trace + [] == trace;
    match step
    case ConnectSucceeds => StreakOfOne(trace, LoopEvent.Connected);
    case ReportFailure =>
      if error.value.transient {
        StreakOfTwo(trace, ConnectFailed(true), Slept(WaitAfter(Streak(trace) + 1)));
      } else {
        StreakOfOne(trace, ConnectFailed(false));
      }
    case ReportLoss =>
      StreakOfOne(trace, SessionLost(error.value.transient, if error.value.transient then 1_000 else 0));
    case DrainEmpty => StreakOfOne(trace, Slept(WaitAfter(Streak(trace))));
    case _ =>
  }

  lemma LoopTells(s: State, t: TaskId, step: LoopStep, facts: Facts)
    requires t < |s.tasks| && EnabledLoop(s.tasks[t], step) && t < |ApplyLoop(s, t, step).tasks|
    requires RetryOk(s.tasks[t]) && Fitting(s.tasks[t], facts)
    ensures Fitting(ApplyLoop(s, t, step).tasks[t], Told(step, facts))
  {
    LoopFaces(s, t, step);
    LoopConnects(s, t, step);
    if WritesTrace(step) {
      LoopWrites(s, t, step);
      WrittenFromFacts(s.tasks[t], step, facts);
    } else {
      TraceUntouched(s, t, step);
      assert facts.story + [] == facts.story;
    }
  }

  lemma WrittenFromFacts(task: Task, step: LoopStep, facts: Facts)
    requires Fitting(task, facts) && EnabledLoop(task, step) && WritesTrace(step)
    ensures Told(step, facts).story == task.trace + Written(step, Facing(task.pc), Streak(task.trace))
    ensures Streak(Told(step, facts).story) == Told(step, facts).failures
  {
    StreakOfWritten(task.trace, step, facts.error);
  }

  lemma StepTells(s: State, step: Step, s': State, t: TaskId, facts: Facts)
    requires RetryInv(s) && Follows(s, step, s') && Tells(s, t, facts)
    ensures Tells(s', t, Next(step, t, facts))
  {
    match step
    case Loop(u, loopStep) =>
      LoopFrame(s, u, loopStep);
      if u == t {
        assert RetryOk(s.tasks[t]);
        LoopTells(s, t, loopStep, facts);
      }
    case _ => UiFrame(s, step);
  }

  lemma TellsOn(states: seq<State>, steps: seq<Step>, k: nat, t: TaskId, before: Facts, after: Facts)
    requires IsRun(states, steps) && 0 < k < |states|
    requires Tells(states[k - 1], t, before) && after == Next(steps[k - 1], t, before)
    ensures Tells(states[k], t, after)
  {
    TakenFrom(states, steps, k - 1);
    StepTells(states[k - 1], steps[k - 1], states[k], t, before);
  }

  lemma {:induction false} RunTells(states: seq<State>, steps: seq<Step>, k: nat, t: TaskId)
    requires IsRun(states, steps) && k < |states|
    ensures Tells(states[k], t, FactsAt(steps, k, t))
  {
    if k > 0 {
      RunTells(states, steps, k - 1, t);
      TellsOn(states, steps, k, t, FactsAt(steps, k - 1, t), FactsAt(steps, k, t));
    }
  }

  /** A step of a run is taken from a state in good order. */
  lemma TakenFrom(states: seq<State>, steps: seq<Step>, k: nat)
    requires IsRun(states, steps) && k < |steps|
    ensures Control(states[k]) && RetryInv(states[k]) && Follows(states[k], steps[k], states[k + 1])
  {
    RunStep(states, steps, k);
    ReachableInv(states, steps, k);
  }

  /**
   The trace of a loop is the story of its run: each failure it reported with the error it had met, each
   connect, and each wait with the length the failures since the last connect call for.
   */
  lemma TracesRetellTheRun(states: seq<State>, steps: seq<Step>, k: nat, t: TaskId)
    requires IsRun(states, steps) && k < |states| && t < |states[k].tasks|
    ensures states[k].tasks[t].trace == Story(steps, k, t)
    ensures Streak(states[k].tasks[t].trace) == Failures(steps, k, t)
  {
    RunTells(states, steps, k, t);
    FactsAreTheStory(steps, k, t);
  }

  /** A loop is in a session from each of its connects until it reports a loss or is cancelled. */
  lemma SessionsAreStretches(states: seq<State>, steps: seq<Step>, k: nat, t: TaskId)
    requires IsRun(states, steps) && k < |states| && t < |states[k].tasks|
    ensures InSession(states[k].tasks[t].pc) <==> Connected(steps, k, t)
  {
    RunTells(states, steps, k, t);
    FactsAreTheStory(steps, k, t);
  }

  // ---------------------------------------------------------------------------------------
  // Commands wait for the gap

  /** Loop `t` has put a tick on screen, and has only served commands since. */
  predicate BetweenRefreshes(steps: seq<Step>, k: nat, t: TaskId)
    requires k <= |steps|
  {
    && k > 0
    && if steps[k - 1].Loop? && steps[k - 1].task == t then
         || steps[k - 1].step == PublishTick
         || ((steps[k - 1].step == Dequeue || steps[k - 1].step.CommandAnswered?) && BetweenRefreshes(steps, k - 1, t))
       else BetweenRefreshes(steps, k - 1, t)
  }

  predicate ServesCommands(pc: Pc) {
    pc.Gap? || pc.AwaitCommand?
  }

  lemma LoopStartsServing(s: State, t: TaskId, step: LoopStep)
    requires t < |s.tasks| && EnabledLoop(s.tasks[t], step) && t < |ApplyLoop(s, t, step).tasks|
    requires ServesCommands(ApplyLoop(s, t, step).tasks[t].pc)
    ensures step == PublishTick || ((step == Dequeue || step.CommandAnswered?) && ServesCommands(s.tasks[t].pc))
  {
  }

  lemma StepStartsServing(s: State, step: Step, s': State, t: TaskId)
    requires Follows(s, step, s') && t < |s'.tasks| && ServesCommands(s'.tasks[t].pc)
    ensures if step.Loop? && step.task == t then
              || step.step == PublishTick
              || ((step.step == Dequeue || step.step.CommandAnswered?) && t < |s.tasks| && ServesCommands(s.tasks[t].pc))
            else t < |s.tasks| && ServesCommands(s.tasks[t].pc)
  {
    match step
    case Loop(u, loopStep) =>
      LoopFrame(s, u, loopStep);
      if u == t {
        LoopStartsServing(s, t, loopStep);
      }
    case _ => UiFrame(s, step);
  }

  /** A loop hands commands over only between two refreshes, after the first tick of its session. */
  lemma {:induction false} CommandsWaitForTheGap(states: seq<State>, steps: seq<Step>, k: nat, t: TaskId)
    requires IsRun(states, steps) && k < |states| && t < |states[k].tasks| && ServesCommands(states[k].tasks[t].pc)
    ensures BetweenRefreshes(steps, k, t)
  {
    if k > 0 {
      RunStep(states, steps, k - 1);
      StepStartsServing(states[k - 1], steps[k - 1], states[k], t);
      if !(steps[k - 1].Loop? && steps[k - 1].task == t && steps[k - 1].step == PublishTick) {
        CommandsWaitForTheGap(states, steps, k - 1, t);
      }
    }
  }

  // ---------------------------------------------------------------------------------------
  // One loop at a time

  /** The loop has neither returned nor been told to. */
  predicate Live(task: Task) {
    !task.pc.Returned? && !task.aborted
  }

  /** The one loop that may be live. */
  predicate Foremost(s: State, t: TaskId) {
    match s.lock
    case Free => s.slot == Some(t)
    case StartChecked => false
    case StartPublished => false
    case StartSpawned => t == |s.tasks| - 1
    case Stopping => false
  }

  ghost predicate OnlyForemostLives(s: State) {
    forall t :: 0 <= t < |s.tasks| && Live(s.tasks[t]) ==> Foremost(s, t)
  }

  lemma UiKeepsForemost(s: State, step: Step)
    requires Control(s) && OnlyForemostLives(s) && !step.Loop? && EnabledUi(s, step)
    ensures OnlyForemostLives(ApplyUi(s, step))
  {
    UiFrame(s, step);
    var s' := ApplyUi(s, step);
    forall t | 0 <= t < |s'.tasks| && Live(s'.tasks[t]) ensures Foremost(s', t) {
      if t < |s.tasks| && Live(s.tasks[t]) {
        assert Foremost(s, t);
      }
    }
  }

  lemma StepKeepsForemost(s: State, step: Step)
    requires Control(s) && OnlyForemostLives(s) && Enabled(s, step)
    ensures OnlyForemostLives(Apply(s, step))
  {
    match step
    case Loop(u, loopStep) =>
      LoopFrame(s, u, loopStep);
      var s' := ApplyLoop(s, u, loopStep);
      forall t | 0 <= t < |s'.tasks| && Live(s'.tasks[t]) ensures Foremost(s', t) {
        assert Live(s.tasks[t]);
      }
    case _ => UiKeepsForemost(s, step);
  }

  lemma {:induction false} RunKeepsForemost(states: seq<State>, steps: seq<Step>, k: nat)
    requires IsRun(states, steps) && k < |states|
    ensures OnlyForemostLives(states[k])
  {
    if k > 0 {
      RunKeepsForemost(states, steps, k - 1);
      TakenFrom(states, steps, k - 1);
      StepKeepsForemost(states[k - 1], steps[k - 1]);
    }
  }

  /** However often `start` and `stop` are called, at most one loop is at work that has not been told to end. */
  lemma AtMostOneLiveLoop(states: seq<State>, steps: seq<Step>, k: nat, t: TaskId, u: TaskId)
    requires IsRun(states, steps) && k < |states| && t < |states[k].tasks| && u < |states[k].tasks|
    requires Live(states[k].tasks[t]) && Live(states[k].tasks[u])
    ensures t == u
  {
    RunKeepsForemost(states, steps, k);
  }

  // ---------------------------------------------------------------------------------------
  // What the screen says

  /** After a failed connect the screen gives its reason, after a lost session the coming attempt. */
  ghost predicate ShowsFailure(trace: seq<LoopEvent>, error: Option<TransportError>, state: ConnectionState) {
    && |trace| >= 2 && error.Some?
    && if trace[|trace| - 2].SessionLost? then state == Reconnecting(1, 1_000)
       else state == Failed(error.value.message, true)
  }

  /** What the screen says while the current loop is where it is, `error` being the last it met. */
  ghost predicate Shows(task: Task, error: Option<TransportError>, state: ConnectionState) {
    match task.pc
    case Announcing => if task.trace == [] then state == Connecting else ShowsFailure(task.trace, error, state)
    case AwaitConnect => state == Connecting
    case ReportingFailure(_) => state == Connecting
    case Draining(e) => state == if e.transient then Reconnecting(1, 1_000) else Failed(e.message, false)
    case Sleeping => ShowsFailure(task.trace, error, state)
    case Returned => error.Some? && state == Failed(error.value.message, false)
    case _ => state == if task.publishedFirst then Online else Connecting
  }

  /** The screen is the current loop's, unless a `stop` is under way. */
  ghost predicate ScreenShows(s: State, t: TaskId, error: Option<TransportError>) {
    t < |s.tasks| && s.tasks[t].generation == s.generation && s.lock != Stopping ==>
      Shows(s.tasks[t], error, s.snapshot.state)
  }

  /** Between the two halves of a `start` the screen says Connecting. */
  ghost predicate StartShows(s: State) {
    s.lock == StartPublished ==> s.snapshot.state == Connecting
  }

  lemma UiShows(s: State, step: Step, t: TaskId, error: Option<TransportError>)
    requires Control(s) && !step.Loop? && EnabledUi(s, step)
    requires ScreenShows(s, t, error) && StartShows(s)
    ensures ScreenShows(ApplyUi(s, step), t, error)
    ensures StartShows(ApplyUi(s, step))
  {
    UiFrame(s, step);
  }

  /** The current loop `t` takes a step while the screen shows where it is. */
  ghost predicate Current(s: State, t: TaskId, step: LoopStep, facts: Facts) {
    && t < |s.tasks| && EnabledLoop(s.tasks[t], step) && |ApplyLoop(s, t, step).tasks| == |s.tasks|
    && s.tasks[t].generation == s.generation && !s.tasks[t].aborted
    && RetryOk(s.tasks[t]) && Fitting(s.tasks[t], facts) && Shows(s.tasks[t], facts.error, s.snapshot.state)
  }

  lemma FailureShows(s: State, t: TaskId, facts: Facts)
    requires Current(s, t, ReportFailure, facts)
    ensures var s' := ApplyLoop(s, t, ReportFailure); Shows(s'.tasks[t], facts.error, s'.snapshot.state)
  {
  }

  lemma LossShows(s: State, t: TaskId, facts: Facts)
    requires Current(s, t, ReportLoss, facts)
    ensures var s' := ApplyLoop(s, t, ReportLoss); Shows(s'.tasks[t], facts.error, s'.snapshot.state)
  {
  }

  lemma DrainedShows(s: State, t: TaskId, facts: Facts)
    requires Current(s, t, DrainEmpty, facts)
    ensures var s' := ApplyLoop(s, t, DrainEmpty); Shows(s'.tasks[t], facts.error, s'.snapshot.state)
  {
  }

  lemma PublishingShows(s: State, t: TaskId, step: LoopStep, facts: Facts)
    requires Current(s, t, step, facts) && (step.Announce? || step.PublishTick?)
    ensures var s' := ApplyLoop(s, t, step); Shows(s'.tasks[t], facts.error, s'.snapshot.state)
  {
  }

  lemma ConnectShows(s: State, t: TaskId, facts: Facts)
    requires Current(s, t, ConnectSucceeds, facts)
    ensures var s' := ApplyLoop(s, t, ConnectSucceeds); Shows(s'.tasks[t], facts.error, s'.snapshot.state)
  {
  }

  lemma SilentStepShows(s: State, t: TaskId, step: LoopStep, facts: Facts)
    requires Current(s, t, step, facts) && !WritesTrace(step) && !step.Announce? && !step.PublishTick?
    ensures var s' := ApplyLoop(s, t, step); Shows(s'.tasks[t], Told(step, facts).error, s'.snapshot.state)
  {
  }

  lemma OwnStepShows(s: State, t: TaskId, step: LoopStep, facts: Facts)
    requires Current(s, t, step, facts)
    ensures var s' := ApplyLoop(s, t, step); Shows(s'.tasks[t], Told(step, facts).error, s'.snapshot.state)
  {
    match step
    case ReportFailure => FailureShows(s, t, facts);
    case ReportLoss => LossShows(s, t, facts);
    case DrainEmpty => DrainedShows(s, t, facts);
    case ConnectSucceeds => ConnectShows(s, t, facts);
    case Announce => PublishingShows(s, t, step, facts);
    case PublishTick => PublishingShows(s, t, step, facts);
    case _ => SilentStepShows(s, t, step, facts);
  }

  lemma OtherStepShows(s: State, u: TaskId, step: LoopStep, t: TaskId, error: Option<TransportError>)
    requires Control(s) && u < |s.tasks| && EnabledLoop(s.tasks[u], step) && u != t
    requires ScreenShows(s, t, error)
    ensures ScreenShows(ApplyLoop(s, u, step), t, error)
  {
    LoopFrame(s, u, step);
  }

  lemma LoopLeavesStart(s: State, u: TaskId, step: LoopStep)
    requires Control(s) && u < |s.tasks| && EnabledLoop(s.tasks[u], step) && StartShows(s)
    ensures StartShows(ApplyLoop(s, u, step))
  {
    LoopFrame(s, u, step);
  }

  lemma StepShows(s: State, step: Step, s': State, t: TaskId, facts: Facts)
    requires Control(s) && RetryInv(s) && Follows(s, step, s') && Tells(s, t, facts)
    requires ScreenShows(s, t, facts.error) && StartShows(s)
    ensures StartShows(s')
    ensures ScreenShows(s', t, Next(step, t, facts).error)
  {
    match step
    case Loop(u, loopStep) =>
      LoopFrame(s, u, loopStep);
      LoopLeavesStart(s, u, loopStep);
      if u != t {
        OtherStepShows(s, u, loopStep, t, facts.error);
      } else if s.tasks[t].generation == s.generation && s.lock != Stopping {
        assert RetryOk(s.tasks[t]);
        OwnStepShows(s, t, loopStep, facts);
      }
    case _ => UiShows(s, step, t, facts.error);
  }

  ghost predicate ShowsAt(s: State, t: TaskId, facts: Facts) {
    ScreenShows(s, t, facts.error) && StartShows(s)
  }

  lemma NothingShows(states: seq<State>, steps: seq<Step>, t: TaskId)
    requires IsRun(states, steps)
    ensures ShowsAt(states[0], t, FactsAt(steps, 0, t))
  {
  }

  lemma ShowsOn(states: seq<State>, steps: seq<Step>, k: nat, t: TaskId)
    requires IsRun(states, steps) && 0 < k < |states|
    requires ShowsAt(states[k - 1], t, FactsAt(steps, k - 1, t))
    ensures ShowsAt(states[k], t, FactsAt(steps, k, t))
  {
    RunTells(states, steps, k - 1, t);
    ShowsAfter(states, steps, k, t, FactsAt(steps, k - 1, t), FactsAt(steps, k, t));
  }

  lemma ShowsAfter(states: seq<State>, steps: seq<Step>, k: nat, t: TaskId, before: Facts, after: Facts)
    requires IsRun(states, steps) && 0 < k < |states| && after == Next(steps[k - 1], t, before)
    requires Tells(states[k - 1], t, before) && ShowsAt(states[k - 1], t, before)
    ensures ShowsAt(states[k], t, after)
  {
    TakenFrom(states, steps, k - 1);
    StepShows(states[k - 1], steps[k - 1], states[k], t, before);
  }

  lemma {:induction false} RunShows(states: seq<State>, steps: seq<Step>, k: nat, t: TaskId)
    requires IsRun(states, steps) && k < |states|
    ensures ShowsAt(states[k], t, FactsAt(steps, k, t))
  {
    if k == 0 {
      NothingShows(states, steps, t);
    } else {
      RunShows(states, steps, k - 1, t);
      ShowsOn(states, steps, k, t);
    }
  }

  /**
   In every reachable state the screen says where the current loop is: Connecting until the first tick of
   a session is in, Online from then on, the coming attempt after a loss, and after a failed connect what
   the error of the last attempt said, and whether it will be tried again.
   */
  lemma ScreenTellsTheRun(states: seq<State>, steps: seq<Step>, k: nat, t: TaskId)
    requires IsRun(states, steps) && k < |states|
    requires t < |states[k].tasks| && states[k].tasks[t].generation == states[k].generation && states[k].lock != Stopping
    ensures Shows(states[k].tasks[t], LastError(steps, k, t), states[k].snapshot.state)
  {
    RunShows(states, steps, k, t);
    FactsAreTheStory(steps, k, t);
  }
}
