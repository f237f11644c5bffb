/**
 One monitored host as a transition system: the UI threads that call `start`, `stop` and
 `run_command`, and every poll loop ever spawned for it, including aborted ones that keep
 stepping. One step is one critical section, or one stretch of a loop between two awaits.
 */
module Lifecycle {
  import opened Common
  import opened Connection
  import opened View

  type TaskId = nat
  type JobId = nat

  /** Who holds the task lock, and how far through its critical section they are. */
  datatype Lock = Free | StartChecked | StartPublished | StartSpawned | Stopping

  /** What the reply channel of a command carries. */
  datatype Reply =
    | Pending
    | HostSaid(output: string)
    | TransportFailed(message: string)
    | Refused
    | SenderDropped

  datatype Caller = Waiting | Got(reply: Reply) | TimedOut

  /** An accepted command, tagged with the run and the session it was accepted under. */
  datatype Job = Job(run: TaskId, session: nat, reply: Reply, caller: Caller)

  /** One command that a loop, past its last check on the caller, has handed to its session. */
  datatype Handover = Handover(job: JobId, task: TaskId, session: nat)

  datatype LoopEvent =
    | Connected
    | ConnectFailed(recoverable: bool)
    | SessionLost(transient: bool, retryInMs: nat)
    | Slept(ms: nat)

  /** Where a poll loop is. */
  datatype Pc =
    | Announcing
    | AwaitConnect
    | ReportingFailure(error: TransportError)
    | AwaitTick
    | Publishing(reading: Reading)
    | Gap
    | AwaitCommand(job: JobId)
    | ReportingLoss(error: TransportError)
    | Draining(error: TransportError)
    | Sleeping
    | Returned

  datatype Task = Task(
    generation: nat,
    pc: Pc,
    attempt: nat,
    session: nat,
    publishedFirst: bool,
    inbox: seq<JobId>,
    aborted: bool,
    finished: bool,
    trace: seq<LoopEvent>)

  datatype State = State(
    generation: nat,
    snapshot: TargetSnapshot,
    lock: Lock,
    slot: Option<TaskId>,
    tasks: seq<Task>,
    jobs: seq<Job>,
    handed: seq<Handover>)

  datatype LoopStep =
    | Announce
    | ConnectSucceeds
    | ConnectFails(error: TransportError)
    | ReportFailure
    | TickSucceeds(reading: Reading)
    | TickFails(error: TransportError)
    | PublishTick
    | RefreshDue
    | Dequeue
    | CommandAnswered(output: string)
    | CommandBroke(error: TransportError)
    | ReportLoss
    | DrainOne
    | DrainEmpty
    | Wake
    | Cancelled
    | Finish

  datatype Step =
    | StartCheck
    | StartPublish
    | StartSpawn
    | StartStore
    | StopTake
    | StopPublish
    | Enqueue
    | CallerReads(job: JobId)
    | CallerTimesOut(job: JobId)
    | Loop(task: TaskId, step: LoopStep)

  function Initial(placeholder: TargetSnapshot): State {
    State(0, placeholder, Free, None, [], [], [])
  }

  /** The connection is up: between a successful connect and the publication of its loss. */
  predicate InSession(pc: Pc) {
    pc.AwaitTick? || pc.Publishing? || pc.Gap? || pc.AwaitCommand? || pc.ReportingLoss?
  }

  // ---------------------------------------------------------------------------------------
  // UI threads

  /** `start` goes ahead unless the slot holds a task that is still running. */
  predicate SlotIdle(s: State) {
    s.slot.Some? && s.slot.value < |s.tasks| ==> s.tasks[s.slot.value].finished
  }

  predicate Accepts(s: State) {
    && s.slot.Some? && s.slot.value < |s.tasks|
    && !s.tasks[s.slot.value].finished
    && s.snapshot.state == Online
    && !s.tasks[s.slot.value].pc.Returned?
  }

  predicate EnabledUi(s: State, step: Step)
    requires !step.Loop?
  {
    match step
    case StartCheck => s.lock == Free && SlotIdle(s)
    case StartPublish => s.lock == StartChecked
    case StartSpawn => s.lock == StartPublished
    case StartStore => s.lock == StartSpawned && |s.tasks| > 0
    case StopTake => s.lock == Free
    case StopPublish => s.lock == Stopping
    case Enqueue => s.lock == Free
    case CallerReads(j) => j < |s.jobs| && s.jobs[j].caller == Waiting && s.jobs[j].reply != Pending
    case CallerTimesOut(j) => j < |s.jobs| && s.jobs[j].caller == Waiting
  }

  function ApplyUi(s: State, step: Step): State
    requires !step.Loop? && EnabledUi(s, step)
  {
    match step
    case StartCheck => s.(lock := StartChecked)
    case StartPublish =>
      s.(lock := StartPublished, generation := s.generation + 1, snapshot := SetState(s.snapshot, Connecting))
    case StartSpawn =>
      s.(lock := StartSpawned, tasks := s.tasks + [Task(s.generation, Announcing, 0, 0, false, [], false, false, [])])
    case StartStore => s.(lock := Free, slot := Some(|s.tasks| - 1))
    case StopTake =>
      s.(lock := Stopping, slot := None,
         tasks := if s.slot.Some? && s.slot.value < |s.tasks|
                  then s.tasks[s.slot.value := s.tasks[s.slot.value].(aborted := true)] else s.tasks)
    case StopPublish =>
      s.(lock := Free, generation := s.generation + 1, snapshot := SetState(s.snapshot, Idle))
    case Enqueue =>
      if Accepts(s) then
        var t := s.slot.value;
        s.(tasks := s.tasks[t := s.tasks[t].(inbox := s.tasks[t].inbox + [|s.jobs|])],
           jobs := s.jobs + [Job(t, s.tasks[t].session, Pending, Waiting)])
      else s
    case CallerReads(j) => s.(jobs := s.jobs[j := s.jobs[j].(caller := Got(s.jobs[j].reply))])
    case CallerTimesOut(j) => s.(jobs := s.jobs[j := s.jobs[j].(caller := TimedOut)])
  }

  // ---------------------------------------------------------------------------------------
  // Poll loops

  /** The loop's `publish`: it writes only while its generation is the current one. */
  function Publish(s: State, t: TaskId, snapshot: TargetSnapshot): State
    requires t < |s.tasks|
  {
    if s.tasks[t].generation == s.generation then s.(snapshot := snapshot) else s
  }

  function WithTask(s: State, t: TaskId, task: Task): State
    requires t < |s.tasks|
  {
    s.(tasks := s.tasks[t := task])
  }

  function WithReply(s: State, j: JobId, reply: Reply): State {
    if j < |s.jobs| then s.(jobs := s.jobs[j := s.jobs[j].(reply := reply)]) else s
  }

  /** The command goes to the session: from here on the host may run it. */
  function HandOver(s: State, j: JobId, t: TaskId): State
    requires t < |s.tasks|
  {
    s.(handed := s.handed + [Handover(j, t, s.tasks[t].session)])
  }

  /** Count one more failure and sleep for it. */
  function BackOff(task: Task): Task {
    var attempt := SaturatingAdd(task.attempt, 1, U32_MAX);
    task.(pc := Sleeping, attempt := attempt, trace := task.trace + [Slept(BackoffFor(attempt))])
  }

  /** The jobs whose reply sender this task still owns. */
  predicate Holds(task: Task, j: JobId) {
    j in task.inbox || task.pc == AwaitCommand(j)
  }

  /** The task's future goes away, and every reply sender it owns with it. */
  function Abandon(s: State, t: TaskId): State
    requires t < |s.tasks|
  {
    var task := s.tasks[t];
    s.(tasks := s.tasks[t := task.(pc := Returned, inbox := [])],
       jobs := seq(|s.jobs|, j requires 0 <= j < |s.jobs| =>
                 if Holds(task, j) then s.jobs[j].(reply := SenderDropped) else s.jobs[j]))
  }

  predicate EnabledLoop(task: Task, step: LoopStep) {
    match step
    case Announce => task.pc.Announcing?
    case ConnectSucceeds => task.pc.AwaitConnect?
    case ConnectFails(_) => task.pc.AwaitConnect?
    case ReportFailure => task.pc.ReportingFailure?
    case TickSucceeds(_) => task.pc.AwaitTick?
    case TickFails(_) => task.pc.AwaitTick?
    case PublishTick => task.pc.Publishing?
    case RefreshDue => task.pc.Gap?
    case Dequeue => task.pc.Gap? && task.inbox != []
    case CommandAnswered(_) => task.pc.AwaitCommand?
    case CommandBroke(_) => task.pc.AwaitCommand?
    case ReportLoss => task.pc.ReportingLoss?
    case DrainOne => task.pc.Draining? && task.inbox != []
    case DrainEmpty => task.pc.Draining? && task.inbox == []
    case Wake => task.pc.Sleeping?
    case Cancelled => task.aborted && !task.pc.Returned?
    case Finish => task.pc.Returned?
  }

  function ApplyLoop(s: State, t: TaskId, step: LoopStep): State
    requires t < |s.tasks| && EnabledLoop(s.tasks[t], step)
  {
    var task := s.tasks[t];
    match step
    case Announce =>
      Publish(WithTask(s, t, task.(pc := AwaitConnect)), t, SetState(s.snapshot, Connecting))
    case ConnectSucceeds =>
      WithTask(s, t, task.(pc := AwaitTick, attempt := 0, session := task.session + 1,
                           publishedFirst := false, trace := task.trace + [Connected]))
    case ConnectFails(error) => WithTask(s, t, task.(pc := ReportingFailure(error)))
    case ReportFailure =>
      var error := task.pc.error;
      var failed := task.(trace := task.trace + [ConnectFailed(error.transient)]);
      var s' := Publish(s, t, SetState(s.snapshot, Failed(error.message, error.transient)));
      if error.transient then WithTask(s', t, BackOff(failed)) else Abandon(WithTask(s', t, failed), t)
    case TickSucceeds(reading) => WithTask(s, t, task.(pc := Publishing(reading)))
    case TickFails(error) => WithTask(s, t, task.(pc := ReportingLoss(error)))
    case PublishTick =>
      var s' := WithTask(s, t, task.(pc := Gap, publishedFirst := true));
      Publish(s', t, if task.publishedFirst then BuildSnapshot(task.pc.reading, Online) else SetState(s.snapshot, Online))
    case RefreshDue => WithTask(s, t, task.(pc := AwaitTick))
    case Dequeue =>
      var j := task.inbox[0];
      var rest := task.(inbox := task.inbox[1..]);
      if j < |s.jobs| && s.jobs[j].caller == TimedOut then
        WithReply(WithTask(s, t, rest), j, SenderDropped)
      else
        HandOver(WithTask(s, t, rest.(pc := AwaitCommand(j))), j, t)
    case CommandAnswered(output) =>
      WithReply(WithTask(s, t, task.(pc := Gap)), task.pc.job, HostSaid(output))
    case CommandBroke(error) =>
      WithReply(WithTask(s, t, task.(pc := ReportingLoss(error))), task.pc.job, TransportFailed(error.message))
    case ReportLoss =>
      var state := StateAfterLoss(0, task.pc.error);
      var retry := if state.Reconnecting? then state.retryInMs else 0;
      Publish(WithTask(s, t, task.(pc := Draining(task.pc.error),
                                   trace := task.trace + [SessionLost(task.pc.error.transient, retry)])),
              t, SetState(s.snapshot, state))
    case DrainOne =>
      WithReply(WithTask(s, t, task.(inbox := task.inbox[1..])), task.inbox[0], Refused)
    case DrainEmpty =>
      if task.pc.error.transient then WithTask(s, t, BackOff(task)) else Abandon(s, t)
    case Wake => WithTask(s, t, task.(pc := Announcing))
    case Cancelled => Abandon(s, t)
    case Finish => WithTask(s, t, task.(finished := true))
  }

  predicate Enabled(s: State, step: Step) {
    match step
    case Loop(t, loopStep) => t < |s.tasks| && EnabledLoop(s.tasks[t], loopStep)
    case _ => EnabledUi(s, step)
  }

  function Apply(s: State, step: Step): State
    requires Enabled(s, step)
  {
    match step
    case Loop(t, loopStep) => ApplyLoop(s, t, loopStep)
    case _ => ApplyUi(s, step)
  }

  ghost predicate Follows(s: State, step: Step, s': State) {
    Enabled(s, step) && s' == Apply(s, step)
  }

  ghost predicate StepAt(states: seq<State>, steps: seq<Step>, i: nat) {
    i < |steps| && i + 1 < |states| && Follows(states[i], steps[i], states[i + 1])
  }

  /** A finite run: any interleaving of enabled steps from a freshly added target. */
  ghost predicate IsRun(states: seq<State>, steps: seq<Step>) {
    && |states| == |steps| + 1
    && states[0] == Initial(Placeholder(Idle))
    && forall i :: 0 <= i < |steps| ==> StepAt(states, steps, i)
  }
}
