/**
 What can happen next: paths that are open from every state of their kind, however it was reached.
 */
module LifecycleReach {
  import opened Common
  import opened Connection
  import opened View
  import opened Lifecycle
  import opened Target

  /** The caller's command is taken up at once, and the caller hears what the host said. */
  function ServedPath(t: TaskId, j: JobId, output: string): seq<Step> {
    [Enqueue, Loop(t, Dequeue), Loop(t, CommandAnswered(output)), CallerReads(j)]
  }

  /** Command `j` of loop `t` is with the session. */
  function Running(s: State, t: TaskId, j: JobId): State
    requires t < |s.tasks|
  {
    s.(tasks := s.tasks[t := s.tasks[t].(pc := AwaitCommand(j))],
       jobs := s.jobs + [Job(t, s.tasks[t].session, Pending, Waiting)],
       handed := s.handed + [Handover(j, t, s.tasks[t].session)])
  }

  lemma CommandsAreTaken(s: State) returns (queued: State)
    requires s.lock == Free && Accepts(s) && s.tasks[s.slot.value].pc == Gap && s.tasks[s.slot.value].inbox == []
    ensures Follows(s, Enqueue, queued)
    ensures Follows(queued, Loop(s.slot.value, Dequeue), Running(s, s.slot.value, |s.jobs|))
  {
    var t, j := s.slot.value, |s.jobs|;
    queued := Apply(s, Enqueue);
    assert queued.tasks[t].inbox == [j] && [j][1..] == [];
    assert queued.jobs[j].caller == Waiting;
    assert queued.tasks[t].(inbox := [], pc := AwaitCommand(j)) == s.tasks[t].(pc := AwaitCommand(j));
    assert Apply(queued, Loop(t, Dequeue)).tasks == Running(s, t, j).tasks;
  }

  lemma CommandsAreAnswered(s: State, t: TaskId, output: string) returns (answered: State, after: State)
    requires t < |s.tasks| && s.tasks[t].pc == Gap
    ensures var j := |s.jobs|;
      && Follows(Running(s, t, j), Loop(t, CommandAnswered(output)), answered)
      && Follows(answered, CallerReads(j), after)
      && after == s.(jobs := s.jobs + [Job(t, s.tasks[t].session, HostSaid(output), Got(HostSaid(output)))],
                     handed := s.handed + [Handover(j, t, s.tasks[t].session)])
  {
    var running := Running(s, t, |s.jobs|);
    answered := Apply(running, Loop(t, CommandAnswered(output)));
    assert answered.tasks == s.tasks;
    assert answered.jobs == s.jobs + [Job(t, s.tasks[t].session, HostSaid(output), Waiting)];
    after := Apply(answered, CallerReads(|s.jobs|));
    assert after.jobs == s.jobs + [Job(t, s.tasks[t].session, HostSaid(output), Got(HostSaid(output)))];
  }

  lemma CommandsAreServed(s: State, output: string) returns (after: State)
    requires s.lock == Free && Accepts(s) && s.tasks[s.slot.value].pc == Gap && s.tasks[s.slot.value].inbox == []
    ensures var t := s.slot.value; var j := |s.jobs|;
      && Leads(s, ServedPath(t, j, output), after)
      && after == s.(jobs := s.jobs + [Job(t, s.tasks[t].session, HostSaid(output), Got(HostSaid(output)))],
                     handed := s.handed + [Handover(j, t, s.tasks[t].session)])
  {
    var t, j := s.slot.value, |s.jobs|;
    var queued := CommandsAreTaken(s);
    var answered;
    answered, after := CommandsAreAnswered(s, t, output);
    FourSteps(s, Enqueue, queued, Loop(t, Dequeue), Running(s, t, j),
              Loop(t, CommandAnswered(output)), answered, CallerReads(j), after);
  }

  /** In a session that has been announced, a refresh puts its readings on screen and leads to the next one. */
  lemma RefreshesGoRound(s: State, t: TaskId, reading: Reading)
    requires t < |s.tasks| && s.tasks[t].pc == AwaitTick && s.tasks[t].publishedFirst
    requires s.tasks[t].generation == s.generation
    ensures Leads(s, [Loop(t, TickSucceeds(reading)), Loop(t, PublishTick), Loop(t, RefreshDue)],
                  s.(snapshot := BuildSnapshot(reading, Online)))
  {
    var read, snapshot := HasRead(s, t, reading), BuildSnapshot(reading, Online);
    var shown := HasShown(s, t, snapshot);
    TickIsPublished(s, t, reading);
    GapEnds(s, t, snapshot);
    TwoSteps(s, Loop(t, TickSucceeds(reading)), read, Loop(t, PublishTick), shown);
    LeadsOn(s, [Loop(t, TickSucceeds(reading)), Loop(t, PublishTick)], shown, Loop(t, RefreshDue), s.(snapshot := snapshot));
    assert [Loop(t, TickSucceeds(reading)), Loop(t, PublishTick)] + [Loop(t, RefreshDue)]
        == [Loop(t, TickSucceeds(reading)), Loop(t, PublishTick), Loop(t, RefreshDue)];
  }

  /** Loop `t` has read this. */
  function HasRead(s: State, t: TaskId, reading: Reading): State
    requires t < |s.tasks|
  {
    s.(tasks := s.tasks[t := s.tasks[t].(pc := Publishing(reading))])
  }

  /** Loop `t` has put this snapshot on screen, and is between refreshes. */
  function HasShown(s: State, t: TaskId, snapshot: TargetSnapshot): State
    requires t < |s.tasks|
  {
    s.(snapshot := snapshot, tasks := s.tasks[t := s.tasks[t].(pc := Gap, publishedFirst := true)])
  }

  lemma TickIsPublished(s: State, t: TaskId, reading: Reading)
    requires t < |s.tasks| && s.tasks[t].pc == AwaitTick && s.tasks[t].generation == s.generation
    ensures Follows(s, Loop(t, TickSucceeds(reading)), HasRead(s, t, reading))
    ensures Follows(HasRead(s, t, reading), Loop(t, PublishTick),
                    HasShown(s, t, if s.tasks[t].publishedFirst then BuildSnapshot(reading, Online)
                                   else SetState(s.snapshot, Online)))
  {
    var read := HasRead(s, t, reading);
    assert read.tasks[t].(pc := Gap, publishedFirst := true) == s.tasks[t].(pc := Gap, publishedFirst := true);
    assert Apply(read, Loop(t, PublishTick)).tasks == s.tasks[t := s.tasks[t].(pc := Gap, publishedFirst := true)];
  }

  lemma GapEnds(s: State, t: TaskId, snapshot: TargetSnapshot)
    requires t < |s.tasks| && s.tasks[t].pc == AwaitTick && s.tasks[t].publishedFirst
    ensures Follows(HasShown(s, t, snapshot), Loop(t, RefreshDue), s.(snapshot := snapshot))
  {
    assert Apply(HasShown(s, t, snapshot), Loop(t, RefreshDue)).tasks == s.tasks;
  }

  function ConnectPath(t: TaskId, reading: Reading): seq<Step> {
    [Loop(t, Announce), Loop(t, ConnectSucceeds), Loop(t, TickSucceeds(reading)), Loop(t, PublishTick)]
  }

  /** A loop that has just connected. */
  function Up(task: Task): Task {
    task.(pc := AwaitTick, attempt := 0, session := task.session + 1, publishedFirst := false,
          trace := task.trace + [Connected])
  }

  lemma LoopComesUp(s: State, t: TaskId) returns (announced: State, up: State)
    requires t < |s.tasks| && s.tasks[t].pc == Announcing && s.tasks[t].generation == s.generation
    ensures Follows(s, Loop(t, Announce), announced) && Follows(announced, Loop(t, ConnectSucceeds), up)
    ensures up == s.(snapshot := SetState(s.snapshot, Connecting), tasks := s.tasks[t := Up(s.tasks[t])])
  {
    announced := Apply(s, Loop(t, Announce));
    assert announced.tasks[t] == s.tasks[t].(pc := AwaitConnect);
    up := Apply(announced, Loop(t, ConnectSucceeds));
    assert up.tasks == s.tasks[t := Up(s.tasks[t])];
  }

  /** A loop about to connect can be in a session four steps on, with its first tick held back. */
  lemma LoopsConnect(s: State, t: TaskId, reading: Reading) returns (after: State)
    requires t < |s.tasks| && s.tasks[t].pc == Announcing && s.tasks[t].generation == s.generation
    ensures Leads(s, ConnectPath(t, reading), after)
    ensures after.snapshot.state == Online && after.snapshot.gauges == s.snapshot.gauges
    ensures after == s.(snapshot := after.snapshot,
                        tasks := s.tasks[t := Up(s.tasks[t]).(pc := Gap, publishedFirst := true)])
  {
    var announced, up := LoopComesUp(s, t);
    TickIsPublished(up, t, reading);
    after := HasShown(up, t, SetState(up.snapshot, Online));
    FourSteps(s, Loop(t, Announce), announced, Loop(t, ConnectSucceeds), up,
              Loop(t, TickSucceeds(reading)), HasRead(up, t, reading), Loop(t, PublishTick), after);
  }

  /** A loop that sleeps after a failure can always try again. */
  lemma SleepersWake(s: State, t: TaskId)
    requires t < |s.tasks| && s.tasks[t].pc == Sleeping
    ensures Leads(s, [Loop(t, Wake)], s.(tasks := s.tasks[t := s.tasks[t].(pc := Announcing)]))
  {
    OneStep(s, Loop(t, Wake), Apply(s, Loop(t, Wake)));
  }

  /** A loop that was told to end can do so wherever it is, dropping every command it still holds. */
  lemma AbortedLoopsEnd(s: State, t: TaskId) returns (after: State)
    requires t < |s.tasks| && s.tasks[t].aborted && !s.tasks[t].pc.Returned?
    ensures Leads(s, [Loop(t, Cancelled), Loop(t, Finish)], after)
    ensures |after.tasks| == |s.tasks| && after.tasks[t].pc == Returned && after.tasks[t].finished
    ensures after.tasks[t].inbox == [] && |after.jobs| == |s.jobs|
    ensures forall j :: 0 <= j < |s.jobs| ==>
              after.jobs[j] == if Holds(s.tasks[t], j) then s.jobs[j].(reply := SenderDropped) else s.jobs[j]
    ensures after.snapshot == s.snapshot && after.handed == s.handed
  {
    var cancelled := Apply(s, Loop(t, Cancelled));
    after := Apply(cancelled, Loop(t, Finish));
    TwoSteps(s, Loop(t, Cancelled), cancelled, Loop(t, Finish), after);
  }

  /** A target whose loop has ended can be started again. */
  lemma EndedTargetsRestart(s: State, t: TaskId) returns (after: State)
    requires s.lock == Free && s.slot == Some(t) && t < |s.tasks| && s.tasks[t].pc == Returned
    ensures Leads(s, [Loop(t, Finish)] + START, after)
    ensures |after.tasks| == |s.tasks| + 1 && after.slot == Some(|s.tasks|) && after.lock == Free
    ensures after.generation == s.generation + 1 && after.snapshot.state == Connecting
    ensures after.tasks[|s.tasks|] == Task(after.generation, Announcing, 0, 0, false, [], false, false, [])
  {
    var over := Apply(s, Loop(t, Finish));
    OneStep(s, Loop(t, Finish), over);
    after := StartFrom(over);
    LeadsThrough(s, [Loop(t, Finish)], over, START, after);
  }

  lemma StartFrom(s: State) returns (after: State)
    requires s.lock == Free && SlotIdle(s)
    ensures Leads(s, START, after)
    ensures |after.tasks| == |s.tasks| + 1 && after.slot == Some(|s.tasks|) && after.lock == Free
    ensures after.generation == s.generation + 1 && after.snapshot.state == Connecting
    ensures after.tasks == s.tasks + [Task(after.generation, Announcing, 0, 0, false, [], false, false, [])]
    ensures after.jobs == s.jobs && after.handed == s.handed
  {
    var checked := Apply(s, StartCheck);
    var published := Apply(checked, StartPublish);
    var spawned := Apply(published, StartSpawn);
    after := Apply(spawned, StartStore);
    FourSteps(s, StartCheck, checked, StartPublish, published, StartSpawn, spawned, StartStore, after);
  }

  /** From a target just added, a command can reach the host and its output the caller. */
  lemma CommandsGetThrough(reading: Reading, output: string) returns (steps: seq<Step>, after: State)
    ensures Leads(Initial(Placeholder(Idle)), steps, after)
    ensures after.snapshot.state == Online
    ensures after.jobs == [Job(0, 1, HostSaid(output), Got(HostSaid(output)))]
    ensures after.handed == [Handover(0, 0, 1)]
  {
    var idle := Initial(Placeholder(Idle));
    var started := StartFrom(idle);
    var connected := LoopsConnect(started, 0, reading);
    after := CommandsAreServed(connected, output);
    LeadsThrough(idle, START, started, ConnectPath(0, reading), connected);
    LeadsThrough(idle, START + ConnectPath(0, reading), connected, ServedPath(0, 0, output), after);
    steps := START + ConnectPath(0, reading) + ServedPath(0, 0, output);
  }
}
