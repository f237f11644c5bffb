/**
 Who may publish. Generations identify poll loops, the slot and the lock say which one is current,
 and an Online state always has a live session of the current loop behind it.
 */
module LifecycleControl {
  import opened Common
  import opened Connection
  import opened View
  import opened Lifecycle

  /** Tasks carry strictly increasing generations, none beyond the current one. */
  ghost predicate GenerationsOk(s: State) {
    && (forall i, j :: 0 <= i < j < |s.tasks| ==> s.tasks[i].generation < s.tasks[j].generation)
    && (forall i :: 0 <= i < |s.tasks| ==> s.tasks[i].generation <= s.generation)
  }

  /** No task may publish. */
  ghost predicate NoneCurrent(s: State) {
    forall i :: 0 <= i < |s.tasks| ==> s.tasks[i].generation < s.generation
  }

  ghost predicate SlotHoldsCurrent(s: State) {
    match s.slot
    case Some(i) => i < |s.tasks| && s.tasks[i].generation == s.generation
    case None => NoneCurrent(s) && s.snapshot.state == Idle
  }

  ghost predicate LockOk(s: State) {
    match s.lock
    case Free => SlotHoldsCurrent(s)
    case StartChecked => SlotHoldsCurrent(s) && SlotIdle(s)
    case StartPublished => NoneCurrent(s)
    case StartSpawned => |s.tasks| > 0 && s.tasks[|s.tasks| - 1].generation == s.generation
    case Stopping => s.slot == None
  }

  ghost predicate CurrentInSession(s: State) {
    exists i :: 0 <= i < |s.tasks| && s.tasks[i].generation == s.generation && InSession(s.tasks[i].pc)
  }

  ghost predicate OnlineOk(s: State) {
    s.snapshot.state == Online && s.lock != Stopping ==> CurrentInSession(s)
  }

  /** A finished task has returned; an aborted one is no longer current once `stop` is over. */
  ghost predicate EndingsOk(s: State) {
    forall i :: 0 <= i < |s.tasks| ==>
      && (s.tasks[i].finished ==> s.tasks[i].pc.Returned?)
      && (s.tasks[i].aborted ==> s.tasks[i].generation < s.generation || s.lock == Stopping)
  }

  ghost predicate Control(s: State) {
    && GenerationsOk(s)
    && LockOk(s)
    && OnlineOk(s)
    && EndingsOk(s)
    && SelfConsistent(s.snapshot)
  }

  /** A UI step leaves every existing loop where it is; only `stop` marks one as aborted. */
  lemma UiFrame(s: State, step: Step)
    requires !step.Loop? && EnabledUi(s, step)
    ensures var s' := ApplyUi(s, step);
      && |s.tasks| <= |s'.tasks| && s.generation <= s'.generation && s'.handed == s.handed
      && (forall i :: 0 <= i < |s.tasks| ==>
            && s'.tasks[i].generation == s.tasks[i].generation
            && s'.tasks[i].pc == s.tasks[i].pc
            && s'.tasks[i].finished == s.tasks[i].finished
            && s'.tasks[i].session == s.tasks[i].session
            && s'.tasks[i].trace == s.tasks[i].trace && s'.tasks[i].attempt == s.tasks[i].attempt
            && (s'.tasks[i].aborted ==> s.tasks[i].aborted || step.StopTake?))
      && (!step.StartSpawn? ==> |s'.tasks| == |s.tasks|)
      && (step.StartSpawn? ==> |s'.tasks| == |s.tasks| + 1)
  {
  }

  lemma UiKeepsOnline(s: State, step: Step)
    requires Control(s) && !step.Loop? && EnabledUi(s, step)
    ensures OnlineOk(ApplyUi(s, step))
  {
    UiFrame(s, step);
    var s' := ApplyUi(s, step);
    if s'.snapshot.state == Online && s'.lock != Stopping {
      assert s.snapshot.state == Online && s.lock != Stopping && s'.generation == s.generation;
      var i :| 0 <= i < |s.tasks| && s.tasks[i].generation == s.generation && InSession(s.tasks[i].pc);
      assert s'.tasks[i].generation == s'.generation && InSession(s'.tasks[i].pc);
    }
  }

  lemma UiKeepsLock(s: State, step: Step)
    requires Control(s) && !step.Loop? && EnabledUi(s, step)
    ensures LockOk(ApplyUi(s, step))
  {
    UiFrame(s, step);
  }

  lemma UiKeepsControl(s: State, step: Step)
    requires Control(s) && !step.Loop? && EnabledUi(s, step)
    ensures Control(ApplyUi(s, step))
  {
    UiFrame(s, step);
    UiKeepsOnline(s, step);
    UiKeepsLock(s, step);
  }

  /** What a loop step leaves alone besides the other loops. */
  ghost predicate SharedFrame(s: State, s': State, t: TaskId)
    requires t < |s.tasks|
  {
    && s'.generation == s.generation && s'.lock == s.lock && s'.slot == s.slot
    && |s'.jobs| == |s.jobs|
    && (s'.snapshot != s.snapshot ==> s.tasks[t].generation == s.generation)
  }

  ghost predicate OthersFrame(s: State, s': State, t: TaskId) {
    && |s'.tasks| == |s.tasks|
    && forall i :: 0 <= i < |s.tasks| && i != t ==> s'.tasks[i] == s.tasks[i]
  }

  ghost predicate SameLoop(before: Task, after: Task, step: LoopStep) {
    && after.generation == before.generation
    && after.aborted == before.aborted
    && (before.pc.Returned? ==> after.pc.Returned?)
    && after.finished == (before.finished || step.Finish?)
  }

  /** One loop moves, and keeps its identity. */
  ghost predicate TaskFrame(s: State, s': State, t: TaskId, step: LoopStep)
    requires t < |s.tasks|
  {
    OthersFrame(s, s', t) && SameLoop(s.tasks[t], s'.tasks[t], step)
  }

  lemma LoopSharedFrame(s: State, t: TaskId, step: LoopStep)
    requires t < |s.tasks| && EnabledLoop(s.tasks[t], step)
    ensures SharedFrame(s, ApplyLoop(s, t, step), t)
  {
  }

  lemma LoopLeavesOthers(s: State, t: TaskId, step: LoopStep)
    requires t < |s.tasks| && EnabledLoop(s.tasks[t], step)
    ensures OthersFrame(s, ApplyLoop(s, t, step), t)
  {
  }

  lemma LoopKeepsIdentity(s: State, t: TaskId, step: LoopStep)
    requires t < |s.tasks| && EnabledLoop(s.tasks[t], step) && |ApplyLoop(s, t, step).tasks| == |s.tasks|
    ensures SameLoop(s.tasks[t], ApplyLoop(s, t, step).tasks[t], step)
  {
    LoopKeepsName(s, t, step);
    LoopStaysAborted(s, t, step);
    LoopStaysReturned(s, t, step);
    LoopFinishes(s, t, step);
  }

  lemma LoopKeepsName(s: State, t: TaskId, step: LoopStep)
    requires t < |s.tasks| && EnabledLoop(s.tasks[t], step) && |ApplyLoop(s, t, step).tasks| == |s.tasks|
    ensures ApplyLoop(s, t, step).tasks[t].generation == s.tasks[t].generation
  {
  }

  lemma LoopStaysAborted(s: State, t: TaskId, step: LoopStep)
    requires t < |s.tasks| && EnabledLoop(s.tasks[t], step) && |ApplyLoop(s, t, step).tasks| == |s.tasks|
    ensures ApplyLoop(s, t, step).tasks[t].aborted == s.tasks[t].aborted
  {
  }

  lemma LoopStaysReturned(s: State, t: TaskId, step: LoopStep)
    requires t < |s.tasks| && EnabledLoop(s.tasks[t], step) && |ApplyLoop(s, t, step).tasks| == |s.tasks|
    ensures s.tasks[t].pc.Returned? ==> ApplyLoop(s, t, step).tasks[t].pc.Returned?
  {
  }

  lemma LoopFinishes(s: State, t: TaskId, step: LoopStep)
    requires t < |s.tasks| && EnabledLoop(s.tasks[t], step) && |ApplyLoop(s, t, step).tasks| == |s.tasks|
    ensures ApplyLoop(s, t, step).tasks[t].finished == (s.tasks[t].finished || step.Finish?)
  {
  }

  lemma LoopTaskFrame(s: State, t: TaskId, step: LoopStep)
    requires t < |s.tasks| && EnabledLoop(s.tasks[t], step)
    ensures TaskFrame(s, ApplyLoop(s, t, step), t, step)
  {
    LoopLeavesOthers(s, t, step);
    LoopKeepsIdentity(s, t, step);
  }

  /** A loop step touches one task, and neither the lock, the slot nor the generation. */
  lemma LoopFrame(s: State, t: TaskId, step: LoopStep)
    requires t < |s.tasks| && EnabledLoop(s.tasks[t], step)
    ensures SharedFrame(s, ApplyLoop(s, t, step), t)
    ensures TaskFrame(s, ApplyLoop(s, t, step), t, step)
  {
    LoopSharedFrame(s, t, step);
    LoopTaskFrame(s, t, step);
  }

  /** Whatever a loop publishes, state and verdict go together. */
  lemma LoopKeepsConsistent(s: State, t: TaskId, step: LoopStep)
    requires t < |s.tasks| && EnabledLoop(s.tasks[t], step) && SelfConsistent(s.snapshot)
    ensures SelfConsistent(ApplyLoop(s, t, step).snapshot)
  {
  }

  /** A loop step leaves Online on screen only if its loop has just announced it, or is in a session as it was. */
  lemma OnlineIsBacked(s: State, t: TaskId, step: LoopStep)
    requires Control(s) && t < |s.tasks| && EnabledLoop(s.tasks[t], step) && s.lock != Stopping
    ensures var s' := ApplyLoop(s, t, step);
      s'.snapshot.state == Online && s.tasks[t].generation == s.generation ==>
        InSession(s'.tasks[t].pc) || (s.snapshot.state == Online && !InSession(s.tasks[t].pc))
  {
  }

  lemma OthersDoNotAnnounce(s: State, t: TaskId, step: LoopStep)
    requires t < |s.tasks| && EnabledLoop(s.tasks[t], step) && s.tasks[t].generation != s.generation
    ensures ApplyLoop(s, t, step).snapshot == s.snapshot
  {
    LoopSharedFrame(s, t, step);
  }

  lemma BackingStays(s: State, s': State, t: TaskId, step: LoopStep)
    requires t < |s.tasks| && SharedFrame(s, s', t) && TaskFrame(s, s', t, step) && CurrentInSession(s)
    requires s.tasks[t].generation == s.generation && InSession(s.tasks[t].pc) ==> InSession(s'.tasks[t].pc)
    ensures CurrentInSession(s')
  {
    var i :| 0 <= i < |s.tasks| && s.tasks[i].generation == s.generation && InSession(s.tasks[i].pc);
    assert s'.tasks[i].generation == s'.generation && InSession(s'.tasks[i].pc);
  }

  /** After a loop step an Online state is still backed by the current loop's session. */
  lemma LoopKeepsOnline(s: State, t: TaskId, step: LoopStep)
    requires Control(s) && t < |s.tasks| && EnabledLoop(s.tasks[t], step)
    ensures OnlineOk(ApplyLoop(s, t, step))
  {
    LoopFrame(s, t, step);
    var s' := ApplyLoop(s, t, step);
    if s'.snapshot.state == Online && s'.lock != Stopping {
      if s.tasks[t].generation == s.generation {
        OnlineIsBacked(s, t, step);
        if InSession(s'.tasks[t].pc) {
          assert s'.tasks[t].generation == s'.generation;
        } else {
          BackingStays(s, s', t, step);
        }
      } else {
        OthersDoNotAnnounce(s, t, step);
        BackingStays(s, s', t, step);
      }
    }
  }

  lemma FrameKeepsEndings(s: State, s': State, t: TaskId, step: LoopStep)
    requires EndingsOk(s) && LockOk(s) && t < |s.tasks| && (step.Finish? ==> s.tasks[t].pc.Returned?)
    requires SharedFrame(s, s', t) && TaskFrame(s, s', t, step)
    ensures EndingsOk(s')
    ensures LockOk(s')
  {
  }

  lemma LoopKeepsEndings(s: State, t: TaskId, step: LoopStep)
    requires EndingsOk(s) && LockOk(s) && t < |s.tasks| && EnabledLoop(s.tasks[t], step)
    ensures EndingsOk(ApplyLoop(s, t, step)) && LockOk(ApplyLoop(s, t, step))
  {
    LoopFrame(s, t, step);
    FrameKeepsEndings(s, ApplyLoop(s, t, step), t, step);
  }

  lemma LoopKeepsControl(s: State, t: TaskId, step: LoopStep)
    requires Control(s) && t < |s.tasks| && EnabledLoop(s.tasks[t], step)
    ensures Control(ApplyLoop(s, t, step))
  {
    LoopFrame(s, t, step);
    LoopKeepsOnline(s, t, step);
    LoopKeepsConsistent(s, t, step);
    LoopKeepsEndings(s, t, step);
  }

  lemma StepKeepsControl(s: State, step: Step)
    requires Control(s) && Enabled(s, step)
    ensures Control(Apply(s, step))
  {
    match step
    case Loop(t, loopStep) => LoopKeepsControl(s, t, loopStep);
    case _ => UiKeepsControl(s, step);
  }
}
