/**
 What the runs of a target put on screen, when each loop reads the store of its own runtime: emptied
 on connect, refreshed by every successful tick.
 */
module LifecycleScreens {
  import opened Common
  import opened Connection
  import opened Model
  import opened Plain
  import opened Sorting
  import opened View
  import opened ViewTheorems
  import opened Lifecycle
  import opened LifecycleControl
  import opened LifecycleTheorems
  import Store

  /** What one successful refresh brought, and of which host. */
  datatype Refresh = Refresh(
    entities: seq<Entity>,
    descriptors: seq<SeriesDescriptor>,
    samples: seq<Sample>,
    host: EntityId)

  /** What a refresh does to the store. */
  function RefreshOps(r: Refresh): seq<Store.Op> {
    [Store.IngestOp(r.entities, r.descriptors, r.samples),
     Store.RetainSeriesOp(r.descriptors),
     Store.RetainEntitiesOp(Store.EntityIds(r.entities) + [r.host])]
  }

  lemma RunSnoc(ops: seq<Store.Op>, op: Store.Op, window: nat)
    ensures Store.Run(ops + [op], window) == Store.Apply(Store.Run(ops, window), op, window)
  {
    assert (ops + [op])[..|ops|] == ops;
  }

  /** It is the refresh that the runtime's tick performs. */
  lemma RefreshOpsRefresh(ops: seq<Store.Op>, r: Refresh, window: nat)
    ensures Store.Run(ops + RefreshOps(r), window)
         == Store.Refreshed(Store.Run(ops, window), r.entities, r.descriptors, r.samples, r.host, window)
  {
    var o := RefreshOps(r);
    RunSnoc(ops, o[0], window);
    RunSnoc(ops + [o[0]], o[1], window);
    RunSnoc(ops + [o[0]] + [o[1]], o[2], window);
    assert ops + o == ops + [o[0]] + [o[1]] + [o[2]];
  }

  predicate IsTick(step: Step, t: TaskId) {
    step.Loop? && step.task == t && step.step.TickSucceeds?
  }

  /** The operations on loop `t`'s store since it last connected, `refreshes[n]` being what step `n` brought. */
  function SessionOps(steps: seq<Step>, refreshes: seq<Refresh>, k: nat, t: TaskId): seq<Store.Op>
    requires k <= |steps| == |refreshes|
  {
    if k == 0 || steps[k - 1] == Loop(t, ConnectSucceeds) then []
    else if IsTick(steps[k - 1], t) then SessionOps(steps, refreshes, k - 1, t) + RefreshOps(refreshes[k - 1])
    else SessionOps(steps, refreshes, k - 1, t)
  }

  /** A reading of the store these operations leave, in an order its hash map can be iterated in. */
  ghost predicate Reads(reading: Reading, ops: seq<Store.Op>) {
    && reading.contents == Store.Run(ops, Store.DEFAULT_WINDOW)
    && reading.host.Some?
    && Iterates(reading.order, reading.contents)
  }

  ghost predicate ReadsAt(steps: seq<Step>, refreshes: seq<Refresh>, k: nat)
    requires k < |steps| == |refreshes|
  {
    steps[k].Loop? && steps[k].step.TickSucceeds? ==>
      Reads(steps[k].step.reading, SessionOps(steps, refreshes, k + 1, steps[k].task))
  }

  /** Every tick of every loop reads the loop's own store. */
  ghost predicate FedByStores(steps: seq<Step>, refreshes: seq<Refresh>) {
    |refreshes| == |steps| && forall k :: 0 <= k < |steps| ==> ReadsAt(steps, refreshes, k)
  }

  // ---------------------------------------------------------------------------------------
  // A reading about to be published is still of its session

  lemma UiKeepsReading(s: State, step: Step, t: TaskId)
    requires !step.Loop? && EnabledUi(s, step)
    requires var s' := ApplyUi(s, step); t < |s'.tasks| && s'.tasks[t].pc.Publishing?
    ensures t < |s.tasks| && s.tasks[t].pc == ApplyUi(s, step).tasks[t].pc
  {
    UiFrame(s, step);
  }

  lemma LoopGivesReading(s: State, t: TaskId, step: LoopStep)
    requires t < |s.tasks| && EnabledLoop(s.tasks[t], step)
    requires ApplyLoop(s, t, step).tasks[t].pc.Publishing?
    ensures step.TickSucceeds? && ApplyLoop(s, t, step).tasks[t].pc.reading == step.reading
  {
  }

  /** A loop that is about to publish a reading has just got it, or is where it was. */
  lemma ReadingIsNewOrKept(s: State, step: Step, s': State, t: TaskId)
    requires Enabled(s, step) && s' == Apply(s, step) && t < |s'.tasks| && s'.tasks[t].pc.Publishing?
    ensures if IsTick(step, t) then s'.tasks[t].pc.reading == step.step.reading
            else step != Loop(t, ConnectSucceeds) && t < |s.tasks| && s.tasks[t].pc == s'.tasks[t].pc
  {
    match step
    case Loop(u, loopStep) =>
      LoopFrame(s, u, loopStep);
      if u == t {
        LoopGivesReading(s, t, loopStep);
      }
    case _ => UiKeepsReading(s, step, t);
  }

  lemma {:induction false} PublishedReadsItsSession(
      states: seq<State>, steps: seq<Step>, refreshes: seq<Refresh>, k: nat, t: TaskId)
    requires IsRun(states, steps) && FedByStores(steps, refreshes) && k < |states|
    requires t < |states[k].tasks| && states[k].tasks[t].pc.Publishing?
    ensures Reads(states[k].tasks[t].pc.reading, SessionOps(steps, refreshes, k, t))
  {
    if k > 0 {
      RunStep(states, steps, k - 1);
      ReadingIsNewOrKept(states[k - 1], steps[k - 1], states[k], t);
      if IsTick(steps[k - 1], t) {
        assert ReadsAt(steps, refreshes, k - 1);
      } else {
        PublishedReadsItsSession(states, steps, refreshes, k - 1, t);
      }
    }
  }

  // ---------------------------------------------------------------------------------------
  // Every series at most once on every screen

  ghost predicate AtMostOnce(snapshot: TargetSnapshot) {
    forall id :: multiset(Ids(AllGauges(snapshot)))[id] <= 1
  }

  predicate SameReadings(a: TargetSnapshot, b: TargetSnapshot) {
    a.gauges == b.gauges && a.detailGroups == b.detailGroups
  }

  lemma UiKeepsReadings(s: State, step: Step)
    requires !step.Loop? && EnabledUi(s, step)
    ensures SameReadings(s.snapshot, ApplyUi(s, step).snapshot)
  {
  }

  lemma LoopKeepsReadings(s: State, t: TaskId, step: LoopStep)
    requires t < |s.tasks| && EnabledLoop(s.tasks[t], step)
    ensures var s' := ApplyLoop(s, t, step);
      || SameReadings(s.snapshot, s'.snapshot)
      || (step.PublishTick? && s'.snapshot == BuildSnapshot(s.tasks[t].pc.reading, Online))
  {
  }

  /** The readings on screen only change when a tick is published. */
  lemma ScreenIsKeptOrBuilt(s: State, step: Step, s': State)
    requires Enabled(s, step) && s' == Apply(s, step)
    ensures || SameReadings(s.snapshot, s'.snapshot)
            || (step.Loop? && step.step.PublishTick?
                && s'.snapshot == BuildSnapshot(s.tasks[step.task].pc.reading, Online))
  {
    match step
    case Loop(t, loopStep) => LoopKeepsReadings(s, t, loopStep);
    case _ => UiKeepsReadings(s, step);
  }

  lemma RunKeepsOrBuilds(states: seq<State>, steps: seq<Step>, i: nat)
    requires IsRun(states, steps) && i < |steps|
    ensures || SameReadings(states[i].snapshot, states[i + 1].snapshot)
            || (steps[i].Loop? && steps[i].step.PublishTick?
                && steps[i].task < |states[i].tasks| && states[i].tasks[steps[i].task].pc.Publishing?
                && states[i + 1].snapshot == BuildSnapshot(states[i].tasks[steps[i].task].pc.reading, Online))
  {
    RunStep(states, steps, i);
    ScreenIsKeptOrBuilt(states[i], steps[i], states[i + 1]);
  }

  lemma BuiltShowsAtMostOnce(reading: Reading, ops: seq<Store.Op>, state: ConnectionState)
    requires Reads(reading, ops)
    ensures AtMostOnce(BuildSnapshot(reading, state))
  {
    StoresAreKeyed(ops, Store.DEFAULT_WINDOW);
    forall id ensures multiset(Ids(AllGauges(BuildSnapshot(reading, state))))[id] <= 1 {
      EverySeriesIsShownOnce(reading, reading.host.value, state, id);
    }
  }

  lemma SameReadingsAtMostOnce(a: TargetSnapshot, b: TargetSnapshot)
    requires SameReadings(a, b) && AtMostOnce(a)
    ensures AtMostOnce(b)
  {
    assert AllGauges(a) == AllGauges(b);
  }

  lemma NothingIsAtMostOnce(state: ConnectionState)
    ensures AtMostOnce(Placeholder(state))
  {
    assert Ids(AllGauges(Placeholder(state))) == [];
  }

  lemma PublishedAtMostOnce(states: seq<State>, steps: seq<Step>, refreshes: seq<Refresh>, k: nat, t: TaskId)
    requires IsRun(states, steps) && FedByStores(steps, refreshes) && k < |states|
    requires t < |states[k].tasks| && states[k].tasks[t].pc.Publishing?
    ensures AtMostOnce(BuildSnapshot(states[k].tasks[t].pc.reading, Online))
  {
    PublishedReadsItsSession(states, steps, refreshes, k, t);
    BuiltShowsAtMostOnce(states[k].tasks[t].pc.reading, SessionOps(steps, refreshes, k, t), Online);
  }

  /** In every reachable state of a run fed by its stores, no series is on screen twice. */
  lemma {:induction false} NoSeriesTwiceOnScreen(states: seq<State>, steps: seq<Step>, refreshes: seq<Refresh>, i: nat)
    requires IsRun(states, steps) && FedByStores(steps, refreshes) && i < |states|
    ensures AtMostOnce(states[i].snapshot)
  {
    if i == 0 {
      NothingIsAtMostOnce(Idle);
    } else {
      NoSeriesTwiceOnScreen(states, steps, refreshes, i - 1);
      RunKeepsOrBuilds(states, steps, i - 1);
      if SameReadings(states[i - 1].snapshot, states[i].snapshot) {
        SameReadingsAtMostOnce(states[i - 1].snapshot, states[i].snapshot);
      } else {
        PublishedAtMostOnce(states, steps, refreshes, i - 1, steps[i - 1].task);
      }
    }
  }

  // ---------------------------------------------------------------------------------------
  // No chart reaches back into an earlier session

  /** A gauge of a snapshot is drawn from the series it names. */
  lemma GaugeHasItsSeries(reading: Reading, state: ConnectionState, g: MetricGauge) returns (d: SeriesDescriptor)
    requires reading.host.Some? && g in AllGauges(BuildSnapshot(reading, state))
    ensures GaugeFrom(reading.contents, d) == Some(g) && d.id == g.seriesId
  {
    var c := reading.contents;
    var series := SeriesFor(c, reading.order, reading.host.value);
    if g in HostGauges(c, series) {
      d := HeadlineHasItsSeries(c, series, g);
    } else {
      d := DetailHasItsSeries(c, series, g);
    }
  }

  lemma HeadlineHasItsSeries(c: Store.Contents, series: seq<SeriesDescriptor>, g: MetricGauge) returns (d: SeriesDescriptor)
    requires g in HostGauges(c, series)
    ensures GaugeFrom(c, d) == Some(g) && d.id == g.seriesId
  {
    var picked := FilterMap(series, HeadlineGauge(c));
    SortKeepsItems(picked, ByHeadline());
    assert g in multiset(picked);
    d := FilterMapFrom(series, HeadlineGauge(c), g);
  }

  lemma DetailHasItsSeries(c: Store.Contents, series: seq<SeriesDescriptor>, g: MetricGauge) returns (d: SeriesDescriptor)
    requires g in FlatGauges(HostDetails(c, series))
    ensures GaugeFrom(c, d) == Some(g) && d.id == g.seriesId
  {
    FlatOfDetails(c, series);
    assert g in multiset(FilterMap(series, DetailGauge(c)));
    d := FilterMapFrom(series, DetailGauge(c), g);
    assert DetailEntry(c)(d) == Some(Entry(GroupTitle(d.source).value, g));
  }

  /**
   A screen that a loop publishes charts its session and nothing else: every gauge shows the last
   values its series was given since the loop last connected, and reads the last of them.
   */
  lemma ChartsTheSession(
      states: seq<State>, steps: seq<Step>, refreshes: seq<Refresh>, k: nat, t: TaskId, g: MetricGauge)
    requires IsRun(states, steps) && FedByStores(steps, refreshes) && k < |steps| && steps[k] == Loop(t, PublishTick)
    requires t < |states[k].tasks| && states[k].tasks[t].generation == states[k].generation && Ticked(steps, k, t)
    requires g in AllGauges(states[k + 1].snapshot)
    ensures var values := Values(Store.Log(SessionOps(steps, refreshes, k, t), g.seriesId));
      && values != []
      && g.history == Store.LastN(values, 300)
      && g.value == values[|values| - 1]
  {
    FirstTickIsHeldBack(states, steps, k, t);
    PublishedReadsItsSession(states, steps, refreshes, k, t);
    var reading, ops := states[k].tasks[t].pc.reading, SessionOps(steps, refreshes, k, t);
    var d := GaugeHasItsSeries(reading, Online, g);
    GaugeIsTheEndOfItsLog(ops, Store.DEFAULT_WINDOW, d);
  }

  /** The sample gives this series the number of this point. */
  ghost predicate Charted(sample: Sample, series: SeriesId, p: Store.Point) {
    sample.series == series && Denotes(sample.value, p.value) && p.atMs == sample.atMs
  }

  /** Step `n` brought loop `t` this value of this series, and the loop has not connected again by step `k`. */
  ghost predicate BroughtBy(
      steps: seq<Step>, refreshes: seq<Refresh>, n: nat, k: nat, t: TaskId, series: SeriesId, p: Store.Point)
    requires k <= |steps| == |refreshes|
  {
    && n < k && IsTick(steps[n], t)
    && (forall m :: n < m < k ==> steps[m] != Loop(t, ConnectSucceeds))
    && exists sample :: sample in refreshes[n].samples && Charted(sample, series, p)
  }

  lemma {:induction false} PointHasSample(samples: seq<Sample>, series: SeriesId, p: Store.Point)
    requires p in Store.Points(samples, series)
    ensures exists sample :: sample in samples && Charted(sample, series, p)
  {
    var n := |samples| - 1;
    if samples[n].series == series && Store.PointOf(samples[n]) == Some(p) {
      Store.NumbersArePoints(samples[n], p);
      assert samples[n] in samples && Charted(samples[n], series, p);
    } else {
      PointHasSample(samples[..n], series, p);
    }
  }

  lemma LogOfRefresh(ops: seq<Store.Op>, r: Refresh, series: SeriesId, p: Store.Point)
    requires p in Store.Log(ops + RefreshOps(r), series)
    ensures p in Store.Log(ops, series) || p in Store.Points(r.samples, series)
  {
    var o := RefreshOps(r);
    var one, two := ops + [o[0]], ops + [o[0]] + [o[1]];
    assert ops + o == two + [o[2]];
    LogSnoc(two, o[2], series, p);
    if p in Store.Log(two, series) {
      LogSnoc(one, o[1], series, p);
      LogSnoc(ops, o[0], series, p);
    }
  }

  lemma LogSnoc(ops: seq<Store.Op>, op: Store.Op, series: SeriesId, p: Store.Point)
    requires p in Store.Log(ops + [op], series)
    ensures p in Store.Log(ops, series) || (op.IngestOp? && p in Store.Points(op.samples, series))
  {
    assert (ops + [op])[..|ops|] == ops;
  }

  /** What was brought by an earlier step still counts after a step that is no connect. */
  lemma BroughtStays(
      steps: seq<Step>, refreshes: seq<Refresh>, n: nat, k: nat, t: TaskId, series: SeriesId, p: Store.Point)
    requires k < |steps| == |refreshes| && steps[k] != Loop(t, ConnectSucceeds)
    requires BroughtBy(steps, refreshes, n, k, t, series, p)
    ensures BroughtBy(steps, refreshes, n, k + 1, t, series, p)
  {
  }

  lemma JustBrought(steps: seq<Step>, refreshes: seq<Refresh>, k: nat, t: TaskId, series: SeriesId, p: Store.Point)
    requires k < |steps| == |refreshes| && IsTick(steps[k], t) && p in Store.Points(refreshes[k].samples, series)
    ensures BroughtBy(steps, refreshes, k, k + 1, t, series, p)
  {
    PointHasSample(refreshes[k].samples, series, p);
  }

  /** The point is in the log of the session that loop `t` is in after `k` steps. */
  ghost predicate InSessionLog(
      steps: seq<Step>, refreshes: seq<Refresh>, k: nat, t: TaskId, series: SeriesId, p: Store.Point)
    requires k <= |steps| == |refreshes|
  {
    p in Store.Log(SessionOps(steps, refreshes, k, t), series)
  }

  /** A point logged after `k` steps was logged before, or the last step was the tick that brought it. */
  lemma LoggedNowOrBefore(
      steps: seq<Step>, refreshes: seq<Refresh>, k: nat, t: TaskId, series: SeriesId, p: Store.Point) returns (now: bool)
    requires k <= |steps| == |refreshes| && InSessionLog(steps, refreshes, k, t, series, p)
    ensures k > 0 && steps[k - 1] != Loop(t, ConnectSucceeds)
    ensures if now then IsTick(steps[k - 1], t) && p in Store.Points(refreshes[k - 1].samples, series)
            else InSessionLog(steps, refreshes, k - 1, t, series, p)
  {
    now := false;
    if IsTick(steps[k - 1], t) {
      LogOfRefresh(SessionOps(steps, refreshes, k - 1, t), refreshes[k - 1], series, p);
      now := p in Store.Points(refreshes[k - 1].samples, series);
    }
  }

  lemma {:induction false} LoggedInSession(
      steps: seq<Step>, refreshes: seq<Refresh>, k: nat, t: TaskId, series: SeriesId, p: Store.Point) returns (n: nat)
    requires k <= |steps| == |refreshes| && InSessionLog(steps, refreshes, k, t, series, p)
    ensures BroughtBy(steps, refreshes, n, k, t, series, p)
  {
    var now := LoggedNowOrBefore(steps, refreshes, k, t, series, p);
    if now {
      n := k - 1;
      JustBrought(steps, refreshes, n, t, series, p);
    } else {
      n := LoggedInSession(steps, refreshes, k - 1, t, series, p);
      BroughtStays(steps, refreshes, n, k - 1, t, series, p);
    }
  }

  lemma ChartedPoint(log: seq<Store.Point>, window: nat, m: nat) returns (p: Store.Point)
    requires m < |Store.LastN(Values(log), window)|
    ensures p in log && p.value == Store.LastN(Values(log), window)[m]
  {
    p := log[|log| - |Store.LastN(Values(log), window)| + m];
  }

  /** Every value on a published chart was brought by a tick of the same loop after its last connect. */
  lemma NoChartReachesBack(
      states: seq<State>, steps: seq<Step>, refreshes: seq<Refresh>, k: nat, t: TaskId, g: MetricGauge, m: nat)
    returns (n: nat, p: Store.Point)
    requires IsRun(states, steps) && FedByStores(steps, refreshes) && k < |steps| && steps[k] == Loop(t, PublishTick)
    requires t < |states[k].tasks| && states[k].tasks[t].generation == states[k].generation && Ticked(steps, k, t)
    requires g in AllGauges(states[k + 1].snapshot) && m < |g.history|
    ensures p.value == g.history[m] && BroughtBy(steps, refreshes, n, k, t, g.seriesId, p)
  {
    ChartsTheSession(states, steps, refreshes, k, t, g);
    var log := Store.Log(SessionOps(steps, refreshes, k, t), g.seriesId);
    p := ChartedPoint(log, Store.DEFAULT_WINDOW, m);
    n := LoggedInSession(steps, refreshes, k, t, g.seriesId, p);
  }
}
