/** The live sample store: bounded history per series, pruned as series and entities go away. */
module Store {
  import opened Common
  import opened Model

  const DEFAULT_WINDOW: nat := 300

  datatype Point = Point(atMs: I64, value: real)

  datatype Contents = Contents(
    history: map<SeriesId, seq<Point>>,
    descriptors: map<SeriesId, SeriesDescriptor>,
    entities: map<EntityId, Entity>,
    text: map<SeriesId, string>)

  const EMPTY: Contents := Contents(map[], map[], map[], map[])

  function LastN<T>(s: seq<T>, n: nat): seq<T> {
    if |s| <= n then s else s[|s| - n..]
  }

  /** The numeric point a sample charts as, if it is finite. */
  function PointOf(sample: Sample): Option<Point> {
    match sample.value.AsF64()
    case Some(Finite(r)) => Some(Point(sample.atMs, r))
    case _ => None
  }

  /** The window is the end of the sequence, as long as it may be. */
  lemma WindowIsTheEnd<T>(s: seq<T>, n: nat)
    ensures |LastN(s, n)| == Min(|s|, n) && LastN(s, n) == s[|s| - |LastN(s, n)|..]
  {
  }

  /** A sample charts as a point exactly if it stands for a number, which is then charted at the sample's time. */
  lemma NumbersArePoints(sample: Sample, p: Point)
    ensures PointOf(sample) == Some(p) <==> Denotes(sample.value, p.value) && p.atMs == sample.atMs
  {
    NumbersChart(sample.value, p.value);
  }

  function HistoryOf(history: map<SeriesId, seq<Point>>, series: SeriesId): seq<Point> {
    if series in history then history[series] else []
  }

  /** The back of the window. */
  function Latest(history: map<SeriesId, seq<Point>>, series: SeriesId): Option<Point> {
    if series in history && history[series] != [] then Some(history[series][|history[series]| - 1]) else None
  }

  /** Onto the back of the window, the oldest points falling off the front. */
  method PushBounded(series: seq<Point>, point: Point, window: nat) returns (bounded: seq<Point>)
    ensures bounded == LastN(series + [point], window)
  {
    var pushed := series + [point];
    bounded := pushed;
    while |bounded| > window
      invariant |bounded| <= |pushed| && |bounded| >= Min(|pushed|, window)
      invariant bounded == pushed[|pushed| - |bounded|..]
    {
      bounded := bounded[1..];
    }
  }

  lemma OverrideThenUpdate<K, V>(a: map<K, V>, b: map<K, V>, k: K, v: V)
    ensures (a + b)[k := v] == a + b[k := v]
  {
  }

  class LiveStore {
    const window: nat
    var history: map<SeriesId, seq<Point>>
    var descriptors: map<SeriesId, SeriesDescriptor>
    var entities: map<EntityId, Entity>
    var text: map<SeriesId, string>

    constructor (window: nat)
      ensures this.window == (if window == 0 then 1 else window)
      ensures View() == EMPTY
    {
      this.window := if window == 0 then 1 else window;
      history, descriptors, entities, text := map[], map[], map[], map[];
    }

    function View(): Contents
      reads this
    {
      Contents(history, descriptors, entities, text)
    }

    method Ingest(newEntities: seq<Entity>, newDescriptors: seq<SeriesDescriptor>, samples: seq<Sample>)
      modifies this
      ensures View() == Apply(old(View()), IngestOp(newEntities, newDescriptors, samples), window)
    {
      UpsertEntities(newEntities);
      UpsertDescriptors(newDescriptors);
      RecordSamples(samples);
    }

    method UpsertEntities(newEntities: seq<Entity>)
      modifies `entities
      ensures entities == WithEntities(old(entities), newEntities)
    {
      assert newEntities[..0] == [];
      for n := 0 to |newEntities|
        invariant entities == WithEntities(old(entities), newEntities[..n])
      {
        assert newEntities[..n + 1][..n] == newEntities[..n];
        entities := entities[newEntities[n].id := newEntities[n]];
      }
      assert newEntities[..|newEntities|] == newEntities;
    }

    method UpsertDescriptors(newDescriptors: seq<SeriesDescriptor>)
      modifies `descriptors
      ensures descriptors == old(descriptors) + ById(newDescriptors)
    {
      assert newDescriptors[..0] == [];
      for n := 0 to |newDescriptors|
        invariant descriptors == old(descriptors) + ById(newDescriptors[..n])
      {
        assert newDescriptors[..n + 1][..n] == newDescriptors[..n];
        OverrideThenUpdate(old(descriptors), ById(newDescriptors[..n]), newDescriptors[n].id, newDescriptors[n]);
        descriptors := descriptors[newDescriptors[n].id := newDescriptors[n]];
      }
      assert newDescriptors[..|newDescriptors|] == newDescriptors;
    }

    method RecordSamples(samples: seq<Sample>)
      modifies `history, `text
      ensures history == WithSamples(old(history), samples, window)
      ensures text == WithText(old(text), samples)
    {
      assert samples[..0] == [];
      for n := 0 to |samples|
        invariant history == WithSamples(old(history), samples[..n], window)
        invariant text == WithText(old(text), samples[..n])
      {
        assert samples[..n + 1][..n] == samples[..n];
        Record(samples[n]);
      }
      assert samples[..|samples|] == samples;
    }

    method Record(sample: Sample)
      modifies `history, `text
      ensures history == WithSample(old(history), sample, window)
      ensures text == WithTextSample(old(text), sample)
    {
      var value := sample.value.AsF64();
      if value.Some? && value.value.Finite? {
        var series := if sample.series in history then history[sample.series] else [];
        series := PushBounded(series, Point(sample.atMs, value.value.r), window);
        history := history[sample.series := series];
      } else if sample.value.Text? {
        text := text[sample.series := sample.value.text];
      }
    }

    method RetainSeries(present: seq<SeriesDescriptor>)
      modifies this
      ensures View() == Apply(old(View()), RetainSeriesOp(present), window)
    {
      var ids := SeriesIds(present);
      descriptors := Restrict(descriptors, ids);
      history := Restrict(history, ids);
      text := Restrict(text, ids);
    }

    method RetainEntities(present: seq<EntityId>)
      modifies this
      ensures View() == Apply(old(View()), RetainEntitiesOp(present), window)
    {
      entities := map id | id in entities && id in present :: entities[id];
      var dropped := set id | id in descriptors && descriptors[id].entity !in present;
      descriptors := descriptors - dropped;
      history := history - dropped;
      text := text - dropped;
    }

    /** The newest point of a series. */
    function LatestOf(series: SeriesId): Option<Point>
      reads this
    {
      Latest(history, series)
    }

    method Clear()
      modifies this
      ensures View() == EMPTY
    {
      history, descriptors, entities, text := map[], map[], map[], map[];
    }

    /** Every point still held of a series. */
    function HistoryVec(series: SeriesId): seq<Point>
      reads this
    {
      HistoryOf(history, series)
    }
  }

  // ---------------------------------------------------------------------------------------
  // What each operation computes

  datatype Op =
    | IngestOp(entities: seq<Entity>, descriptors: seq<SeriesDescriptor>, samples: seq<Sample>)
    | RetainSeriesOp(present: seq<SeriesDescriptor>)
    | RetainEntitiesOp(entityIds: seq<EntityId>)
    | ClearOp

  function WithEntities(entities: map<EntityId, Entity>, more: seq<Entity>): map<EntityId, Entity> {
    if more == [] then entities
    else
      var n := |more| - 1;
      WithEntities(entities, more[..n])[more[n].id := more[n]]
  }

  function WithSample(history: map<SeriesId, seq<Point>>, sample: Sample, window: nat): map<SeriesId, seq<Point>> {
    match PointOf(sample)
    case Some(point) => history[sample.series := LastN(HistoryOf(history, sample.series) + [point], window)]
    case None => history
  }

  function WithSamples(history: map<SeriesId, seq<Point>>, samples: seq<Sample>, window: nat): map<SeriesId, seq<Point>> {
    if samples == [] then history
    else
      var n := |samples| - 1;
      WithSample(WithSamples(history, samples[..n], window), samples[n], window)
  }

  function WithTextSample(text: map<SeriesId, string>, sample: Sample): map<SeriesId, string> {
    if sample.value.Text? then text[sample.series := sample.value.text] else text
  }

  function WithText(text: map<SeriesId, string>, samples: seq<Sample>): map<SeriesId, string> {
    if samples == [] then text
    else
      var n := |samples| - 1;
      WithTextSample(WithText(text, samples[..n]), samples[n])
  }

  function SeriesIds(present: seq<SeriesDescriptor>): set<SeriesId> {
    set d | d in present :: d.id
  }

  function Restrict<V>(m: map<SeriesId, V>, ids: set<SeriesId>): map<SeriesId, V> {
    map id | id in m && id in ids :: m[id]
  }

  function Orphans(descriptors: map<SeriesId, SeriesDescriptor>, entityIds: seq<EntityId>): set<SeriesId> {
    set id | id in descriptors && descriptors[id].entity !in entityIds
  }

  function Apply(c: Contents, op: Op, window: nat): Contents {
    match op
    case IngestOp(entities, descriptors, samples) =>
      Contents(WithSamples(c.history, samples, window),
               c.descriptors + ById(descriptors),
               WithEntities(c.entities, entities),
               WithText(c.text, samples))
    case RetainSeriesOp(present) =>
      var ids := SeriesIds(present);
      Contents(Restrict(c.history, ids), Restrict(c.descriptors, ids), c.entities, Restrict(c.text, ids))
    case RetainEntitiesOp(entityIds) =>
      var dropped := Orphans(c.descriptors, entityIds);
      Contents(c.history - dropped, c.descriptors - dropped,
               map id | id in c.entities && id in entityIds :: c.entities[id],
               c.text - dropped)
    case ClearOp => EMPTY
  }

  function Run(ops: seq<Op>, window: nat): Contents {
    if ops == [] then EMPTY else Apply(Run(ops[..|ops| - 1], window), ops[|ops| - 1], window)
  }

  // ---------------------------------------------------------------------------------------
  // The unbounded log

  function Points(samples: seq<Sample>, series: SeriesId): seq<Point> {
    if samples == [] then []
    else
      var n := |samples| - 1;
      var earlier := Points(samples[..n], series);
      if samples[n].series == series && PointOf(samples[n]).Some? then earlier + [PointOf(samples[n]).value] else earlier
  }

  /** The declaration in force for a series, kept by its own account of the operations. */
  function Declaration(ops: seq<Op>, series: SeriesId): Option<SeriesDescriptor> {
    if ops == [] then None
    else
      var earlier := Declaration(ops[..|ops| - 1], series);
      match ops[|ops| - 1]
      case IngestOp(_, descriptors, _) =>
        if series in ById(descriptors) then Some(ById(descriptors)[series]) else earlier
      case _ => if Forgets(ops[|ops| - 1], series, earlier) then None else earlier
  }

  /** Whether an operation makes the store forget a series declared as given. */
  predicate Forgets(op: Op, series: SeriesId, declaration: Option<SeriesDescriptor>) {
    match op
    case IngestOp(_, _, _) => false
    case RetainSeriesOp(present) => series !in ById(present)
    case RetainEntitiesOp(entityIds) => declaration.Some? && declaration.value.entity !in entityIds
    case ClearOp => true
  }

  /** Every finite point of a series since it was last forgotten. */
  function Log(ops: seq<Op>, series: SeriesId): seq<Point> {
    if ops == [] then []
    else
      var n := |ops| - 1;
      var earlier := if Forgets(ops[n], series, Declaration(ops[..n], series)) then [] else Log(ops[..n], series);
      earlier + if ops[n].IngestOp? then Points(ops[n].samples, series) else []
  }

  /** A window and the log it is a window of. */
  ghost predicate IsWindow(history: map<SeriesId, seq<Point>>, series: SeriesId, log: seq<Point>, window: nat) {
    && (series in history <==> log != [])
    && HistoryOf(history, series) == LastN(log, window)
  }

  lemma WindowOfWindow(log: seq<Point>, point: Point, window: nat)
    ensures LastN(LastN(log, window) + [point], window) == LastN(log + [point], window)
  {
  }

  lemma SampleExtendsTheWindow(
      history: map<SeriesId, seq<Point>>, sample: Sample, series: SeriesId, log: seq<Point>, window: nat)
    requires IsWindow(history, series, log, window)
    ensures IsWindow(WithSample(history, sample, window), series, log + Points([sample], series), window)
  {
    assert Points([sample][..0], series) == [];
    if sample.series == series && PointOf(sample).Some? {
      assert Points([sample], series) == [PointOf(sample).value];
      WindowOfWindow(log, PointOf(sample).value, window);
    } else {
      assert Points([sample], series) == [] && log + [] == log;
    }
  }

  lemma {:induction false} SamplesExtendTheWindow(
      history: map<SeriesId, seq<Point>>, samples: seq<Sample>, series: SeriesId, log: seq<Point>, window: nat)
    requires IsWindow(history, series, log, window)
    ensures IsWindow(WithSamples(history, samples, window), series, log + Points(samples, series), window)
  {
    if samples == [] {
      assert log + [] == log;
    } else {
      var n := |samples| - 1;
      SamplesExtendTheWindow(history, samples[..n], series, log, window);
      SampleExtendsTheWindow(WithSamples(history, samples[..n], window), samples[n], series,
                             log + Points(samples[..n], series), window);
      PointsSnoc(samples, series, log);
    }
  }

  lemma PointsSnoc(samples: seq<Sample>, series: SeriesId, log: seq<Point>)
    requires samples != []
    ensures var n := |samples| - 1;
      log + Points(samples, series) == log + Points(samples[..n], series) + Points([samples[n]], series)
  {
    assert Points([samples[|samples| - 1]][..0], series) == [];
  }

  lemma SeriesIdsAreKeys(descriptors: seq<SeriesDescriptor>)
    ensures SeriesIds(descriptors) == ById(descriptors).Keys
  {
  }

  lemma {:induction false} DeclarationsAgree(ops: seq<Op>, window: nat, series: SeriesId)
    ensures var d := Run(ops, window).descriptors;
      Declaration(ops, series) == if series in d then Some(d[series]) else None
  {
    if ops != [] {
      DeclarationsAgree(ops[..|ops| - 1], window, series);
      match ops[|ops| - 1]
      case RetainSeriesOp(present) => SeriesIdsAreKeys(present);
      case _ =>
    }
  }

  /** Whatever the operations, the store holds the last `window` points of the unbounded log. */
  lemma {:induction false} HistoryIsWindowOfLog(ops: seq<Op>, window: nat, series: SeriesId)
    ensures IsWindow(Run(ops, window).history, series, Log(ops, series), window)
  {
    if ops != [] {
      var n := |ops| - 1;
      HistoryIsWindowOfLog(ops[..n], window, series);
      DeclarationsAgree(ops[..n], window, series);
      match ops[n]
      case IngestOp(_, _, samples) =>
        SamplesExtendTheWindow(Run(ops[..n], window).history, samples, series, Log(ops[..n], series), window);
      case RetainSeriesOp(present) =>
        SeriesIdsAreKeys(present);
        assert Log(ops[..n], series) + [] == Log(ops[..n], series);
      case _ =>
        assert Log(ops[..n], series) + [] == Log(ops[..n], series);
    }
  }

  /** Memory stays bounded whatever arrives. */
  lemma WindowIsAHardCap(ops: seq<Op>, window: nat, series: SeriesId)
    ensures |HistoryOf(Run(ops, window).history, series)| <= window
  {
    HistoryIsWindowOfLog(ops, window, series);
  }

  // ---------------------------------------------------------------------------------------
  // Text series

  function Texts(samples: seq<Sample>, series: SeriesId): seq<string> {
    if samples == [] then []
    else
      var n := |samples| - 1;
      var earlier := Texts(samples[..n], series);
      if samples[n].series == series && samples[n].value.Text? then earlier + [samples[n].value.text] else earlier
  }

  /** Every text a series was given since it was last forgotten. */
  function TextLog(ops: seq<Op>, series: SeriesId): seq<string> {
    if ops == [] then []
    else
      var n := |ops| - 1;
      var earlier := if Forgets(ops[n], series, Declaration(ops[..n], series)) then [] else TextLog(ops[..n], series);
      earlier + if ops[n].IngestOp? then Texts(ops[n].samples, series) else []
  }

  ghost predicate IsLatest(text: map<SeriesId, string>, series: SeriesId, log: seq<string>) {
    && (series in text <==> log != [])
    && (log != [] ==> text[series] == log[|log| - 1])
  }

  lemma {:induction false} SamplesExtendTheText(
      text: map<SeriesId, string>, samples: seq<Sample>, series: SeriesId, log: seq<string>)
    requires IsLatest(text, series, log)
    ensures IsLatest(WithText(text, samples), series, log + Texts(samples, series))
  {
    if samples == [] {
      assert log + [] == log;
    } else {
      SamplesExtendTheText(text, samples[..|samples| - 1], series, log);
    }
  }

  /** The text of a series is the last it was given since it last appeared. */
  lemma {:induction false} TextIsLatest(ops: seq<Op>, window: nat, series: SeriesId)
    ensures IsLatest(Run(ops, window).text, series, TextLog(ops, series))
  {
    if ops != [] {
      var n := |ops| - 1;
      TextIsLatest(ops[..n], window, series);
      DeclarationsAgree(ops[..n], window, series);
      match ops[n]
      case IngestOp(_, _, samples) =>
        SamplesExtendTheText(Run(ops[..n], window).text, samples, series, TextLog(ops[..n], series));
      case RetainSeriesOp(present) =>
        SeriesIdsAreKeys(present);
        assert TextLog(ops[..n], series) + [] == TextLog(ops[..n], series);
      case _ =>
        assert TextLog(ops[..n], series) + [] == TextLog(ops[..n], series);
    }
  }

  // ---------------------------------------------------------------------------------------
  // Entities

  /** The last report of an entity in one tick. */
  function LastReport(entities: seq<Entity>, id: EntityId): Option<Entity> {
    if entities == [] then None
    else if LastReport(entities[1..], id).Some? then LastReport(entities[1..], id)
    else if entities[0].id == id then Some(entities[0])
    else None
  }

  /** The report of an entity in force, kept by its own account of the operations. */
  function Report(ops: seq<Op>, id: EntityId): Option<Entity> {
    if ops == [] then None
    else
      var earlier := Report(ops[..|ops| - 1], id);
      match ops[|ops| - 1]
      case IngestOp(entities, _, _) => if LastReport(entities, id).Some? then LastReport(entities, id) else earlier
      case RetainSeriesOp(_) => earlier
      case RetainEntitiesOp(entityIds) => if id in entityIds then earlier else None
      case ClearOp => None
  }

  lemma {:induction false} LastReportSnoc(entities: seq<Entity>, entity: Entity, id: EntityId)
    ensures LastReport(entities + [entity], id) == if entity.id == id then Some(entity) else LastReport(entities, id)
  {
    if entities == [] {
      assert (entities + [entity])[1..] == [];
    } else {
      assert (entities + [entity])[1..] == entities[1..] + [entity];
      LastReportSnoc(entities[1..], entity, id);
    }
  }

  lemma {:induction false} UpsertsKeepLastReport(entities: map<EntityId, Entity>, more: seq<Entity>, id: EntityId)
    ensures var after := WithEntities(entities, more);
      && (id in after <==> id in entities || LastReport(more, id).Some?)
      && (id in after ==> after[id] == if LastReport(more, id).Some? then LastReport(more, id).value else entities[id])
  {
    if more != [] {
      var n := |more| - 1;
      UpsertsKeepLastReport(entities, more[..n], id);
      LastReportSnoc(more[..n], more[n], id);
      assert more == more[..n] + [more[n]];
    }
  }

  /** Whatever the operations, an entity is held exactly while it is reported, as it was last reported. */
  lemma {:induction false} EntityIsLastReport(ops: seq<Op>, window: nat, id: EntityId)
    ensures var entities := Run(ops, window).entities;
      Report(ops, id) == if id in entities then Some(entities[id]) else None
  {
    if ops != [] {
      var n := |ops| - 1;
      EntityIsLastReport(ops[..n], window, id);
      match ops[n]
      case IngestOp(entities, _, _) => UpsertsKeepLastReport(Run(ops[..n], window).entities, entities, id);
      case _ =>
    }
  }

  // ---------------------------------------------------------------------------------------
  // One refresh

  function EntityIds(entities: seq<Entity>): (ids: seq<EntityId>)
    ensures forall id :: id in ids <==> exists e :: e in entities && e.id == id
  {
    if entities == [] then [] else
      assert entities == [entities[0]] + entities[1..];
      [entities[0].id] + EntityIds(entities[1..])
  }

  /** Ingest a complete tick, then forget every series and entity it did not report. */
  function Refreshed(
      c: Contents, entities: seq<Entity>, descriptors: seq<SeriesDescriptor>, samples: seq<Sample>,
      host: EntityId, window: nat)
    : Contents
  {
    var ingested := Apply(c, IngestOp(entities, descriptors, samples), window);
    var retained := Apply(ingested, RetainSeriesOp(descriptors), window);
    Apply(retained, RetainEntitiesOp(EntityIds(entities) + [host]), window)
  }

  lemma {:induction false} WithEntitiesKeys(entities: map<EntityId, Entity>, more: seq<Entity>)
    ensures WithEntities(entities, more).Keys == entities.Keys + (set e | e in more :: e.id)
  {
    if more != [] {
      var n := |more| - 1;
      WithEntitiesKeys(entities, more[..n]);
      assert more == more[..n] + [more[n]];
    }
  }

  /** After `retain_series` only what this tick declared is left, declared as this tick declared it. */
  lemma OnlyDeclaredSeries(
      c: Contents, entities: seq<Entity>, descriptors: seq<SeriesDescriptor>, samples: seq<Sample>, window: nat)
    ensures var ingested := Apply(c, IngestOp(entities, descriptors, samples), window);
      var retained := Apply(ingested, RetainSeriesOp(descriptors), window);
      && retained.descriptors == ById(descriptors)
      && retained.history.Keys <= ById(descriptors).Keys
      && retained.text.Keys <= ById(descriptors).Keys
      && retained.entities == WithEntities(c.entities, entities)
  {
    SeriesIdsAreKeys(descriptors);
  }

  /** A refresh leaves nothing behind that this tick did not report. */
  lemma NoLeftovers(
      c: Contents, entities: seq<Entity>, descriptors: seq<SeriesDescriptor>, samples: seq<Sample>,
      host: EntityId, window: nat)
    ensures var after := Refreshed(c, entities, descriptors, samples, host, window);
      var present := EntityIds(entities) + [host];
      && (forall id :: id in after.descriptors <==> id in ById(descriptors) && ById(descriptors)[id].entity in present)
      && (forall id :: id in after.descriptors ==> after.descriptors[id] == ById(descriptors)[id])
      && after.history.Keys <= after.descriptors.Keys
      && after.text.Keys <= after.descriptors.Keys
      && (forall id :: id in after.entities ==> id in present)
      && (forall e :: e in entities ==> e.id in after.entities)
  {
    WithEntitiesKeys(c.entities, entities);
    OnlyDeclaredSeries(c, entities, descriptors, samples, window);
  }
}
