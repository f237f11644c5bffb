/** Request merging and tick assembly: many independent sources, one batch. */
module Collector {
  import opened Common
  import opened Model
  import opened Request
  import Rate

  datatype Capabilities = Capabilities(binaries: set<string>, paths: set<string>)

  datatype Requirements = Requirements(binaries: seq<string>, paths: seq<string>)
  {
    predicate SatisfiedBy(caps: Capabilities) {
      (forall b :: b in binaries ==> b in caps.binaries) && (forall p :: p in paths ==> p in caps.paths)
    }
  }

  /** The host as its sources know it. */
  datatype Context = Context(host: Entity, caps: Capabilities)

  datatype ParseError = ParseError(source: SourceId, detail: string)

  datatype Sink = Sink(entities: seq<Entity>, descriptors: seq<SeriesDescriptor>, samples: seq<Sample>)
  {
    function Absorb(other: Sink): Sink {
      Sink(entities + other.entities, descriptors + other.descriptors, samples + other.samples)
    }
  }

  /** A collector: pure, it declares what it wants and parses what came back. */
  datatype Source = Source(
    id: SourceId,
    needs: Requirements,
    requests: Context -> seq<Request>,
    parse: (Context, Responses, I64) -> Result<Sink, ParseError>)

  datatype Tick = Tick(
    entities: seq<Entity>,
    descriptors: seq<SeriesDescriptor>,
    samples: seq<Sample>,
    errors: seq<ParseError>)

  // ---------------------------------------------------------------------------------------
  // Merging requests

  /** Deduplicated by id, first-seen order. */
  ghost function FirstSeen(requests: seq<Request>): seq<Request> {
    FirstOfEach(requests, IdOf)
  }

  /** Everything the given sources ask for, in order. */
  function Wanted(sources: seq<Source>, ctx: Context): seq<Request> {
    if sources == [] then []
    else
      var n := |sources| - 1;
      Wanted(sources[..n], ctx) + sources[n].requests(ctx)
  }

  function Applicable(sources: seq<Source>, disabled: set<SourceId>, caps: Capabilities): seq<Source> {
    if sources == [] then []
    else
      var n := |sources| - 1;
      var earlier := Applicable(sources[..n], disabled, caps);
      if sources[n].id !in disabled && sources[n].needs.SatisfiedBy(caps) then earlier + [sources[n]] else earlier
  }

  /** A source is asked exactly if it is switched on and the host has every program and path it needs. */
  lemma {:induction false} ApplicableIff(sources: seq<Source>, disabled: set<SourceId>, caps: Capabilities, s: Source)
    ensures s in Applicable(sources, disabled, caps)
       <==> && s in sources && s.id !in disabled
            && (forall b :: b in s.needs.binaries ==> b in caps.binaries)
            && (forall p :: p in s.needs.paths ==> p in caps.paths)
  {
    if sources != [] {
      var n := |sources| - 1;
      ApplicableIff(sources[..n], disabled, caps, s);
      assert sources == sources[..n] + [sources[n]];
    }
  }

  /** Leaving sources out does not change the order of the others. */
  lemma {:induction false} ApplicableConcat(a: seq<Source>, b: seq<Source>, disabled: set<SourceId>, caps: Capabilities)
    ensures Applicable(a + b, disabled, caps) == Applicable(a, disabled, caps) + Applicable(b, disabled, caps)
  {
    if b == [] {
      assert a + b == a;
    } else {
      var n := |b| - 1;
      ApplicableConcat(a, b[..n], disabled, caps);
      assert (a + b)[..|a| + n] == a + b[..n];
    }
  }

  /** What every source contributes, one after another. */
  function Gather<T>(sources: seq<Source>, part: Source -> seq<T>): seq<T> {
    if sources == [] then [] else part(sources[0]) + Gather(sources[1..], part)
  }

  lemma {:induction false} GatherSnoc<T>(sources: seq<Source>, last: Source, part: Source -> seq<T>)
    ensures Gather(sources + [last], part) == Gather(sources, part) + part(last)
  {
    if sources == [] {
      assert (sources + [last])[1..] == [];
    } else {
      assert (sources + [last])[1..] == sources[1..] + [last];
      GatherSnoc(sources[1..], last, part);
    }
  }

  function RequestsIn(ctx: Context): Source -> seq<Request> {
    (s: Source) => s.requests(ctx)
  }

  /** What is wanted is what each source asks for, source by source. */
  lemma {:induction false} WantedIsGathered(sources: seq<Source>, ctx: Context)
    ensures Wanted(sources, ctx) == Gather(sources, RequestsIn(ctx))
  {
    if sources != [] {
      var n := |sources| - 1;
      WantedIsGathered(sources[..n], ctx);
      GatherSnoc(sources[..n], sources[n], RequestsIn(ctx));
      assert sources == sources[..n] + [sources[n]];
    }
  }

  // ---------------------------------------------------------------------------------------
  // Assembling a tick

  function Absorbed(sources: seq<Source>, answers: Source -> Responses, ctx: Context, atMs: I64): Sink {
    if sources == [] then Sink([], [], [])
    else
      var n := |sources| - 1;
      var sink := Absorbed(sources[..n], answers, ctx, atMs);
      match sources[n].parse(ctx, answers(sources[n]), atMs)
      case Ok(more) => sink.Absorb(more)
      case Err(_) => sink
  }

  function Errors(sources: seq<Source>, answers: Source -> Responses, ctx: Context, atMs: I64): seq<ParseError> {
    if sources == [] then []
    else
      var n := |sources| - 1;
      Errors(sources[..n], answers, ctx, atMs)
      + match sources[n].parse(ctx, answers(sources[n]), atMs)
        case Ok(_) => []
        case Err(error) => [error]
  }

  /** Every source is given the same answers. */
  function Same(responses: Responses): Source -> Responses {
    (_: Source) => responses
  }

  /** The tick when each source parses the answers chosen for it. */
  function Assembled(
      sources: seq<Source>, answers: Source -> Responses, ctx: Context, atMs: I64, previous: Rate.Baselines): Tick
  {
    var sink := Absorbed(sources, answers, ctx, atMs);
    Tick(Deduped(sink.entities), sink.descriptors,
         Rate.Processed(previous, sink.descriptors, sink.samples).1,
         Errors(sources, answers, ctx, atMs))
  }

  /** What the parser of a source returned, if it did. */
  function SinkFrom(answers: Source -> Responses, ctx: Context, atMs: I64): Source -> Sink {
    (s: Source) => match s.parse(ctx, answers(s), atMs) case Ok(sink) => sink case Err(_) => Sink([], [], [])
  }

  function EntitiesFrom(answers: Source -> Responses, ctx: Context, atMs: I64): Source -> seq<Entity> {
    (s: Source) => SinkFrom(answers, ctx, atMs)(s).entities
  }

  function DescriptorsFrom(answers: Source -> Responses, ctx: Context, atMs: I64): Source -> seq<SeriesDescriptor> {
    (s: Source) => SinkFrom(answers, ctx, atMs)(s).descriptors
  }

  function SamplesFrom(answers: Source -> Responses, ctx: Context, atMs: I64): Source -> seq<Sample> {
    (s: Source) => SinkFrom(answers, ctx, atMs)(s).samples
  }

  /** The error of a parser that failed. */
  function ErrorsFrom(answers: Source -> Responses, ctx: Context, atMs: I64): Source -> seq<ParseError> {
    (s: Source) => match s.parse(ctx, answers(s), atMs) case Ok(_) => [] case Err(error) => [error]
  }

  /** The last source adds what its parser returned, if it did. */
  lemma AbsorbedSnoc(sources: seq<Source>, answers: Source -> Responses, ctx: Context, atMs: I64)
    requires sources != []
    ensures var n := |sources| - 1;
      var sink, more := Absorbed(sources[..n], answers, ctx, atMs), SinkFrom(answers, ctx, atMs)(sources[n]);
      && Absorbed(sources, answers, ctx, atMs).entities == sink.entities + more.entities
      && Absorbed(sources, answers, ctx, atMs).descriptors == sink.descriptors + more.descriptors
      && Absorbed(sources, answers, ctx, atMs).samples == sink.samples + more.samples
  {
  }

  lemma {:induction false} AbsorbedIsGathered(sources: seq<Source>, answers: Source -> Responses, ctx: Context, atMs: I64)
    ensures var sink := Absorbed(sources, answers, ctx, atMs);
      && sink.entities == Gather(sources, EntitiesFrom(answers, ctx, atMs))
      && sink.descriptors == Gather(sources, DescriptorsFrom(answers, ctx, atMs))
      && sink.samples == Gather(sources, SamplesFrom(answers, ctx, atMs))
  {
    if sources != [] {
      var n := |sources| - 1;
      var init, last := sources[..n], sources[n];
      AbsorbedIsGathered(init, answers, ctx, atMs);
      AbsorbedSnoc(sources, answers, ctx, atMs);
      GatherSnoc(init, last, EntitiesFrom(answers, ctx, atMs));
      GatherSnoc(init, last, DescriptorsFrom(answers, ctx, atMs));
      GatherSnoc(init, last, SamplesFrom(answers, ctx, atMs));
      assert sources == init + [last];
    }
  }

  lemma {:induction false} ErrorsAreGathered(sources: seq<Source>, answers: Source -> Responses, ctx: Context, atMs: I64)
    ensures Errors(sources, answers, ctx, atMs) == Gather(sources, ErrorsFrom(answers, ctx, atMs))
  {
    if sources != [] {
      var n := |sources| - 1;
      ErrorsAreGathered(sources[..n], answers, ctx, atMs);
      GatherSnoc(sources[..n], sources[n], ErrorsFrom(answers, ctx, atMs));
      assert sources == sources[..n] + [sources[n]];
    }
  }

  /**
   A tick holds, source by source, everything the parsers that succeeded returned: all their series, all
   their samples once differentiated, all their entities once merged; and the errors of the others.
   */
  lemma TickHoldsEverything(
      sources: seq<Source>, answers: Source -> Responses, ctx: Context, atMs: I64, previous: Rate.Baselines)
    ensures var tick := Assembled(sources, answers, ctx, atMs, previous);
      var samples := Gather(sources, SamplesFrom(answers, ctx, atMs));
      && tick.descriptors == Gather(sources, DescriptorsFrom(answers, ctx, atMs))
      && tick.samples == Rate.Processed(previous, tick.descriptors, samples).1
      && tick.entities == Deduped(Gather(sources, EntitiesFrom(answers, ctx, atMs)))
      && tick.errors == Gather(sources, ErrorsFrom(answers, ctx, atMs))
  {
    AbsorbedIsGathered(sources, answers, ctx, atMs);
    ErrorsAreGathered(sources, answers, ctx, atMs);
  }

  class Collector {
    const sources: seq<Source>
    var disabled: set<SourceId>
    const rate: Rate.RateEngine

    constructor (sources: seq<Source>, disabledByDefault: set<SourceId>)
      ensures this.sources == sources && disabled == disabledByDefault
      ensures fresh(rate) && rate.previous == map[]
    {
      this.sources := sources;
      disabled := disabledByDefault;
      rate := new Rate.RateEngine();
    }

    method SetEnabled(source: SourceId, enabled: bool)
      modifies `disabled
      ensures disabled == if enabled then old(disabled) - {source} else old(disabled) + {source}
    {
      disabled := if enabled then disabled - {source} else disabled + {source};
    }

    /** What one refresh asks of the host, every id once. */
    method Requests(ctx: Context) returns (merged: seq<Request>)
      ensures merged == FirstSeen(Wanted(Applicable(sources, disabled, ctx.caps), ctx))
    {
      var seen: set<string> := {};
      merged := [];
      assert sources[..0] == [];
      for n := 0 to |sources|
        invariant merged == FirstSeen(Wanted(Applicable(sources[..n], disabled, ctx.caps), ctx))
        invariant seen == KeysOf(merged, IdOf)
      {
        assert sources[..n + 1][..n] == sources[..n];
        if sources[n].id in disabled || !sources[n].needs.SatisfiedBy(ctx.caps) {
          continue;
        }
        ghost var before := Applicable(sources[..n], disabled, ctx.caps);
        assert (before + [sources[n]])[..|before|] == before;
        var requests := sources[n].requests(ctx);
        merged, seen := MergeInto(Wanted(before, ctx), merged, seen, requests, IdOf);
      }
      assert sources[..|sources|] == sources;
    }

    /** Parse one batch of answers into a tick, and differentiate its counters. */
    method Collect(ctx: Context, responses: Responses, atMs: I64) returns (tick: Tick)
      modifies rate
      ensures tick == Assembled(Applicable(sources, disabled, ctx.caps), Same(responses), ctx, atMs, old(rate.previous))
      ensures var sink := Absorbed(Applicable(sources, disabled, ctx.caps), Same(responses), ctx, atMs);
        rate.previous == Rate.Processed(old(rate.previous), sink.descriptors, sink.samples).0
    {
      var sink := Sink([], [], []);
      var errors: seq<ParseError> := [];
      ghost var answers := Same(responses);
      assert sources[..0] == [];
      for n := 0 to |sources|
        invariant sink == Absorbed(Applicable(sources[..n], disabled, ctx.caps), answers, ctx, atMs)
        invariant errors == Errors(Applicable(sources[..n], disabled, ctx.caps), answers, ctx, atMs)
        invariant rate.previous == old(rate.previous)
      {
        assert sources[..n + 1][..n] == sources[..n];
        if sources[n].id in disabled || !sources[n].needs.SatisfiedBy(ctx.caps) {
          continue;
        }
        ghost var before := Applicable(sources[..n], disabled, ctx.caps);
        assert (before + [sources[n]])[..|before|] == before;
        match sources[n].parse(ctx, responses, atMs) {
          case Ok(perSource) => sink := sink.Absorb(perSource);
            assert errors + [] == errors;
          case Err(error) => errors := errors + [error];
        }
      }
      assert sources[..|sources|] == sources;
      var samples := rate.Process(sink.descriptors, sink.samples);
      var entities := DedupEntities(sink.entities);
      tick := Tick(entities, sink.descriptors, samples, errors);
    }

    method ResetRates()
      modifies rate
      ensures rate.previous == map[]
    {
      rate.Reset();
    }
  }

  /** The inner loop of `requests`: one source's requests into the merged list. */
  method MergeInto<T, K(==)>(ghost before: seq<T>, start: seq<T>, startSeen: set<K>, items: seq<T>, key: T -> K)
    returns (merged: seq<T>, seen: set<K>)
    requires start == FirstOfEach(before, key) && startSeen == KeysOf(start, key)
    ensures merged == FirstOfEach(before + items, key) && seen == KeysOf(merged, key)
  {
    merged, seen := start, startSeen;
    assert before + items[..0] == before;
    for k := 0 to |items|
      invariant merged == FirstOfEach(before + items[..k], key)
      invariant seen == KeysOf(merged, key)
    {
      assert before + items[..k + 1] == before + items[..k] + [items[k]];
      FirstOfEachSnoc(before + items[..k], items[k], key);
      KeysOfSnoc(merged, items[k], key);
      if key(items[k]) !in seen {
        seen := seen + {key(items[k])};
        merged := merged + [items[k]];
      }
    }
    assert items[..|items|] == items;
  }

  // ---------------------------------------------------------------------------------------
  // Entities declared by several sources

  function EntityKey(): Entity -> EntityId {
    (e: Entity) => e.id
  }

  /** Position of the first entity with this id. */
  function At(entities: seq<Entity>, id: EntityId): nat {
    FirstAt(entities, EntityKey(), id)
  }

  function Deduped(entities: seq<Entity>): seq<Entity> {
    if entities == [] then []
    else
      var n := |entities| - 1;
      var merged, entity := Deduped(entities[..n]), entities[n];
      var k := At(merged, entity.id);
      if k < |merged| then merged[k := merged[k].(labels := merged[k].labels + entity.labels)]
      else merged + [entity]
  }

  ghost predicate DistinctIds(list: seq<Entity>) {
    forall i, j :: 0 <= i < j < |list| ==> list[i].id != list[j].id
  }

  /** Entry `k` of the order list and of the map is entry `k` of the deduplicated list. */
  ghost predicate Entry(merged: map<EntityId, Entity>, order: seq<EntityId>, list: seq<Entity>, k: nat)
    requires k < |order| == |list|
  {
    order[k] == list[k].id && order[k] in merged && merged[order[k]] == list[k]
  }

  /** The map and the order list of `dedup_entities` stand for the deduplicated list. */
  ghost predicate Represents(merged: map<EntityId, Entity>, order: seq<EntityId>, list: seq<Entity>) {
    && |order| == |list|
    && DistinctIds(list)
    && (forall k :: 0 <= k < |list| ==> Entry(merged, order, list, k))
    && (forall id :: id in merged ==> At(list, id) < |list|)
  }

  lemma RepresentsAgain(merged: map<EntityId, Entity>, order: seq<EntityId>, list: seq<Entity>, entity: Entity)
    requires Represents(merged, order, list) && entity.id in merged
    ensures var k := At(list, entity.id); var existing := merged[entity.id];
      var richer := existing.(labels := existing.labels + entity.labels);
      k < |list| && existing == list[k] && Represents(merged[entity.id := richer], order, list[k := richer])
  {
    var k := At(list, entity.id);
    assert Entry(merged, order, list, k);
    var richer := list[k].(labels := list[k].labels + entity.labels);
    var merged', list' := merged[entity.id := richer], list[k := richer];
    forall i | 0 <= i < |list'| ensures Entry(merged', order, list', i) {
      assert Entry(merged, order, list, i);
    }
    forall id | id in merged' ensures At(list', id) < |list'| {
      assert list'[At(list, id)].id == id;
    }
  }

  lemma RepresentsNew(merged: map<EntityId, Entity>, order: seq<EntityId>, list: seq<Entity>, entity: Entity)
    requires Represents(merged, order, list) && entity.id !in merged
    ensures At(list, entity.id) == |list|
    ensures Represents(merged[entity.id := entity], order + [entity.id], list + [entity])
  {
    forall i | 0 <= i < |list| ensures list[i].id != entity.id {
      assert Entry(merged, order, list, i);
    }
    var merged', order', list' := merged[entity.id := entity], order + [entity.id], list + [entity];
    forall i | 0 <= i < |list'| ensures Entry(merged', order', list', i) {
      assert i < |list| ==> Entry(merged, order, list, i);
    }
    forall id | id in merged' ensures At(list', id) < |list'| {
      assert list'[if id == entity.id then |list| else At(list, id)].id == id;
    }
  }

  method DedupEntities(entities: seq<Entity>) returns (deduped: seq<Entity>)
    ensures deduped == Deduped(entities)
  {
    var merged: map<EntityId, Entity> := map[];
    var order: seq<EntityId> := [];
    assert entities[..0] == [];
    for n := 0 to |entities|
      invariant Represents(merged, order, Deduped(entities[..n]))
    {
      assert entities[..n + 1][..n] == entities[..n];
      var entity := entities[n];
      ghost var list := Deduped(entities[..n]);
      if entity.id in merged {
        RepresentsAgain(merged, order, list, entity);
        var existing := merged[entity.id];
        merged := merged[entity.id := existing.(labels := existing.labels + entity.labels)];
      } else {
        RepresentsNew(merged, order, list, entity);
        order := order + [entity.id];
        merged := merged[entity.id := entity];
      }
    }
    assert entities[..|entities|] == entities;
    deduped := TakeInOrder(merged, order, Deduped(entities));
  }

  /** `order.into_iter().filter_map(|id| merged.remove(&id))` */
  method TakeInOrder(all: map<EntityId, Entity>, order: seq<EntityId>, ghost list: seq<Entity>) returns (taken: seq<Entity>)
    requires Represents(all, order, list)
    ensures taken == list
  {
    var merged := all;
    taken := [];
    for k := 0 to |order|
      invariant taken == list[..k]
      invariant forall i :: k <= i < |order| ==> Entry(merged, order, list, i)
    {
      assert Entry(merged, order, list, k);
      taken := taken + [merged[order[k]]];
      ghost var before := merged;
      merged := merged - {order[k]};
      forall i | k < i < |order| ensures Entry(merged, order, list, i) {
        assert Entry(before, order, list, i) && list[k].id != list[i].id;
      }
    }
  }

  /** All the labels anybody gave an entity, later ones winning. */
  function LabelsOf(entities: seq<Entity>, id: EntityId): map<string, string> {
    if entities == [] then map[]
    else
      var n := |entities| - 1;
      LabelsOf(entities[..n], id) + if entities[n].id == id then entities[n].labels else map[]
  }

  /** One more report keeps the ids distinct and adds its own. */
  lemma DedupIdsSnoc(before: seq<Entity>, entity: Entity)
    requires DistinctIds(before)
    ensures var k := At(before, entity.id);
      var merged :=
        if k < |before| then before[k := before[k].(labels := before[k].labels + entity.labels)] else before + [entity];
      && DistinctIds(merged)
      && At(merged, entity.id) < |merged|
      && (forall id :: At(before, id) < |before| ==> At(merged, id) < |merged|)
  {
    var k := At(before, entity.id);
    var merged :=
        if k < |before| then before[k := before[k].(labels := before[k].labels + entity.labels)] else before + [entity];
    assert merged[k].id == entity.id;
    forall id | At(before, id) < |before| ensures At(merged, id) < |merged| {
      assert merged[At(before, id)].id == id;
    }
  }

  lemma {:induction false} DedupIds(entities: seq<Entity>)
    ensures DistinctIds(Deduped(entities))
    ensures forall e :: e in entities ==> At(Deduped(entities), e.id) < |Deduped(entities)|
  {
    if entities != [] {
      var n := |entities| - 1;
      DedupIds(entities[..n]);
      DedupIdsSnoc(Deduped(entities[..n]), entities[n]);
      forall e | e in entities ensures At(Deduped(entities), e.id) < |Deduped(entities)| {
        assert e == entities[n] || e in entities[..n];
      }
    }
  }

  /** `merged` is the first report of its id, with every label the id was ever given. */
  ghost predicate FirstWithAllLabels(entities: seq<Entity>, merged: Entity) {
    var first := At(entities, merged.id);
    first < |entities| && merged == entities[first].(labels := LabelsOf(entities, merged.id))
  }

  lemma FirstWithAllLabelsSnoc(entities: seq<Entity>, n: nat, earlier: Entity, now: Entity)
    requires n == |entities| - 1 && FirstWithAllLabels(entities[..n], earlier)
    requires now == if entities[n].id == earlier.id then earlier.(labels := earlier.labels + entities[n].labels) else earlier
    ensures FirstWithAllLabels(entities, now)
  {
    FindPrefix(entities, n, earlier.id);
  }

  lemma FirstReport(entities: seq<Entity>, n: nat)
    requires n == |entities| - 1 && forall i :: 0 <= i < n ==> entities[i].id != entities[n].id
    ensures FirstWithAllLabels(entities, entities[n])
  {
    AbsentHasNoLabels(entities[..n], entities[n].id);
    assert At(entities, entities[n].id) == n;
    assert map[] + entities[n].labels == entities[n].labels;
  }

  lemma {:induction false} DedupMerges(entities: seq<Entity>)
    ensures forall k :: 0 <= k < |Deduped(entities)| ==> FirstWithAllLabels(entities, Deduped(entities)[k])
  {
    if entities != [] {
      var n := |entities| - 1;
      DedupMerges(entities[..n]);
      DedupIds(entities[..n]);
      var before, merged, entity := Deduped(entities[..n]), Deduped(entities), entities[n];
      forall k | 0 <= k < |merged| ensures FirstWithAllLabels(entities, merged[k]) {
        if k < |before| {
          FirstWithAllLabelsSnoc(entities, n, before[k], merged[k]);
        } else {
          forall i | 0 <= i < n ensures entities[i].id != entity.id {
            assert entities[i] in entities[..n];
          }
          FirstReport(entities, n);
        }
      }
    }
  }

  /** Entities come in the order of their first reports. */
  ghost predicate InFirstOrder(entities: seq<Entity>, merged: seq<Entity>) {
    forall a, b :: 0 <= a < b < |merged| ==> At(entities, merged[a].id) < At(entities, merged[b].id)
  }

  lemma PositionsStay(entities: seq<Entity>, n: nat, merged: seq<Entity>)
    requires n <= |entities| && forall k :: 0 <= k < |merged| ==> FirstWithAllLabels(entities[..n], merged[k])
    ensures forall k :: 0 <= k < |merged| ==> At(entities, merged[k].id) == At(entities[..n], merged[k].id) < n
  {
    forall k | 0 <= k < |merged| ensures At(entities, merged[k].id) == At(entities[..n], merged[k].id) < n {
      assert FirstWithAllLabels(entities[..n], merged[k]);
      FindPrefix(entities, n, merged[k].id);
    }
  }

  /** A richer entity stays in its place, a new one comes last. */
  lemma OrderGrows(entities: seq<Entity>, n: nat, before: seq<Entity>, merged: seq<Entity>)
    requires n < |entities| && InFirstOrder(entities[..n], before)
    requires forall k :: 0 <= k < |before| ==> At(entities, before[k].id) == At(entities[..n], before[k].id) < n
    requires |before| <= |merged| <= |before| + 1
    requires forall k :: 0 <= k < |before| ==> merged[k].id == before[k].id
    requires |merged| > |before| ==> At(entities, merged[|before|].id) == n
    ensures InFirstOrder(entities, merged)
  {
    forall a, b | 0 <= a < b < |merged| ensures At(entities, merged[a].id) < At(entities, merged[b].id) {
      if b < |before| {
        assert At(entities[..n], before[a].id) < At(entities[..n], before[b].id);
      }
    }
  }

  lemma {:induction false} DedupKeepsOrder(entities: seq<Entity>)
    ensures InFirstOrder(entities, Deduped(entities))
  {
    if entities != [] {
      var n := |entities| - 1;
      var before, merged := Deduped(entities[..n]), Deduped(entities);
      DedupKeepsOrder(entities[..n]);
      DedupMerges(entities[..n]);
      PositionsStay(entities, n, before);
      NewComesLast(entities, n);
      OrderGrows(entities, n, before, merged);
    }
  }

  lemma NewComesLast(entities: seq<Entity>, n: nat)
    requires n == |entities| - 1
    ensures var before, merged := Deduped(entities[..n]), Deduped(entities);
      |merged| > |before| ==> merged[|before|] == entities[n] && At(entities, entities[n].id) == n
  {
    DedupIds(entities[..n]);
    if |Deduped(entities)| > |Deduped(entities[..n])| {
      forall i | 0 <= i < n ensures entities[i].id != entities[n].id {
        assert entities[i] in entities[..n];
      }
    }
  }

  /** Each reported id appears exactly once, where and as first reported, carrying every label it was given. */
  lemma DedupKeepsEverything(entities: seq<Entity>)
    ensures var merged := Deduped(entities);
      && DistinctIds(merged)
      && (forall e :: e in entities ==> At(merged, e.id) < |merged|)
      && (forall k :: 0 <= k < |merged| ==> FirstWithAllLabels(entities, merged[k]))
      && InFirstOrder(entities, merged)
  {
    DedupIds(entities);
    DedupMerges(entities);
    DedupKeepsOrder(entities);
  }

  lemma FindPrefix(entities: seq<Entity>, n: nat, id: EntityId)
    requires n <= |entities| && At(entities[..n], id) < n
    ensures At(entities, id) == At(entities[..n], id)
  {
    var k := At(entities[..n], id);
    assert entities[k].id == id;
    forall i | 0 <= i < k ensures entities[i].id != id {
      assert entities[..n][i].id != id;
    }
  }

  lemma {:induction false} AbsentHasNoLabels(entities: seq<Entity>, id: EntityId)
    requires forall i :: 0 <= i < |entities| ==> entities[i].id != id
    ensures LabelsOf(entities, id) == map[]
  {
    if entities != [] {
      AbsentHasNoLabels(entities[..|entities| - 1], id);
    }
  }
}
