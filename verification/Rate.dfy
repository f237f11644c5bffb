/** Turning counters into rates: one remembered reading per counter series. */
module Rate {
  import opened Common
  import opened Model

  /** One raw counter reading. */
  datatype Reading = Reading(atMs: I64, raw: U64)

  type Baselines = map<SeriesId, Reading>

  predicate IsCounter(declared: map<SeriesId, SeriesDescriptor>, id: SeriesId) {
    id in declared && declared[id].kind == Counter
  }

  /** The rate between two readings, if it can honestly be given. */
  function Differentiate(before: Reading, after: Reading, series: SeriesId, scale: real): Option<Sample> {
    var elapsedMs := SaturatingSubI64(after.atMs, before.atMs);
    if elapsedMs <= 0 || after.raw < before.raw then None
    else
      var perSecond := (after.raw - before.raw) as real / (elapsedMs as real / 1000.0);
      Some(Sample(series, after.atMs, Float(Finite(perSecond * scale))))
  }

  class RateEngine {
    var previous: Baselines

    constructor ()
      ensures previous == map[]
    {
      previous := map[];
    }

    method Process(descriptors: seq<SeriesDescriptor>, samples: seq<Sample>) returns (out: seq<Sample>)
      modifies this
      ensures previous == Processed(old(previous), descriptors, samples).0
      ensures out == Processed(old(previous), descriptors, samples).1
    {
      var byId := ById(descriptors);
      previous := map id | id in previous && IsCounter(byId, id) :: previous[id];
      ghost var retained := previous;
      out := [];
      assert samples[..0] == [];
      for n := 0 to |samples|
        invariant previous == Folded(retained, byId, samples[..n]).0
        invariant out == Folded(retained, byId, samples[..n]).1
      {
        FoldedSnoc(retained, byId, samples, n);
        assert out + [] == out;
        var sample := samples[n];
        if sample.series !in byId {
          continue;
        }
        var descriptor := byId[sample.series];
        if descriptor.kind != Counter {
          out := out + [sample];
          continue;
        }
        var raw := sample.value.AsCounter();
        if raw == None {
          continue;
        }
        var reading := Reading(sample.atMs, raw.value);
        var held := if sample.series in previous then Some(previous[sample.series]) else None;
        previous := previous[sample.series := reading];
        if held == None {
          continue;
        }
        var rate := Differentiate(held.value, reading, sample.series, descriptor.scale);
        if rate.Some? {
          out := out + [rate.value];
        }
      }
      assert samples[..|samples|] == samples;
    }

    method Reset()
      modifies this
      ensures previous == map[]
    {
      previous := map[];
    }
  }

  // ---------------------------------------------------------------------------------------
  // What one call computes

  function ProcessOne(previous: Baselines, declared: map<SeriesId, SeriesDescriptor>, sample: Sample)
    : (Baselines, seq<Sample>)
  {
    if sample.series !in declared then (previous, [])
    else if declared[sample.series].kind != Counter then (previous, [sample])
    else match sample.value.AsCounter()
      case None => (previous, [])
      case Some(raw) =>
        var reading := Reading(sample.atMs, raw);
        var rate := if sample.series in previous
                    then Differentiate(previous[sample.series], reading, sample.series, declared[sample.series].scale)
                    else None;
        (previous[sample.series := reading], if rate.Some? then [rate.value] else [])
  }

  function Folded(previous: Baselines, declared: map<SeriesId, SeriesDescriptor>, samples: seq<Sample>)
    : (Baselines, seq<Sample>)
  {
    if samples == [] then (previous, [])
    else
      var n := |samples| - 1;
      var (before, out) := Folded(previous, declared, samples[..n]);
      var (after, more) := ProcessOne(before, declared, samples[n]);
      (after, out + more)
  }

  /** The baselines of series still declared as counters. */
  function Retained(previous: Baselines, declared: map<SeriesId, SeriesDescriptor>): Baselines {
    map id | id in previous && IsCounter(declared, id) :: previous[id]
  }

  function Processed(previous: Baselines, descriptors: seq<SeriesDescriptor>, samples: seq<Sample>)
    : (Baselines, seq<Sample>)
  {
    var byId := ById(descriptors);
    Folded(Retained(previous, byId), byId, samples)
  }

  // ---------------------------------------------------------------------------------------
  // The full-history definition

  datatype Event = Tick(descriptors: seq<SeriesDescriptor>, samples: seq<Sample>) | Reset

  /** The engine's memory after a run. */
  function Memory(events: seq<Event>): Baselines {
    if events == [] then map[]
    else
      var n := |events| - 1;
      match events[n]
      case Reset => map[]
      case Tick(descriptors, samples) => Processed(Memory(events[..n]), descriptors, samples).0
  }

  function CounterReadings(samples: seq<Sample>, id: SeriesId): seq<Reading> {
    if samples == [] then []
    else
      var n := |samples| - 1;
      var earlier := CounterReadings(samples[..n], id);
      if samples[n].series == id && samples[n].value.AsCounter().Some?
      then earlier + [Reading(samples[n].atMs, samples[n].value.AsCounter().value)]
      else earlier
  }

  /** Every reading of a counter since it was last undeclared, not a counter, or reset. */
  function Readings(events: seq<Event>, id: SeriesId): seq<Reading> {
    if events == [] then []
    else
      var n := |events| - 1;
      match events[n]
      case Reset => []
      case Tick(descriptors, samples) =>
        if IsCounter(ById(descriptors), id) then Readings(events[..n], id) + CounterReadings(samples, id) else []
  }

  /** What sample `k` of a tick should yield, judged by everything that was ever read. */
  function HonestEmission(events: seq<Event>, descriptors: seq<SeriesDescriptor>, samples: seq<Sample>, k: nat): seq<Sample>
    requires k < |samples|
  {
    var sample := samples[k];
    var byId := ById(descriptors);
    if sample.series !in byId then []
    else if byId[sample.series].kind != Counter then [sample]
    else
      var past := Readings(events + [Tick(descriptors, samples[..k])], sample.series);
      if sample.value.AsCounter() == None || past == [] then []
      else
        var reading := Reading(sample.atMs, sample.value.AsCounter().value);
        var rate := Differentiate(past[|past| - 1], reading, sample.series, byId[sample.series].scale);
        if rate.Some? then [rate.value] else []
  }

  function HonestOutput(events: seq<Event>, descriptors: seq<SeriesDescriptor>, samples: seq<Sample>, k: nat): seq<Sample>
    requires k <= |samples|
  {
    if k == 0 then []
    else HonestOutput(events, descriptors, samples, k - 1) + HonestEmission(events, descriptors, samples, k - 1)
  }

  ghost predicate RemembersLast(previous: Baselines, id: SeriesId, readings: seq<Reading>) {
    && (id in previous <==> readings != [])
    && (id in previous ==> previous[id] == readings[|readings| - 1])
  }

  lemma RetainedRemembers(previous: Baselines, declared: map<SeriesId, SeriesDescriptor>, id: SeriesId, past: seq<Reading>)
    requires RemembersLast(previous, id, past)
    ensures RemembersLast(Retained(previous, declared), id, if IsCounter(declared, id) then past else [])
  {
  }

  lemma {:induction false} FoldedRemembersLast(
      previous: Baselines, declared: map<SeriesId, SeriesDescriptor>, samples: seq<Sample>, id: SeriesId, past: seq<Reading>)
    requires RemembersLast(previous, id, past)
    requires !IsCounter(declared, id) ==> past == []
    ensures RemembersLast(Folded(previous, declared, samples).0, id,
                          if IsCounter(declared, id) then past + CounterReadings(samples, id) else [])
  {
    if samples == [] {
      assert past + [] == past;
    } else {
      FoldedRemembersLast(previous, declared, samples[..|samples| - 1], id, past);
    }
  }

  /** The one remembered reading of a series is the latest of all its readings since the last break. */
  lemma {:induction false} BaselineIsLatestReading(events: seq<Event>, id: SeriesId)
    ensures RemembersLast(Memory(events), id, Readings(events, id))
  {
    if events != [] && events[|events| - 1].Tick? {
      var n := |events| - 1;
      var Tick(descriptors, samples) := events[n];
      BaselineIsLatestReading(events[..n], id);
      var byId := ById(descriptors);
      var before := Memory(events[..n]);
      RetainedRemembers(before, byId, id, Readings(events[..n], id));
      FoldedRemembersLast(Retained(before, byId), byId, samples, id,
                          if IsCounter(byId, id) then Readings(events[..n], id) else []);
    }
  }

  /** One remembered reading is enough: every tick yields exactly what the whole history dictates. */
  lemma {:induction false} OneReadingIsEnough(events: seq<Event>, descriptors: seq<SeriesDescriptor>, samples: seq<Sample>)
    ensures Processed(Memory(events), descriptors, samples).1 == HonestOutput(events, descriptors, samples, |samples|)
  {
    OneReadingIsEnoughUpTo(events, descriptors, samples, |samples|);
    assert samples[..|samples|] == samples;
  }

  lemma EmissionIsHonest(
      previous: Baselines, events: seq<Event>, descriptors: seq<SeriesDescriptor>, samples: seq<Sample>, k: nat)
    requires k < |samples|
    requires RemembersLast(previous, samples[k].series,
                           Readings(events + [Tick(descriptors, samples[..k])], samples[k].series))
    ensures ProcessOne(previous, ById(descriptors), samples[k]).1 == HonestEmission(events, descriptors, samples, k)
  {
  }

  lemma FoldedSnoc(previous: Baselines, declared: map<SeriesId, SeriesDescriptor>, samples: seq<Sample>, k: nat)
    requires k < |samples|
    ensures var (before, out) := Folded(previous, declared, samples[..k]);
      var (after, more) := ProcessOne(before, declared, samples[k]);
      Folded(previous, declared, samples[..k + 1]) == (after, out + more)
  {
    assert samples[..k + 1][..k] == samples[..k];
  }

  lemma {:induction false} OneReadingIsEnoughUpTo(
      events: seq<Event>, descriptors: seq<SeriesDescriptor>, samples: seq<Sample>, k: nat)
    requires k <= |samples|
    ensures Processed(Memory(events), descriptors, samples[..k]).1 == HonestOutput(events, descriptors, samples, k)
  {
    if k > 0 {
      OneReadingIsEnoughUpTo(events, descriptors, samples, k - 1);
      var soFar := events + [Tick(descriptors, samples[..k - 1])];
      assert soFar[..|soFar| - 1] == events;
      BaselineIsLatestReading(soFar, samples[k - 1].series);
      var memory, byId := Memory(events), ById(descriptors);
      FoldedSnoc(Retained(memory, byId), byId, samples, k - 1);
      EmissionIsHonest(Memory(soFar), events, descriptors, samples, k - 1);
    }
  }

  // ---------------------------------------------------------------------------------------
  // Conservation

  /** The engine's output for one series over a run. */
  function Emitted(events: seq<Event>, id: SeriesId): seq<Sample> {
    if events == [] then []
    else
      var n := |events| - 1;
      match events[n]
      case Reset => Emitted(events[..n], id)
      case Tick(descriptors, samples) =>
        Emitted(events[..n], id) + Only(Processed(Memory(events[..n]), descriptors, samples).1, id)
  }

  function Only(samples: seq<Sample>, id: SeriesId): seq<Sample> {
    if samples == [] then []
    else
      var n := |samples| - 1;
      Only(samples[..n], id) + if samples[n].series == id then [samples[n]] else []
  }

  lemma OnlyAppend(samples: seq<Sample>, more: seq<Sample>, id: SeriesId)
    requires |more| <= 1
    ensures Only(samples + more, id) == Only(samples, id) + if |more| == 1 && more[0].series == id then more else []
  {
    if |more| == 1 {
      assert (samples + more)[..|samples|] == samples;
    } else {
      assert samples + more == samples;
    }
  }

  ghost predicate DeclaredThroughout(events: seq<Event>, id: SeriesId, scale: real) {
    forall n :: 0 <= n < |events| ==>
      events[n].Tick? && IsCounter(ById(events[n].descriptors), id) && ById(events[n].descriptors)[id].scale == scale
  }

  /** Time strictly advances and the counter never goes back. */
  ghost predicate WellBehaved(readings: seq<Reading>) {
    forall a, b :: 0 <= a < b < |readings| ==> readings[a].atMs < readings[b].atMs && readings[a].raw <= readings[b].raw
  }

  /** The rates between consecutive readings, where there is one. */
  function Rates(readings: seq<Reading>, id: SeriesId, scale: real): seq<Sample> {
    if |readings| <= 1 then []
    else
      var n := |readings| - 1;
      var rate := Differentiate(readings[n - 1], readings[n], id, scale);
      Rates(readings[..n], id, scale) + if rate.Some? then [rate.value] else []
  }

  lemma WellBehavedPrefix(readings: seq<Reading>, n: nat)
    requires WellBehaved(readings) && n <= |readings|
    ensures WellBehaved(readings[..n])
  {
    forall a, b | 0 <= a < b < n
      ensures readings[..n][a].atMs < readings[..n][b].atMs && readings[..n][a].raw <= readings[..n][b].raw
    {
      assert readings[a].atMs < readings[b].atMs;
    }
  }

  /** One sample adds at most one rate: the one from the last reading to this one. */
  lemma OneMoreRate(
      previous: Baselines, declared: map<SeriesId, SeriesDescriptor>, sample: Sample, id: SeriesId,
      past: seq<Reading>, all: seq<Reading>)
    requires RemembersLast(previous, id, past) && IsCounter(declared, id)
    requires all == past + CounterReadings([sample], id)
    ensures var more := ProcessOne(previous, declared, sample).1;
      && |more| <= 1
      && Rates(all, id, declared[id].scale)
         == Rates(past, id, declared[id].scale) + if |more| == 1 && more[0].series == id then more else []
  {
    assert CounterReadings([sample][..0], id) == [];
    if |all| == |past| + 1 && past != [] {
      assert all[..|past|] == past;
    } else {
      assert all == past || past == [];
    }
  }

  lemma {:induction false} FoldedEmitsRates(
      previous: Baselines, declared: map<SeriesId, SeriesDescriptor>, samples: seq<Sample>, id: SeriesId, past: seq<Reading>)
    requires RemembersLast(previous, id, past) && IsCounter(declared, id)
    ensures Rates(past, id, declared[id].scale) + Only(Folded(previous, declared, samples).1, id)
         == Rates(past + CounterReadings(samples, id), id, declared[id].scale)
  {
    if samples == [] {
      assert past + [] == past;
    } else {
      var n := |samples| - 1;
      var init := past + CounterReadings(samples[..n], id);
      FoldedEmitsRates(previous, declared, samples[..n], id, past);
      FoldedRemembersLast(previous, declared, samples[..n], id, past);
      var (before, out) := Folded(previous, declared, samples[..n]);
      var more := ProcessOne(before, declared, samples[n]).1;
      CounterReadingsSnoc(samples, id, past);
      OneMoreRate(before, declared, samples[n], id, init, past + CounterReadings(samples, id));
      OnlyAppend(out, more, id);
      var added := if |more| == 1 && more[0].series == id then more else [];
      var scale := declared[id].scale;
      Associative(Rates(past, id, scale), Only(out, id), added);
    }
  }

  lemma CounterReadingsSnoc(samples: seq<Sample>, id: SeriesId, past: seq<Reading>)
    requires samples != []
    ensures var n := |samples| - 1;
      past + CounterReadings(samples, id) == past + CounterReadings(samples[..n], id) + CounterReadings([samples[n]], id)
  {
    assert CounterReadings([samples[|samples| - 1]][..0], id) == [];
  }

  lemma TickEmitsRates(
      previous: Baselines, descriptors: seq<SeriesDescriptor>, samples: seq<Sample>, id: SeriesId, past: seq<Reading>, scale: real)
    requires RemembersLast(previous, id, past)
    requires IsCounter(ById(descriptors), id) && ById(descriptors)[id].scale == scale
    ensures Rates(past, id, scale) + Only(Processed(previous, descriptors, samples).1, id)
         == Rates(past + CounterReadings(samples, id), id, scale)
  {
    var byId := ById(descriptors);
    RetainedRemembers(previous, byId, id, past);
    FoldedEmitsRates(Retained(previous, byId), byId, samples, id, past);
  }

  /** A continuously declared counter yields the rates between its consecutive readings, and nothing else. */
  lemma {:induction false} EmittedAreTheRates(events: seq<Event>, id: SeriesId, scale: real)
    requires DeclaredThroughout(events, id, scale)
    ensures Emitted(events, id) == Rates(Readings(events, id), id, scale)
  {
    if events != [] {
      var n := |events| - 1;
      assert events[n].Tick?;
      EmittedAreTheRates(events[..n], id, scale);
      BaselineIsLatestReading(events[..n], id);
      TickEmitsRates(Memory(events[..n]), events[n].descriptors, events[n].samples, id, Readings(events[..n], id), scale);
    }
  }

  /** At most one reading of each counter. */
  ghost predicate OneReadingEach(declared: map<SeriesId, SeriesDescriptor>, samples: seq<Sample>) {
    forall i, j :: 0 <= i < j < |samples| && IsCounter(declared, samples[i].series) ==> samples[i].series != samples[j].series
  }

  /** The samples that are passed on as they came. */
  function Gauges(declared: map<SeriesId, SeriesDescriptor>, samples: seq<Sample>): seq<Sample> {
    if samples == [] then []
    else
      var n := |samples| - 1;
      var earlier := Gauges(declared, samples[..n]);
      if samples[n].series in declared && declared[samples[n].series].kind != Counter then earlier + [samples[n]] else earlier
  }

  lemma {:induction false} FoldedWithoutHistory(declared: map<SeriesId, SeriesDescriptor>, samples: seq<Sample>)
    requires OneReadingEach(declared, samples)
    ensures Folded(map[], declared, samples).1 == Gauges(declared, samples)
    ensures forall id :: id in Folded(map[], declared, samples).0 ==> exists i :: 0 <= i < |samples| && samples[i].series == id
  {
    if samples != [] {
      var n := |samples| - 1;
      FoldedWithoutHistory(declared, samples[..n]);
      var before := Folded(map[], declared, samples[..n]).0;
      assert IsCounter(declared, samples[n].series) ==> samples[n].series !in before;
      forall id | id in Folded(map[], declared, samples).0 ensures exists i :: 0 <= i < |samples| && samples[i].series == id {
        if id in before {
          var i :| 0 <= i < n && samples[..n][i].series == id;
          assert samples[i].series == id;
        }
      }
    }
  }

  /** With nothing remembered, a tick with one reading per counter carries no rate at all. */
  lemma FirstTickHasNoRates(descriptors: seq<SeriesDescriptor>, samples: seq<Sample>)
    requires OneReadingEach(ById(descriptors), samples)
    ensures Processed(map[], descriptors, samples).1 == Gauges(ById(descriptors), samples)
  {
    assert Retained(map[], ById(descriptors)) == map[];
    FoldedWithoutHistory(ById(descriptors), samples);
  }

  function SecondsBetween(before: Reading, after: Reading): real {
    SaturatingSubI64(after.atMs, before.atMs) as real / 1000.0
  }

  ghost predicate AllFinite(rates: seq<Sample>) {
    forall k :: 0 <= k < |rates| ==> rates[k].value.Float? && rates[k].value.f.Finite?
  }

  /** What one rate says the counter gained: value times elapsed seconds over scale. */
  function Piece(before: Reading, after: Reading, rate: Sample, scale: real): real
    requires rate.value.Float? && rate.value.f.Finite? && scale != 0.0
  {
    rate.value.f.r * SecondsBetween(before, after) / scale
  }

  /** Emitted value times elapsed seconds over scale, summed. */
  ghost function Recovered(readings: seq<Reading>, rates: seq<Sample>, scale: real): real
    requires |rates| == if readings == [] then 0 else |readings| - 1
    requires AllFinite(rates) && scale != 0.0
  {
    if rates == [] then 0.0
    else
      var n := |rates|;
      Recovered(readings[..n], rates[..n - 1], scale)
      + Piece(readings[n - 1], readings[n], rates[n - 1], scale)
  }

  lemma RateTimesTime(increase: real, seconds: real, scale: real)
    requires seconds > 0.0 && scale != 0.0
    ensures increase / seconds * scale * seconds / scale == increase
  {
    var q := increase / seconds;
    assert q * seconds == increase;
    assert q * scale * seconds == increase * scale;
    assert increase * scale / scale == increase;
  }

  lemma ScaledIncrease(increase: real, seconds: real, scale: real)
    requires seconds > 0.0
    ensures increase / seconds * scale * seconds == increase * scale
  {
    var q := increase / seconds;
    assert q * seconds == increase;
    assert q * scale * seconds == q * seconds * scale;
  }

  /** The sample is a double whose product with the seconds is the increase times the scale. */
  predicate Measures(rate: Sample, seconds: real, increase: real, scale: real) {
    rate.value.Float? && rate.value.f.Finite? && rate.value.f.r * seconds == increase * scale
  }

  /**
   A rate is given exactly when time advanced and the counter did not go back, at the time of the
   later reading; over the measured seconds it accounts for the increase, scaled.
   */
  lemma RateIsHonest(before: Reading, after: Reading, id: SeriesId, scale: real)
    ensures var rate := Differentiate(before, after, id, scale);
      && (rate.Some? <==> before.atMs < after.atMs && before.raw <= after.raw)
      && (rate.Some? ==>
            && rate.value.series == id && rate.value.atMs == after.atMs
            && Measures(rate.value, SecondsBetween(before, after), (after.raw - before.raw) as real, scale))
  {
    if before.atMs < after.atMs && before.raw <= after.raw {
      ScaledIncrease((after.raw - before.raw) as real, SecondsBetween(before, after), scale);
    }
  }

  /**
   A rate is what its name says: times the milliseconds between the readings it is the increase, scaled,
   per thousand. Only a span beyond 2^63 - 1 ms counts as that.
   */
  lemma RateIsPerSecond(before: Reading, after: Reading, id: SeriesId, scale: real)
    requires before.atMs < after.atMs && before.raw <= after.raw
    ensures var rate := Differentiate(before, after, id, scale);
      var elapsed := Min(after.atMs - before.atMs, 0x7fff_ffff_ffff_ffff);
      && rate.Some? && rate.value.value.Float? && rate.value.value.f.Finite?
      && rate.value.value.f.r * elapsed as real == (after.raw - before.raw) as real * scale * 1_000.0
  {
    var elapsed := Min(after.atMs - before.atMs, 0x7fff_ffff_ffff_ffff);
    RateIsHonest(before, after, id, scale);
    var r := Differentiate(before, after, id, scale).value.value.f.r;
    assert SecondsBetween(before, after) * 1_000.0 == elapsed as real;
    assert r * (SecondsBetween(before, after) * 1_000.0) == r * SecondsBetween(before, after) * 1_000.0;
  }

  lemma OneRateRecoversItsIncrease(before: Reading, after: Reading, id: SeriesId, scale: real)
    requires before.atMs < after.atMs && before.raw <= after.raw && scale != 0.0
    ensures var rate := Differentiate(before, after, id, scale);
      && rate.Some? && rate.value.value.Float? && rate.value.value.f.Finite?
      && Piece(before, after, rate.value, scale) == (after.raw - before.raw) as real
  {
    RateTimesTime((after.raw - before.raw) as real, SecondsBetween(before, after), scale);
  }

  lemma RecoveredSnoc(readings: seq<Reading>, fewer: seq<Sample>, rate: Sample, scale: real)
    requires |readings| == |fewer| + 2 && AllFinite(fewer) && scale != 0.0
    requires rate.value.Float? && rate.value.f.Finite?
    ensures AllFinite(fewer + [rate])
    ensures Recovered(readings, fewer + [rate], scale)
         == Recovered(readings[..|readings| - 1], fewer, scale)
            + Piece(readings[|readings| - 2], readings[|readings| - 1], rate, scale)
  {
    assert (fewer + [rate])[..|fewer|] == fewer;
  }

  lemma RatesSnoc(readings: seq<Reading>, id: SeriesId, scale: real)
    requires |readings| > 1 && scale != 0.0
    requires var n := |readings| - 1;
      readings[n - 1].atMs < readings[n].atMs && readings[n - 1].raw <= readings[n].raw
    requires var fewer := Rates(readings[..|readings| - 1], id, scale); |fewer| == |readings| - 2 && AllFinite(fewer)
    ensures var n := |readings| - 1; var fewer := Rates(readings[..n], id, scale); var rates := Rates(readings, id, scale);
      && |rates| == n && AllFinite(rates)
      && Recovered(readings, rates, scale)
         == Recovered(readings[..n], fewer, scale) + (readings[n].raw - readings[n - 1].raw) as real
  {
    var n := |readings| - 1;
    var rate := Differentiate(readings[n - 1], readings[n], id, scale);
    OneRateRecoversItsIncrease(readings[n - 1], readings[n], id, scale);
    RecoveredSnoc(readings, Rates(readings[..n], id, scale), rate.value, scale);
  }

  lemma {:induction false} RatesRecoverTheIncrease(readings: seq<Reading>, id: SeriesId, scale: real)
    requires WellBehaved(readings) && readings != [] && scale != 0.0
    ensures |Rates(readings, id, scale)| == |readings| - 1 && AllFinite(Rates(readings, id, scale))
    ensures Recovered(readings, Rates(readings, id, scale), scale)
         == (readings[|readings| - 1].raw - readings[0].raw) as real
  {
    if |readings| > 1 {
      var n := |readings| - 1;
      WellBehavedPrefix(readings, n);
      RatesRecoverTheIncrease(readings[..n], id, scale);
      assert readings[n - 1].atMs < readings[n].atMs;
      RatesSnoc(readings, id, scale);
    }
  }

  /**
   Rates conserve the counter: along any run that keeps declaring it, the engine's output times the
   measured time, over the scale, adds up to the last raw reading minus the first.
   */
  lemma RatesConserveTheCounter(events: seq<Event>, id: SeriesId, scale: real)
    requires DeclaredThroughout(events, id, scale) && scale != 0.0
    requires WellBehaved(Readings(events, id)) && Readings(events, id) != []
    ensures var readings := Readings(events, id);
      && |Emitted(events, id)| == |readings| - 1
      && AllFinite(Emitted(events, id))
      && Recovered(readings, Emitted(events, id), scale) == (readings[|readings| - 1].raw - readings[0].raw) as real
  {
    EmittedAreTheRates(events, id, scale);
    RatesRecoverTheIncrease(Readings(events, id), id, scale);
  }

  // ---------------------------------------------------------------------------------------
  // In the numbers the samples carry

  /** The samples of one series over a run. */
  function Given(events: seq<Event>, id: SeriesId): seq<Sample> {
    if events == [] then []
    else
      var n := |events| - 1;
      Given(events[..n], id) + if events[n].Tick? then Only(events[n].samples, id) else []
  }

  predicate IsNatural(v: Value) {
    v.Uint? || (v.Int? && v.i >= 0)
  }

  function NumberOf(v: Value): nat
    requires IsNatural(v)
  {
    if v.Uint? then v.u else v.i
  }

  ghost predicate AllNatural(samples: seq<Sample>) {
    forall k :: 0 <= k < |samples| ==> IsNatural(samples[k].value)
  }

  /** The readings are these samples, taken at face value. */
  ghost predicate AtFaceValue(readings: seq<Reading>, samples: seq<Sample>)
    requires AllNatural(samples)
  {
    && |readings| == |samples|
    && forall k :: 0 <= k < |samples| ==>
         readings[k].atMs == samples[k].atMs && readings[k].raw == NumberOf(samples[k].value)
  }

  lemma {:induction false} NaturalsAreRead(samples: seq<Sample>, id: SeriesId)
    requires AllNatural(Only(samples, id))
    ensures AtFaceValue(CounterReadings(samples, id), Only(samples, id))
  {
    if samples != [] {
      var n := |samples| - 1;
      assert forall k :: 0 <= k < |Only(samples[..n], id)| ==> Only(samples[..n], id)[k] == Only(samples, id)[k];
      assert samples[n].series == id ==> Only(samples, id)[|Only(samples[..n], id)|] == samples[n];
      NaturalsAreRead(samples[..n], id);
    }
  }

  lemma {:induction false} RunsAreRead(events: seq<Event>, id: SeriesId, scale: real)
    requires DeclaredThroughout(events, id, scale) && AllNatural(Given(events, id))
    ensures AtFaceValue(Readings(events, id), Given(events, id))
  {
    if events != [] {
      var n := |events| - 1;
      var earlier, now := Given(events[..n], id), Only(events[n].samples, id);
      assert events[n].Tick? && Given(events, id) == earlier + now;
      NaturalParts(earlier, now);
      RunsAreRead(events[..n], id, scale);
      NaturalsAreRead(events[n].samples, id);
      FaceValueConcat(Readings(events[..n], id), earlier, CounterReadings(events[n].samples, id), now);
    }
  }

  lemma NaturalParts(a: seq<Sample>, b: seq<Sample>)
    requires AllNatural(a + b)
    ensures AllNatural(a) && AllNatural(b)
  {
    assert forall k :: 0 <= k < |a| ==> a[k] == (a + b)[k];
    assert forall k :: 0 <= k < |b| ==> b[k] == (a + b)[|a| + k];
  }

  lemma FaceValueConcat(r: seq<Reading>, a: seq<Sample>, s: seq<Reading>, b: seq<Sample>)
    requires AllNatural(a) && AllNatural(b) && AtFaceValue(r, a) && AtFaceValue(s, b)
    ensures AllNatural(a + b) && AtFaceValue(r + s, a + b)
  {
  }

  /** The samples come at strictly later times, and their numbers never go back. */
  ghost predicate Advancing(samples: seq<Sample>)
    requires AllNatural(samples)
  {
    forall a, b :: 0 <= a < b < |samples| ==>
      samples[a].atMs < samples[b].atMs && NumberOf(samples[a].value) <= NumberOf(samples[b].value)
  }

  /** What one rate says was gained between two samples. */
  function Gain(a: Sample, b: Sample, rate: Sample, scale: real): real
    requires rate.value.Float? && rate.value.f.Finite? && scale != 0.0
  {
    rate.value.f.r * (Min(b.atMs - a.atMs, I64_MAX) as real / 1_000.0) / scale
  }

  /** Each rate times the seconds between the samples it lies between, over the scale, summed. */
  ghost function Regained(samples: seq<Sample>, rates: seq<Sample>, scale: real): real
    requires |rates| == if samples == [] then 0 else |samples| - 1
    requires AllFinite(rates) && scale != 0.0
  {
    if rates == [] then 0.0
    else
      var n := |rates|;
      Regained(samples[..n], rates[..n - 1], scale)
      + Gain(samples[n - 1], samples[n], rates[n - 1], scale)
  }

  lemma AdvancingPrefix(samples: seq<Sample>, n: nat)
    requires AllNatural(samples) && Advancing(samples) && 0 < n < |samples|
    ensures AllNatural(samples[..n]) && Advancing(samples[..n]) && samples[n - 1].atMs < samples[n].atMs
  {
    forall a, b | 0 <= a < b < n
      ensures samples[..n][a].atMs < samples[..n][b].atMs
      ensures NumberOf(samples[..n][a].value) <= NumberOf(samples[..n][b].value)
    {
      assert samples[a].atMs < samples[b].atMs;
    }
  }

  lemma GainAtFaceValue(a: Sample, b: Sample, before: Reading, after: Reading, rate: Sample, scale: real)
    requires a.atMs == before.atMs < after.atMs == b.atMs
    requires rate.value.Float? && rate.value.f.Finite? && scale != 0.0
    ensures Gain(a, b, rate, scale) == Piece(before, after, rate, scale)
  {
    assert SecondsBetween(before, after) == Min(b.atMs - a.atMs, I64_MAX) as real / 1_000.0;
  }

  lemma {:induction false} RegainedIsRecovered(samples: seq<Sample>, readings: seq<Reading>, rates: seq<Sample>, scale: real)
    requires AllNatural(samples) && Advancing(samples) && AtFaceValue(readings, samples)
    requires |rates| == if samples == [] then 0 else |samples| - 1
    requires AllFinite(rates) && scale != 0.0
    ensures Regained(samples, rates, scale) == Recovered(readings, rates, scale)
  {
    if rates != [] {
      var n := |rates|;
      AdvancingPrefix(samples, n);
      RegainedIsRecovered(samples[..n], readings[..n], rates[..n - 1], scale);
      GainAtFaceValue(samples[n - 1], samples[n], readings[n - 1], readings[n], rates[n - 1], scale);
    }
  }

  /**
   Rates conserve the counter's own numbers: over a run that keeps declaring a counter and samples it in
   naturals, signed or not, what the engine emits adds up to the last number sampled minus the first.
   */
  lemma RatesConserveTheSamples(events: seq<Event>, id: SeriesId, scale: real)
    requires DeclaredThroughout(events, id, scale) && scale != 0.0
    requires var given := Given(events, id); given != [] && AllNatural(given) && Advancing(given)
    ensures var given, rates := Given(events, id), Emitted(events, id);
      && |rates| == |given| - 1 && AllFinite(rates)
      && Regained(given, rates, scale)
         == (NumberOf(given[|given| - 1].value) - NumberOf(given[0].value)) as real
  {
    var given, readings := Given(events, id), Readings(events, id);
    RunsAreRead(events, id, scale);
    forall a, b | 0 <= a < b < |readings|
      ensures readings[a].atMs < readings[b].atMs && readings[a].raw <= readings[b].raw
    {
      assert given[a].atMs < given[b].atMs;
    }
    RatesConserveTheCounter(events, id, scale);
    RegainedIsRecovered(given, readings, Emitted(events, id), scale);
  }
}
