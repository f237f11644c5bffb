/** Entities, series and readings: what the collectors produce and everything else consumes. */
module Model {
  import opened Common

  datatype EntityId = EntityId(text: string)
  datatype SeriesId = SeriesId(text: string)
  datatype SourceId = SourceId(text: string)

  /** A double, with finite values taken as exact reals. */
  datatype F64 = Finite(r: real) | PosInf | NegInf | NaN

  datatype Value =
    | Float(f: F64)
    | Int(i: I64)
    | Uint(u: U64)
    | Bool(b: bool)
    | Text(text: string)
  {
    function AsF64(): Option<F64> {
      match this
      case Float(f) => Some(f)
      case Int(i) => Some(Finite(i as real))
      case Uint(u) => Some(Finite(u as real))
      case Bool(b) => Some(Finite(if b then 1.0 else 0.0))
      case Text(_) => None
    }

    /** Only unsigned readings qualify as counters. */
    function AsCounter(): Option<U64> {
      match this
      case Uint(u) => Some(u)
      case Int(i) => if i >= 0 then Some(i) else None
      case _ => None
    }
  }

  /** The number a reading stands for: text has none, and neither have infinities and NaN. */
  ghost predicate Denotes(v: Value, r: real) {
    || v == Float(Finite(r))
    || (v.Int? && v.i as real == r)
    || (v.Uint? && v.u as real == r)
    || (v.Bool? && r == if v.b then 1.0 else 0.0)
  }

  /** What charts as a number is exactly what stands for one. */
  lemma NumbersChart(v: Value, r: real)
    ensures v.AsF64() == Some(Finite(r)) <==> Denotes(v, r)
    ensures v.AsF64() == None <==> v.Text?
  {
  }

  /** Counters are the whole numbers that are not negative, whichever way they are signed, and read as they are charted. */
  lemma CountersAreNaturals(v: Value)
    ensures v.AsCounter().Some? <==> v.Uint? || (v.Int? && v.i >= 0)
    ensures v.AsCounter().Some? ==> Denotes(v, v.AsCounter().value as real)
    ensures v.AsCounter().Some? ==> v.AsF64() == Some(Finite(v.AsCounter().value as real))
  {
  }

  datatype SeriesKind = Gauge | Counter | State | Info

  datatype Unit =
    | Percent | Ratio | Bytes | BytesPerSecond | Bits | BitsPerSecond | Packets | PacketsPerSecond
    | Count | CountPerSecond | Operations | OperationsPerSecond | Seconds | Milliseconds | Celsius
    | Watts | Volts | Amperes | Hertz | Rpm | NoUnit
  {
    function NaturalMax(): Option<real> {
      match this
      case Percent => Some(100.0)
      case Ratio => Some(1.0)
      case _ => None
    }

    function PerSecond(): Unit {
      match this
      case Bytes => BytesPerSecond
      case Bits => BitsPerSecond
      case Packets => PacketsPerSecond
      case Count => CountPerSecond
      case Operations => OperationsPerSecond
      case _ => this
    }
  }

  /** A unit that counts something up has a unit of its own per second; the others are left as they are. */
  lemma RatesHaveUnits(u: Unit)
    ensures u.PerSecond().PerSecond() == u.PerSecond()
    ensures u.PerSecond() == u <==> u !in [Bytes, Bits, Packets, Count, Operations]
    ensures Bytes.PerSecond() == BytesPerSecond && Bits.PerSecond() == BitsPerSecond
    ensures Packets.PerSecond() == PacketsPerSecond && Count.PerSecond() == CountPerSecond
    ensures Operations.PerSecond() == OperationsPerSecond
  {
  }

  datatype SeriesDescriptor = SeriesDescriptor(
    id: SeriesId,
    source: SourceId,
    entity: EntityId,
    metric: string,
    display: string,
    unit: Unit,
    kind: SeriesKind,
    max: Option<real>,
    scale: real)
  {
    function DisplayMax(): Option<real> {
      if max.Some? then max else unit.NaturalMax()
    }

    /** The unit of what reaches the UI: an unscaled counter has become a rate. */
    function EffectiveUnit(): Unit {
      if kind == Counter && scale == 1.0 then unit.PerSecond() else unit
    }
  }

  /** The id of a metric on an entity, as in `host/cpu:3#usage`. */
  function SeriesOf(entity: EntityId, metric: string): SeriesId {
    SeriesId(entity.text + "#" + metric)
  }

  /** Where no entity has a `#` in its name, the id tells both the entity and the metric. */
  lemma SeriesIdsTellApart(a: EntityId, m: string, b: EntityId, n: string)
    requires '#' !in a.text && '#' !in b.text
    ensures SeriesOf(a, m) == SeriesOf(b, n) <==> a == b && m == n
  {
    var x, y := SeriesOf(a, m).text, SeriesOf(b, n).text;
    assert x[|a.text|] == '#' && y[|b.text|] == '#';
    assert x[..|a.text|] == a.text && y[..|b.text|] == b.text;
    assert x[|a.text| + 1..] == m && y[|b.text| + 1..] == n;
    if |a.text| < |b.text| {
      assert y[|a.text|] == b.text[|a.text|] && b.text[|a.text|] in b.text;
      assert x[|a.text|] != y[|a.text|];
    } else if |b.text| < |a.text| {
      assert x[|b.text|] == a.text[|b.text|] && a.text[|b.text|] in a.text;
      assert x[|b.text|] != y[|b.text|];
    }
  }

  /** The id of the usage of core 3. */
  lemma SeriesIdOfACore()
    ensures SeriesOf(EntityId("host/cpu:3"), "usage") == SeriesId("host/cpu:3#usage")
  {
  }

  /** The id says which metric of which entity this is, as it does for every descriptor the code builds. */
  predicate Built(d: SeriesDescriptor) {
    d.id == SeriesOf(d.entity, d.metric)
  }

  function GaugeSeries(source: SourceId, entity: EntityId, metric: string, display: string, unit: Unit): (d: SeriesDescriptor)
    ensures Built(d) && d.entity == entity && d.metric == metric && d.kind == Gauge
    ensures d.source == source && d.display == display && d.unit == unit && d.max == None && d.scale == 1.0
  {
    SeriesDescriptor(SeriesOf(entity, metric), source, entity, metric, display, unit, Gauge, None, 1.0)
  }

  function CounterSeries(source: SourceId, entity: EntityId, metric: string, display: string, unit: Unit): (d: SeriesDescriptor)
    ensures Built(d) && d.entity == entity && d.metric == metric && d.kind == Counter
    ensures d.source == source && d.display == display && d.unit == unit && d.max == None && d.scale == 1.0
  {
    GaugeSeries(source, entity, metric, display, unit).(kind := Counter)
  }

  function InfoSeries(source: SourceId, entity: EntityId, metric: string, display: string): (d: SeriesDescriptor)
    ensures Built(d) && d.entity == entity && d.metric == metric && d.kind == Info
    ensures d.source == source && d.display == display && d.unit == NoUnit && d.max == None && d.scale == 1.0
  {
    GaugeSeries(source, entity, metric, display, NoUnit).(kind := Info)
  }

  datatype Sample = Sample(series: SeriesId, atMs: I64, value: Value)

  datatype Entity = Entity(
    id: EntityId,
    kind: string,
    display: string,
    parent: Option<EntityId>,
    labels: map<string, string>)

  /** Descriptors by id; a later declaration of the same id wins. */
  function ById(descriptors: seq<SeriesDescriptor>): (m: map<SeriesId, SeriesDescriptor>)
    ensures forall id :: id in m <==> exists d :: d in descriptors && d.id == id
    ensures forall id :: id in m ==> m[id] in descriptors && m[id].id == id
  {
    if descriptors == [] then map[]
    else
      var last := descriptors[|descriptors| - 1];
      ById(descriptors[..|descriptors| - 1])[last.id := last]
  }

  /** The last declaration of an id is the one in force. */
  lemma {:induction false} LastDeclarationWins(descriptors: seq<SeriesDescriptor>, k: nat)
    requires k < |descriptors| && forall j :: k < j < |descriptors| ==> descriptors[j].id != descriptors[k].id
    ensures descriptors[k].id in ById(descriptors) && ById(descriptors)[descriptors[k].id] == descriptors[k]
  {
    var n := |descriptors| - 1;
    if k < n {
      LastDeclarationWins(descriptors[..n], k);
    }
  }
}
