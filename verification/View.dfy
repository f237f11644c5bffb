/** What the screens show of one host, assembled from its store. */
module View {
  import opened Common
  import opened Connection
  import opened Model
  import opened Plain
  import opened Sorting
  import opened Store
  import opened Text

  datatype DetailGroup = DetailGroup(title: string, gauges: seq<MetricGauge>)

  datatype TargetSnapshot = TargetSnapshot(
    state: ConnectionState,
    gauges: seq<MetricGauge>,
    detailGroups: seq<DetailGroup>,
    health: HostHealth)

  /** What a snapshot is built from; `order` is the order the store's hash map happens to iterate in. */
  datatype Reading = Reading(contents: Contents, order: seq<SeriesId>, host: Option<EntityId>)

  const HEADLINE: seq<string> :=
    ["cpu_usage", "mem_usage", "disk_usage", "swap_usage", "cpu_temp", "load1", "net_rx", "net_tx", "uptime"]

  const DETAIL_ORDER: seq<string> :=
    ["cpu_user", "cpu_system", "cpu_iowait", "cpu_steal", "ctx_switches", "procs_running", "procs_blocked",
     "mem_total", "mem_used", "mem_available", "mem_free", "mem_cached", "mem_buffers", "swap_total", "swap_used",
     "load1", "load5", "load15", "procs_total", "uptime",
     "cpu_temp",
     "disk_read", "disk_write", "net_rx", "net_tx",
     "sockets", "tcp_established", "tcp_inuse", "tcp_timewait", "tcp_orphan", "udp_inuse",
     "tcp_in_segs", "tcp_out_segs", "tcp_retrans", "tcp_active_opens", "tcp_passive_opens"]

  /** Position of a metric in a list, with everything unlisted after the end. */
  function Position(list: seq<string>, metric: string): nat {
    if list == [] || list[0] == metric then 0 else 1 + Position(list[1..], metric)
  }

  function HeadlineRank(metric: string): nat {
    Position(HEADLINE, metric)
  }

  predicate IsHeadline(metric: string) {
    metric in HEADLINE
  }

  function DetailRank(metric: string): nat {
    Position(DETAIL_ORDER, metric)
  }

  /** The section a collector's series go under, if they are listed at all. */
  function GroupTitle(source: SourceId): Option<string> {
    match source.text
    case "proc.cpu" => Some("CPU")
    case "proc.memory" => Some("Memory")
    case "proc.load" => Some("Load & processes")
    case "proc.diskio" => Some("Disk I/O")
    case "proc.network" => Some("Network totals")
    case "proc.tcp" => Some("Sockets & TCP")
    case "sys.sensors" => None
    case "proc.filesystem" => None
    case _ => Some("Other")
  }

  // ---------------------------------------------------------------------------------------
  // One gauge

  function Graded(fraction: real, warn: real, bad: real): Severity {
    if fraction >= bad then Critical else if fraction >= warn then Strained else Comfortable
  }

  function Clamp01(x: real): real {
    if x < 0.0 then 0.0 else if x > 1.0 then 1.0 else x
  }

  function SeverityOf(unit: Unit, value: real, max: Option<real>): Severity {
    if unit == Celsius then
      if max.Some? && max.value > 0.0 then Graded(value / max.value, 0.85, 0.95) else Graded(value, 80.0, 90.0)
    else if max.Some? && max.value > 0.0 then Graded(Clamp01(value / max.value), 0.60, 0.85)
    else NotAProportion
  }

  function Values(points: seq<Point>): (values: seq<real>)
    ensures |values| == |points| && forall k :: 0 <= k < |points| ==> values[k] == points[k].value
  {
    seq(|points|, k requires 0 <= k < |points| => points[k].value)
  }

  /** Text series and series without a point draw no gauge. */
  function GaugeFrom(c: Contents, d: SeriesDescriptor): Option<MetricGauge> {
    if d.kind == Info then None
    else
      match Latest(c.history, d.id)
      case None => None
      case Some(latest) =>
        Some(MetricGauge(d.id, d.metric, d.display, latest.value, d.DisplayMax(), d.EffectiveUnit(),
                         Values(HistoryOf(c.history, d.id)),
                         SeverityOf(d.EffectiveUnit(), latest.value, d.DisplayMax())))
  }

  /** `gauge_from` */
  method DrawGauge(store: LiveStore, d: SeriesDescriptor) returns (gauge: Option<MetricGauge>)
    ensures gauge == GaugeFrom(store.View(), d)
  {
    if d.kind == Info {
      return None;
    }
    var latest := store.LatestOf(d.id);
    if latest == None {
      return None;
    }
    var unit, max, points := d.EffectiveUnit(), d.DisplayMax(), store.HistoryVec(d.id);
    return Some(MetricGauge(d.id, d.metric, d.display, latest.value.value, max, unit, Values(points),
                            SeverityOf(unit, latest.value.value, max)));
  }

  // ---------------------------------------------------------------------------------------
  // The series of one entity

  function Declared(c: Contents, entity: EntityId): SeriesId -> Option<SeriesDescriptor> {
    id => if id in c.descriptors && c.descriptors[id].entity == entity then Some(c.descriptors[id]) else None
  }

  function ByMetric(): (SeriesDescriptor, SeriesDescriptor) -> bool {
    (a: SeriesDescriptor, b: SeriesDescriptor) => TextLe(a.metric, b.metric)
  }

  function SeriesFor(c: Contents, order: seq<SeriesId>, entity: EntityId): seq<SeriesDescriptor> {
    Sorted(FilterMap(order, Declared(c, entity)), ByMetric())
  }

  // ---------------------------------------------------------------------------------------
  // The headline grid

  function HeadlineGauge(c: Contents): SeriesDescriptor -> Option<MetricGauge> {
    (d: SeriesDescriptor) => if IsHeadline(d.metric) then GaugeFrom(c, d) else None
  }

  function ByHeadline(): (MetricGauge, MetricGauge) -> bool {
    (a: MetricGauge, b: MetricGauge) => HeadlineRank(a.metric) <= HeadlineRank(b.metric)
  }

  function HostGauges(c: Contents, series: seq<SeriesDescriptor>): seq<MetricGauge> {
    Sorted(FilterMap(series, HeadlineGauge(c)), ByHeadline())
  }

  // ---------------------------------------------------------------------------------------
  // The detail groups

  datatype Entry = Entry(title: string, gauge: MetricGauge)

  /** The group and gauge a series contributes, if it is not a headline and is listed at all. */
  function DetailEntry(c: Contents): SeriesDescriptor -> Option<Entry> {
    (d: SeriesDescriptor) =>
      if IsHeadline(d.metric) || GroupTitle(d.source) == None || GaugeFrom(c, d) == None then None
      else Some(Entry(GroupTitle(d.source).value, GaugeFrom(c, d).value))
  }

  function TitleOf(): DetailGroup -> string {
    (g: DetailGroup) => g.title
  }

  /** Into the group of its title, which is opened if there is none. */
  function WithEntry(groups: seq<DetailGroup>, entry: Entry): seq<DetailGroup> {
    var k := FirstAt(groups, TitleOf(), entry.title);
    if k < |groups| then groups[k := DetailGroup(groups[k].title, groups[k].gauges + [entry.gauge])]
    else groups + [DetailGroup(entry.title, [entry.gauge])]
  }

  function Gathered(entries: seq<Entry>): seq<DetailGroup> {
    if entries == [] then []
    else
      var n := |entries| - 1;
      WithEntry(Gathered(entries[..n]), entries[n])
  }

  function ByDetail(): (MetricGauge, MetricGauge) -> bool {
    (a: MetricGauge, b: MetricGauge) =>
      DetailRank(a.metric) < DetailRank(b.metric)
      || (DetailRank(a.metric) == DetailRank(b.metric) && TextLe(a.metric, b.metric))
  }

  function Arranged(group: DetailGroup): DetailGroup {
    DetailGroup(group.title, Sorted(group.gauges, ByDetail()))
  }

  function EachArranged(groups: seq<DetailGroup>): (r: seq<DetailGroup>)
    ensures |r| == |groups| && forall k :: 0 <= k < |groups| ==> r[k] == Arranged(groups[k])
  {
    seq(|groups|, k requires 0 <= k < |groups| => Arranged(groups[k]))
  }

  /** `usize::MAX` for a group without gauges. */
  function FirstRank(group: DetailGroup): nat {
    if group.gauges == [] then U64_MAX else DetailRank(group.gauges[0].metric)
  }

  function ByFirstRank(): (DetailGroup, DetailGroup) -> bool {
    (a: DetailGroup, b: DetailGroup) => FirstRank(a) <= FirstRank(b)
  }

  function HostDetails(c: Contents, series: seq<SeriesDescriptor>): seq<DetailGroup> {
    Sorted(EachArranged(Gathered(FilterMap(series, DetailEntry(c)))), ByFirstRank())
  }

  /** `host_gauges`: filter, convert, then sort in place. */
  method ShowHeadline(store: LiveStore, order: seq<SeriesId>, host: EntityId) returns (gauges: seq<MetricGauge>)
    ensures gauges == HostGauges(store.View(), SeriesFor(store.View(), order, host))
  {
    var c := store.View();
    var series := SeriesFor(c, order, host);
    gauges := [];
    assert series[..0] == [];
    for n := 0 to |series|
      invariant gauges == FilterMap(series[..n], HeadlineGauge(c))
    {
      FilterMapSnoc(series, HeadlineGauge(c), n);
      if IsHeadline(series[n].metric) {
        var gauge := DrawGauge(store, series[n]);
        if gauge.Some? {
          gauges := gauges + [gauge.value];
        }
      }
    }
    assert series[..|series|] == series;
    gauges := Sorted(gauges, ByHeadline());
  }

  /** `host_details`: one pass that files every gauge, then a sort of each group and of the groups. */
  method ShowDetails(store: LiveStore, order: seq<SeriesId>, host: EntityId) returns (groups: seq<DetailGroup>)
    ensures groups == HostDetails(store.View(), SeriesFor(store.View(), order, host))
  {
    var c := store.View();
    groups := FileDetails(store, SeriesFor(c, order, host));
    groups := ArrangeGroups(groups);
    groups := Sorted(groups, ByFirstRank());
  }

  method FileDetails(store: LiveStore, series: seq<SeriesDescriptor>) returns (groups: seq<DetailGroup>)
    ensures groups == Gathered(FilterMap(series, DetailEntry(store.View())))
  {
    ghost var c := store.View();
    groups := [];
    assert series[..0] == [];
    for n := 0 to |series|
      invariant groups == Gathered(FilterMap(series[..n], DetailEntry(c)))
    {
      FilterMapSnoc(series, DetailEntry(c), n);
      GatheredSnoc(FilterMap(series[..n], DetailEntry(c)));
      var descriptor := series[n];
      if IsHeadline(descriptor.metric) {
        continue;
      }
      var title := GroupTitle(descriptor.source);
      if title == None {
        continue;
      }
      var gauge := DrawGauge(store, descriptor);
      if gauge == None {
        continue;
      }
      var k := FirstAt(groups, TitleOf(), title.value);
      if k < |groups| {
        groups := groups[k := DetailGroup(groups[k].title, groups[k].gauges + [gauge.value])];
      } else {
        groups := groups + [DetailGroup(title.value, [gauge.value])];
      }
    }
    assert series[..|series|] == series;
  }

  method ArrangeGroups(gathered: seq<DetailGroup>) returns (groups: seq<DetailGroup>)
    ensures groups == EachArranged(gathered)
  {
    groups := gathered;
    for k := 0 to |groups|
      invariant |groups| == |gathered|
      invariant forall j :: 0 <= j < k ==> groups[j] == Arranged(gathered[j])
      invariant forall j :: k <= j < |groups| ==> groups[j] == gathered[j]
    {
      groups := groups[k := DetailGroup(groups[k].title, Sorted(groups[k].gauges, ByDetail()))];
    }
    assert groups == EachArranged(gathered);
  }

  lemma GatheredSnoc(entries: seq<Entry>)
    ensures forall entry: Entry :: Gathered(entries + [entry]) == WithEntry(Gathered(entries), entry)
  {
    forall entry: Entry ensures Gathered(entries + [entry]) == WithEntry(Gathered(entries), entry) {
      assert (entries + [entry])[..|entries|] == entries;
    }
  }

  // ---------------------------------------------------------------------------------------
  // Snapshots

  function FlatGauges(groups: seq<DetailGroup>): seq<MetricGauge> {
    if groups == [] then [] else groups[0].gauges + FlatGauges(groups[1..])
  }

  /** Everything a snapshot shows, headline first: what the verdict is judged on. */
  function AllGauges(s: TargetSnapshot): seq<MetricGauge> {
    s.gauges + FlatGauges(s.detailGroups)
  }

  /** The verdict shown is the one this very state and these very readings deserve. */
  ghost predicate SelfConsistent(s: TargetSnapshot) {
    s.health == Assess(s.state, AllGauges(s), AllGauges(s) != [])
  }

  function SetState(s: TargetSnapshot, state: ConnectionState): (r: TargetSnapshot)
    ensures r.state == state && r.gauges == s.gauges && r.detailGroups == s.detailGroups
    ensures SelfConsistent(r)
  {
    var all := AllGauges(s);
    s.(health := Assess(state, all, all != []), state := state)
  }

  function Placeholder(state: ConnectionState): (r: TargetSnapshot)
    ensures r.state == state && AllGauges(r) == [] && SelfConsistent(r)
  {
    TargetSnapshot(state, [], [], Assess(state, [], false))
  }

  function BuildSnapshot(reading: Reading, state: ConnectionState): (r: TargetSnapshot)
    ensures r.state == state
  {
    var c := reading.contents;
    var series := if reading.host.Some? then SeriesFor(c, reading.order, reading.host.value) else [];
    var gauges := if reading.host.Some? then HostGauges(c, series) else [];
    var details := if reading.host.Some? then HostDetails(c, series) else [];
    var all := gauges + FlatGauges(details);
    TargetSnapshot(state, gauges, details, Assess(state, all, all != []))
  }
}
