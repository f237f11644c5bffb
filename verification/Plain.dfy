/** The verdict on a host: one level, one headline, and the numbers behind it. */
module Plain {
  import opened Common
  import opened Connection
  import opened Model

  /** One reading, ready to draw. */
  datatype MetricGauge = MetricGauge(
    seriesId: SeriesId,
    metric: string,
    display: string,
    value: real,
    max: Option<real>,
    unit: Unit,
    history: seq<real>,
    severity: Severity)

  datatype Severity = NotAProportion | Comfortable | Strained | Critical

  datatype Level = Good | Busy | Problem | Offline | Checking

  /** The facts the one-sentence detail is worded from. */
  datatype Detail =
    | Silent
    | FirstReadingPending
    | RetryingByItself
    | AdviceOn(failure: string)
    | Amount(value: real)
    | AmountOfMemory(percent: real, freeOf: Option<(real, real)>)
    | RunningFor(seconds: real)

  datatype HostHealth = HostHealth(level: Level, headline: string, detail: Detail)

  const NEARLY_FULL: real := 90.0
  const FILLING_UP: real := 80.0
  const WORKING_HARD: real := 85.0
  const STALLING: real := 20.0
  const STALLING_BADLY: real := 40.0
  const RUNNING_WARM: real := 80.0
  const OVERHEATING: real := 90.0

  /** The first gauge of a metric. */
  function ValueOf(gauges: seq<MetricGauge>, metric: string): Option<real> {
    match First(gauges, (g: MetricGauge) => g.metric, metric)
    case Some(g) => Some(g.value)
    case None => None
  }

  function ValueOr(gauges: seq<MetricGauge>, metric: string, fallback: string): Option<real> {
    if ValueOf(gauges, metric).Some? then ValueOf(gauges, metric) else ValueOf(gauges, fallback)
  }

  predicate AtLeast(value: Option<real>, threshold: real) {
    value.Some? && value.value >= threshold
  }

  /** How much memory is free, and of how much. */
  function MemoryLeft(gauges: seq<MetricGauge>): Option<(real, real)> {
    var used := ValueOf(gauges, "mem_used");
    var total := ValueOf(gauges, "mem_total");
    if used.Some? && total.Some? then Some((total.value - used.value, total.value)) else None
  }

  /** The verdict, worst news first. */
  function Assess(state: ConnectionState, gauges: seq<MetricGauge>, hasData: bool): HostHealth {
    match state
    case Idle => HostHealth(Checking, "Not connected", Silent)
    case Connecting => HostHealth(Checking, "Connecting…", FirstReadingPending)
    case Reconnecting(_, _) => HostHealth(Offline, "Lost connection", RetryingByItself)
    case Failed(message, _) => HostHealth(Offline, "Can't reach this server", AdviceOn(message))
    case Online =>
      if !hasData then HostHealth(Checking, "Getting readings…", Silent) else AssessReadings(gauges)
  }

  /** The readings the verdict rests on. */
  datatype Vitals = Vitals(
    disk: Option<real>,
    memory: Option<real>,
    ioStalls: Option<real>,
    memoryStalls: Option<real>,
    heat: Option<real>,
    queue: Option<real>,
    cpu: Option<real>)

  function VitalsOf(gauges: seq<MetricGauge>): Vitals {
    Vitals(ValueOf(gauges, "disk_usage"),
           ValueOf(gauges, "mem_usage"),
           ValueOr(gauges, "pressure_io_60s", "pressure_io"),
           ValueOr(gauges, "pressure_memory_full", "pressure_memory"),
           ValueOf(gauges, "cpu_temp"),
           ValueOr(gauges, "pressure_cpu_60s", "pressure_cpu"),
           ValueOf(gauges, "cpu_usage"))
  }

  function AssessReadings(gauges: seq<MetricGauge>): HostHealth {
    var uptime := ValueOf(gauges, "uptime");
    Cascade(VitalsOf(gauges), MemoryLeft(gauges), if uptime.Some? then RunningFor(uptime.value) else Silent)
  }

  function Cascade(v: Vitals, memoryLeft: Option<(real, real)>, otherwise: Detail): HostHealth {
    if AtLeast(v.disk, NEARLY_FULL) then HostHealth(Problem, "Storage is almost full", Amount(v.disk.value))
    else if AtLeast(v.memory, NEARLY_FULL) then
      HostHealth(Problem, "Running out of memory", AmountOfMemory(v.memory.value, memoryLeft))
    else if AtLeast(v.ioStalls, STALLING_BADLY) then HostHealth(Problem, "Waiting on storage", Amount(v.ioStalls.value))
    else if AtLeast(v.memoryStalls, STALLING) then HostHealth(Problem, "Struggling for memory", Amount(v.memoryStalls.value))
    else if AtLeast(v.heat, OVERHEATING) then HostHealth(Problem, "Running very hot", Amount(v.heat.value))
    else if AtLeast(v.disk, FILLING_UP) then HostHealth(Busy, "Storage is filling up", Amount(v.disk.value))
    else if AtLeast(v.memory, WORKING_HARD) then HostHealth(Busy, "Memory is under pressure", Amount(v.memory.value))
    else if AtLeast(v.queue, STALLING) then HostHealth(Busy, "Work is queueing up", Amount(v.queue.value))
    else if AtLeast(v.heat, RUNNING_WARM) then HostHealth(Busy, "Running warm", Amount(v.heat.value))
    else if AtLeast(v.cpu, WORKING_HARD) then HostHealth(Busy, "Working very hard", Amount(v.cpu.value))
    else HostHealth(Good, "Everything looks good", otherwise)
  }

  // ---------------------------------------------------------------------------------------
  // Judging every subject on its own

  datatype Subject = Storage | Memory | StorageStalls | MemoryStalls | CpuQueue | Heat | Processor

  function ReadingOf(subject: Subject, v: Vitals): Option<real> {
    match subject
    case Storage => v.disk
    case Memory => v.memory
    case StorageStalls => v.ioStalls
    case MemoryStalls => v.memoryStalls
    case CpuQueue => v.queue
    case Heat => v.heat
    case Processor => v.cpu
  }

  /** Where a subject becomes worth mentioning, if it ever is without being a problem. */
  function BusyFrom(subject: Subject): Option<real> {
    match subject
    case Storage => Some(FILLING_UP)
    case Memory => Some(WORKING_HARD)
    case CpuQueue => Some(STALLING)
    case Heat => Some(RUNNING_WARM)
    case Processor => Some(WORKING_HARD)
    case _ => None
  }

  /** Where a subject becomes a problem, if it ever does. */
  function ProblemFrom(subject: Subject): Option<real> {
    match subject
    case Storage => Some(NEARLY_FULL)
    case Memory => Some(NEARLY_FULL)
    case StorageStalls => Some(STALLING_BADLY)
    case MemoryStalls => Some(STALLING)
    case Heat => Some(OVERHEATING)
    case _ => None
  }

  /** The level of one subject, whatever the others say. */
  function LevelOf(subject: Subject, v: Vitals): Level {
    var reading := ReadingOf(subject, v);
    if ProblemFrom(subject).Some? && AtLeast(reading, ProblemFrom(subject).value) then Problem
    else if BusyFrom(subject).Some? && AtLeast(reading, BusyFrom(subject).value) then Busy
    else Good
  }

  function Rank(level: Level): nat {
    match level
    case Good => 0
    case Busy => 1
    case Problem => 2
    case Checking => 3
    case Offline => 3
  }

  /** What the headline says about a subject at a level. */
  function Headline(subject: Subject, level: Level): string {
    match level
    case Problem => ProblemHeadline(subject)
    case Busy => BusyHeadline(subject)
    case _ => "Everything looks good"
  }

  function ProblemHeadline(subject: Subject): string {
    match subject
    case Storage => "Storage is almost full"
    case Memory => "Running out of memory"
    case StorageStalls => "Waiting on storage"
    case MemoryStalls => "Struggling for memory"
    case Heat => "Running very hot"
    case _ => ""
  }

  function BusyHeadline(subject: Subject): string {
    match subject
    case Storage => "Storage is filling up"
    case Memory => "Memory is under pressure"
    case CpuQueue => "Work is queueing up"
    case Heat => "Running warm"
    case Processor => "Working very hard"
    case _ => ""
  }

  /** Where a subject stands in the order of how soon it takes a machine down. */
  function Urgency(subject: Subject): nat {
    match subject
    case Storage => 0
    case Memory => 1
    case StorageStalls => 2
    case MemoryStalls => 3
    case CpuQueue => 4
    case Heat => 5
    case Processor => 6
  }

  /** No subject is worse than `level`, and `worst` is the most urgent of those that reach it. */
  ghost predicate IsWorst(worst: Subject, v: Vitals, level: Level) {
    && LevelOf(worst, v) == level
    && (forall s: Subject :: Rank(LevelOf(s, v)) <= Rank(level))
    && (forall s: Subject :: Urgency(s) < Urgency(worst) ==> Rank(LevelOf(s, v)) < Rank(level))
  }

  /** The number the detail is worded around. */
  ghost predicate Quotes(detail: Detail, value: Option<real>) {
    || (detail.Amount? && value == Some(detail.value))
    || (detail.AmountOfMemory? && value == Some(detail.percent))
  }

  function WorstOf(v: Vitals): Subject {
    if AtLeast(v.disk, NEARLY_FULL) then Storage
    else if AtLeast(v.memory, NEARLY_FULL) then Memory
    else if AtLeast(v.ioStalls, STALLING_BADLY) then StorageStalls
    else if AtLeast(v.memoryStalls, STALLING) then MemoryStalls
    else if AtLeast(v.heat, OVERHEATING) then Heat
    else if AtLeast(v.disk, FILLING_UP) then Storage
    else if AtLeast(v.memory, WORKING_HARD) then Memory
    else if AtLeast(v.queue, STALLING) then CpuQueue
    else if AtLeast(v.heat, RUNNING_WARM) then Heat
    else if AtLeast(v.cpu, WORKING_HARD) then Processor
    else Storage
  }

  lemma NothingOutranks(v: Vitals, s: Subject)
    ensures var level := LevelOf(WorstOf(v), v);
      && Rank(LevelOf(s, v)) <= Rank(level)
      && (Urgency(s) < Urgency(WorstOf(v)) ==> Rank(LevelOf(s, v)) < Rank(level))
  {
  }

  lemma CascadeLevel(v: Vitals, memoryLeft: Option<(real, real)>, otherwise: Detail)
    ensures Cascade(v, memoryLeft, otherwise).level == LevelOf(WorstOf(v), v)
  {
  }

  lemma CascadeHeadline(v: Vitals, memoryLeft: Option<(real, real)>, otherwise: Detail)
    ensures var health := Cascade(v, memoryLeft, otherwise);
      health.headline == Headline(WorstOf(v), health.level)
  {
  }

  lemma CascadeDetail(v: Vitals, memoryLeft: Option<(real, real)>, otherwise: Detail)
    ensures var health := Cascade(v, memoryLeft, otherwise);
      health.level != Good ==> Quotes(health.detail, ReadingOf(WorstOf(v), v))
  {
  }

  /**
   With readings at hand the verdict is the maximum of seven independent judgements; the headline
   and the number quoted are those of the most urgent subject that reaches it.
   */
  lemma VerdictIsTheWorstReading(gauges: seq<MetricGauge>) returns (worst: Subject)
    ensures var health := Assess(Online, gauges, true);
      && IsWorst(worst, VitalsOf(gauges), health.level)
      && health.headline == Headline(worst, health.level)
      && (health.level != Good ==> Quotes(health.detail, ReadingOf(worst, VitalsOf(gauges))))
  {
    var uptime := ValueOf(gauges, "uptime");
    var v := VitalsOf(gauges);
    worst := WorstOf(v);
    var otherwise := if uptime.Some? then RunningFor(uptime.value) else Silent;
    CascadeLevel(v, MemoryLeft(gauges), otherwise);
    CascadeHeadline(v, MemoryLeft(gauges), otherwise);
    CascadeDetail(v, MemoryLeft(gauges), otherwise);
    forall s: Subject ensures Rank(LevelOf(s, v)) <= Rank(LevelOf(worst, v)) {
      NothingOutranks(v, s);
    }
    forall s: Subject | Urgency(s) < Urgency(worst) ensures Rank(LevelOf(s, v)) < Rank(LevelOf(worst, v)) {
      NothingOutranks(v, s);
    }
  }

  /** Every reading that was there is still there, and none has dropped. */
  ghost predicate NoBetter(before: Vitals, after: Vitals) {
    forall s: Subject :: ReadingOf(s, before).Some? ==> AtLeast(ReadingOf(s, after), ReadingOf(s, before).value)
  }

  /** A host that gets worse in any respect, and better in none, never looks better. */
  lemma WorseReadingsNeverLookBetter(before: seq<MetricGauge>, after: seq<MetricGauge>)
    requires NoBetter(VitalsOf(before), VitalsOf(after))
    ensures Rank(Assess(Online, before, true).level) <= Rank(Assess(Online, after, true).level)
  {
    var was := VerdictIsTheWorstReading(before);
    var now := VerdictIsTheWorstReading(after);
    LevelOnlyRises(was, VitalsOf(before), VitalsOf(after));
  }

  lemma LevelOnlyRises(subject: Subject, before: Vitals, after: Vitals)
    requires NoBetter(before, after)
    ensures Rank(LevelOf(subject, before)) <= Rank(LevelOf(subject, after))
  {
    assert ReadingOf(subject, before).Some? ==> AtLeast(ReadingOf(subject, after), ReadingOf(subject, before).value);
  }

  /** A host looks good exactly when it is online, has readings, and no subject is over a threshold. */
  lemma LooksGoodIff(state: ConnectionState, gauges: seq<MetricGauge>, hasData: bool)
    ensures Assess(state, gauges, hasData).level == Good
       <==> state == Online && hasData && forall s: Subject :: LevelOf(s, VitalsOf(gauges)) == Good
  {
    if state == Online && hasData {
      var worst := VerdictIsTheWorstReading(gauges);
    }
  }

  /** `offline` is said of lost and failed connections only, `checking` of hosts with nothing to judge. */
  lemma OfflineIff(state: ConnectionState, gauges: seq<MetricGauge>, hasData: bool)
    ensures Assess(state, gauges, hasData).level == Offline <==> state.Reconnecting? || state.Failed?
    ensures Assess(state, gauges, hasData).level == Checking
       <==> state == Idle || state == Connecting || (state == Online && !hasData)
  {
    if state == Online && hasData {
      var worst := VerdictIsTheWorstReading(gauges);
    }
  }

  // ---------------------------------------------------------------------------------------
  // In the numbers on screen

  /** The first gauge of this metric reads this; there is none, and nothing is read. */
  ghost predicate FirstReads(gauges: seq<MetricGauge>, metric: string, value: Option<real>) {
    match value
    case Some(x) =>
      exists k :: 0 <= k < |gauges| && gauges[k].metric == metric && gauges[k].value == x
                  && forall j :: 0 <= j < k ==> gauges[j].metric != metric
    case None => forall k :: 0 <= k < |gauges| ==> gauges[k].metric != metric
  }

  /** The first gauge of the first metric that is there at all. */
  ghost predicate FirstReadsOf(gauges: seq<MetricGauge>, metric: string, fallback: string, value: Option<real>) {
    if exists k :: 0 <= k < |gauges| && gauges[k].metric == metric then FirstReads(gauges, metric, value)
    else FirstReads(gauges, fallback, value)
  }

  lemma {:induction false} ValueIsFirstReading(gauges: seq<MetricGauge>, metric: string)
    ensures FirstReads(gauges, metric, ValueOf(gauges, metric))
  {
    if gauges != [] && gauges[0].metric != metric {
      var rest := gauges[1..];
      ValueIsFirstReading(rest, metric);
      assert ValueOf(gauges, metric) == ValueOf(rest, metric);
      if ValueOf(rest, metric).Some? {
        var k :| 0 <= k < |rest| && rest[k].metric == metric && rest[k].value == ValueOf(rest, metric).value
                 && forall j :: 0 <= j < k ==> rest[j].metric != metric;
        assert gauges[k + 1] == rest[k];
        assert forall j :: 0 <= j < k + 1 ==> gauges[j].metric != metric;
      } else {
        assert forall k :: 0 < k < |gauges| ==> gauges[k] == rest[k - 1];
      }
    }
  }

  lemma ValueOrIsFirstReading(gauges: seq<MetricGauge>, metric: string, fallback: string)
    ensures FirstReadsOf(gauges, metric, fallback, ValueOr(gauges, metric, fallback))
  {
    ValueIsFirstReading(gauges, metric);
    ValueIsFirstReading(gauges, fallback);
  }

  /** Which gauges the verdict is about: the minute's average of stalls comes before the moment's. */
  lemma VitalsAreFirstReadings(gauges: seq<MetricGauge>)
    ensures var v := VitalsOf(gauges);
      && FirstReads(gauges, "disk_usage", v.disk)
      && FirstReads(gauges, "mem_usage", v.memory)
      && FirstReadsOf(gauges, "pressure_io_60s", "pressure_io", v.ioStalls)
      && FirstReadsOf(gauges, "pressure_memory_full", "pressure_memory", v.memoryStalls)
      && FirstReads(gauges, "cpu_temp", v.heat)
      && FirstReadsOf(gauges, "pressure_cpu_60s", "pressure_cpu", v.queue)
      && FirstReads(gauges, "cpu_usage", v.cpu)
  {
    ValueIsFirstReading(gauges, "disk_usage");
    ValueIsFirstReading(gauges, "mem_usage");
    ValueOrIsFirstReading(gauges, "pressure_io_60s", "pressure_io");
    ValueOrIsFirstReading(gauges, "pressure_memory_full", "pressure_memory");
    ValueIsFirstReading(gauges, "cpu_temp");
    ValueOrIsFirstReading(gauges, "pressure_cpu_60s", "pressure_cpu");
    ValueIsFirstReading(gauges, "cpu_usage");
  }

  /** Where the lines are: a problem, or busy without one, exactly from these readings on. */
  lemma VerdictThresholds(gauges: seq<MetricGauge>)
    ensures var v, level := VitalsOf(gauges), Assess(Online, gauges, true).level;
      && (level == Problem
          <==> || AtLeast(v.disk, 90.0) || AtLeast(v.memory, 90.0) || AtLeast(v.ioStalls, 40.0)
               || AtLeast(v.memoryStalls, 20.0) || AtLeast(v.heat, 90.0))
      && (level == Problem || level == Busy
          <==> || AtLeast(v.disk, 80.0) || AtLeast(v.memory, 85.0) || AtLeast(v.ioStalls, 40.0)
               || AtLeast(v.memoryStalls, 20.0) || AtLeast(v.heat, 80.0) || AtLeast(v.queue, 20.0) || AtLeast(v.cpu, 85.0))
  {
  }

  /** A machine that runs out of memory is told how much is free, of how much, if both are known. */
  lemma MemoryIsAccountedFor(gauges: seq<MetricGauge>, used: Option<real>, total: Option<real>)
    requires FirstReads(gauges, "mem_used", used) && FirstReads(gauges, "mem_total", total)
    requires Assess(Online, gauges, true).headline == "Running out of memory"
    ensures var detail := Assess(Online, gauges, true).detail;
      && detail.AmountOfMemory? && Some(detail.percent) == VitalsOf(gauges).memory
      && match detail.freeOf
         case Some((free, all)) => used.Some? && total.Some? && all == total.value && free + used.value == all
         case None => used.None? || total.None?
  {
    ValueIsFirstReading(gauges, "mem_used");
    ValueIsFirstReading(gauges, "mem_total");
    FirstReadingIsOne(gauges, "mem_used", used, ValueOf(gauges, "mem_used"));
    FirstReadingIsOne(gauges, "mem_total", total, ValueOf(gauges, "mem_total"));
  }

  lemma FirstReadingIsOne(gauges: seq<MetricGauge>, metric: string, x: Option<real>, y: Option<real>)
    requires FirstReads(gauges, metric, x) && FirstReads(gauges, metric, y)
    ensures x == y
  {
  }

  /** A machine that is well says for how long it has been up. */
  lemma GoodNewsIsUptime(gauges: seq<MetricGauge>, uptime: Option<real>)
    requires FirstReads(gauges, "uptime", uptime) && Assess(Online, gauges, true).level == Good
    ensures Assess(Online, gauges, true).detail == if uptime.Some? then RunningFor(uptime.value) else Silent
  {
    ValueIsFirstReading(gauges, "uptime");
    FirstReadingIsOne(gauges, "uptime", uptime, ValueOf(gauges, "uptime"));
  }

  /** Without a connection, or without readings yet, the verdict is about that alone. */
  lemma NoReadingsNoVerdict(state: ConnectionState, gauges: seq<MetricGauge>, hasData: bool)
    requires state != Online || !hasData
    ensures Assess(state, gauges, hasData)
         == match state
            case Idle => HostHealth(Checking, "Not connected", Silent)
            case Connecting => HostHealth(Checking, "Connecting…", FirstReadingPending)
            case Online => HostHealth(Checking, "Getting readings…", Silent)
            case Reconnecting(_, _) => HostHealth(Offline, "Lost connection", RetryingByItself)
            case Failed(message, _) => HostHealth(Offline, "Can't reach this server", AdviceOn(message))
  {
  }
}
