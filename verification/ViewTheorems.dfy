/** What the screens promise: every number once, in its section, in a place that stays put. */
module ViewTheorems {
  import opened Common
  import opened Connection
  import opened Model
  import opened Plain
  import opened Sorting
  import opened Store
  import opened Text
  import opened View

  /** `order` is an order in which the store's descriptors can be iterated. */
  ghost predicate Iterates(order: seq<SeriesId>, c: Contents) {
    NoDuplicates(order) && forall id :: id in order <==> id in c.descriptors
  }

  ghost predicate Keyed(c: Contents) {
    forall id :: id in c.descriptors ==> c.descriptors[id].id == id
  }

  /** Every store that operations can produce files each descriptor under its own id. */
  lemma {:induction false} StoresAreKeyed(ops: seq<Op>, window: nat)
    ensures Keyed(Run(ops, window))
  {
    if ops != [] {
      StoresAreKeyed(ops[..|ops| - 1], window);
    }
  }

  // ---------------------------------------------------------------------------------------
  // Selecting from a list without repetitions

  lemma {:induction false} SelectTwice<T, U, V>(s: seq<T>, f: T -> Option<U>, g: U -> Option<V>, h: T -> Option<V>)
    requires forall x :: x in s ==> h(x) == if f(x).Some? then g(f(x).value) else None
    ensures FilterMap(FilterMap(s, f), g) == FilterMap(s, h)
  {
    if s != [] {
      var n := |s| - 1;
      SelectTwice(s[..n], f, g, h);
      assert s[..n + 1] == s;
      FilterMapSnoc(s, f, n);
      if f(s[n]).Some? {
        var y := f(s[n]).value;
        var before := FilterMap(s[..n], f);
        assert (before + [y])[..|before|] == before;
      } else {
        assert FilterMap(s[..n], h) + [] == FilterMap(s[..n], h);
      }
    }
  }

  lemma {:induction false} SelectOnce<T(!new)>(s: seq<T>, h: T -> Option<T>, x: T)
    requires NoDuplicates(s) && forall y :: y in s ==> h(y) == None || h(y) == Some(y)
    ensures multiset(FilterMap(s, h))[x] == if x in s && h(x) == Some(x) then 1 else 0
  {
    if s != [] {
      var n := |s| - 1;
      var last := s[n];
      assert s == s[..n] + [last];
      SelectOnce(s[..n], h, x);
      assert last !in s[..n];
      FilterMapSnoc(s, h, n);
      assert s[..n + 1] == s;
      assert multiset(FilterMap(s, h))[x] == multiset(FilterMap(s[..n], h))[x] + if h(last) == Some(x) then 1 else 0;
    }
  }

  // ---------------------------------------------------------------------------------------
  // Every number once

  function IdOf(): MetricGauge -> Option<SeriesId> {
    (g: MetricGauge) => Some(g.seriesId)
  }

  /** The series behind a list of gauges. */
  function Ids(gauges: seq<MetricGauge>): seq<SeriesId> {
    FilterMap(gauges, IdOf())
  }

  /** A series with a number to draw. */
  predicate Numeric(c: Contents, host: EntityId, id: SeriesId) {
    && id in c.descriptors && c.descriptors[id].entity == host
    && c.descriptors[id].kind != Info && HistoryOf(c.history, id) != []
  }

  predicate InHeadline(c: Contents, host: EntityId, id: SeriesId) {
    Numeric(c, host, id) && IsHeadline(c.descriptors[id].metric)
  }

  predicate InDetails(c: Contents, host: EntityId, id: SeriesId) {
    Numeric(c, host, id) && !IsHeadline(c.descriptors[id].metric) && GroupTitle(c.descriptors[id].source).Some?
  }

  function GaugeOfEntry(): Entry -> Option<MetricGauge> {
    (e: Entry) => Some(e.gauge)
  }

  function HeadlineId(c: Contents): SeriesDescriptor -> Option<SeriesId> {
    (d: SeriesDescriptor) => if HeadlineGauge(c)(d).Some? then Some(d.id) else None
  }

  function DetailId(c: Contents): SeriesDescriptor -> Option<SeriesId> {
    (d: SeriesDescriptor) => if DetailEntry(c)(d).Some? then Some(d.id) else None
  }

  function DetailGauge(c: Contents): SeriesDescriptor -> Option<MetricGauge> {
    (d: SeriesDescriptor) => if DetailEntry(c)(d).Some? then Some(DetailEntry(c)(d).value.gauge) else None
  }

  function Kept(c: Contents, host: EntityId, f: SeriesDescriptor -> Option<SeriesId>): SeriesId -> Option<SeriesId> {
    id => if Declared(c, host)(id).Some? then f(Declared(c, host)(id).value) else None
  }

  /** Selecting from the sorted series of the host, counted per series. */
  lemma SelectedSeries(
      c: Contents, order: seq<SeriesId>, host: EntityId, f: SeriesDescriptor -> Option<SeriesId>, id: SeriesId)
    requires Iterates(order, c) && Keyed(c)
    requires forall d :: f(d) == None || f(d) == Some(d.id)
    ensures multiset(FilterMap(SeriesFor(c, order, host), f))[id]
         == if Declared(c, host)(id).Some? && f(Declared(c, host)(id).value).Some? then 1 else 0
  {
    SelectedUnsorted(c, order, host, f);
    SelectTwice(order, Declared(c, host), f, Kept(c, host, f));
    SelectOnce(order, Kept(c, host, f), id);
  }

  lemma SelectedUnsorted(c: Contents, order: seq<SeriesId>, host: EntityId, f: SeriesDescriptor -> Option<SeriesId>)
    ensures multiset(FilterMap(SeriesFor(c, order, host), f)) == multiset(FilterMap(FilterMap(order, Declared(c, host)), f))
  {
    var listed := FilterMap(order, Declared(c, host));
    SortKeepsItems(listed, ByMetric());
    SelectedFromEither(SeriesFor(c, order, host), listed, f);
  }

  /** The headline grid has each numeric series of a headline metric exactly once. */
  lemma HeadlineShowsOnce(c: Contents, order: seq<SeriesId>, host: EntityId, id: SeriesId)
    requires Iterates(order, c) && Keyed(c)
    ensures multiset(Ids(HostGauges(c, SeriesFor(c, order, host))))[id] == if InHeadline(c, host, id) then 1 else 0
  {
    var series := SeriesFor(c, order, host);
    var picked := FilterMap(series, HeadlineGauge(c));
    SortKeepsItems(picked, ByHeadline());
    SelectedFromEither(HostGauges(c, series), picked, IdOf());
    SelectTwice(series, HeadlineGauge(c), IdOf(), HeadlineId(c));
    SelectedSeries(c, order, host, HeadlineId(c), id);
    HeadlineIdIff(c, host, id);
  }

  lemma HeadlineIdIff(c: Contents, host: EntityId, id: SeriesId)
    requires Keyed(c)
    ensures Declared(c, host)(id).Some? && HeadlineId(c)(Declared(c, host)(id).value).Some? <==> InHeadline(c, host, id)
  {
    if Declared(c, host)(id).Some? {
      var d := Declared(c, host)(id).value;
      assert d == c.descriptors[id] && d.id == id;
      assert GaugeFrom(c, d) == None <==> d.kind == Info || HistoryOf(c.history, id) == [];
      assert HeadlineId(c)(d).Some? <==> HeadlineGauge(c)(d).Some?;
    }
  }

  lemma FlatOfCons(group: DetailGroup, groups: seq<DetailGroup>)
    ensures FlatGauges([group] + groups) == group.gauges + FlatGauges(groups)
  {
    assert ([group] + groups)[1..] == groups;
  }

  lemma {:induction false} FlatOfConcat(a: seq<DetailGroup>, b: seq<DetailGroup>)
    ensures FlatGauges(a + b) == FlatGauges(a) + FlatGauges(b)
  {
    if a == [] {
      assert a + b == b;
    } else {
      var head, rest := a[0], a[1..];
      FlatOfConcat(rest, b);
      FlatOfCons(head, rest + b);
      FlatOfCons(head, rest);
      Associative(head.gauges, FlatGauges(rest), FlatGauges(b));
      assert a == [head] + rest && a + b == [head] + (rest + b);
    }
  }

  lemma FlatOfOne(group: DetailGroup)
    ensures FlatGauges([group]) == group.gauges
  {
    assert [group][1..] == [];
  }

  lemma FlatAround(before: seq<DetailGroup>, group: DetailGroup, after: seq<DetailGroup>)
    ensures FlatGauges(before + ([group] + after)) == FlatGauges(before) + (group.gauges + FlatGauges(after))
  {
    FlatOfConcat(before, [group] + after);
    FlatOfConcat([group], after);
    FlatOfOne(group);
  }

  lemma MiddleGrows<T>(before: seq<T>, middle: seq<T>, after: seq<T>, x: T)
    ensures multiset(before + ((middle + [x]) + after)) == multiset(before + (middle + after)) + multiset{x}
  {
  }

  lemma FlatOfUpdate(groups: seq<DetailGroup>, k: nat, gauge: MetricGauge)
    requires k < |groups|
    ensures multiset(FlatGauges(groups[k := DetailGroup(groups[k].title, groups[k].gauges + [gauge])]))
         == multiset(FlatGauges(groups)) + multiset{gauge}
  {
    var grown := DetailGroup(groups[k].title, groups[k].gauges + [gauge]);
    var before, after := groups[..k], groups[k + 1..];
    assert groups == before + ([groups[k]] + after) && groups[k := grown] == before + ([grown] + after);
    FlatAround(before, groups[k], after);
    FlatAround(before, grown, after);
    MiddleGrows(FlatGauges(before), groups[k].gauges, FlatGauges(after), gauge);
  }

  lemma {:induction false} FlatOfGathered(entries: seq<Entry>)
    ensures multiset(FlatGauges(Gathered(entries))) == multiset(FilterMap(entries, GaugeOfEntry()))
  {
    if entries != [] {
      var n := |entries| - 1;
      FlatOfGathered(entries[..n]);
      var groups, entry := Gathered(entries[..n]), entries[n];
      var k := FirstAt(groups, TitleOf(), entry.title);
      if k < |groups| {
        FlatOfUpdate(groups, k, entry.gauge);
      } else {
        FlatOfConcat(groups, [DetailGroup(entry.title, [entry.gauge])]);
        FlatOfOne(DetailGroup(entry.title, [entry.gauge]));
      }
    }
  }

  lemma {:induction false} FlatOfArranged(groups: seq<DetailGroup>)
    ensures multiset(FlatGauges(EachArranged(groups))) == multiset(FlatGauges(groups))
  {
    if groups != [] {
      assert EachArranged(groups)[1..] == EachArranged(groups[1..]);
      FlatOfArranged(groups[1..]);
      SortKeepsItems(groups[0].gauges, ByDetail());
    }
  }

  lemma {:induction false} FlatOfInsert(group: DetailGroup, groups: seq<DetailGroup>)
    ensures multiset(FlatGauges(Insert(group, groups, ByFirstRank())))
         == multiset(group.gauges) + multiset(FlatGauges(groups))
  {
    if groups == [] || ByFirstRank()(group, groups[0]) {
      assert ([group] + groups)[1..] == groups;
    } else {
      FlatOfInsert(group, groups[1..]);
      assert ([groups[0]] + Insert(group, groups[1..], ByFirstRank()))[1..] == Insert(group, groups[1..], ByFirstRank());
    }
  }

  lemma {:induction false} FlatOfSorted(groups: seq<DetailGroup>)
    ensures multiset(FlatGauges(Sorted(groups, ByFirstRank()))) == multiset(FlatGauges(groups))
  {
    if groups != [] {
      FlatOfSorted(groups[1..]);
      FlatOfInsert(groups[0], Sorted(groups[1..], ByFirstRank()));
    }
  }

  lemma FlatOfDetails(c: Contents, series: seq<SeriesDescriptor>)
    ensures multiset(FlatGauges(HostDetails(c, series))) == multiset(FilterMap(series, DetailGauge(c)))
  {
    var entries := FilterMap(series, DetailEntry(c));
    FlatOfSorted(EachArranged(Gathered(entries)));
    FlatOfArranged(Gathered(entries));
    FlatOfGathered(entries);
    SelectTwice(series, DetailEntry(c), GaugeOfEntry(), DetailGauge(c));
  }

  lemma IdsOfDetails(c: Contents, series: seq<SeriesDescriptor>)
    ensures multiset(Ids(FlatGauges(HostDetails(c, series)))) == multiset(FilterMap(series, DetailId(c)))
  {
    var shown, picked := FlatGauges(HostDetails(c, series)), FilterMap(series, DetailGauge(c));
    assert multiset(shown) == multiset(picked) by {
      FlatOfDetails(c, series);
    }
    SelectedFromEither(shown, picked, IdOf());
    IdsOfDetailGauges(c, series);
  }

  lemma IdsOfDetailGauges(c: Contents, series: seq<SeriesDescriptor>)
    ensures Ids(FilterMap(series, DetailGauge(c))) == FilterMap(series, DetailId(c))
  {
    forall d: SeriesDescriptor | DetailGauge(c)(d).Some? ensures DetailGauge(c)(d).value.seriesId == d.id {
      assert DetailEntry(c)(d) == Some(Entry(GroupTitle(d.source).value, GaugeFrom(c, d).value));
    }
    SelectTwice(series, DetailGauge(c), IdOf(), DetailId(c));
  }

  lemma DetailIdIff(c: Contents, host: EntityId, id: SeriesId)
    requires Keyed(c)
    ensures Declared(c, host)(id).Some? && DetailId(c)(Declared(c, host)(id).value).Some? <==> InDetails(c, host, id)
  {
    if Declared(c, host)(id).Some? {
      var d := Declared(c, host)(id).value;
      assert d == c.descriptors[id] && d.id == id;
      assert GaugeFrom(c, d) == None <==> d.kind == Info || HistoryOf(c.history, id) == [];
      assert DetailId(c)(d).Some? <==> DetailEntry(c)(d).Some?;
    }
  }

  /** The groups together hold each remaining listed series exactly once. */
  lemma DetailsShowOnce(c: Contents, order: seq<SeriesId>, host: EntityId, id: SeriesId)
    requires Iterates(order, c) && Keyed(c)
    ensures multiset(Ids(FlatGauges(HostDetails(c, SeriesFor(c, order, host)))))[id]
         == if InDetails(c, host, id) then 1 else 0
  {
    IdsOfDetails(c, SeriesFor(c, order, host));
    SelectedSeries(c, order, host, DetailId(c), id);
    DetailIdIff(c, host, id);
  }

  /**
   Nothing is discarded and nothing is said twice: across headline and groups a series appears once
   if it is a numeric series of the host from a listed source or of a headline metric, and otherwise
   not at all.
   */
  lemma EverySeriesIsShownOnce(reading: Reading, host: EntityId, state: ConnectionState, id: SeriesId)
    requires reading.host == Some(host) && Iterates(reading.order, reading.contents) && Keyed(reading.contents)
    ensures var c := reading.contents;
      multiset(Ids(AllGauges(BuildSnapshot(reading, state))))[id]
      == if InHeadline(c, host, id) || InDetails(c, host, id) then 1 else 0
  {
    var c := reading.contents;
    var series := SeriesFor(c, reading.order, host);
    HeadlineShowsOnce(c, reading.order, host, id);
    DetailsShowOnce(c, reading.order, host, id);
    FilterMapConcat(HostGauges(c, series), FlatGauges(HostDetails(c, series)), IdOf());
  }

  // ---------------------------------------------------------------------------------------
  // In its section, in order

  function Under(title: string): Entry -> Option<MetricGauge> {
    (e: Entry) => if e.title == title then Some(e.gauge) else None
  }

  ghost predicate DistinctTitles(groups: seq<DetailGroup>) {
    forall a, b :: 0 <= a < b < |groups| ==> groups[a].title != groups[b].title
  }

  /** The group holds what was filed under its title, in the order it came. */
  ghost predicate HoldsItsOwn(entries: seq<Entry>, group: DetailGroup) {
    group.gauges != [] && group.gauges == FilterMap(entries, Under(group.title))
  }

  ghost predicate AllHoldTheirOwn(entries: seq<Entry>, groups: seq<DetailGroup>) {
    forall k :: 0 <= k < |groups| ==> HoldsItsOwn(entries, groups[k])
  }

  ghost predicate HasGroup(groups: seq<DetailGroup>, title: string) {
    exists k :: 0 <= k < |groups| && groups[k].title == title
  }

  ghost predicate AllHaveGroups(entries: seq<Entry>, groups: seq<DetailGroup>) {
    forall e :: e in entries ==> HasGroup(groups, e.title)
  }

  /** One group per title that occurs, holding what was filed under it. */
  ghost predicate Filed(entries: seq<Entry>, groups: seq<DetailGroup>) {
    DistinctTitles(groups) && AllHoldTheirOwn(entries, groups) && AllHaveGroups(entries, groups)
  }

  lemma {:induction false} FiledSnoc(entries: seq<Entry>, entry: Entry, title: string)
    ensures FilterMap(entries + [entry], Under(title))
         == FilterMap(entries, Under(title)) + if entry.title == title then [entry.gauge] else []
  {
    assert (entries + [entry])[..|entries|] == entries;
  }

  lemma {:induction false} NothingUnder(entries: seq<Entry>, title: string)
    requires forall e :: e in entries ==> e.title != title
    ensures FilterMap(entries, Under(title)) == []
  {
    if entries != [] {
      NothingUnder(entries[..|entries| - 1], title);
    }
  }

  lemma NoGroupNothingUnder(entries: seq<Entry>, groups: seq<DetailGroup>, title: string)
    requires AllHaveGroups(entries, groups) && !HasGroup(groups, title)
    ensures FilterMap(entries, Under(title)) == []
  {
    forall e | e in entries ensures e.title != title {
      assert HasGroup(groups, e.title);
    }
    NothingUnder(entries, title);
  }

  lemma {:induction false} GroupFound(groups: seq<DetailGroup>, title: string)
    ensures FirstAt(groups, TitleOf(), title) < |groups| <==> HasGroup(groups, title)
  {
    var k := FirstAt(groups, TitleOf(), title);
    if k < |groups| {
      assert TitleOf()(groups[k]) == title;
    } else {
      forall j | 0 <= j < |groups| ensures groups[j].title != title {
        assert TitleOf()(groups[j]) != title;
      }
    }
  }

  lemma {:induction false} FiledIntoGroup(entries: seq<Entry>, entry: Entry, groups: seq<DetailGroup>, k: nat)
    requires Filed(entries, groups) && k < |groups| && groups[k].title == entry.title
    ensures Filed(entries + [entry], groups[k := DetailGroup(groups[k].title, groups[k].gauges + [entry.gauge])])
  {
    var after := groups[k := DetailGroup(groups[k].title, groups[k].gauges + [entry.gauge])];
    forall j | 0 <= j < |after| ensures HoldsItsOwn(entries + [entry], after[j]) {
      assert HoldsItsOwn(entries, groups[j]);
      FiledSnoc(entries, entry, groups[j].title);
    }
    forall e | e in entries + [entry] ensures HasGroup(after, e.title) {
      TitlesKept(groups, k, after[k].gauges, e.title);
      assert e in entries || after[k].title == e.title;
    }
  }

  lemma TitlesKept(groups: seq<DetailGroup>, k: nat, gauges: seq<MetricGauge>, title: string)
    requires k < |groups|
    ensures HasGroup(groups, title) ==> HasGroup(groups[k := DetailGroup(groups[k].title, gauges)], title)
  {
    if j :| 0 <= j < |groups| && groups[j].title == title {
      assert groups[k := DetailGroup(groups[k].title, gauges)][j].title == title;
    }
  }

  lemma {:induction false} FiledIntoNewGroup(entries: seq<Entry>, entry: Entry, groups: seq<DetailGroup>)
    requires Filed(entries, groups) && !HasGroup(groups, entry.title)
    ensures Filed(entries + [entry], groups + [DetailGroup(entry.title, [entry.gauge])])
  {
    var after := groups + [DetailGroup(entry.title, [entry.gauge])];
    NoGroupNothingUnder(entries, groups, entry.title);
    forall j | 0 <= j < |after| ensures HoldsItsOwn(entries + [entry], after[j]) {
      FiledSnoc(entries, entry, after[j].title);
      assert j < |groups| ==> HoldsItsOwn(entries, groups[j]);
    }
    forall e | e in entries + [entry] ensures HasGroup(after, e.title) {
      if e in entries {
        var j :| 0 <= j < |groups| && groups[j].title == e.title;
        assert after[j].title == e.title;
      } else {
        assert after[|groups|].title == e.title;
      }
    }
  }

  lemma {:induction false} GatheringFiles(entries: seq<Entry>)
    ensures Filed(entries, Gathered(entries))
  {
    if entries != [] {
      var n := |entries| - 1;
      GatheringFiles(entries[..n]);
      assert entries == entries[..n] + [entries[n]];
      var groups := Gathered(entries[..n]);
      GroupFound(groups, entries[n].title);
      var k := FirstAt(groups, TitleOf(), entries[n].title);
      if k < |groups| {
        assert TitleOf()(groups[k]) == entries[n].title;
        FiledIntoGroup(entries[..n], entries[n], groups, k);
      } else {
        FiledIntoNewGroup(entries[..n], entries[n], groups);
      }
    }
  }

  lemma TextOrderIsTotal<T(!new)>(text: T -> string, le: (T, T) -> bool)
    requires forall x, y :: le(x, y) <==> TextLe(text(x), text(y))
    ensures TotalPreorder(le)
  {
    forall x, y ensures le(x, y) || le(y, x) {
      TextLeIsTotal(text(x), text(y));
    }
    forall x, y, z | le(x, y) && le(y, z) ensures le(x, z) {
      TextLeIsTransitive(text(x), text(y), text(z));
    }
  }

  /** All four sort keys are proper orders. */
  lemma SortKeysAreOrders()
    ensures TotalPreorder(ByMetric()) && TotalPreorder(ByHeadline())
    ensures TotalPreorder(ByDetail()) && TotalPreorder(ByFirstRank())
  {
    TextOrderIsTotal((d: SeriesDescriptor) => d.metric, ByMetric());
    forall x, y ensures ByDetail()(x, y) || ByDetail()(y, x) {
      TextLeIsTotal(x.metric, y.metric);
    }
    forall x, y, z | ByDetail()(x, y) && ByDetail()(y, z) ensures ByDetail()(x, z) {
      if DetailRank(x.metric) == DetailRank(z.metric) {
        TextLeIsTransitive(x.metric, y.metric, z.metric);
      }
    }
  }

  /** A finished group: a gauge for every entry under its title, in display order. */
  ghost predicate ProperGroup(group: DetailGroup, entries: seq<Entry>) {
    && group.gauges != []
    && multiset(group.gauges) == multiset(FilterMap(entries, Under(group.title)))
    && SortedBy(group.gauges, ByDetail())
  }

  function Headed(title: string): DetailGroup -> Option<DetailGroup> {
    (g: DetailGroup) => if g.title == title then Some(g) else None
  }

  lemma SameSize<T>(a: seq<T>, b: seq<T>)
    requires multiset(a) == multiset(b)
    ensures |a| == |b|
  {
    assert |multiset(a)| == |a| && |multiset(b)| == |b|;
  }

  lemma {:induction false} HeadedOnce(groups: seq<DetailGroup>, title: string)
    requires forall a, b :: 0 <= a < b < |groups| ==> groups[a].title != groups[b].title
    ensures |FilterMap(groups, Headed(title))| == if exists k :: 0 <= k < |groups| && groups[k].title == title then 1 else 0
  {
    if groups != [] {
      HeadedOnce(groups[..|groups| - 1], title);
    }
  }

  lemma ArrangedIsProper(entries: seq<Entry>, g: DetailGroup)
    requires g in EachArranged(Gathered(entries))
    ensures ProperGroup(g, entries)
  {
    GatheringFiles(entries);
    var k :| 0 <= k < |Gathered(entries)| && Arranged(Gathered(entries)[k]) == g;
    var gauges := Gathered(entries)[k].gauges;
    SortKeysAreOrders();
    SortKeepsItems(gauges, ByDetail());
    SortSorts(gauges, ByDetail());
    SameSize(g.gauges, gauges);
  }

  lemma SortingKeepsMembers(groups: seq<DetailGroup>, g: DetailGroup)
    requires g in Sorted(groups, ByFirstRank())
    ensures g in groups
  {
    SortKeepsItems(groups, ByFirstRank());
    assert g in multiset(groups);
  }

  lemma SortingKeepsHeadings(groups: seq<DetailGroup>, title: string)
    ensures |FilterMap(Sorted(groups, ByFirstRank()), Headed(title))| == |FilterMap(groups, Headed(title))|
  {
    SortKeepsItems(groups, ByFirstRank());
    SelectedFromEither(Sorted(groups, ByFirstRank()), groups, Headed(title));
    SameSize(FilterMap(Sorted(groups, ByFirstRank()), Headed(title)), FilterMap(groups, Headed(title)));
  }

  lemma OneGroupPerTitle(entries: seq<Entry>, title: string)
    ensures |FilterMap(EachArranged(Gathered(entries)), Headed(title))|
         == if exists e :: e in entries && e.title == title then 1 else 0
  {
    var groups := EachArranged(Gathered(entries));
    GatheringFiles(entries);
    HeadedOnce(groups, title);
    if e :| e in entries && e.title == title {
      var k := FirstAt(Gathered(entries), TitleOf(), title);
      assert TitleOf()(Gathered(entries)[k]) == title && groups[k].title == title;
    } else {
      forall k | 0 <= k < |groups| ensures groups[k].title != title {
        if groups[k].title == title {
          NothingUnder(entries, title);
          assert false;
        }
      }
    }
  }

  /** The sections are in display order, no heading occurs twice, and each lists exactly its own series. */
  lemma SectionsAreProper(c: Contents, series: seq<SeriesDescriptor>)
    ensures var groups := HostDetails(c, series);
      var entries := FilterMap(series, DetailEntry(c));
      && SortedBy(groups, ByFirstRank())
      && (forall g :: g in groups ==> ProperGroup(g, entries))
      && (forall t: string :: |FilterMap(groups, Headed(t))| == if exists e :: e in entries && e.title == t then 1 else 0)
  {
    var entries := FilterMap(series, DetailEntry(c));
    SortKeysAreOrders();
    SortSorts(EachArranged(Gathered(entries)), ByFirstRank());
    forall g | g in HostDetails(c, series) ensures ProperGroup(g, entries) {
      SortingKeepsMembers(EachArranged(Gathered(entries)), g);
      ArrangedIsProper(entries, g);
    }
    forall t: string
      ensures |FilterMap(HostDetails(c, series), Headed(t))| == if exists e :: e in entries && e.title == t then 1 else 0
    {
      SortingKeepsHeadings(EachArranged(Gathered(entries)), t);
      OneGroupPerTitle(entries, t);
    }
  }

  /** The headline grid is in its fixed order. */
  lemma HeadlineIsInOrder(c: Contents, series: seq<SeriesDescriptor>)
    ensures SortedBy(HostGauges(c, series), ByHeadline())
  {
    SortKeysAreOrders();
    SortSorts(FilterMap(series, HeadlineGauge(c)), ByHeadline());
  }

  /** The nine tiles, from the load of the machine to how long it has been up; nothing else is one. */
  lemma HeadlineTiles()
    ensures HeadlineRank("cpu_usage") == 0 && HeadlineRank("mem_usage") == 1 && HeadlineRank("disk_usage") == 2
    ensures HeadlineRank("swap_usage") == 3 && HeadlineRank("cpu_temp") == 4 && HeadlineRank("load1") == 5
    ensures HeadlineRank("net_rx") == 6 && HeadlineRank("net_tx") == 7 && HeadlineRank("uptime") == 8
    ensures forall metric :: IsHeadline(metric) <==> HeadlineRank(metric) < 9
  {
    FirstTiles();
    LastTiles();
    forall metric ensures IsHeadline(metric) <==> HeadlineRank(metric) < 9 {
      InListHasPosition(HEADLINE, metric);
    }
  }

  lemma FirstTiles()
    ensures HeadlineRank("cpu_usage") == 0 && HeadlineRank("mem_usage") == 1 && HeadlineRank("disk_usage") == 2
    ensures HeadlineRank("swap_usage") == 3 && HeadlineRank("cpu_temp") == 4
  {
  }

  lemma LastTiles()
    ensures HeadlineRank("load1") == 5 && HeadlineRank("net_rx") == 6
    ensures HeadlineRank("net_tx") == 7 && HeadlineRank("uptime") == 8
  {
  }

  /** Detail gauges nobody has placed come after all that have a place. */
  lemma UnplacedComeLast(a: string, b: string)
    requires a in DETAIL_ORDER && b !in DETAIL_ORDER
    ensures DetailRank(a) < DetailRank(b)
  {
    InListHasPosition(DETAIL_ORDER, a);
    InListHasPosition(DETAIL_ORDER, b);
  }

  lemma {:induction false} InListHasPosition(list: seq<string>, metric: string)
    ensures Position(list, metric) < |list| <==> metric in list
  {
    if list != [] {
      InListHasPosition(list[1..], metric);
      assert list == [list[0]] + list[1..];
    }
  }

  /** Every collector with a section of its own has it to itself, and two are not listed at all. */
  lemma SectionsOfCollectors(a: SourceId, b: SourceId)
    ensures GroupTitle(a) == None <==> a.text == "sys.sensors" || a.text == "proc.filesystem"
    ensures GroupTitle(a) == GroupTitle(b) && GroupTitle(a) != None && GroupTitle(a) != Some("Other") ==> a == b
    ensures GroupTitle(a) == Some("Other")
       <==> a.text !in ["proc.cpu", "proc.memory", "proc.load", "proc.diskio", "proc.network", "proc.tcp",
                        "sys.sensors", "proc.filesystem"]
  {
  }

  // ---------------------------------------------------------------------------------------
  // In a place that stays put

  predicate SameMetric(c: Contents, host: EntityId, a: SeriesId, b: SeriesId) {
    && a in c.descriptors && c.descriptors[a].entity == host
    && b in c.descriptors && c.descriptors[b].entity == host
    && c.descriptors[a].metric == c.descriptors[b].metric
  }

  /** No two series of the host are readings of the same metric. */
  ghost predicate DistinctMetrics(c: Contents, host: EntityId) {
    forall a, b :: SameMetric(c, host, a, b) ==> a == b
  }

  lemma {:induction false} SameItems<T(!new)>(a: seq<T>, b: seq<T>)
    requires NoDuplicates(a) && NoDuplicates(b) && forall x :: x in a <==> x in b
    ensures multiset(a) == multiset(b)
  {
    forall x: T ensures multiset(a)[x] == multiset(b)[x] {
      CountOnce(a, x);
      CountOnce(b, x);
    }
  }

  lemma {:induction false} CountOnce<T(!new)>(s: seq<T>, x: T)
    requires NoDuplicates(s)
    ensures multiset(s)[x] == if x in s then 1 else 0
  {
    if s != [] {
      var n := |s| - 1;
      CountOnce(s[..n], x);
      assert s == s[..n] + [s[n]];
      assert s[n] !in s[..n];
    }
  }

  lemma MetricsTellApart(c: Contents, order: seq<SeriesId>, host: EntityId)
    requires DistinctMetrics(c, host)
    ensures TellsApart(SeriesFor(c, order, host), ByMetric())
  {
    var listed := FilterMap(order, Declared(c, host));
    SortKeepsItems(listed, ByMetric());
    forall x, y | x in SeriesFor(c, order, host) && y in SeriesFor(c, order, host) && ByMetric()(x, y) && ByMetric()(y, x)
      ensures x == y
    {
      TextLeIsTotal(x.metric, y.metric);
      assert x in multiset(listed) && y in multiset(listed);
      var a := FilterMapFrom(order, Declared(c, host), x);
      var b := FilterMapFrom(order, Declared(c, host), y);
      assert SameMetric(c, host, a, b);
    }
  }

  /** With one series per metric the iteration order of the hash map cannot be seen. */
  lemma OrderCannotBeSeen(c: Contents, host: EntityId, one: seq<SeriesId>, other: seq<SeriesId>)
    requires DistinctMetrics(c, host) && Iterates(one, c) && Iterates(other, c)
    ensures SeriesFor(c, one, host) == SeriesFor(c, other, host)
  {
    SameItems(one, other);
    var a, b := FilterMap(one, Declared(c, host)), FilterMap(other, Declared(c, host));
    SelectedFromEither(one, other, Declared(c, host));
    SortKeepsItems(a, ByMetric());
    SortKeepsItems(b, ByMetric());
    SortKeysAreOrders();
    SortSorts(a, ByMetric());
    SortSorts(b, ByMetric());
    MetricsTellApart(c, one, host);
    SortedIsUnique(SeriesFor(c, one, host), SeriesFor(c, other, host), ByMetric());
  }

  function OfMetric(metric: string): SeriesDescriptor -> Option<SeriesDescriptor> {
    (d: SeriesDescriptor) => if d.metric == metric then Some(d) else None
  }

  /** Series of one metric come out in the order the hash map gave them. */
  lemma TiesKeepMapOrder(c: Contents, host: EntityId, a: SeriesId, rest: seq<SeriesId>)
    requires a in c.descriptors && c.descriptors[a].entity == host
    ensures var d := c.descriptors[a];
      var ties := FilterMap(SeriesFor(c, [a] + rest, host), OfMetric(d.metric));
      ties != [] && ties[0] == d
  {
    var d := c.descriptors[a];
    var f := OfMetric(d.metric);
    var listed := FilterMap([a] + rest, Declared(c, host));
    forall x, y | f(x).Some? && f(y).Some? ensures ByMetric()(x, y) {
      TextLeIsTotal(x.metric, y.metric);
    }
    SortIsStable(listed, ByMetric(), f);
    FilterMapCons(a, rest, Declared(c, host));
    FilterMapCons(d, FilterMap(rest, Declared(c, host)), f);
  }

  lemma Enumerate(ids: set<SeriesId>) returns (order: seq<SeriesId>)
    ensures NoDuplicates(order) && forall id :: id in order <==> id in ids
    decreases |ids|
  {
    if ids == {} {
      order := [];
    } else {
      var id :| id in ids;
      var rest := Enumerate(ids - {id});
      order := [id] + rest;
    }
  }

  lemma IteratesWith(c: Contents, a: SeriesId, b: SeriesId, rest: seq<SeriesId>)
    requires a != b && a in c.descriptors && b in c.descriptors
    requires NoDuplicates(rest) && forall id :: id in rest <==> id in c.descriptors.Keys - {a, b}
    ensures Iterates([a] + ([b] + rest), c)
  {
    var order := [a] + ([b] + rest);
    forall i, j | 0 <= i < j < |order| ensures order[i] != order[j] {
      assert j >= 2 ==> order[j] == rest[j - 2] && order[j] in rest;
      assert i >= 2 ==> order[i] == rest[i - 2];
    }
    forall id ensures id in order <==> id in c.descriptors {
      assert id in order <==> id == a || id == b || id in rest;
    }
  }

  /** With two series of one metric, two iteration orders list them differently. */
  lemma OrderCanBeSeen(c: Contents, host: EntityId, a: SeriesId, b: SeriesId)
    returns (one: seq<SeriesId>, other: seq<SeriesId>)
    requires Keyed(c) && a != b && SameMetric(c, host, a, b)
    ensures Iterates(one, c) && Iterates(other, c) && SeriesFor(c, one, host) != SeriesFor(c, other, host)
  {
    var rest := Enumerate(c.descriptors.Keys - {a, b});
    one, other := [a] + ([b] + rest), [b] + ([a] + rest);
    IteratesWith(c, a, b, rest);
    IteratesWith(c, b, a, rest);
    TiesKeepMapOrder(c, host, a, [b] + rest);
    TiesKeepMapOrder(c, host, b, [a] + rest);
    assert c.descriptors[a].id != c.descriptors[b].id;
  }

  /** Every descriptor taken in was made by one of the constructors. */
  ghost predicate IngestsBuilt(ops: seq<Op>) {
    forall i :: 0 <= i < |ops| && ops[i].IngestOp? ==> AllBuilt(ops[i].descriptors)
  }

  ghost predicate AllBuilt(descriptors: seq<SeriesDescriptor>) {
    forall d :: d in descriptors ==> Built(d)
  }

  ghost predicate HoldsBuilt(c: Contents) {
    forall id :: id in c.descriptors ==> Built(c.descriptors[id])
  }

  lemma {:induction false} StoresHoldBuilt(ops: seq<Op>, window: nat)
    requires IngestsBuilt(ops)
    ensures HoldsBuilt(Run(ops, window))
  {
    if ops != [] {
      var n := |ops| - 1;
      assert IngestsBuilt(ops[..n]);
      StoresHoldBuilt(ops[..n], window);
      if ops[n].IngestOp? {
        var byId := ById(ops[n].descriptors);
        assert AllBuilt(ops[n].descriptors);
        forall id | id in byId ensures Built(byId[id]) {
          assert byId[id] in ops[n].descriptors;
        }
      }
    }
  }

  /** The id of a series is made of its entity and metric, so an entity cannot have a metric twice. */
  lemma MetricsAreDistinct(ops: seq<Op>, window: nat, host: EntityId)
    requires IngestsBuilt(ops)
    ensures DistinctMetrics(Run(ops, window), host)
  {
    StoresAreKeyed(ops, window);
    StoresHoldBuilt(ops, window);
    var c := Run(ops, window);
    forall a, b | SameMetric(c, host, a, b) ensures a == b {
      assert Built(c.descriptors[a]) && Built(c.descriptors[b]);
      assert c.descriptors[a].id == c.descriptors[b].id;
    }
  }

  /** Whatever order the hash map iterates in, the screen is the same. */
  lemma ScreenIsStable(
      ops: seq<Op>, window: nat, host: Option<EntityId>, one: seq<SeriesId>, other: seq<SeriesId>, state: ConnectionState)
    requires IngestsBuilt(ops) && Iterates(one, Run(ops, window)) && Iterates(other, Run(ops, window))
    ensures var c := Run(ops, window);
      BuildSnapshot(Reading(c, one, host), state) == BuildSnapshot(Reading(c, other, host), state)
  {
    if host.Some? {
      MetricsAreDistinct(ops, window, host.value);
      OrderCannotBeSeen(Run(ops, window), host.value, one, other);
    }
  }

  /** In a store of any descriptors at all, the listing is stable exactly when no two share a metric. */
  lemma ListingIsStableIff(c: Contents, host: EntityId)
    requires Keyed(c)
    ensures DistinctMetrics(c, host)
       <==> forall one, other ::
              Iterates(one, c) && Iterates(other, c) ==> SeriesFor(c, one, host) == SeriesFor(c, other, host)
  {
    if DistinctMetrics(c, host) {
      forall one, other | Iterates(one, c) && Iterates(other, c)
        ensures SeriesFor(c, one, host) == SeriesFor(c, other, host)
      {
        OrderCannotBeSeen(c, host, one, other);
      }
    } else {
      var a, b :| SameMetric(c, host, a, b) && a != b;
      var one, other := OrderCanBeSeen(c, host, a, b);
    }
  }

  // ---------------------------------------------------------------------------------------
  // One gauge

  /**
   A series draws a gauge exactly if it is numeric and has a value; the chart is the last `window` of
   its values, and the reading is the last.
   */
  ghost predicate Charts(gauge: Option<MetricGauge>, d: SeriesDescriptor, values: seq<real>, window: nat) {
    && (gauge.Some? <==> d.kind != Info && values != [])
    && (gauge.Some? ==> gauge.value.history == LastN(values, window) && gauge.value.value == values[|values| - 1])
  }

  /** Whatever the operations, a gauge charts the finite values its series was given since it last appeared. */
  lemma GaugeIsTheEndOfItsLog(ops: seq<Op>, window: nat, d: SeriesDescriptor)
    requires window >= 1
    ensures Charts(GaugeFrom(Run(ops, window), d), d, Values(Log(ops, d.id)), window)
  {
    var c, log := Run(ops, window), Log(ops, d.id);
    assert IsWindow(c.history, d.id, log, window) by {
      HistoryIsWindowOfLog(ops, window, d.id);
    }
    EndOfLog(c, d, log, window);
  }

  lemma GaugeReads(c: Contents, d: SeriesDescriptor)
    ensures var gauge := GaugeFrom(c, d); var values := Values(HistoryOf(c.history, d.id));
      && (gauge.Some? <==> d.kind != Info && values != [])
      && (gauge.Some? ==> gauge.value.history == values && gauge.value.value == values[|values| - 1])
  {
  }

  /**
   A gauge carries the name of its series, the maximum declared for it, or else the natural one of a
   percentage or a ratio, and the unit of what is shown; it is graded by the very numbers it shows.
   */
  lemma GaugesAreLabelled(c: Contents, d: SeriesDescriptor)
    requires GaugeFrom(c, d).Some?
    ensures var g := GaugeFrom(c, d).value;
      && g.seriesId == d.id && g.metric == d.metric && g.display == d.display
      && g.max == (if d.max.Some? then d.max
                   else if d.unit == Percent then Some(100.0)
                   else if d.unit == Ratio then Some(1.0)
                   else None)
      && g.unit == (if d.kind == Counter && d.scale == 1.0 then d.unit.PerSecond() else d.unit)
      && g.severity == SeverityOf(g.unit, g.value, g.max)
  {
  }

  /** The last number in a tick's samples of a series is the last point. */
  lemma {:induction false} LastNumberIsLastPoint(samples: seq<Sample>, k: nat, series: SeriesId, r: real)
    requires k < |samples| && samples[k].series == series && Denotes(samples[k].value, r)
    requires forall j :: k < j < |samples| && samples[j].series == series ==> PointOf(samples[j]) == None
    ensures Points(samples, series) != []
    ensures Points(samples, series)[|Points(samples, series)| - 1] == Point(samples[k].atMs, r)
  {
    var n := |samples| - 1;
    if k < n {
      LastNumberIsLastPoint(samples[..n], k, series, r);
    } else {
      NumbersArePoints(samples[k], Point(samples[k].atMs, r));
    }
  }

  /** What was read last is what is shown: the newest number of a series is the reading of its gauge. */
  lemma NewestNumberIsShown(
      ops: seq<Op>, entities: seq<Entity>, descriptors: seq<SeriesDescriptor>, samples: seq<Sample>, window: nat,
      d: SeriesDescriptor, k: nat, r: real)
    requires window >= 1 && d.kind != Info
    requires k < |samples| && samples[k].series == d.id && Denotes(samples[k].value, r)
    requires forall j :: k < j < |samples| && samples[j].series == d.id ==> PointOf(samples[j]) == None
    ensures var gauge := GaugeFrom(Run(ops + [IngestOp(entities, descriptors, samples)], window), d);
      gauge.Some? && gauge.value.value == r
  {
    var op := IngestOp(entities, descriptors, samples);
    LastNumberIsLastPoint(samples, k, d.id, r);
    LogAfterIngest(ops, op, d.id);
    LastOfConcat(Log(ops, d.id), Points(samples, d.id));
    LastOfLogIsShown(ops + [op], window, d, Log(ops, d.id) + Points(samples, d.id), r);
  }

  lemma LastOfLogIsShown(ops: seq<Op>, window: nat, d: SeriesDescriptor, log: seq<Point>, r: real)
    requires window >= 1 && d.kind != Info && Log(ops, d.id) == log
    requires Values(log) != [] && Values(log)[|Values(log)| - 1] == r
    ensures var gauge := GaugeFrom(Run(ops, window), d); gauge.Some? && gauge.value.value == r
  {
    GaugeIsTheEndOfItsLog(ops, window, d);
  }

  lemma LogAfterIngest(ops: seq<Op>, op: Op, series: SeriesId)
    requires op.IngestOp?
    ensures Log(ops + [op], series) == Log(ops, series) + Points(op.samples, series)
  {
    assert (ops + [op])[..|ops|] == ops;
  }

  lemma LastOfConcat(a: seq<Point>, b: seq<Point>)
    requires b != []
    ensures Values(a + b) != [] && Values(a + b)[|a + b| - 1] == b[|b| - 1].value
  {
  }

  lemma EndOfLog(c: Contents, d: SeriesDescriptor, log: seq<Point>, window: nat)
    requires window >= 1 && IsWindow(c.history, d.id, log, window)
    ensures Charts(GaugeFrom(c, d), d, Values(log), window)
  {
    WindowValues(c, d, log, window);
    ChartsWindow(c, d, Values(log), window);
  }

  lemma WindowValues(c: Contents, d: SeriesDescriptor, log: seq<Point>, window: nat)
    requires IsWindow(c.history, d.id, log, window)
    ensures Values(HistoryOf(c.history, d.id)) == LastN(Values(log), window)
  {
    assert HistoryOf(c.history, d.id) == LastN(log, window);
    ValuesOfWindow(log, window);
  }

  lemma ChartsWindow(c: Contents, d: SeriesDescriptor, values: seq<real>, window: nat)
    requires window >= 1 && Values(HistoryOf(c.history, d.id)) == LastN(values, window)
    ensures Charts(GaugeFrom(c, d), d, values, window)
  {
    GaugeReads(c, d);
  }

  lemma ValuesOfWindow(log: seq<Point>, window: nat)
    ensures Values(LastN(log, window)) == LastN(Values(log), window)
  {
  }

  lemma ShareOf(value: real, m: real, share: real)
    requires m > 0.0
    ensures value / m >= share <==> value >= share * m
  {
    var x := value / m;
    assert value == x * m;
    assert (x - share) * m == value - share * m;
    if x < share {
      assert (share - x) * m > 0.0;
    }
  }

  /** From this share of the maximum on a reading is strained; temperatures are given more room. */
  function WarnShare(unit: Unit): real {
    if unit == Celsius then 0.85 else 0.60
  }

  function BadShare(unit: Unit): real {
    if unit == Celsius then 0.95 else 0.85
  }

  /** Severity is a share of the maximum; only temperatures are judged without one. */
  lemma SeverityIsAShare(unit: Unit, value: real, max: Option<real>)
    ensures SeverityOf(unit, value, max) == NotAProportion <==> unit != Celsius && (max.None? || max.value <= 0.0)
    ensures unit == Celsius && (max.None? || max.value <= 0.0) ==>
              && (SeverityOf(unit, value, max) == Critical <==> value >= 90.0)
              && (SeverityOf(unit, value, max) == Comfortable <==> value < 80.0)
    ensures max.Some? && max.value > 0.0 ==>
              && (SeverityOf(unit, value, max) == Critical <==> value >= BadShare(unit) * max.value)
              && (SeverityOf(unit, value, max) == Comfortable <==> value < WarnShare(unit) * max.value)
  {
    if max.Some? && max.value > 0.0 {
      ShareOf(value, max.value, BadShare(unit));
      ShareOf(value, max.value, WarnShare(unit));
    }
  }
}
