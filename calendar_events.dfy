/**
 * Calendar events as the Google Calendar API returns them, the "All day" / time-range label,
 * and the grouping of events into days sorted by date, each day sorted by start.
 */
module CalendarEvents {
  import opened Wrappers
  import Sorting

  /** One end of an event: `dateTime` (here a millisecond instant) for a timed event, `date` ("YYYY-MM-DD") for an all-day one. */
  datatype Boundary = Boundary(dateTime: Option<int>, date: Option<string>)

  datatype Event = Event(id: string, summary: Option<string>, location: Option<string>, start: Boundary, end: Boundary)

  /**
   * What the runtime's `Date` contributes: `utcDay(t)` is `new Date(t).toISOString().slice(0, 10)`,
   * and `parseDate(d)` is the instant of `new Date(d)` for a date-only string, `None` for an Invalid Date.
   */
  datatype DateFns = DateFns(utcDay: int -> string, parseDate: string -> Option<int>)

  /** `new Date(b.dateTime || b.date)` as an instant; `None` when that is an Invalid Date. */
  function Instant(b: Boundary, fns: DateFns): Option<int> {
    if b.dateTime.Some? then b.dateTime
    else if b.date.Some? then fns.parseDate(b.date.value)
    else None
  }

  /** The day an event is grouped under; `None` where `toISOString` throws on an Invalid Date. */
  function GroupKey(b: Boundary, fns: DateFns): Option<string> {
    match Instant(b, fns)
    case None => None
    case Some(t) => Some(fns.utcDay(t))
  }

  predicate Keyed(e: Event, fns: DateFns) {
    GroupKey(e.start, fns).Some?
  }

  predicate AllKeyed(s: seq<Event>, fns: DateFns) {
    forall i :: 0 <= i < |s| ==> Keyed(s[i], fns)
  }

  /** The number the within-day sort compares: the start instant (every grouped event has one). */
  function StartMs(e: Event, fns: DateFns): int {
    Instant(e.start, fns).GetOr(0)
  }

  function ByStart(fns: DateFns): Event -> int {
    e => StartMs(e, fns)
  }

  /** `arr.sort((a, b) => new Date(a.start…) - new Date(b.start…))`, a stable sort by start. */
  function SortByStart(s: seq<Event>, fns: DateFns): seq<Event> {
    Sorting.SortByRank(s, ByStart(fns))
  }

  // ---------------------------------------------------------------------------
  // fmtTimeRange

  /** The label of an event's time column: "All day", or the two instants that are shown as local times. */
  datatype TimeLabel = AllDay | Range(from: Option<int>, to: Option<int>)

  function FmtTimeRange(ev: Event, fns: DateFns): (r: TimeLabel)
    ensures r == AllDay <==> ev.start.dateTime.None?
    ensures r.Range? ==> r.from == ev.start.dateTime && r.to == Instant(ev.end, fns)
  {
    if ev.start.dateTime.None? then AllDay else Range(Instant(ev.start, fns), Instant(ev.end, fns))
  }

  // ---------------------------------------------------------------------------
  // The grouping as a specification

  /** The events of `s` grouped under day `k`, in input order. */
  function Bucket(s: seq<Event>, k: string, fns: DateFns): seq<Event> {
    if s == [] then []
    else Bucket(s[..|s| - 1], k, fns) + (if GroupKey(s[|s| - 1].start, fns) == Some(k) then [s[|s| - 1]] else [])
  }

  /** The days the events of `s` are grouped under. */
  function KeySet(s: seq<Event>, fns: DateFns): set<string> {
    if s == [] then {}
    else KeySet(s[..|s| - 1], fns) + (match GroupKey(s[|s| - 1].start, fns) case Some(k) => {k} case None => {})
  }

  /** One entry of the result: a day and its events. */
  type DayGroup = (string, seq<Event>)

  function KeysOf(r: seq<DayGroup>): set<string> {
    set j | 0 <= j < |r| :: r[j].0
  }

  /**
   * `r` is the grouping of `events`: days strictly ascending, exactly the days of the events,
   * and each day holding its own events sorted by start.
   */
  ghost predicate IsGroupingOf(events: seq<Event>, fns: DateFns, r: seq<DayGroup>) {
    && Sorting.StrictlyAscendingKeys(r)
    && KeysOf(r) == KeySet(events, fns)
    && forall j :: 0 <= j < |r| ==> r[j].1 == SortByStart(Bucket(events, r[j].0, fns), fns)
  }

  // ---------------------------------------------------------------------------
  // groupByDate

  /**
   * `groupByDate(events)`: fill a map from day to events in one pass, sort each day by start,
   * and sort the entries by day. An event whose start is an Invalid Date makes `toISOString`
   * throw; the error carries the index of the first such event.
   */
  method GroupByDate(events: seq<Event>, fns: DateFns) returns (r: Result<seq<DayGroup>, nat>)
    ensures r.Ok? <==> AllKeyed(events, fns)
    ensures r.Ok? ==> IsGroupingOf(events, fns, r.value)
    ensures r.Err? ==> r.error < |events| && !Keyed(events[r.error], fns) && AllKeyed(events[..r.error], fns)
  {
    var groups, order, bad := CollectDays(events, fns);
    if bad.Some? {
      return Err(bad.value);
    }
    var entries := DayEntries(groups, order, fns);
    SortedEntriesGroup(events, fns, groups, order, entries);
    r := Ok(Sorting.SortByKey(entries));
  }

  /**
   * The first loop of `groupByDate`: files each event under its day, or stops at the first
   * event whose start has no instant.
   */
  method CollectDays(events: seq<Event>, fns: DateFns) returns (groups: map<string, seq<Event>>, order: seq<string>, bad: Option<nat>)
    ensures bad.None? ==> AllKeyed(events, fns) && DayMap(events, fns, groups, order)
    ensures bad.Some? ==> bad.value < |events| && !Keyed(events[bad.value], fns) && AllKeyed(events[..bad.value], fns)
  {
    groups, order := map[], [];
    var i := 0;
    while i < |events|
      invariant 0 <= i <= |events|
      invariant AllKeyed(events[..i], fns)
      invariant DayMap(events[..i], fns, groups, order)
    {
      var key := GroupKey(events[i].start, fns);
      if key.None? {
        return groups, order, Some(i);
      }
      DayMapGrow(events, i, fns, groups, order);
      groups, order := FileGroups(groups, key.value, events[i]), FileOrder(groups, order, key.value);
      i := i + 1;
    }
    assert events[..i] == events;
    bad := None;
  }

  /** The second loop of `groupByDate`: one entry per day in first-seen order, its events sorted by start. */
  method DayEntries(groups: map<string, seq<Event>>, order: seq<string>, fns: DateFns) returns (entries: seq<DayGroup>)
    requires forall k :: k in order ==> k in groups
    ensures |entries| == |order|
    ensures forall m :: 0 <= m < |order| ==> order[m] in groups && entries[m] == (order[m], SortByStart(groups[order[m]], fns))
  {
    entries := [];
    var j := 0;
    while j < |order|
      invariant 0 <= j <= |order|
      invariant |entries| == j
      invariant forall m :: 0 <= m < j ==> order[m] in groups && entries[m] == (order[m], SortByStart(groups[order[m]], fns))
    {
      entries := entries + [(order[j], SortByStart(groups[order[j]], fns))];
      j := j + 1;
    }
  }

  /**
   * The loop state of `groupByDate` after reading `s`: `groups` maps each day seen to its events
   * in input order, and `order` lists the days once each in first-seen order (the iteration order of a `Map`).
   */
  ghost predicate DayMap(s: seq<Event>, fns: DateFns, groups: map<string, seq<Event>>, order: seq<string>) {
    && groups.Keys == KeySet(s, fns)
    && (forall k :: k in groups ==> groups[k] == Bucket(s, k, fns))
    && (forall a, b :: 0 <= a < b < |order| ==> order[a] != order[b])
    && (forall k :: k in groups <==> k in order)
  }

  /** Files `e` under day `k`: appended to that day's events, or the first event of a new day. */
  function FileGroups(groups: map<string, seq<Event>>, k: string, e: Event): map<string, seq<Event>> {
    if k in groups then groups[k := groups[k] + [e]] else groups[k := [e]]
  }

  /** A new day joins the end of the first-seen order. */
  function FileOrder(groups: map<string, seq<Event>>, order: seq<string>, k: string): seq<string> {
    if k in groups then order else order + [k]
  }

  /** One step of the first loop of `groupByDate`. */
  lemma DayMapGrow(events: seq<Event>, i: nat, fns: DateFns, groups: map<string, seq<Event>>, order: seq<string>)
    requires i < |events|
    requires AllKeyed(events[..i], fns) && DayMap(events[..i], fns, groups, order)
    requires Keyed(events[i], fns)
    ensures var k := GroupKey(events[i].start, fns).value;
      AllKeyed(events[..i + 1], fns) && DayMap(events[..i + 1], fns, FileGroups(groups, k, events[i]), FileOrder(groups, order, k))
  {
    assert events[..i + 1] == events[..i] + [events[i]];
    DayMapStep(events[..i], events[i], fns, groups, order);
  }

  lemma DayMapStep(s: seq<Event>, e: Event, fns: DateFns, groups: map<string, seq<Event>>, order: seq<string>)
    requires DayMap(s, fns, groups, order)
    requires Keyed(e, fns)
    ensures var k := GroupKey(e.start, fns).value;
      if k !in groups then DayMap(s + [e], fns, groups[k := [e]], order + [k])
      else DayMap(s + [e], fns, groups[k := groups[k] + [e]], order)
  {
    var k := GroupKey(e.start, fns).value;
    assert (s + [e])[..|s|] == s;
    forall k' ensures Bucket(s + [e], k', fns) == Bucket(s, k', fns) + (if k == k' then [e] else []) {
    }
    if k !in groups {
      KeySetHasNonEmptyBuckets(s, fns, k);
    }
  }

  /** Sorting the per-day entries by day gives the grouping of all events. */
  lemma SortedEntriesGroup(events: seq<Event>, fns: DateFns, groups: map<string, seq<Event>>, order: seq<string>, entries: seq<DayGroup>)
    requires DayMap(events, fns, groups, order)
    requires |entries| == |order|
    requires forall m :: 0 <= m < |order| ==> order[m] in groups && entries[m] == (order[m], SortByStart(groups[order[m]], fns))
    ensures IsGroupingOf(events, fns, Sorting.SortByKey(entries))
  {
    var sorted := Sorting.SortByKey(entries);
    assert Sorting.DistinctKeys(entries) by {
      forall a, b | 0 <= a < b < |entries| ensures entries[a].0 != entries[b].0 {
        assert entries[a].0 == order[a] && entries[b].0 == order[b];
      }
    }
    Sorting.SortByKeyCorrect(entries);
    EntriesHoldBuckets(events, fns, groups, order, entries, sorted);
    EntriesCoverDays(groups, order, entries, sorted);
  }

  lemma EntriesHoldBuckets(events: seq<Event>, fns: DateFns, groups: map<string, seq<Event>>, order: seq<string>,
                           entries: seq<DayGroup>, sorted: seq<DayGroup>)
    requires forall k :: k in groups ==> groups[k] == Bucket(events, k, fns)
    requires |entries| == |order|
    requires forall m :: 0 <= m < |order| ==> order[m] in groups && entries[m] == (order[m], SortByStart(groups[order[m]], fns))
    requires multiset(sorted) == multiset(entries)
    ensures forall x :: 0 <= x < |sorted| ==>
      sorted[x].0 in groups && sorted[x].1 == SortByStart(Bucket(events, sorted[x].0, fns), fns)
  {
    forall x | 0 <= x < |sorted|
      ensures sorted[x].0 in groups && sorted[x].1 == SortByStart(Bucket(events, sorted[x].0, fns), fns)
    {
      assert sorted[x] in multiset(entries);
      var m :| 0 <= m < |entries| && entries[m] == sorted[x];
    }
  }

  lemma EntriesCoverDays(groups: map<string, seq<Event>>, order: seq<string>, entries: seq<DayGroup>, sorted: seq<DayGroup>)
    requires forall k :: k in groups <==> k in order
    requires |entries| == |order|
    requires forall m :: 0 <= m < |order| ==> entries[m].0 == order[m]
    requires multiset(sorted) == multiset(entries)
    ensures KeysOf(sorted) == groups.Keys
  {
    forall k | k in KeysOf(sorted) ensures k in groups {
      var x :| 0 <= x < |sorted| && sorted[x].0 == k;
      assert sorted[x] in multiset(entries);
      var m :| 0 <= m < |entries| && entries[m] == sorted[x];
    }
    forall k | k in groups ensures k in KeysOf(sorted) {
      var m :| 0 <= m < |order| && order[m] == k;
      assert entries[m] in multiset(sorted);
      var x :| 0 <= x < |sorted| && sorted[x] == entries[m];
    }
  }

  // ---------------------------------------------------------------------------
  // Properties of the grouping

  lemma {:induction false} BucketMembers(s: seq<Event>, k: string, fns: DateFns, e: Event)
    ensures e in Bucket(s, k, fns) <==> e in s && GroupKey(e.start, fns) == Some(k)
  {
    if s != [] {
      var p := s[..|s| - 1];
      BucketMembers(p, k, fns, e);
      assert s == p + [s[|s| - 1]];
    }
  }

  lemma {:induction false} KeySetHasNonEmptyBuckets(s: seq<Event>, fns: DateFns, k: string)
    ensures k in KeySet(s, fns) <==> Bucket(s, k, fns) != []
  {
    if s != [] {
      KeySetHasNonEmptyBuckets(s[..|s| - 1], fns, k);
    }
  }

  /** The events of several days, `ks`, pooled together. */
  function Pooled(ks: seq<string>, s: seq<Event>, fns: DateFns): multiset<Event> {
    if ks == [] then multiset{} else multiset(Bucket(s, ks[0], fns)) + Pooled(ks[1..], s, fns)
  }

  lemma {:induction false} PooledAppend(ks: seq<string>, p: seq<Event>, e: Event, fns: DateFns)
    requires forall a, b :: 0 <= a < b < |ks| ==> ks[a] != ks[b]
    ensures Pooled(ks, p + [e], fns)
         == Pooled(ks, p, fns) + (if GroupKey(e.start, fns).Some? && GroupKey(e.start, fns).value in ks then multiset{e} else multiset{})
  {
    if ks != [] {
      assert (p + [e])[..|p + [e]| - 1] == p;
      PooledAppend(ks[1..], p, e, fns);
      assert ks == [ks[0]] + ks[1..];
    }
  }

  lemma {:induction false} PooledCoversAll(ks: seq<string>, s: seq<Event>, fns: DateFns)
    requires forall a, b :: 0 <= a < b < |ks| ==> ks[a] != ks[b]
    requires AllKeyed(s, fns)
    requires KeySet(s, fns) <= set k | k in ks
    ensures Pooled(ks, s, fns) == multiset(s)
  {
    if s == [] {
      PooledOfNothing(ks, fns);
    } else {
      var p, e := s[..|s| - 1], s[|s| - 1];
      assert s == p + [e];
      assert AllKeyed(p, fns) by {
        forall i | 0 <= i < |p| ensures Keyed(p[i], fns) { assert p[i] == s[i]; }
      }
      assert Keyed(e, fns);
      PooledCoversAll(ks, p, fns);
      PooledAppend(ks, p, e, fns);
    }
  }

  lemma {:induction false} PooledOfNothing(ks: seq<string>, fns: DateFns)
    ensures Pooled(ks, [], fns) == multiset{}
  {
    if ks != [] {
      PooledOfNothing(ks[1..], fns);
    }
  }

  /** All events of the groups of `r`, day after day. */
  function Flatten(r: seq<DayGroup>): seq<Event> {
    if r == [] then [] else r[0].1 + Flatten(r[1..])
  }

  /** The sum of the sizes of the groups of `r`. */
  function TotalSize(r: seq<DayGroup>): nat {
    if r == [] then 0 else |r[0].1| + TotalSize(r[1..])
  }

  function DaysOf(r: seq<DayGroup>): seq<string> {
    if r == [] then [] else [r[0].0] + DaysOf(r[1..])
  }

  lemma {:induction false} FlattenIsPooled(r: seq<DayGroup>, events: seq<Event>, fns: DateFns)
    requires forall j :: 0 <= j < |r| ==> r[j].1 == SortByStart(Bucket(events, r[j].0, fns), fns)
    ensures multiset(Flatten(r)) == Pooled(DaysOf(r), events, fns)
    ensures |Flatten(r)| == TotalSize(r)
    ensures |DaysOf(r)| == |r| && forall j :: 0 <= j < |r| ==> DaysOf(r)[j] == r[j].0
  {
    if r != [] {
      FlattenIsPooled(r[1..], events, fns);
      Sorting.SortByRankCorrect(Bucket(events, r[0].0, fns), ByStart(fns));
    }
  }

  /**
   * Grouping is total: the groups hold exactly the input events (as a multiset), so their
   * sizes add up to the number of events.
   */
  lemma GroupingIsTotal(events: seq<Event>, fns: DateFns, r: seq<DayGroup>)
    requires AllKeyed(events, fns)
    requires IsGroupingOf(events, fns, r)
    ensures multiset(Flatten(r)) == multiset(events)
    ensures TotalSize(r) == |events|
  {
    FlattenIsPooled(r, events, fns);
    var ks := DaysOf(r);
    forall a, b | 0 <= a < b < |ks| ensures ks[a] != ks[b] {
      Sorting.StrLessIrreflexive(ks[a]);
    }
    forall k | k in KeySet(events, fns) ensures k in ks {
      assert k in KeysOf(r);
      var j :| 0 <= j < |r| && r[j].0 == k;
      assert ks[j] == k;
    }
    PooledCoversAll(ks, events, fns);
    assert |multiset(Flatten(r))| == |Flatten(r)|;
  }

  /** An event is in a day's group exactly when it is one of the input events and starts on that day. */
  lemma GroupMembership(events: seq<Event>, fns: DateFns, r: seq<DayGroup>, j: nat, e: Event)
    requires IsGroupingOf(events, fns, r)
    requires j < |r|
    ensures e in r[j].1 <==> e in events && GroupKey(e.start, fns) == Some(r[j].0)
  {
    var b := Bucket(events, r[j].0, fns);
    Sorting.SortByRankCorrect(b, ByStart(fns));
    assert e in r[j].1 <==> e in multiset(b);
    BucketMembers(events, r[j].0, fns, e);
  }

  /** Every keyed input event lies in exactly one group: the one for the day of its start. */
  lemma EventInItsDay(events: seq<Event>, fns: DateFns, r: seq<DayGroup>, i: nat)
    requires IsGroupingOf(events, fns, r)
    requires i < |events| && Keyed(events[i], fns)
    ensures exists j :: 0 <= j < |r| && r[j].0 == GroupKey(events[i].start, fns).value && events[i] in r[j].1
    ensures forall j :: 0 <= j < |r| && events[i] in r[j].1 ==> r[j].0 == GroupKey(events[i].start, fns).value
  {
    var k := GroupKey(events[i].start, fns).value;
    BucketMembers(events, k, fns, events[i]);
    KeySetHasNonEmptyBuckets(events, fns, k);
    assert k in KeysOf(r);
    var j :| 0 <= j < |r| && r[j].0 == k;
    GroupMembership(events, fns, r, j, events[i]);
    forall j' | 0 <= j' < |r| && events[i] in r[j'].1 ensures r[j'].0 == k {
      GroupMembership(events, fns, r, j', events[i]);
    }
  }

  /**
   * Within a day, events are in non-decreasing start order, and events with the same start
   * keep their input order.
   */
  lemma DayOrderedByStart(events: seq<Event>, fns: DateFns, r: seq<DayGroup>, j: nat)
    requires IsGroupingOf(events, fns, r)
    requires j < |r|
    ensures forall a, b :: 0 <= a < b < |r[j].1| ==> StartMs(r[j].1[a], fns) <= StartMs(r[j].1[b], fns)
    ensures forall t :: Sorting.WithRank(r[j].1, ByStart(fns), t) == Sorting.WithRank(Bucket(events, r[j].0, fns), ByStart(fns), t)
  {
    Sorting.SortByRankCorrect(Bucket(events, r[j].0, fns), ByStart(fns));
    assert Sorting.SortedByRank(r[j].1, ByStart(fns));
  }

  /** Days come out pairwise distinct and ascending. */
  lemma DaysAscending(events: seq<Event>, fns: DateFns, r: seq<DayGroup>)
    requires IsGroupingOf(events, fns, r)
    ensures forall a, b :: 0 <= a < b < |r| ==> r[a].0 != r[b].0 && Sorting.StrLess(r[a].0, r[b].0)
  {
    forall a, b | 0 <= a < b < |r| ensures r[a].0 != r[b].0 {
      Sorting.StrLessIrreflexive(r[a].0);
    }
  }

  /** The number written by the `n` characters of `d` from index `i`, read as decimal digits. */
  function FieldValue(d: string, i: nat, n: nat): int
    requires i + n <= |d|
  {
    if n == 0 then 0 else FieldValue(d, i, n - 1) * 10 + ((d[i + n - 1] as int) - ('0' as int))
  }

  /** The Gregorian leap-year rule. */
  predicate IsLeapYear(y: int) {
    y % 4 == 0 && (y % 100 != 0 || y % 400 == 0)
  }

  function DaysInMonth(y: int, m: int): int
    requires 1 <= m <= 12
  {
    if m == 2 then (if IsLeapYear(y) then 29 else 28)
    else if m == 4 || m == 6 || m == 9 || m == 11 then 30
    else 31
  }

  /**
   * An all-day date "YYYY-MM-DD" naming a real day of the proleptic Gregorian calendar:
   * digits around two hyphens, a month from 1 to 12, and a day within that month.
   */
  predicate IsIsoDate(d: string) {
    && |d| == 10 && d[4] == '-' && d[7] == '-'
    && (forall i :: 0 <= i < 10 && i != 4 && i != 7 ==> '0' <= d[i] <= '9')
    && 1 <= FieldValue(d, 5, 2) <= 12
    && 1 <= FieldValue(d, 8, 2) <= DaysInMonth(FieldValue(d, 0, 4), FieldValue(d, 5, 2))
  }

  /** A leap day is a date in a leap year. */
  lemma LeapDayIsDate()
    ensures IsIsoDate("2024-02-29")
  {
  }

  /** A leap day is not a date in a common year. */
  lemma NoLeapDayInCommonYear()
    ensures !IsIsoDate("2023-02-29")
  {
  }

  /** Months and days out of range are not dates. */
  lemma OutOfRangeFieldsAreNotDates()
    ensures !IsIsoDate("2024-13-45") && !IsIsoDate("0000-00-00")
  {
  }

  /**
   * `Date` reads every valid calendar date "YYYY-MM-DD" as UTC midnight of that day, so `toISOString`
   * gives the same day back.
   */
  ghost predicate ReadsDatesAsUtc(fns: DateFns) {
    forall d :: IsIsoDate(d) ==> fns.parseDate(d).Some? && fns.utcDay(fns.parseDate(d).value) == d
  }

  /**
   * Under that reading, an all-day event whose date is a valid calendar date lies in the group of exactly
   * that date, and in no other group.
   */
  lemma AllDayEventInOwnDate(events: seq<Event>, fns: DateFns, r: seq<DayGroup>, i: nat)
    requires ReadsDatesAsUtc(fns)
    requires IsGroupingOf(events, fns, r)
    requires i < |events| && events[i].start.dateTime.None?
    requires events[i].start.date.Some? && IsIsoDate(events[i].start.date.value)
    ensures exists j :: 0 <= j < |r| && r[j].0 == events[i].start.date.value && events[i] in r[j].1
    ensures forall j :: 0 <= j < |r| && events[i] in r[j].1 ==> r[j].0 == events[i].start.date.value
  {
    var d := events[i].start.date.value;
    assert GroupKey(events[i].start, fns) == Some(d);
    EventInItsDay(events, fns, r, i);
  }
}
