/** The country endpoints: `get_active_countries` (events per canonical
    country within a period, the day of the latest one, the raw strings that
    resolved to nothing) and `get_countries_activity` (messages per raw
    country string on one day). The query's rows are the stored rows, in
    storage order, that the period selects. */
module Countries {
  import opened Wrappers
  import opened Text
  import opened Seqs
  import opened Sorting
  import opened Records
  import opened CountryNames

  /** The `created_at` bounds of a query: one calendar day, or everything
      from an instant on. */
  datatype Period = OnDay(day: int) | Since(start: int)

  /** `start_dt <= created_at <= end_dt` with `end_dt` the last instant of the
      day, or `created_at >= start_dt`. */
  predicate InPeriod(t: int, p: Period) {
    match p
    case OnDay(day) => day * SecondsPerDay <= t <= day * SecondsPerDay + SecondsPerDay - 1
    case Since(start) => start <= t
  }

  /** The query's period: the requested date wins over `days`. */
  function ActivePeriod(date: Option<int>, days: int, now: int): Period {
    if date.Some? then OnDay(date.value) else Since(now - days * SecondsPerDay)
  }

  /** The rows `get_active_countries` selects: in the period, with a country. */
  function ActiveRows(rows: seq<Message>, p: Period): seq<Message> {
    Filter(rows, (m: Message) => InPeriod(m.createdAt, p) && m.country.Some?)
  }

  /** The rows `get_countries_activity` selects. */
  function DayRows(rows: seq<Message>, day: int): seq<Message> {
    Filter(rows, (m: Message) => InPeriod(m.createdAt, OnDay(day)))
  }

  /** One count: a canonical country named by a row, on the row's day. */
  datatype CountryEvent = CountryEvent(country: string, day: int)

  function EventCountry(e: CountryEvent): string { e.country }

  /** The canonical countries a row is counted for (its stripped country
      field, resolved). */
  function RowCountries(m: Message, aliases: map<string, string>): seq<string> {
    if m.country.None? then [] else CountriesOf(Some(Strip(m.country.value)), aliases)
  }

  /** A row whose stripped country is non-blank but resolves to nothing. */
  predicate IsIgnored(m: Message, aliases: map<string, string>) {
    m.country.Some? && Strip(m.country.value) != "" && RowCountries(m, aliases) == []
  }

  function Tag(names: seq<string>, day: int): (r: seq<CountryEvent>)
    ensures |r| == |names|
  {
    seq(|names|, k requires 0 <= k < |names| => CountryEvent(names[k], day))
  }

  /** Every count the rows contribute, in row order. */
  function Events(rows: seq<Message>, aliases: map<string, string>): seq<CountryEvent> {
    if rows == [] then []
    else
      var m := rows[|rows| - 1];
      Events(rows[..|rows| - 1], aliases) + Tag(RowCountries(m, aliases), DayOf(m.createdAt))
  }

  /** The raw strings put in `ignored_countries`. */
  function IgnoredSet(rows: seq<Message>, aliases: map<string, string>): set<string> {
    set m | m in rows && IsIgnored(m, aliases) :: Strip(m.country.value)
  }

  function Names(es: seq<CountryEvent>): (r: seq<string>)
    ensures |r| == |es|
  {
    seq(|es|, k requires 0 <= k < |es| => es[k].country)
  }

  /** The latest day among the events of `c`, none if it has none. */
  function LastDay(es: seq<CountryEvent>, c: string): (r: Option<int>)
    ensures r.Some? <==> c in Names(es)
  {
    if es == [] then None
    else
      var init, e := es[..|es| - 1], es[|es| - 1];
      assert Names(es) == Names(init) + [e.country];
      var p := LastDay(init, c);
      if e.country != c then p
      else if p.None? || e.day > p.value then Some(e.day)
      else p
  }

  datatype CountryStatus = CountryStatus(country: string, eventsCount: nat, lastDate: int)

  function StatusCount(s: CountryStatus): int { s.eventsCount }

  /** The entry of one counted country. */
  function StatusOf(es: seq<CountryEvent>, c: string): CountryStatus
    requires c in Names(es)
  {
    CountryStatus(c, CountKey(es, EventCountry, c), LastDay(es, c).value)
  }

  /** One entry per counted country, in first-count order. */
  function Summary(es: seq<CountryEvent>): (r: seq<CountryStatus>)
    ensures |r| == |DistinctBy(Names(es), Identity)|
  {
    var order := DistinctBy(Names(es), Identity);
    seq(|order|, k requires 0 <= k < |order| => StatusOf(es, order[k]))
  }

  /** The entries of countries that have coordinates. */
  function Located(statuses: seq<CountryStatus>, coordinates: set<string>): seq<CountryStatus> {
    Filter(statuses, (s: CountryStatus) => s.country in coordinates)
  }

  /** The `countries` list: located entries, most counted first, ties in
      first-count order. */
  function Ranked(es: seq<CountryEvent>, coordinates: set<string>): seq<CountryStatus> {
    SortDesc(Located(Summary(es), coordinates), StatusCount)
  }

  datatype ActiveCountries = ActiveCountries(countries: seq<CountryStatus>, ignoredCountries: seq<string>)

  /** `stats[c]`: the count and the last day seen so far. */
  datatype Stat = Stat(count: nat, lastDate: int)

  /** `stats` and its key order hold the count and last day of every
      country counted in `es`, in first-count order. */
  ghost predicate StatsOf(stats: map<string, Stat>, order: seq<string>, es: seq<CountryEvent>) {
    && order == DistinctBy(Names(es), Identity)
    && (forall c :: c in stats <==> c in Names(es))
    && (forall c :: c in stats ==> c in Names(es) && stats[c] == Stat(CountKey(es, EventCountry, c), LastDay(es, c).value))
  }

  /** The inner loop of `get_active_countries`: one count per resolved
      country of a row, on the row's day. */
  method CountRow(stats0: map<string, Stat>, order0: seq<string>, ghost es0: seq<CountryEvent>, names: seq<string>, d: int)
    returns (stats: map<string, Stat>, order: seq<string>, ghost es: seq<CountryEvent>)
    requires StatsOf(stats0, order0, es0)
    ensures es == es0 + Tag(names, d)
    ensures StatsOf(stats, order, es)
  {
    stats, order, es := stats0, order0, es0;
    var j := 0;
    while j < |names|
      invariant 0 <= j <= |names|
      invariant es == es0 + Tag(names[..j], d)
      invariant StatsOf(stats, order, es)
    {
      var c := names[j];
      ghost var before, orderBefore := stats, order;
      if c !in stats {
        stats := stats[c := Stat(0, d)];
        order := order + [c];
      }
      stats := stats[c := Stat(stats[c].count + 1, if d > stats[c].lastDate then d else stats[c].lastDate)];
      StatsStep(before, orderBefore, es, c, d, stats, order);
      TagExtend(es0, names, j, d);
      es := es + [CountryEvent(c, d)];
      j := j + 1;
    }
    TakeAll(names);
  }

  /** The `result` comprehension: the entries of located countries, in
      `stats` order. */
  method LocatedStatuses(stats: map<string, Stat>, order: seq<string>, ghost es: seq<CountryEvent>, coordinates: set<string>)
    returns (result: seq<CountryStatus>)
    requires StatsOf(stats, order, es)
    ensures result == Located(Summary(es), coordinates)
  {
    result := [];
    var k := 0;
    while k < |order|
      invariant 0 <= k <= |order|
      invariant result == Located(Summary(es)[..k], coordinates)
    {
      var c := order[k];
      assert Summary(es)[..k + 1] == Summary(es)[..k] + [StatusOf(es, c)];
      FilterAppend(Summary(es)[..k], [StatusOf(es, c)], (s: CountryStatus) => s.country in coordinates);
      if c in coordinates {
        result := result + [CountryStatus(c, stats[c].count, stats[c].lastDate)];
      }
      k := k + 1;
    }
    assert Summary(es)[..k] == Summary(es);
  }

  /** The row loop of `get_active_countries`. */
  method TallyRows(selected: seq<Message>, aliases: map<string, string>)
    returns (stats: map<string, Stat>, order: seq<string>, ignored: set<string>, ghost es: seq<CountryEvent>)
    ensures es == Events(selected, aliases)
    ensures StatsOf(stats, order, es)
    ensures ignored == IgnoredSet(selected, aliases)
  {
    stats, order, ignored, es := map[], [], {}, [];
    var i := 0;
    while i < |selected|
      invariant 0 <= i <= |selected|
      invariant es == Events(selected[..i], aliases)
      invariant StatsOf(stats, order, es)
      invariant ignored == IgnoredSet(selected[..i], aliases)
    {
      var m := selected[i];
      RowStep(selected[..i], m, aliases);
      TakeSnoc(selected, i);
      stats, order, ignored, es := TallyRow(stats, order, ignored, es, m, aliases);
      i := i + 1;
    }
    TakeAll(selected);
  }

  /** The body of the row loop of `get_active_countries` for one row. */
  method TallyRow(stats0: map<string, Stat>, order0: seq<string>, ignored0: set<string>, ghost es0: seq<CountryEvent>,
                  m: Message, aliases: map<string, string>)
    returns (stats: map<string, Stat>, order: seq<string>, ignored: set<string>, ghost es: seq<CountryEvent>)
    requires StatsOf(stats0, order0, es0)
    ensures es == es0 + Tag(RowCountries(m, aliases), DayOf(m.createdAt))
    ensures StatsOf(stats, order, es)
    ensures ignored == ignored0 + (if IsIgnored(m, aliases) then {Strip(m.country.value)} else {})
  {
    stats, order, ignored, es := stats0, order0, ignored0, es0;
    assert Tag([], DayOf(m.createdAt)) == [];
    if m.country.Some? && m.country.value != "" {
      var country := Strip(m.country.value);
      if country != "" {
        var normCountries := NormalizeCountryNames(Some(country), aliases);
        if normCountries == [] {
          ignored := ignored + {country};
        } else {
          stats, order, es := CountRow(stats, order, es, normCountries, DayOf(m.createdAt));
        }
      }
    }
  }

  /** `get_active_countries(days, date)` over the stored rows. */
  method GetActiveCountries(rows: seq<Message>, table: CountryTable, date: Option<int>, days: int, now: int)
    returns (r: ActiveCountries)
    requires days >= 1
    ensures r.countries == Ranked(Events(ActiveRows(rows, ActivePeriod(date, days, now)), table.aliases), table.coordinates)
    ensures StrictlyAscending(r.ignoredCountries)
    ensures forall s :: s in r.ignoredCountries <==> s in IgnoredSet(ActiveRows(rows, ActivePeriod(date, days, now)), table.aliases)
  {
    var selected := ActiveRows(rows, ActivePeriod(date, days, now));
    var stats, order, ignored, es := TallyRows(selected, table.aliases);
    var result := LocatedStatuses(stats, order, es, table.coordinates);
    var ignoredSorted := SortedStrings(ignored);
    r := ActiveCountries(SortDesc(result, StatusCount), ignoredSorted);
  }

  /** What one more row adds: its resolved countries as counts on its day,
      or its stripped string to the ignored set; never both. */
  lemma RowStep(rows: seq<Message>, m: Message, aliases: map<string, string>)
    ensures Events(rows + [m], aliases) == Events(rows, aliases) + Tag(RowCountries(m, aliases), DayOf(m.createdAt))
    ensures IgnoredSet(rows + [m], aliases) == IgnoredSet(rows, aliases) + (if IsIgnored(m, aliases) then {Strip(m.country.value)} else {})
    ensures m.country.None? || Strip(m.country.value) == "" ==> RowCountries(m, aliases) == [] && !IsIgnored(m, aliases)
    ensures Tag([], DayOf(m.createdAt)) == []
  {
    assert (rows + [m])[..|rows|] == rows;
    IgnoredSnoc(rows, m, aliases);
  }

  lemma IgnoredSnoc(rows: seq<Message>, m: Message, aliases: map<string, string>)
    ensures IgnoredSet(rows + [m], aliases) == IgnoredSet(rows, aliases) + (if IsIgnored(m, aliases) then {Strip(m.country.value)} else {})
  {
    var rows' := rows + [m];
    forall x | x in rows' ensures x in rows || x == m {}
    forall x | x in rows ensures x in rows' {}
  }

  /** `stats` after counting `c` on day `d`. */
  function Counted(stats: map<string, Stat>, c: string, d: int): map<string, Stat> {
    var s1 := if c in stats then stats else stats[c := Stat(0, d)];
    s1[c := Stat(s1[c].count + 1, if d > s1[c].lastDate then d else s1[c].lastDate)]
  }

  /** One pass of the inner loop keeps `stats` and its order in step with
      the events counted so far. */
  lemma StatsStep(stats: map<string, Stat>, order: seq<string>, es: seq<CountryEvent>, c: string, d: int,
                  s2: map<string, Stat>, o1: seq<string>)
    requires StatsOf(stats, order, es)
    requires s2 == Counted(stats, c, d) && o1 == if c in stats then order else order + [c]
    ensures StatsOf(s2, o1, es + [CountryEvent(c, d)])
  {
    var e := CountryEvent(c, d);
    AddEvent(es, e);
    var es' := es + [e];
    assert Names(es')[..|es|] == Names(es);
    assert o1 == DistinctBy(Names(es'), Identity);
    forall x | x in s2 ensures x in Names(es') && s2[x] == Stat(CountKey(es', EventCountry, x), LastDay(es', x).value) {
      if x != c {
        assert x in stats;
      } else if c !in stats {
        CountedIffNamed(es, c);
        assert LastDay(es, c).None?;
      }
    }
  }

  /** A country has a positive count iff some event names it. */
  lemma CountedIffNamed(es: seq<CountryEvent>, c: string)
    ensures CountKey(es, EventCountry, c) > 0 <==> c in Names(es)
  {
    CountKeyPositive(es, EventCountry, c);
    if c in Names(es) {
      var k :| 0 <= k < |es| && Names(es)[k] == c;
      assert EventCountry(es[k]) in KeySet(es, EventCountry);
    }
    if c in KeySet(es, EventCountry) {
      var k :| 0 <= k < |es| && EventCountry(es[k]) == c;
      assert Names(es)[k] == c;
    }
  }

  /** How appending one event moves the running statistics. */
  lemma AddEvent(es: seq<CountryEvent>, e: CountryEvent)
    ensures Names(es + [e]) == Names(es) + [e.country]
    ensures e.country in KeySet(Names(es), Identity) <==> e.country in Names(es)
    ensures forall c :: CountKey(es + [e], EventCountry, c) == CountKey(es, EventCountry, c) + (if c == e.country then 1 else 0)
    ensures forall c :: LastDay(es + [e], c) == if c != e.country then LastDay(es, c)
                                              else if LastDay(es, c).None? || e.day > LastDay(es, c).value then Some(e.day)
                                              else LastDay(es, c)
  {
    assert (es + [e])[..|es|] == es;
    assert Names(es + [e]) == Names(es) + [e.country];
    if e.country in Names(es) {
      var k :| 0 <= k < |Names(es)| && Names(es)[k] == e.country;
      assert Identity(Names(es)[k]) in KeySet(Names(es), Identity);
    }
  }

  /** A day's bounds select exactly the instants that fall on that day. */
  lemma OnDayIsDayOf(t: int, day: int)
    ensures InPeriod(t, OnDay(day)) <==> DayOf(t) == day
  {
  }

  /** With a date, the rows counted are those of that calendar day that have
      a country, whatever `days` is. */
  lemma DateTakesPrecedence(rows: seq<Message>, day: int, days: int, now: int, m: Message)
    ensures m in ActiveRows(rows, ActivePeriod(Some(day), days, now)) <==> m in rows && m.country.Some? && DayOf(m.createdAt) == day
  {
    FilterMembership(rows, (m: Message) => InPeriod(m.createdAt, OnDay(day)) && m.country.Some?, m);
    OnDayIsDayOf(m.createdAt, day);
  }

  /** `last_date` is the latest day among the country's counts. */
  lemma {:induction false} LastDayIsLatest(es: seq<CountryEvent>, c: string)
    requires LastDay(es, c).Some?
    ensures forall k :: 0 <= k < |es| && es[k].country == c ==> es[k].day <= LastDay(es, c).value
    ensures exists k :: 0 <= k < |es| && es[k].country == c && es[k].day == LastDay(es, c).value
  {
    var init, e := es[..|es| - 1], es[|es| - 1];
    var d := LastDay(es, c).value;
    var p := LastDay(init, c);
    if p.Some? {
      LastDayIsLatest(init, c);
      assert p.value <= d;
      var k :| 0 <= k < |init| && init[k].country == c && init[k].day == p.value;
      if e.country != c || e.day <= p.value {
        assert es[k] == init[k];
      }
    }
    forall k | 0 <= k < |es| && es[k].country == c ensures es[k].day <= d {
      if k < |init| {
        assert es[k] == init[k];
        assert Names(init)[k] == c;
      }
    }
  }

  lemma NamesAppend(a: seq<CountryEvent>, b: seq<CountryEvent>)
    ensures Names(a + b) == Names(a) + Names(b)
  {
  }

  lemma TagSnoc(names: seq<string>, j: int, day: int)
    requires 0 <= j < |names|
    ensures Tag(names[..j + 1], day) == Tag(names[..j], day) + [CountryEvent(names[j], day)]
  {
  }

  lemma TagExtend(es0: seq<CountryEvent>, names: seq<string>, j: int, day: int)
    requires 0 <= j < |names|
    ensures es0 + Tag(names[..j + 1], day) == es0 + Tag(names[..j], day) + [CountryEvent(names[j], day)]
  {
    TagSnoc(names, j, day);
  }

  lemma NamesTag(names: seq<string>, day: int)
    ensures Names(Tag(names, day)) == names
  {
  }

  lemma {:induction false} TagCount(names: seq<string>, day: int, c: string)
    ensures CountKey(Tag(names, day), EventCountry, c) == CountKey(names, Identity, c)
  {
    if names != [] {
      var init := names[..|names| - 1];
      TagCount(init, day, c);
      assert Tag(names, day)[..|names| - 1] == Tag(init, day);
    }
  }

  /** Each resolved name of a row adds exactly one to its country's count:
      a multi-country row counts for each, a repeated name twice. */
  lemma CountPerRow(rows: seq<Message>, m: Message, aliases: map<string, string>, c: string)
    ensures CountKey(Events(rows + [m], aliases), EventCountry, c)
         == CountKey(Events(rows, aliases), EventCountry, c) + CountKey(RowCountries(m, aliases), Identity, c)
  {
    RowStep(rows, m, aliases);
    CountKeyAppend(Events(rows, aliases), Tag(RowCountries(m, aliases), DayOf(m.createdAt)), EventCountry, c);
    TagCount(RowCountries(m, aliases), DayOf(m.createdAt), c);
  }

  lemma EventsNamesSnoc(rows: seq<Message>, m: Message, aliases: map<string, string>)
    ensures Names(Events(rows + [m], aliases)) == Names(Events(rows, aliases)) + RowCountries(m, aliases)
  {
    RowStep(rows, m, aliases);
    var tag := Tag(RowCountries(m, aliases), DayOf(m.createdAt));
    NamesAppend(Events(rows, aliases), tag);
    NamesTag(RowCountries(m, aliases), DayOf(m.createdAt));
  }

  /** Every country a row resolves to is counted. */
  lemma {:induction false} RowCounted(rows: seq<Message>, k: int, aliases: map<string, string>, c: string)
    requires 0 <= k < |rows| && c in RowCountries(rows[k], aliases)
    ensures c in Names(Events(rows, aliases))
  {
    var init, last := rows[..|rows| - 1], rows[|rows| - 1];
    InitLast(rows);
    EventsNamesSnoc(init, last, aliases);
    if k < |init| {
      assert init[k] == rows[k];
      RowCounted(init, k, aliases, c);
      assert c in Names(Events(init, aliases));
    } else {
      assert c in RowCountries(last, aliases);
    }
  }

  /** A row with a non-blank country is either counted for every country it
      resolves to, or its stripped string is ignored, depending only on
      whether it resolves to anything; a row that resolves to a country
      without coordinates is dropped, not ignored. */
  lemma IgnoredIffUnresolved(rows: seq<Message>, m: Message, aliases: map<string, string>)
    requires m in rows && m.country.Some? && Strip(m.country.value) != ""
    ensures Strip(m.country.value) in IgnoredSet(rows, aliases) <==> RowCountries(m, aliases) == []
    ensures forall c :: c in RowCountries(m, aliases) ==> CountKey(Events(rows, aliases), EventCountry, c) > 0
  {
    var k :| 0 <= k < |rows| && rows[k] == m;
    forall c | c in RowCountries(m, aliases) ensures CountKey(Events(rows, aliases), EventCountry, c) > 0 {
      RowCounted(rows, k, aliases, c);
      CountedIffNamed(Events(rows, aliases), c);
    }
  }

  /** The `countries` list holds one entry for each located country with a
      positive count, carrying its count and last day. */
  lemma RankedEntries(es: seq<CountryEvent>, coordinates: set<string>, st: CountryStatus)
    ensures st in Ranked(es, coordinates) <==>
      && st.country in coordinates
      && st.eventsCount == CountKey(es, EventCountry, st.country) > 0
      && LastDay(es, st.country) == Some(st.lastDate)
  {
    var summary := Summary(es);
    var order := DistinctBy(Names(es), Identity);
    SortDescMembers(Located(summary, coordinates), StatusCount, st);
    FilterMembership(summary, (s: CountryStatus) => s.country in coordinates, st);
    CountedIffNamed(es, st.country);
    DistinctMembers(Names(es), st.country);
    if st in summary {
      var k :| 0 <= k < |summary| && summary[k] == st;
      assert order[k] == st.country;
    }
    if st.country in Names(es) && st == StatusOf(es, st.country) {
      var k :| 0 <= k < |order| && order[k] == st.country;
      assert summary[k] == st;
    }
  }

  /** The `countries` list is ordered by count, most first, and countries
      with equal counts keep the order in which they were first counted. */
  lemma RankedOrder(es: seq<CountryEvent>, coordinates: set<string>, n: int)
    ensures SortedDesc(Ranked(es, coordinates), StatusCount)
    ensures WithKey(Ranked(es, coordinates), StatusCount, n) == WithKey(Located(Summary(es), coordinates), StatusCount, n)
  {
    SortDescSorted(Located(Summary(es), coordinates), StatusCount);
    SortDescStable(Located(Summary(es), coordinates), StatusCount, n);
  }

  /** One row of the `get_countries_activity` answer. */
  datatype CountryActivity = CountryActivity(country: string, eventsCount: nat)

  function ActivityCount(a: CountryActivity): int { a.eventsCount }

  /** The stripped, non-blank raw country strings of the rows, in order. */
  function ActivityKeys(rows: seq<Message>): seq<string> {
    if rows == [] then []
    else
      var m := rows[|rows| - 1];
      ActivityKeys(rows[..|rows| - 1])
        + (if m.country.Some? && Strip(m.country.value) != "" then [Strip(m.country.value)] else [])
  }

  /** One entry per distinct key, in first-appearance order, with its count. */
  function Tally(keys: seq<string>): (r: seq<CountryActivity>)
    ensures |r| == |DistinctBy(keys, Identity)|
  {
    var order := DistinctBy(keys, Identity);
    seq(|order|, k requires 0 <= k < |order| => CountryActivity(order[k], CountKey(keys, Identity, order[k])))
  }

  /** `counts` and its key order hold the number of occurrences of every
      key seen so far, in first-appearance order. */
  ghost predicate CountsOf(counts: map<string, nat>, order: seq<string>, keys: seq<string>) {
    && order == DistinctBy(keys, Identity)
    && (forall c :: c in counts <==> c in keys)
    && (forall c :: c in counts ==> counts[c] == CountKey(keys, Identity, c))
  }

  lemma CountStep(counts: map<string, nat>, order: seq<string>, keys: seq<string>, x: string)
    requires CountsOf(counts, order, keys)
    ensures CountsOf(counts[x := (if x in counts then counts[x] else 0) + 1],
                     if x in counts then order else order + [x], keys + [x])
  {
    KeyStep(keys, x);
    if x !in counts {
      CountKeyPositive(keys, Identity, x);
    }
  }

  /** The counting loop of `get_countries_activity`. */
  method CountKeys(msgs: seq<Message>) returns (counts: map<string, nat>, order: seq<string>, ghost keys: seq<string>)
    ensures keys == ActivityKeys(msgs)
    ensures CountsOf(counts, order, keys)
  {
    counts, order, keys := map[], [], [];
    var i := 0;
    while i < |msgs|
      invariant 0 <= i <= |msgs|
      invariant keys == ActivityKeys(msgs[..i])
      invariant CountsOf(counts, order, keys)
    {
      var m := msgs[i];
      ActivityKeysSnoc(msgs[..i], m);
      TakeSnoc(msgs, i);
      if m.country.Some? && m.country.value != "" {
        var country := Strip(m.country.value);
        if country != "" {
          CountStep(counts, order, keys, country);
          if country !in counts {
            order := order + [country];
          }
          counts := counts[country := (if country in counts then counts[country] else 0) + 1];
          keys := keys + [country];
        }
      }
      i := i + 1;
    }
    TakeAll(msgs);
  }

  /** `get_countries_activity(date)` over the stored rows. */
  method GetCountriesActivity(rows: seq<Message>, day: int) returns (r: seq<CountryActivity>)
    ensures r == SortDesc(Tally(ActivityKeys(DayRows(rows, day))), ActivityCount)
  {
    var counts, order, keys := CountKeys(DayRows(rows, day));
    var items: seq<CountryActivity> := [];
    var k := 0;
    while k < |order|
      invariant 0 <= k <= |order|
      invariant items == Tally(keys)[..k]
    {
      DistinctMembers(keys, order[k]);
      assert Tally(keys)[..k + 1] == Tally(keys)[..k] + [CountryActivity(order[k], counts[order[k]])];
      items := items + [CountryActivity(order[k], counts[order[k]])];
      k := k + 1;
    }
    assert Tally(keys)[..k] == Tally(keys);
    r := SortDesc(items, ActivityCount);
  }

  lemma ActivityKeysSnoc(msgs: seq<Message>, m: Message)
    ensures ActivityKeys(msgs + [m])
         == ActivityKeys(msgs) + (if m.country.Some? && Strip(m.country.value) != "" then [Strip(m.country.value)] else [])
    ensures m.country == Some("") ==> Strip(m.country.value) == ""
  {
    assert (msgs + [m])[..|msgs|] == msgs;
  }

  lemma KeyStep(keys: seq<string>, x: string)
    ensures (keys + [x])[..|keys|] == keys
    ensures x in KeySet(keys, Identity) <==> x in keys
    ensures forall c :: CountKey(keys + [x], Identity, c) == CountKey(keys, Identity, c) + (if c == x then 1 else 0)
  {
    assert (keys + [x])[..|keys|] == keys;
    if x in keys {
      var k :| 0 <= k < |keys| && keys[k] == x;
      assert Identity(keys[k]) in KeySet(keys, Identity);
    }
  }

  /** Each distinct non-blank stripped string gets exactly one entry, with
      its number of rows; no alias resolution is applied. */
  lemma ActivityEntries(keys: seq<string>, a: CountryActivity)
    ensures a in SortDesc(Tally(keys), ActivityCount) <==> a.country in keys && a.eventsCount == CountKey(keys, Identity, a.country)
  {
    var order := DistinctBy(keys, Identity);
    var tally := Tally(keys);
    SortDescMembers(tally, ActivityCount, a);
    DistinctMembers(keys, a.country);
    if a in tally {
      var k :| 0 <= k < |tally| && tally[k] == a;
      assert order[k] == a.country;
    }
    if a.country in order && a.eventsCount == CountKey(keys, Identity, a.country) {
      var k :| 0 <= k < |order| && order[k] == a.country;
      assert tally[k] == a;
    }
  }

  /** The answer is ordered by count, most first, ties in first-appearance
      order. */
  lemma ActivityOrder(keys: seq<string>, n: int)
    ensures SortedDesc(SortDesc(Tally(keys), ActivityCount), ActivityCount)
    ensures WithKey(SortDesc(Tally(keys), ActivityCount), ActivityCount, n) == WithKey(Tally(keys), ActivityCount, n)
  {
    SortDescSorted(Tally(keys), ActivityCount);
    SortDescStable(Tally(keys), ActivityCount, n);
  }
}
