/** The three per-country endpoints: `get_country_all_events` (every
    message naming the country, bucketed by display name),
    `get_country_latest_events` (the messages of the country's latest day)
    and `get_country_events` (the messages of a given day), the last two
    bucketed by normalized region and location. */
module Events {
  import opened Wrappers
  import opened Text
  import opened Seqs
  import opened Sorting
  import opened Records
  import opened CountryNames
  import opened Countries
  import opened Zones
  import Dates

  /** The two 404 answers. */
  datatype NotFound = UnknownCountry | NoEvents

  datatype CountryEvents = CountryEvents(date: int, country: string, zones: seq<ZoneEvents>)

  /** The requested country is non-empty and has coordinates. */
  predicate Known(country: string, table: CountryTable) {
    country != "" && country in table.coordinates
  }

  /** The message's country field resolves to a list containing `country`
      (never true of a row without a country). */
  predicate Mentions(m: Message, country: string, aliases: map<string, string>) {
    country in CountriesOf(m.country, aliases)
  }

  function MentionsOf(country: string, aliases: map<string, string>): Message -> bool {
    (m: Message) => Mentions(m, country, aliases)
  }

  lemma MentionsIn(m: Message, country: string, aliases: map<string, string>, names: seq<string>)
    requires names == CountriesOf(m.country, aliases)
    ensures MentionsOf(country, aliases)(m) <==> country in names
  {
  }

  /** The messages, in order, whose normalized countries include the requested one. */
  function Matching(msgs: seq<Message>, country: string, aliases: map<string, string>): seq<Message> {
    Filter(msgs, MentionsOf(country, aliases))
  }

  lemma MatchingMembers(msgs: seq<Message>, country: string, aliases: map<string, string>, m: Message)
    ensures m in Matching(msgs, country, aliases) <==> m in msgs && Mentions(m, country, aliases)
  {
    FilterMembership(msgs, MentionsOf(country, aliases), m);
  }

  /** The largest creation instant of a non-empty list. */
  function MaxCreatedAt(msgs: seq<Message>): (r: int)
    requires msgs != []
    ensures exists m :: m in msgs && m.createdAt == r
    ensures forall m :: m in msgs ==> m.createdAt <= r
  {
    if |msgs| == 1 then msgs[0].createdAt
    else
      var init, last := msgs[..|msgs| - 1], msgs[|msgs| - 1];
      assert msgs == init + [last];
      var p := MaxCreatedAt(init);
      if last.createdAt > p then last.createdAt else p
  }

  /** The all-events bucket key: the normalized display name. */
  function DisplayKey(m: Message): string {
    Norm(Some(DisplayName(m)))
  }

  /** The all-events zone shows the display name of its first message and
      no location. */
  function DisplayLabel(items: seq<Message>): ZoneLabel {
    ZoneLabel(if items == [] then None else Some(DisplayName(items[0])), None)
  }

  /** The date-scoped bucket key: normalized region and location. */
  function PlaceKey(m: Message): (string, string) {
    (Norm(m.region), Norm(m.location))
  }

  function Region(m: Message): Option<string> { m.region }

  function Location(m: Message): Option<string> { m.location }

  /** The first non-empty value of the field among the items, `None` if there is none. */
  function FirstTruthy(items: seq<Message>, field: Message -> Option<string>): (r: Option<string>)
    ensures r.None? || Truthy(r)
  {
    if items == [] then None
    else if Truthy(field(items[0])) then field(items[0])
    else FirstTruthy(items[1..], field)
  }

  /** The value is that of the first message whose field is non-empty, and
      there is none only when no field is non-empty. */
  lemma {:induction false} FirstTruthyIsFirst(items: seq<Message>, field: Message -> Option<string>)
    ensures FirstTruthy(items, field).Some? ==>
      exists j :: 0 <= j < |items| && field(items[j]) == FirstTruthy(items, field) && forall k :: 0 <= k < j ==> !Truthy(field(items[k]))
    ensures FirstTruthy(items, field).None? ==> forall j :: 0 <= j < |items| ==> !Truthy(field(items[j]))
  {
    if items != [] && !Truthy(field(items[0])) {
      var rest := items[1..];
      FirstTruthyIsFirst(rest, field);
      var r := FirstTruthy(rest, field);
      if r.Some? {
        var j :| 0 <= j < |rest| && field(rest[j]) == r && forall k :: 0 <= k < j ==> !Truthy(field(rest[k]));
        assert field(items[j + 1]) == r;
        forall k | 0 <= k < j + 1 ensures !Truthy(field(items[k])) {
          if k > 0 { assert items[k] == rest[k - 1]; }
        }
      } else {
        forall j | 0 <= j < |items| ensures !Truthy(field(items[j])) {
          if j > 0 { assert items[j] == rest[j - 1]; }
        }
      }
    }
  }

  /** A date-scoped zone shows the first non-empty region and the first
      non-empty location among its messages. */
  function PlaceLabel(items: seq<Message>): ZoneLabel {
    ZoneLabel(FirstTruthy(items, Region), FirstTruthy(items, Location))
  }

  /** `get_country_all_events(country)` over the stored rows. */
  method GetCountryAllEvents(rows: seq<Message>, table: CountryTable, country: string)
    returns (r: Result<CountryEvents, NotFound>)
    ensures !Known(country, table) ==> r == Failure(UnknownCountry)
    ensures Known(country, table) && Matching(rows, country, table.aliases) == [] ==> r == Failure(NoEvents)
    ensures Known(country, table) && Matching(rows, country, table.aliases) != [] ==>
      var msgs := Matching(rows, country, table.aliases);
      r == Success(CountryEvents(DayOf(MaxCreatedAt(msgs)), country, SortDesc(ZonesOf(msgs, DisplayKey, DisplayLabel), ZoneCount)))
  {
    if country == "" || country !in table.coordinates {
      return Failure(UnknownCountry);
    }
    var msgs := Matching(rows, country, table.aliases);
    if msgs == [] {
      return Failure(NoEvents);
    }
    var lastDate := DayOf(MaxCreatedAt(msgs));
    var zones := BuildZones(msgs, DisplayKey, DisplayLabel);
    r := Success(CountryEvents(lastDate, country, zones));
  }

  /** The latest-instant query: the `created_at` of the first row, newest
      first, whose country resolves to a list containing `country`. */
  method FindLatest(rows: seq<Message>, country: string, aliases: map<string, string>) returns (latest: Option<int>)
    ensures latest.None? <==> Matching(rows, country, aliases) == []
    ensures latest.Some? ==> latest.value == MaxCreatedAt(Matching(rows, country, aliases))
  {
    var sorted := SortDesc(rows, Dates.CreatedAt);
    SortDescSorted(rows, Dates.CreatedAt);
    ghost var mentions := MentionsOf(country, aliases);
    ghost var at;
    latest, at := ScanNewestFirst(sorted, country, aliases, mentions);
    if latest.Some? {
      FirstMatchIsLatest(rows, sorted, at, mentions);
    } else {
      NoneInReordering(rows, sorted, mentions);
    }
  }

  /** The loop of the latest-instant query: the `created_at` of the first
      row that mentions `country`, with `at` the position of that row. */
  method ScanNewestFirst(sorted: seq<Message>, country: string, aliases: map<string, string>, ghost mentions: Message -> bool)
    returns (latest: Option<int>, ghost at: int)
    requires mentions == MentionsOf(country, aliases)
    ensures 0 <= at <= |sorted|
    ensures forall k :: 0 <= k < at ==> !mentions(sorted[k])
    ensures latest.None? <==> at == |sorted|
    ensures latest.Some? ==> at < |sorted| && mentions(sorted[at]) && latest.value == sorted[at].createdAt
  {
    latest := None;
    var i := 0;
    while i < |sorted|
      invariant 0 <= i <= |sorted|
      invariant forall k :: 0 <= k < i ==> !mentions(sorted[k])
    {
      var mentioned := RowMentions(sorted[i], country, aliases, mentions);
      if mentioned {
        latest, at := Some(sorted[i].createdAt), i;
        return;
      }
      i := i + 1;
    }
    at := i;
  }

  /** Whether the normalised country names of one row include `country`. */
  method RowMentions(m: Message, country: string, aliases: map<string, string>, ghost mentions: Message -> bool) returns (b: bool)
    requires mentions == MentionsOf(country, aliases)
    ensures b == mentions(m)
  {
    var normCountries := NormalizeCountryNames(m.country, aliases);
    MentionsIn(m, country, aliases, normCountries);
    b := country in normCountries;
  }

  /** In a newest-first ordering of the rows, the first row satisfying `p`
      carries the latest `created_at` of all the rows satisfying `p`. */
  lemma FirstMatchIsLatest(rows: seq<Message>, sorted: seq<Message>, i: int, p: Message -> bool)
    requires multiset(sorted) == multiset(rows) && SortedDesc(sorted, Dates.CreatedAt)
    requires 0 <= i < |sorted| && p(sorted[i])
    requires forall k :: 0 <= k < i ==> !p(sorted[k])
    ensures Filter(rows, p) != []
    ensures sorted[i].createdAt == MaxCreatedAt(Filter(rows, p))
  {
    var msgs := Filter(rows, p);
    assert sorted[i] in multiset(rows) by {
      assert sorted[i] in multiset(sorted);
    }
    FilterMembership(rows, p, sorted[i]);
    var mx := MaxCreatedAt(msgs);
    var m :| m in msgs && m.createdAt == mx;
    FilterMembership(rows, p, m);
    assert m in sorted by {
      assert m in multiset(rows);
    }
    var j :| 0 <= j < |sorted| && sorted[j] == m;
    assert j >= i;
    if j > i {
      assert Dates.CreatedAt(sorted[i]) >= Dates.CreatedAt(sorted[j]);
    }
  }

  /** When no row of a reordering satisfies `p`, no row does. */
  lemma NoneInReordering(rows: seq<Message>, sorted: seq<Message>, p: Message -> bool)
    requires multiset(sorted) == multiset(rows)
    requires forall k :: 0 <= k < |sorted| ==> !p(sorted[k])
    ensures Filter(rows, p) == []
  {
    forall i | 0 <= i < |rows| ensures !p(rows[i]) {
      assert rows[i] in multiset(sorted) by {
        assert rows[i] in multiset(rows);
      }
      var k :| 0 <= k < |sorted| && sorted[k] == rows[i];
    }
    FilterNone(rows, p);
  }

  /** `get_country_latest_events(country)` over the stored rows. */
  method GetCountryLatestEvents(rows: seq<Message>, table: CountryTable, country: string)
    returns (r: Result<CountryEvents, NotFound>)
    ensures !Known(country, table) ==> r == Failure(UnknownCountry)
    ensures Known(country, table) && Matching(rows, country, table.aliases) == [] ==> r == Failure(NoEvents)
    ensures Known(country, table) && Matching(rows, country, table.aliases) != [] ==>
      var day := DayOf(MaxCreatedAt(Matching(rows, country, table.aliases)));
      var msgs := Matching(DayRows(rows, day), country, table.aliases);
      r == Success(CountryEvents(day, country, SortDesc(ZonesOf(msgs, PlaceKey, PlaceLabel), ZoneCount)))
  {
    if country == "" || country !in table.coordinates {
      return Failure(UnknownCountry);
    }
    var lastDate := FindLatest(rows, country, table.aliases);
    if lastDate.None? {
      return Failure(NoEvents);
    }
    var targetDate := DayOf(lastDate.value);
    var msgs := Matching(DayRows(rows, targetDate), country, table.aliases);
    var zones := BuildZones(msgs, PlaceKey, PlaceLabel);
    r := Success(CountryEvents(targetDate, country, zones));
  }

  /** `get_country_events(country, date)` over the stored rows: a known
      country always gets an answer, with no zones when nothing matches. */
  method GetCountryEvents(rows: seq<Message>, table: CountryTable, country: string, day: int)
    returns (r: Result<CountryEvents, NotFound>)
    ensures !Known(country, table) ==> r == Failure(UnknownCountry)
    ensures Known(country, table) ==>
      var msgs := Matching(DayRows(rows, day), country, table.aliases);
      r == Success(CountryEvents(day, country, SortDesc(ZonesOf(msgs, PlaceKey, PlaceLabel), ZoneCount)))
  {
    if country == "" || country !in table.coordinates {
      return Failure(UnknownCountry);
    }
    var msgs := Matching(DayRows(rows, day), country, table.aliases);
    var zones := BuildZones(msgs, PlaceKey, PlaceLabel);
    r := Success(CountryEvents(day, country, zones));
  }

  /** With no matching message there are no zones. */
  lemma NoMatchesNoZones<K>(key: Message -> K, naming: seq<Message> -> ZoneLabel)
    ensures SortDesc(ZonesOf([], key, naming), ZoneCount) == []
  {
  }

  /** The latest-events day is the day of some matching row, and no
      matching row is on a later day. */
  lemma LatestDayIsLatest(rows: seq<Message>, country: string, aliases: map<string, string>, m: Message)
    requires m in rows && Mentions(m, country, aliases)
    ensures Matching(rows, country, aliases) != []
    ensures DayOf(m.createdAt) <= DayOf(MaxCreatedAt(Matching(rows, country, aliases)))
  {
    MatchingMembers(rows, country, aliases, m);
    DayOfMonotone(m.createdAt, MaxCreatedAt(Matching(rows, country, aliases)));
  }

  /** Every message of an all-events zone has the display name the zone
      shows, up to `norm`. */
  lemma DisplayZoneNames(msgs: seq<Message>, i: int, m: Message)
    requires 0 <= i < |Buckets(msgs, DisplayKey)| && m in Buckets(msgs, DisplayKey)[i]
    ensures DisplayLabel(Buckets(msgs, DisplayKey)[i]).region.Some?
    ensures DisplayKey(m) == Norm(DisplayLabel(Buckets(msgs, DisplayKey)[i]).region)
  {
    var b := Buckets(msgs, DisplayKey)[i];
    var k := BucketKeys(msgs, DisplayKey)[i];
    BucketsPartition(msgs, DisplayKey);
    assert b[0] in b;
  }
}
