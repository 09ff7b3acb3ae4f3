/** The record shapes the core passes around: the stored `message` row, the
    message dict that flows through the ingestion pipeline, and the
    country dataset. Instants are whole seconds since the epoch. */
module Records {
  import opened Wrappers

  const SecondsPerDay: int := 86400

  /** `datetime.date()` of a naive UTC instant: the day number it falls on
      (floor division, also for instants before the epoch). */
  function DayOf(t: int): int {
    t / SecondsPerDay
  }

  lemma DayOfMonotone(a: int, b: int)
    requires a <= b
    ensures DayOf(a) <= DayOf(b)
  {
  }

  /** A Python `datetime`: wall-clock seconds and a UTC offset in seconds,
      `None` when the value is naive. */
  datatype DateTime = DateTime(wall: int, offset: Option<int>)

  /** The instant a `datetime` denotes, a naive one read as UTC. */
  function UtcInstant(dt: DateTime): int {
    dt.wall - dt.offset.GetOr(0)
  }

  /** A row of the `message` table. */
  datatype Message = Message(
    id: int,
    telegramMessageId: Option<int>,
    source: string,
    channel: Option<string>,
    rawText: string,
    translatedText: Option<string>,
    country: Option<string>,
    region: Option<string>,
    location: Option<string>,
    title: Option<string>,
    eventTimestamp: Option<DateTime>,
    orientation: Option<string>,
    createdAt: int)

  /** What the `date` key of a pipeline dict may hold. */
  datatype DateValue = DateTimeValue(dt: DateTime) | TextValue(text: string)

  /** A message dict of the pipeline; `None` stands for a key that is absent
      or holds `None`. */
  datatype Record = Record(
    source: Option<string>,
    channel: Option<string>,
    orientation: Option<string>,
    text: Option<string>,
    date: Option<DateValue>,
    telegramMessageId: Option<int>,
    translatedText: Option<string>,
    rawText: Option<string>,
    country: Option<string>,
    region: Option<string>,
    location: Option<string>,
    title: Option<string>)

  /** The `countries.json` dataset: lower-case alias to canonical country,
      and the canonical countries that have coordinates. */
  datatype CountryTable = CountryTable(aliases: map<string, string>, coordinates: set<string>)
}
