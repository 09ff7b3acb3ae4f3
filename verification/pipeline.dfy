/** The ingestion run of `tools/run_pipeline.py`: drop the fetched messages
    already stored, translate, enrich, deduplicate, store, and prune rows
    whose event is older than the retention window. The `message` table is
    a `Database` object holding its rows in insertion order. */
module Pipeline {
  import opened Wrappers
  import opened Text
  import opened Seqs
  import opened Records
  import Translation
  import Enrichment
  import Dedupe

  /** The (channel, Telegram id) key under which a message is looked up. */
  function PairOf(m: Record): (Option<string>, Option<int>) {
    (m.channel, m.telegramMessageId)
  }

  /** The pairs the `select` of `filter_existing_messages` returns: those of
      the stored rows whose channel and id are both among the messages'
      (SQL `IN` never matches `NULL`). */
  function ExistingPairs(messages: seq<Record>, rows: seq<Message>): set<(Option<string>, Option<int>)> {
    var channels := set i | 0 <= i < |messages| && messages[i].channel.Some? :: messages[i].channel.value;
    var ids := set i | 0 <= i < |messages| && messages[i].telegramMessageId.Some? :: messages[i].telegramMessageId.value;
    set r | r in rows && r.channel.Some? && r.channel.value in channels
                     && r.telegramMessageId.Some? && r.telegramMessageId.value in ids
      :: (r.channel, r.telegramMessageId)
  }

  /** `filter_existing_messages(messages)` against the stored rows. */
  function FilterExisting(messages: seq<Record>, rows: seq<Message>): seq<Record> {
    if messages == [] then []
    else if (forall i :: 0 <= i < |messages| ==> messages[i].channel.None?)
         || (forall i :: 0 <= i < |messages| ==> messages[i].telegramMessageId.None?) then messages
    else
      var existing := ExistingPairs(messages, rows);
      Filter(messages, m => PairOf(m) !in existing)
  }

  /** Some stored row has the message's channel and id, both present. */
  predicate AlreadyStored(m: Record, rows: seq<Message>) {
    m.channel.Some? && m.telegramMessageId.Some?
    && exists r :: r in rows && r.channel == m.channel && r.telegramMessageId == m.telegramMessageId
  }

  /** The early returns do not change the outcome: the result keeps, in
      order, exactly the messages not already stored. */
  lemma FilterExistingDropsStored(messages: seq<Record>, rows: seq<Message>)
    ensures FilterExisting(messages, rows) == Filter(messages, m => !AlreadyStored(m, rows))
  {
    var p := (m: Record) => !AlreadyStored(m, rows);
    if messages == [] {
    } else if (forall i :: 0 <= i < |messages| ==> messages[i].channel.None?)
           || (forall i :: 0 <= i < |messages| ==> messages[i].telegramMessageId.None?) {
      FilterAll(messages, p);
    } else {
      var existing := ExistingPairs(messages, rows);
      var q := (m: Record) => PairOf(m) !in existing;
      forall i | 0 <= i < |messages| ensures q(messages[i]) == p(messages[i]) {
        var m := messages[i];
        if AlreadyStored(m, rows) {
          var r :| r in rows && r.channel == m.channel && r.telegramMessageId == m.telegramMessageId;
          assert m.channel.value in set j | 0 <= j < |messages| && messages[j].channel.Some? :: messages[j].channel.value;
          assert m.telegramMessageId.value in set j | 0 <= j < |messages| && messages[j].telegramMessageId.Some? :: messages[j].telegramMessageId.value;
          assert PairOf(m) in existing;
        }
      }
      FilterSame(messages, q, p);
    }
  }

  lemma {:induction false} FilterAll<T>(s: seq<T>, p: T -> bool)
    requires forall i :: 0 <= i < |s| ==> p(s[i])
    ensures Filter(s, p) == s
  {
    if s != [] {
      FilterAll(s[..|s| - 1], p);
    }
  }

  lemma {:induction false} FilterSame<T>(s: seq<T>, p: T -> bool, q: T -> bool)
    requires forall i :: 0 <= i < |s| ==> p(s[i]) == q(s[i])
    ensures Filter(s, p) == Filter(s, q)
  {
    if s != [] {
      FilterSame(s[..|s| - 1], p, q);
    }
  }

  /** The `event_timestamp` stored for a message's `date`: a string is read
      by `parseIso` (`None` when it fails), and a naive value is taken as
      UTC. */
  function EventTimestamp(date: Option<DateValue>, parseIso: string -> Option<DateTime>): (r: Option<DateTime>)
    ensures r.None? || r.value.offset.Some?
  {
    var dt := match date
      case None => None
      case Some(TextValue(s)) => parseIso(s)
      case Some(DateTimeValue(d)) => Some(d);
    match dt
    case None => None
    case Some(d) => if d.offset.None? then Some(d.(offset := Some(0))) else Some(d)
  }

  /** Making a value UTC-aware keeps the instant it denotes. */
  lemma EventTimestampInstant(d: DateTime)
    ensures var r := EventTimestamp(Some(DateTimeValue(d)), _ => None);
      r.Some? && UtcInstant(r.value) == UtcInstant(d)
  {
  }

  /** The `Message` row `store_messages` builds for a dict. */
  function RowOf(msg: Record, id: int, now: int, parseIso: string -> Option<DateTime>): (r: Message)
    ensures r.source != ""
    ensures Truthy(msg.source) ==> r.source == msg.source.value
    ensures !Truthy(msg.source) ==> r.source == "unknown"
    ensures r.id == id && r.createdAt == now
    ensures r.channel == msg.channel && r.telegramMessageId == msg.telegramMessageId
    ensures r.rawText == msg.text.GetOr("") && r.translatedText == msg.translatedText
    ensures r.country == msg.country && r.region == msg.region && r.location == msg.location
    ensures r.title == msg.title && r.orientation == msg.orientation
    ensures r.eventTimestamp == EventTimestamp(msg.date, parseIso)
  {
    Message(
      id := id,
      telegramMessageId := msg.telegramMessageId,
      source := if Truthy(msg.source) then msg.source.value else "unknown",
      channel := msg.channel,
      rawText := msg.text.GetOr(""),
      translatedText := msg.translatedText,
      country := msg.country,
      region := msg.region,
      location := msg.location,
      title := msg.title,
      eventTimestamp := EventTimestamp(msg.date, parseIso),
      orientation := msg.orientation,
      createdAt := now)
  }

  function RowsOf(messages: seq<Record>, firstId: int, now: int, parseIso: string -> Option<DateTime>): (r: seq<Message>)
    ensures |r| == |messages|
  {
    seq(|messages|, i requires 0 <= i < |messages| => RowOf(messages[i], firstId + i, now, parseIso))
  }

  /** A row survives the retention delete unless its event is before the
      cutoff; SQL `NULL < cutoff` is not true, so rows without a timestamp
      survive. */
  predicate Survives(r: Message, cutoff: int) {
    r.eventTimestamp.None? || UtcInstant(r.eventTimestamp.value) >= cutoff
  }

  const PipelineRetentionDays: int := 7

  /** The `message` table. Ids come from a counter, rows are kept in
      insertion order. */
  class Database {
    var rows: seq<Message>
    var nextId: int

    ghost predicate Valid()
      reads this
    {
      && nextId >= 1
      && (forall i :: 0 <= i < |rows| ==> 1 <= rows[i].id < nextId)
      && (forall i, j :: 0 <= i < j < |rows| ==> rows[i].id < rows[j].id)
    }

    constructor()
      ensures Valid() && rows == [] && nextId == 1
    {
      rows := [];
      nextId := 1;
    }

    /** `store_messages(messages)`: one new row per dict, in order. */
    method StoreMessages(messages: seq<Record>, now: int, parseIso: string -> Option<DateTime>)
      requires Valid()
      modifies this
      ensures Valid()
      ensures rows == old(rows) + RowsOf(messages, old(nextId), now, parseIso)
      ensures nextId == old(nextId) + |messages|
    {
      var i := 0;
      while i < |messages|
        invariant 0 <= i <= |messages|
        invariant Valid()
        invariant nextId == old(nextId) + i
        invariant rows == old(rows) + RowsOf(messages[..i], old(nextId), now, parseIso)
      {
        var m := RowOf(messages[i], nextId, now, parseIso);
        assert RowsOf(messages[..i + 1], old(nextId), now, parseIso) == RowsOf(messages[..i], old(nextId), now, parseIso) + [m];
        rows := rows + [m];
        nextId := nextId + 1;
        i := i + 1;
      }
      TakeAll(messages);
    }

    /** `delete_old_messages(days)`: the rows whose event is more than
        `days` days before `now` are removed. */
    method DeleteOldMessages(days: int, now: int)
      requires Valid()
      modifies this
      ensures Valid()
      ensures rows == Filter(old(rows), r => Survives(r, now - days * SecondsPerDay))
      ensures nextId == old(nextId)
    {
      var cutoff := now - days * SecondsPerDay;
      FilterIncreasing(rows, r => Survives(r, cutoff));
      rows := Filter(rows, r => Survives(r, cutoff));
    }
  }

  /** Deleting rows keeps the ids increasing. */
  lemma {:induction false} FilterIncreasing(s: seq<Message>, p: Message -> bool)
    requires forall i, j :: 0 <= i < j < |s| ==> s[i].id < s[j].id
    ensures forall i, j :: 0 <= i < j < |Filter(s, p)| ==> Filter(s, p)[i].id < Filter(s, p)[j].id
    ensures forall i :: 0 <= i < |Filter(s, p)| ==> Filter(s, p)[i] in s
  {
    if s != [] {
      var init, last := s[..|s| - 1], s[|s| - 1];
      FilterIncreasing(init, p);
      var f := Filter(init, p);
      forall i | 0 <= i < |f| ensures f[i].id < last.id {
        var k :| 0 <= k < |init| && init[k] == f[i];
        assert s[k] == init[k];
      }
      forall i | 0 <= i < |Filter(s, p)| ensures Filter(s, p)[i] in s {
        if i < |f| {
          assert Filter(s, p)[i] == f[i] && f[i] in init;
        }
      }
    }
  }

  /** A row survives the delete iff its timestamp is missing or not before
      the cutoff. */
  lemma DeleteKeepsExactly(rows: seq<Message>, cutoff: int, r: Message)
    ensures r in Filter(rows, x => Survives(x, cutoff)) <==> r in rows && (r.eventTimestamp.None? || UtcInstant(r.eventTimestamp.value) >= cutoff)
  {
    FilterMembership(rows, x => Survives(x, cutoff), r);
  }

  /** What `translate_messages` leaves in the list: a negative batch size
      leaves it unchanged. */
  function Translated(s: seq<Record>, batchSize: int, reply: string -> seq<Translation.TranslationLine>): (r: seq<Record>)
    requires batchSize != 0
    ensures |r| == |s|
  {
    if batchSize < 0 then s
    else seq(|s|, k requires 0 <= k < |s| => s[k].(translatedText := Some(Translation.TranslatedAt(s, batchSize, reply, k))))
  }

  /** What `enrich_messages` leaves in the list: a negative batch size
      leaves it unchanged. */
  function Enriched(s: seq<Record>, batchSize: int, reply: string -> seq<Enrichment.EnrichmentLine>): (r: seq<Record>)
    requires batchSize != 0
    ensures |r| == |s|
  {
    if batchSize < 0 then s
    else
      seq(|s|, k requires 0 <= k < |s| =>
        Enrichment.Apply(s[k], Enrichment.EnrichedAt(s, batchSize, items => reply(Enrichment.Prompt(items)), k)))
  }

  /** The dicts `run_pipeline_once` stores for the messages that survive
      the filter. */
  function Processed(raw: seq<Record>, batchSize: int, translateReply: string -> seq<Translation.TranslationLine>,
                     enrichReply: string -> seq<Enrichment.EnrichmentLine>): seq<Record>
    requires batchSize != 0
  {
    Dedupe.Deduped(Enriched(Translated(raw, batchSize, translateReply), batchSize, enrichReply))
  }

  /** The middle steps of `run_pipeline_once`: translation and enrichment
      update the list in place, deduplication builds a new one. */
  method TranslateEnrichDedupe(raw: seq<Record>, batchSize: int,
                               translateReply: string -> seq<Translation.TranslationLine>,
                               enrichReply: string -> seq<Enrichment.EnrichmentLine>) returns (deduped: seq<Record>)
    requires batchSize != 0
    ensures deduped == Processed(raw, batchSize, translateReply, enrichReply)
  {
    var list := new Record[|raw|](i requires 0 <= i < |raw| => raw[i]);
    assert list[..] == raw;
    Translation.TranslateMessages(list, batchSize, translateReply);
    assert list[..] == Translated(raw, batchSize, translateReply);
    ghost var translated := list[..];
    Enrichment.EnrichMessages(list, batchSize, enrichReply);
    assert list[..] == Enriched(translated, batchSize, enrichReply);
    deduped := Dedupe.DedupeMessages(list[..]);
  }

  /** `run_pipeline_once()` given the fetched dicts, the model's replies,
      the ISO parser and the clock. Nothing is stored or pruned when the
      fetch is empty or every fetched message is already stored. */
  method RunPipelineOnce(db: Database, fetched: seq<Record>, batchSize: int,
                         translateReply: string -> seq<Translation.TranslationLine>,
                         enrichReply: string -> seq<Enrichment.EnrichmentLine>,
                         parseIso: string -> Option<DateTime>, now: int)
    requires (batchSize != 0 || fetched == [] || FilterExisting(fetched, db.rows) == []) && db.Valid()
    modifies db
    ensures db.Valid()
    ensures fetched == [] || FilterExisting(fetched, old(db.rows)) == [] ==> db.rows == old(db.rows) && db.nextId == old(db.nextId)
    ensures fetched != [] && FilterExisting(fetched, old(db.rows)) != [] ==>
      var stored := Processed(FilterExisting(fetched, old(db.rows)), batchSize, translateReply, enrichReply);
      && db.rows == Filter(old(db.rows) + RowsOf(stored, old(db.nextId), now, parseIso),
                           r => Survives(r, now - PipelineRetentionDays * SecondsPerDay))
      && db.nextId == old(db.nextId) + |stored|
  {
    if fetched == [] {
      return;
    }
    var raw := FilterExisting(fetched, db.rows);
    if raw == [] {
      return;
    }
    var deduped := TranslateEnrichDedupe(raw, batchSize, translateReply, enrichReply);
    db.StoreMessages(deduped, now, parseIso);
    db.DeleteOldMessages(PipelineRetentionDays, now);
  }
}
