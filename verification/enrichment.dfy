/** The enrichment step: `_enrich_subbatch` sends a chunk of `(id, text)`
    items to the model and reads back one line per item, keyed by id;
    the first acceptable line for an id wins and fills all six expected
    fields. `enrich_messages` runs it over consecutive chunks, with the
    position inside the chunk as id, and overwrites country, region,
    location and title of every message dict. The model is a function from
    the prompt to the reply's non-blank lines, each already decoded. */
module Enrichment {
  import opened Wrappers
  import opened Text
  import opened Seqs
  import opened Records

  /** The value of one expected key of a reply object. `Other` is any
      non-string JSON value, with the text `str()` gives it. */
  datatype FieldValue = Absent | Null | Str(s: string) | Other(rendered: string)

  /** One non-blank reply line after `json.loads` and `int(obj["id"])`. */
  datatype EnrichmentLine =
    | Rejected  // not JSON, not an object, no "id", or an id `int()` refuses
    | Candidate(id: int, fields: map<string, FieldValue>)

  /** The six `EXPECTED_FIELDS` of one item; `None` only in the default. */
  datatype Enrichment = Enrichment(
    country: Option<string>,
    region: Option<string>,
    location: Option<string>,
    title: Option<string>,
    source: Option<string>,
    timestamp: Option<string>)

  /** An item of a chunk: its local id and its text. */
  datatype Item = Item(id: int, text: string)

  const Header: string :=
    "Tu es un système d'extraction d'information OSINT.\n"
    + "Pour chaque message ci-dessous, produis UNE LIGNE JSON (format JSONL) :\n"
    + "{\"id\": <int>, \"country\": \"...\", \"region\": \"...\", \"location\": \"...\", "
    + "\"title\": \"...\", \"source\": \"...\", \"timestamp\": \"...\"}\n\n"
    + "Règles :\n"
    + "- 'id' = identifiant fourni en entrée.\n"
    + "- 'country' = pays principal impacté en français (\"Pays1\", \"Pays2\", ...), "
    + "ou \"\" si incertain.\n"
    + "- 'region' = zone large (province, région, etc.) ou \"\".\n"
    + "- 'location' = ville / lieu précis ou \"\".\n"
    + "- 'title' = phrase courte (8-18 mots) résumant l'événement.\n"
    + "- 'source' = source explicite dans le texte, sinon \"\".\n"
    + "- 'timestamp' = horodatage explicite en ISO 8601, sinon \"\".\n"
    + "Pas de texte hors JSON, pas de commentaires.\n\n"
    + "Messages :\n"

  /** The enrichment `_empty_enrichment` builds: every expected field `None`. */
  const Empty: Enrichment := Enrichment(None, None, None, None, None, None)

  /** A missing or null value becomes "", a non-string its `str()`. */
  function FieldText(v: FieldValue): string {
    match v
    case Absent => ""
    case Null => ""
    case Str(s) => s
    case Other(rendered) => rendered
  }

  /** The reply value of a field, "" when the key is absent. */
  function Lookup(fields: map<string, FieldValue>, k: string): FieldValue {
    if k in fields then fields[k] else Absent
  }

  /** The `filtered` dict of an accepted line: every expected field, as a
      string. */
  function Filtered(fields: map<string, FieldValue>): (r: Enrichment)
    ensures r.country.Some? && r.region.Some? && r.location.Some?
    ensures r.title.Some? && r.source.Some? && r.timestamp.Some?
  {
    Enrichment(
      Some(FieldText(Lookup(fields, "country"))),
      Some(FieldText(Lookup(fields, "region"))),
      Some(FieldText(Lookup(fields, "location"))),
      Some(FieldText(Lookup(fields, "title"))),
      Some(FieldText(Lookup(fields, "source"))),
      Some(FieldText(Lookup(fields, "timestamp"))))
  }

  /** The prompt line of an item: its id in brackets, a space, its text. */
  function BodyLine(it: Item): string {
    "[" + IntToString(it.id) + "] " + it.text
  }

  function BodyLines(items: seq<Item>): (r: seq<string>)
    ensures |r| == |items|
  {
    seq(|items|, i requires 0 <= i < |items| => BodyLine(items[i]))
  }

  function Prompt(items: seq<Item>): string {
    Header + Join(BodyLines(items), '\n')
  }

  /** The map from an item id to its position in the chunk: a repeated id
      maps to its last position. */
  function IdToIndex(items: seq<Item>): (r: map<int, nat>)
    ensures forall id :: id in r ==> r[id] < |items| && items[r[id]].id == id
    ensures forall p :: 0 <= p < |items| ==> items[p].id in r && p <= r[items[p].id]
  {
    if items == [] then map[]
    else
      var init := items[..|items| - 1];
      IdToIndex(init)[items[|items| - 1].id := |items| - 1]
  }

  /** The fields of the first candidate line carrying `id`, if any. */
  function FirstCandidate(lines: seq<EnrichmentLine>, id: int): Option<map<string, FieldValue>> {
    if lines == [] then None
    else
      var first := FirstCandidate(lines[..|lines| - 1], id);
      var last := lines[|lines| - 1];
      if first.Some? then first
      else if last.Candidate? && last.id == id then Some(last.fields)
      else None
  }

  /** Entry `p` of the result: filled from the first line carrying the id
      that maps to `p`, the default otherwise. */
  function EnrichmentAt(items: seq<Item>, lines: seq<EnrichmentLine>, p: int): Enrichment
    requires 0 <= p < |items|
  {
    var id := items[p].id;
    if IdToIndex(items)[id] == p && FirstCandidate(lines, id).Some? then Filtered(FirstCandidate(lines, id).value)
    else Empty
  }

  /** What `_enrich_subbatch(items)` returns for a reply. */
  function Enrichments(items: seq<Item>, lines: seq<EnrichmentLine>): (r: seq<Enrichment>)
    ensures |r| == |items|
  {
    seq(|items|, p requires 0 <= p < |items| => EnrichmentAt(items, lines, p))
  }

  /** `_enrich_subbatch(items)`; `reply` answers the prompt. */
  method EnrichSubbatch(items: seq<Item>, reply: string -> seq<EnrichmentLine>) returns (results: seq<Enrichment>)
    ensures items == [] ==> results == []
    ensures items != [] ==> results == Enrichments(items, reply(Prompt(items)))
  {
    if items == [] {
      return [];
    }
    var prompt := Header + Join(BodyLines(items), '\n');
    var lines := reply(prompt);
    results := PlaceLines(items, lines);
  }

  /** The parse loop: a line is accepted when its id is known and not yet
      seen, and fills the slot its id maps to. */
  method PlaceLines(items: seq<Item>, lines: seq<EnrichmentLine>) returns (results: seq<Enrichment>)
    ensures results == Enrichments(items, lines)
  {
    var idToIndex := IdToIndex(items);
    var slots := new Enrichment[|items|](_ => Empty);
    var seenIds: set<int> := {};
    var k := 0;
    while k < |lines|
      invariant 0 <= k <= |lines|
      invariant forall id :: id in seenIds <==> id in idToIndex && FirstCandidate(lines[..k], id).Some?
      invariant forall p :: 0 <= p < |items| ==> slots[p] == EnrichmentAt(items, lines[..k], p)
    {
      TakeSnoc(lines, k);
      seenIds := PlaceLine(items, lines[..k], lines[k], idToIndex, slots, seenIds);
      k := k + 1;
    }
    TakeAll(lines);
    results := slots[..];
  }

  /** The body of the parse loop for one line. */
  method PlaceLine(items: seq<Item>, ghost prefix: seq<EnrichmentLine>, line: EnrichmentLine,
                   idToIndex: map<int, int>, slots: array<Enrichment>, seenIds: set<int>)
    returns (seen: set<int>)
    requires idToIndex == IdToIndex(items) && slots.Length == |items|
    requires forall id :: id in seenIds <==> id in idToIndex && FirstCandidate(prefix, id).Some?
    requires forall p :: 0 <= p < |items| ==> slots[p] == EnrichmentAt(items, prefix, p)
    modifies slots
    ensures forall id :: id in seen <==> id in idToIndex && FirstCandidate(prefix + [line], id).Some?
    ensures forall p :: 0 <= p < |items| ==> slots[p] == EnrichmentAt(items, prefix + [line], p)
  {
    seen := seenIds;
    match line {
      case Rejected =>
      case Candidate(objId, fields) =>
        if objId in idToIndex && objId !in seenIds {
          slots[idToIndex[objId]] := Filtered(fields);
          seen := seenIds + {objId};
        }
    }
    forall p | 0 <= p < |items| ensures slots[p] == EnrichmentAt(items, prefix + [line], p) {
      EnrichmentStep(items, prefix, line, p);
    }
    FirstCandidateSnoc(prefix, line);
  }

  /** One more reply line changes at most the slot its id maps to, and only
      when the id was not seen before. */
  lemma EnrichmentStep(items: seq<Item>, prefix: seq<EnrichmentLine>, line: EnrichmentLine, p: int)
    requires 0 <= p < |items|
    ensures EnrichmentAt(items, prefix + [line], p) ==
      if line.Candidate? && line.id in IdToIndex(items) && FirstCandidate(prefix, line.id).None? && IdToIndex(items)[line.id] == p
      then Filtered(line.fields) else EnrichmentAt(items, prefix, p)
  {
    assert (prefix + [line])[..|prefix|] == prefix;
  }

  /** An id has a candidate after one more line iff it had one before or
      the line carries it. */
  lemma FirstCandidateSnoc(prefix: seq<EnrichmentLine>, line: EnrichmentLine)
    ensures forall id :: FirstCandidate(prefix + [line], id).Some? <==>
      FirstCandidate(prefix, id).Some? || (line.Candidate? && line.id == id)
  {
    assert (prefix + [line])[..|prefix|] == prefix;
  }

  /** The first line carrying an id is the one that counts: later lines
      with the same id change nothing. */
  lemma {:induction false} FirstCandidateIsFirst(lines: seq<EnrichmentLine>, id: int)
    ensures FirstCandidate(lines, id).Some? <==> exists k :: 0 <= k < |lines| && lines[k].Candidate? && lines[k].id == id
    ensures FirstCandidate(lines, id).Some? ==>
      exists k :: 0 <= k < |lines| && lines[k] == Candidate(id, FirstCandidate(lines, id).value)
        && forall k' :: 0 <= k' < k ==> !(lines[k'].Candidate? && lines[k'].id == id)
  {
    if lines != [] {
      var init, last := lines[..|lines| - 1], lines[|lines| - 1];
      FirstCandidateIsFirst(init, id);
      if FirstCandidate(init, id).Some? {
        var k :| 0 <= k < |init| && init[k] == Candidate(id, FirstCandidate(init, id).value)
          && forall k' :: 0 <= k' < k ==> !(init[k'].Candidate? && init[k'].id == id);
        assert lines[k] == init[k];
        forall k' | 0 <= k' < k ensures !(lines[k'].Candidate? && lines[k'].id == id) {
          assert lines[k'] == init[k'];
        }
      } else {
        forall k' | 0 <= k' < |init| ensures !(lines[k'].Candidate? && lines[k'].id == id) {
          assert lines[k'] == init[k'];
        }
        if last.Candidate? && last.id == id {
          assert lines[|lines| - 1] == Candidate(id, last.fields);
        }
      }
    }
  }

  /** A later line with an id already seen is ignored. */
  lemma FirstCandidateAppend(lines: seq<EnrichmentLine>, line: EnrichmentLine, id: int)
    requires FirstCandidate(lines, id).Some?
    ensures FirstCandidate(lines + [line], id) == FirstCandidate(lines, id)
  {
    assert (lines + [line])[..|lines|] == lines;
  }

  /** `enrich_messages` numbers the items of a chunk by position, so every
      item is reached by its own id. */
  ghost predicate LocalIds(items: seq<Item>) {
    forall p :: 0 <= p < |items| ==> items[p].id == p
  }

  /** With ids `0..n-1`, entry `p` is filled from the first line carrying
      id `p`, or is the default with all six fields `None`. */
  lemma LocalIdsAlign(items: seq<Item>, lines: seq<EnrichmentLine>, p: int)
    requires LocalIds(items) && 0 <= p < |items|
    ensures FirstCandidate(lines, p).Some? ==> Enrichments(items, lines)[p] == Filtered(FirstCandidate(lines, p).value)
    ensures FirstCandidate(lines, p).None? ==> Enrichments(items, lines)[p] == Empty
  {
    var m := IdToIndex(items);
    assert items[p].id == p && p in m;
    assert items[m[p]].id == p;
  }

  /** The translated text when non-empty, else the original text, else "". */
  function ItemText(m: Record): string {
    Or(m.translatedText, m.text).GetOr("")
  }

  /** The items `enrich_messages` builds for a chunk. */
  function ItemsOf(s: seq<Record>): (r: seq<Item>)
    ensures |r| == |s|
    ensures LocalIds(r)
  {
    seq(|s|, i requires 0 <= i < |s| => Item(i, ItemText(s[i])))
  }

  /** A field of the enrichment, `None` when it is "". */
  function OrNone(o: Option<string>): (r: Option<string>)
    ensures r.None? || r.value != ""
  {
    if Truthy(o) then o else None
  }

  /** The four writes of `enrich_messages` on one dict. */
  function Apply(m: Record, e: Enrichment): Record {
    m.(country := OrNone(e.country), region := OrNone(e.region), location := OrNone(e.location), title := OrNone(e.title))
  }

  /** The enrichment `enrich_messages` gives the message at position `k`
      of `s`, when `ask` gives the model's reply to the items of a chunk:
      its entry in the result for its own chunk. */
  function EnrichedAt(s: seq<Record>, batchSize: nat, ask: seq<Item> -> seq<EnrichmentLine>, k: int): Enrichment
    requires batchSize > 0 && 0 <= k < |s|
  {
    var items := ChunkItems(s, batchSize, k);
    Enrichments(items, ask(items))[k - ChunkStart(k, batchSize)]
  }

  /** The items of the chunk holding position `k`. */
  function ChunkItems(s: seq<Record>, batchSize: nat, k: int): (r: seq<Item>)
    requires batchSize > 0 && 0 <= k < |s|
    ensures k - ChunkStart(k, batchSize) < |r|
  {
    var start := ChunkStart(k, batchSize);
    var end := if start + batchSize < |s| then start + batchSize else |s|;
    ItemsOf(s[start..end])
  }

  /** The message at position `k` is enriched from the first line of its
      chunk's reply that carries its position in the chunk as id. */
  lemma EnrichedAtIsFirst(s: seq<Record>, batchSize: nat, ask: seq<Item> -> seq<EnrichmentLine>, k: int)
    requires batchSize > 0 && 0 <= k < |s|
    ensures var first := FirstCandidate(ask(ChunkItems(s, batchSize, k)), k - ChunkStart(k, batchSize));
      EnrichedAt(s, batchSize, ask, k) == if first.Some? then Filtered(first.value) else Empty
  {
    var items := ChunkItems(s, batchSize, k);
    var lines := ask(items);
    var p := k - ChunkStart(k, batchSize);
    assert EnrichedAt(s, batchSize, ask, k) == Enrichments(items, lines)[p];
    LocalIdsAlign(items, lines, p);
    var first := FirstCandidate(lines, p);
    assert EnrichedAt(s, batchSize, ask, k) == if first.Some? then Filtered(first.value) else Empty;
  }

  /** A message whose chunk reply carries no line for it loses any country,
      region, location and title it had; one with a line gets that line's
      values, with empty ones as `None`. */
  lemma EnrichedAtFields(s: seq<Record>, batchSize: nat, ask: seq<Item> -> seq<EnrichmentLine>, k: int)
    requires batchSize > 0 && 0 <= k < |s|
    ensures var first := FirstCandidate(ask(ChunkItems(s, batchSize, k)), k - ChunkStart(k, batchSize));
      var m := Apply(s[k], EnrichedAt(s, batchSize, ask, k));
      && (first.None? ==> m.country.None? && m.region.None? && m.location.None? && m.title.None?)
      && (first.Some? ==>
            && m.country == OrNone(Some(FieldText(Lookup(first.value, "country"))))
            && m.region == OrNone(Some(FieldText(Lookup(first.value, "region"))))
            && m.location == OrNone(Some(FieldText(Lookup(first.value, "location"))))
            && m.title == OrNone(Some(FieldText(Lookup(first.value, "title")))))
  {
    EnrichedAtIsFirst(s, batchSize, ask, k);
    var first := FirstCandidate(ask(ChunkItems(s, batchSize, k)), k - ChunkStart(k, batchSize));
    var e := EnrichedAt(s, batchSize, ask, k);
    if first.Some? {
      assert e == Filtered(first.value);
    } else {
      assert e == Empty;
    }
  }

  /** The enrichment computed for the chunk that starts at `start` holds,
      at `k - start`, the enrichment the whole list assigns to position `k`. */
  lemma ChunkEnrichment(s: seq<Record>, batchSize: nat, ask: seq<Item> -> seq<EnrichmentLine>, start: nat, end: nat,
                        enrichments: seq<Enrichment>, k: int)
    requires batchSize > 0 && start <= k < end
    requires end == if start + batchSize < |s| then start + batchSize else |s|
    requires ChunkStart(k, batchSize) == start
    requires enrichments == Enrichments(ItemsOf(s[start..end]), ask(ItemsOf(s[start..end])))
    ensures enrichments[k - start] == EnrichedAt(s, batchSize, ask, k)
  {
    assert ChunkItems(s, batchSize, k) == ItemsOf(s[start..end]);
  }

  /** `enrich_messages(messages)`: every dict gets the four fields of its
      own enrichment; nothing else changes. A negative batch size makes
      the chunk range empty, so the list is left as it is; a zero one is
      refused by `range`. */
  method EnrichMessages(messages: array<Record>, batchSize: int, reply: string -> seq<EnrichmentLine>)
    requires batchSize != 0 || messages.Length == 0
    modifies messages
    ensures batchSize < 0 ==> forall k :: 0 <= k < messages.Length ==> messages[k] == old(messages[k])
    ensures batchSize > 0 ==> forall k :: 0 <= k < messages.Length ==>
      messages[k] == Apply(old(messages[k]), EnrichedAt(old(messages[..]), batchSize, items => reply(Prompt(items)), k))
  {
    if batchSize < 0 || messages.Length == 0 {
      return;
    }
    ghost var orig := messages[..];
    ghost var ask := items => reply(Prompt(items));
    var total := messages.Length;
    var start := 0;
    while start < total
      invariant forall k :: start <= k < start + batchSize ==> ChunkStart(k, batchSize) == start
      invariant forall k :: 0 <= k < total && k < start ==>
        messages[k] == Apply(orig[k], EnrichedAt(orig, batchSize, ask, k))
      invariant forall k :: start <= k < total ==> messages[k] == orig[k]
    {
      var end := if start + batchSize < total then start + batchSize else total;
      EnrichChunk(messages, batchSize, reply, start, end, orig);
      forall k | start + batchSize <= k < start + 2 * batchSize ensures ChunkStart(k, batchSize) == start + batchSize {
        assert ChunkStart(k - batchSize, batchSize) == start;
      }
      start := start + batchSize;
    }
  }

  /** One iteration of the chunk loop of `enrich_messages`. */
  method EnrichChunk(messages: array<Record>, batchSize: nat, reply: string -> seq<EnrichmentLine>, start: nat, end: nat,
                     ghost orig: seq<Record>)
    requires batchSize > 0 && messages.Length == |orig| && start < end
    requires end == if start + batchSize < |orig| then start + batchSize else |orig|
    requires forall k :: start <= k < start + batchSize ==> ChunkStart(k, batchSize) == start
    requires forall k :: start <= k < |orig| ==> messages[k] == orig[k]
    modifies messages
    ensures forall k :: 0 <= k < messages.Length ==>
      messages[k] == if start <= k < end then Apply(orig[k], EnrichedAt(orig, batchSize, items => reply(Prompt(items)), k)) else old(messages[k])
  {
    ghost var ask := items => reply(Prompt(items));
    var items := seq(end - start, i requires 0 <= i < end - start reads messages => Item(i, ItemText(messages[start + i])));
    assert items == ItemsOf(orig[start..end]);
    var enrichments := EnrichSubbatch(items, reply);
    assert enrichments == Enrichments(items, ask(items));
    forall k | start <= k < end ensures enrichments[k - start] == EnrichedAt(orig, batchSize, ask, k) {
      ChunkEnrichment(orig, batchSize, ask, start, end, enrichments, k);
    }
    WriteEnrichments(messages, start, end, enrichments);
  }

  /** The `zip(sub, enrichments)` loop. An enrichment dict always has its
      six keys, so `if enr` never skips one. */
  method WriteEnrichments(messages: array<Record>, start: nat, end: nat, enrichments: seq<Enrichment>)
    requires start <= end <= messages.Length && |enrichments| == end - start
    modifies messages
    ensures forall k :: 0 <= k < messages.Length ==>
      messages[k] == if start <= k < end then Apply(old(messages[k]), enrichments[k - start]) else old(messages[k])
  {
    var j := start;
    while j < end
      invariant start <= j <= end
      invariant forall k :: 0 <= k < messages.Length ==>
        messages[k] == if start <= k < j then Apply(old(messages[k]), enrichments[k - start]) else old(messages[k])
    {
      var enr := enrichments[j - start];
      var msg := messages[j];
      msg := msg.(country := OrNone(enr.country));
      msg := msg.(region := OrNone(enr.region));
      msg := msg.(location := OrNone(enr.location));
      msg := msg.(title := OrNone(enr.title));
      messages[j] := msg;
      j := j + 1;
    }
  }
}
