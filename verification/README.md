# OSINT message pipeline: a Dafny model

The modelled system collects Telegram messages about armed events in the Sahel. It then:

- translates them into French and enriches them with country, region, location and title, using a language model;
- deduplicates them and stores them in a `message` table;
- serves dashboard views over the stored rows through a small HTTP API.

This project models the data handling of that system and proves what it promises:

- **Country alias resolution.** `normalize_country_names` is modelled in `country_names.dfy`.
- **The read endpoints.**
  - Active countries and per-country activity are in `countries.dfy`.
  - The last ten dates are in `dates.dfy`.
  - The three per-country zone views are in `events.dfy`. Their shared normalisation, bucketing, deep link and preview are in `zones.dfy`.
- **The ingestion services.**
  - Channel-list parsing and the per-message fetch filter are in `fetch.dfy`.
  - Translation is in `translation.dfy` and enrichment in `enrichment.dfy`. Both decode the model's reply tolerantly and update the message dicts in place, chunk by chunk.
  - Deduplication is in `dedupe.dfy`.
- **The pipeline run.** `tools/run_pipeline.py` is modelled in `pipeline.dfy`. It covers the already-stored filter, the mapping from dict to row, the retention delete and the step order with its early returns. The `message` table is a `Database` class whose rows the methods update.
- **The database URL choice.** It is modelled in `database_url.dfy`.

Supporting modules:

- `text.dfy` models Python's `strip`, `lower`, `split`, `startswith`, `in`, `str(int)` and truthiness.
- `seqs.dfy` covers the "seen set" walk, filtering comprehensions and chunk arithmetic.
- `sorting.dfy` covers the stable `sort(key=..., reverse=True)` and `sorted()` of a set of strings.
- `records.dfy` holds the row and dict shapes.
- `wrappers.dfy` holds `Option` and `Result`.

How the model is built:

- Instants are integers, whole seconds since the epoch, read as UTC. A calendar day is the instant floor-divided by 86400.
- A message dict is a `Record` whose absent keys are `None`. The list the pipeline mutates is an `array<Record>`.
- The endpoints take the stored rows as a sequence, in storage order. They take the `countries.json` aliases and coordinates as a `CountryTable`. An HTTP 404 is a `Failure` of a `Result`.
- The language model is a function from the prompt to the reply's non-blank lines, each already decoded from JSON. Telegram is a function from a channel to its entity and latest messages, or `None` when either call fails.
- The clock, the ISO parser and the batch size are parameters.

`app/api/routes.py` is an unmounted older copy of the three modules `app/api/countries.py`, `app/api/dates.py` and `app/api/events.py`. Its handlers and its `normalize_country_names` are the same code, line for line, as those files and `app/api/utils.py`. So the same Dafny members model both copies, and the table cites the mounted one. The duplicated spans are:

- `normalize_country_names` at `app/api/routes.py:66-76`;
- all-events at 89-185;
- dates at 190-207;
- active countries at 212-272;
- latest-events at 278-380;
- countries activity at 384-413;
- date-scoped events at 420-504.

The comment above the copy of `normalize_country_names` (`app/api/routes.py:69`) speaks of splitting on commas or semicolons. Neither copy does so: both split on commas only, as `CountryNames.SemicolonIsNotASeparator` states.

## Model

| member | source | states |
|---|---|---|
| CountryNames.TokensOf | app/api/utils.py:10 | every token kept is non-empty, and there are at most as many tokens as comma pieces |
| CountryNames.Resolve | app/api/utils.py:11-16 | every canonical name returned is non-empty; the result is never longer than the token list |
| CountryNames.CountriesOf | app/api/utils.py:7-9 | a missing or empty country field resolves to the empty list |
| CountryNames.NormalizeCountryNames | app/api/utils.py:7-16 | the lookup loop returns exactly the resolution of the field's tokens |
| CountryNames.ResolveMembership | app/api/utils.py:12-15 | a name is in the result iff some token has it as a non-empty alias; a token with no alias or an empty alias adds nothing |
| CountryNames.ResolveAppend | app/api/utils.py:12-15 | resolution works token by token: resolving a concatenation concatenates the results, in token order |
| CountryNames.CountriesOfSingle | app/api/utils.py:10 | a field without commas is one trimmed, lower-cased token |
| CountryNames.SingleTokenIgnoresCaseAndSpace | app/api/utils.py:10-13 | fields without commas that agree after strip and lower resolve identically |
| CountryNames.MaliAnyCase | app/api/utils.py:10-13 | "Mali" and "MALI" resolve identically |
| CountryNames.RepeatedCountryKeptTwice | app/api/utils.py:10-15 | "Mali,mali" yields the canonical name twice: the result is a list, not a set |
| CountryNames.SemicolonIsNotASeparator | app/api/utils.py:10 | "Mali;Niger" is one token and resolves to nothing |
| Countries.LastDay | app/api/countries.py:53-59 | a country has a last day iff some counted event names it |
| Countries.CountRow | app/api/countries.py:53-59 | the inner loop adds one event per resolved name on the row's day and keeps `stats` and its key order consistent with all events counted |
| Countries.TallyRow | app/api/countries.py:43-59 | one row either adds its resolved names as events or adds its stripped string to the ignored set, and keeps `stats` consistent |
| Countries.TallyRows | app/api/countries.py:41-59 | after the row loop, `stats` holds the count and last day of every event of the selected rows, in first-count order; the ignored set is exactly that of the rows |
| Countries.LocatedStatuses | app/api/countries.py:61-68 | the result holds one entry per counted country that has coordinates, in `stats` order |
| Countries.GetActiveCountries | app/api/countries.py:14-70 | the countries are the ranked located summary of the events in the period; the ignored strings are the set of unresolved strings, strictly ascending |
| Countries.RowStep | app/api/countries.py:43-59 | one more row adds its resolved names as events on its day, and its stripped string to the ignored set only when it resolves to nothing |
| Countries.StatsStep | app/api/countries.py:54-59 | one inner-loop update (create at count 0, increment, raise last date) keeps `stats` and its order consistent with one more event |
| Countries.CountedIffNamed | app/api/countries.py:54-57 | a country has a positive count iff some event names it |
| Countries.AddEvent | app/api/countries.py:55-59 | one more event adds one to its country's count only, and raises that country's last day to the event's day when it is later |
| Countries.OnDayIsDayOf | app/api/countries.py:24-31 | the day bounds select exactly the instants that fall on that day |
| Countries.DateTakesPrecedence | app/api/countries.py:24-38 | with a date, the rows counted are those of that day with a country, whatever `days` is |
| Countries.LastDayIsLatest | app/api/countries.py:55-59 | `last_date` is the maximum day over the country's events and is attained by one of them |
| Countries.CountPerRow | app/api/countries.py:49-57 | each resolved name of a row adds exactly one to its country's count, so a multi-country row counts for each and a repeated name twice |
| Countries.RowCounted | app/api/countries.py:49-57 | every country a row resolves to is counted |
| Countries.IgnoredIffUnresolved | app/api/countries.py:44-59 | a non-blank country string is ignored iff it resolves to nothing; a partly resolving one is counted for each name instead |
| Countries.RankedEntries | app/api/countries.py:61-68 | an entry is returned iff its country has coordinates, a positive count equal to its number of events, and that last day |
| Countries.RankedOrder | app/api/countries.py:69 | entries come most counted first, and entries with equal counts keep their first-count order |
| Countries.CountStep | app/api/countries.py:96 | one increment of `counts` keeps the counts and key order consistent with one more key |
| Countries.CountKeys | app/api/countries.py:89-96 | after the loop, `counts` holds the number of occurrences of every stripped non-blank raw string, in first-appearance order |
| Countries.GetCountriesActivity | app/api/countries.py:73-102 | the answer is the stable count-descending sort of the tally of that day's stripped non-blank raw strings |
| Countries.ActivityEntries | app/api/countries.py:89-101 | an entry is returned iff its string is a key, with its exact number of rows; no alias resolution is applied |
| Countries.ActivityOrder | app/api/countries.py:98-101 | entries come most counted first, and ties keep first-appearance order |
| Dates.GetAvailableDates | app/api/dates.py:13-30 | the loop with its `seen` set and break at ten returns the first ten distinct days of the newest-first instants |
| Dates.DistinctByPrefix | app/api/dates.py:27-28 | stopping early gives a prefix of the full distinct walk |
| Dates.DaysNonIncreasing | app/api/dates.py:17-23 | days read from newest-first instants never increase |
| Dates.DistinctOfNonIncreasing | app/api/dates.py:20-26 | keeping the first of each day of a non-increasing list leaves a strictly decreasing one |
| Dates.AvailableDatesOrdered | app/api/dates.py:17-28 | at most ten dates, strictly descending, hence pairwise distinct |
| Dates.AvailableDatesSound | app/api/dates.py:22-26 | every date returned is the day of some stored row |
| Dates.AvailableDatesComplete | app/api/dates.py:17-28 | every row's day is returned unless ten later days already are |
| Records.DayOfMonotone | app/api/dates.py:23 | a later instant never falls on an earlier day |
| Dedupe.DedupeMessages | app/services/dedupe.py:5-33 | the loop with its `seen` set returns the first dict of every key, in order |
| Dedupe.DedupeKeepsFirsts | app/services/dedupe.py:12-31 | the result is the subsequence of the input made of exactly the dicts that no earlier dict shares a key with |
| Dedupe.DedupeKeys | app/services/dedupe.py:28-31 | kept keys are pairwise distinct, and every input key is kept |
| Dedupe.DedupeIdempotent | app/services/dedupe.py:5-33 | deduplicating twice gives the same list as deduplicating once |
| Dedupe.TitleAndTextKeysDiffer | app/services/dedupe.py:23-26 | a title-keyed dict never collides with a text-keyed one |
| Dedupe.KeyComparesFields | app/services/dedupe.py:16-24 | two titled dicts share a key iff source, channel and country agree verbatim and the trimmed titles agree |
| Dedupe.SameTitleKeepsFirst | app/services/dedupe.py:20-31 | of two dicts with the same source, channel, country and title, only the first is kept, whatever their texts |
| Seqs.DistinctByKeepsFirsts | app/services/dedupe.py:28-31 | the seen-set walk keeps exactly the first occurrence of every key, in input order |
| Seqs.DistinctByKeysDistinct | app/services/dedupe.py:28-31 | no two kept elements share a key |
| Seqs.DistinctByKeySet | app/services/dedupe.py:28-31 | the walk keeps every key and adds none |
| Seqs.DistinctByOfDistinct | app/services/dedupe.py:28-31 | a list with distinct keys is left unchanged |
| Seqs.DistinctByIdempotent | app/services/dedupe.py:28-31 | running the walk twice changes nothing |
| Seqs.DistinctByPair | app/services/dedupe.py:28-29 | of two elements with the same key only the first is kept |
| Seqs.DistinctMembers | app/api/dates.py:24-26 | keeping the first of every value keeps every value |
| Seqs.FilterKeepsExactly | app/api/events.py:29 | a filtering comprehension keeps exactly the elements that pass, in order |
| Seqs.FilterPositions | app/api/events.py:29 | the kept positions are exactly those that pass, listed in increasing order |
| Seqs.FilterMembership | app/api/events.py:29 | an element is in the comprehension iff it is in the list and passes |
| Seqs.ChunkStart | app/services/translation.py:86-87 | position `k` lies in the returned chunk start, within one batch size of it |
| Seqs.ChunkStartIsMultiple | app/services/translation.py:86 | the chunk start of position `k` is its chunk number times the batch size, so chunks start at the multiples `range(0, total, batchSize)` yields |
| Sorting.SortDesc | app/api/countries.py:69 | the sort returns a permutation of its input |
| Sorting.SortDescSorted | app/api/countries.py:69 | the sort orders by descending key |
| Sorting.SortDescStable | app/api/countries.py:69 | elements with equal keys keep their input order |
| Sorting.SortDescMembers | app/api/events.py:99 | sorting keeps exactly the elements it is given |
| Sorting.StrLessIrreflexive | app/api/countries.py:70 | string order is irreflexive |
| Sorting.StrLessTransitive | app/api/countries.py:70 | string order is transitive |
| Sorting.StrLessTotal | app/api/countries.py:70 | any two different strings are ordered |
| Sorting.InsertAscending | app/api/countries.py:70 | inserting a new string into an ascending list keeps it ascending, with exactly one more element |
| Sorting.SortedStrings | app/api/countries.py:70 | `sorted()` of a set lists every element once, strictly ascending |
| Sorting.AscendingLength | app/api/countries.py:70 | an ascending list has as many elements as distinct values |
| Text.TrimLeft | app/api/utils.py:10 | `lstrip` never lengthens, removes a leading space, and leaves no leading whitespace |
| Text.TrimLeftSplits | app/api/utils.py:10 | `lstrip` removes a blank prefix and keeps the rest |
| Text.TrimRight | app/api/utils.py:10 | `rstrip` never lengthens and leaves no trailing whitespace |
| Text.TrimRightSplits | app/api/utils.py:10 | `rstrip` keeps a prefix and removes a blank rest |
| Text.Strip | app/api/utils.py:10 | `strip` leaves no whitespace at either end and is empty iff the input is blank |
| Text.StripUnchanged | app/api/utils.py:10 | a string with no whitespace at its ends is its own strip |
| Text.StripAppendSpace | app/api/utils.py:10 | trailing whitespace does not survive `strip` |
| Text.StripIdempotent | app/api/utils.py:10 | stripping twice is stripping once |
| Text.StripLower | app/api/utils.py:10 | stripping and lower-casing commute |
| Text.Lower | app/api/utils.py:10 | lower-casing keeps the length |
| Text.LowerIdempotent | app/api/utils.py:10 | lower-casing twice is lower-casing once |
| Text.Or | app/services/dedupe.py:21 | Python `or`: the left value when it is truthy, otherwise the right |
| Text.Split | app/api/utils.py:10 | `split` returns at least one piece, and no piece contains the separator |
| Text.JoinSplit | app/api/utils.py:10 | joining the pieces of a split with the separator gives back the string |
| Text.SplitJoin | app/services/translation.py:37 | splitting a join of separator-free pieces gives back the pieces |
| Text.IndexOf | app/services/fetch.py:39-40 | the first occurrence of a character, or `None` iff it does not occur |
| Text.NatToString | app/api/events.py:69 | `str(n)` is a non-empty string of decimal digits whose value is `n` |
| Text.IntToString | app/api/events.py:69 | `str(i)` is non-empty and has a minus sign iff `i` is negative |
| Zones.StripMarks | app/api/events.py:42 | NFD and dropping combining marks never lengthen, and leave no combining mark |
| Zones.CollapseSpaces | app/api/events.py:43 | every whitespace left is a single space, no two are adjacent, and emptiness and a leading space are preserved |
| Zones.Norm | app/api/events.py:38-44 | a zone key has no combining mark and no whitespace other than single spaces |
| Zones.CollapseKeepsMarkFree | app/api/events.py:42-43 | collapsing whitespace introduces no combining mark |
| Zones.CollapseNoSpace | app/api/events.py:43 | a string without whitespace is left unchanged |
| Zones.NormIgnoresCase | app/api/events.py:41 | case does not change the zone key |
| Zones.NormIgnoresSurroundingSpace | app/api/events.py:41 | surrounding whitespace does not change the zone key |
| Zones.KayesSharesBucket | app/api/events.py:38-44 | "Kayes" and "kayes " get the same key |
| Zones.AccentsDoNotMatter | app/api/events.py:42 | "Ségou" and "segou" get the same key |
| Zones.DisplayName | app/api/events.py:46-51 | the display name is never empty: the stripped region, the stripped location, or "Zone inconnue" |
| Zones.Url | app/api/events.py:67-69 | a link exists iff channel and Telegram id are both truthy, and it starts with `https://t.me/` |
| Zones.UrlParts | app/api/events.py:68-69 | after the prefix, the link splits at "/" back into the channel and the decimal id |
| Zones.Preview | app/api/events.py:72 | the preview is at most 280 characters: the text itself, or its first 277 characters then "..." |
| Zones.PreviewOfLongText | app/api/events.py:72 | a 281-character text previews as 280 characters ending in "..." |
| Zones.EventMessages | app/api/events.py:66-88 | the inner loop builds one entry per bucket item, in order |
| Zones.GroupBy | app/api/events.py:56-59 | the `setdefault(...).append` loop maps each key, in first-appearance order, to the messages with that key in input order |
| Zones.GroupStep | app/api/events.py:57-59 | one more message adds its key to the key set and extends only its own bucket |
| Zones.BucketKeysMembers | app/api/events.py:56-59 | the bucket order lists exactly the keys of the messages |
| Zones.BucketItems | app/api/events.py:63 | the i-th dictionary entry holds the i-th bucket |
| Zones.BuildZones | app/api/events.py:61-99 | the zones are one per bucket, sorted by message count, stably |
| Zones.BucketsPartition | app/api/events.py:56-59 | the buckets partition the messages: keys are distinct, each message is in its key's bucket, and a bucket holds exactly its key's messages, as many as carry the key |
| Zones.BucketSize | app/api/events.py:94 | `messages_count` is the number of messages carrying the bucket's key |
| Zones.BucketKeepsOrder | app/api/events.py:57-59 | each bucket is exactly the subsequence of messages with its key |
| Zones.ZonesOrder | app/api/events.py:99 | zones come most messages first, and ties keep their buckets' first-appearance order |
| Events.MentionsIn | app/api/events.py:29 | a row matches iff the requested country is in its normalised names |
| Events.MatchingMembers | app/api/events.py:29 | a message is kept iff it is a stored row that mentions the country |
| Events.MaxCreatedAt | app/api/events.py:34 | the maximum `created_at` is attained by some message and bounds all others |
| Events.FirstTruthy | app/api/events.py:163-164 | `next(...)` gives a non-empty value or `None` |
| Events.FirstTruthyIsFirst | app/api/events.py:163-164 | the value is that of the first item whose field is non-empty, and `None` only when no field is non-empty |
| Events.GetCountryAllEvents | app/api/events.py:17-105 | an unknown country gives a 404; no match gives a 404; otherwise the answer has the day of the latest match and the sorted display-name zones |
| Events.FindLatest | app/api/events.py:119-131 | the newest-first scan finds nothing iff no row mentions the country, and otherwise returns the latest `created_at` among the rows that do |
| Events.ScanNewestFirst | app/api/events.py:125-129 | the loop stops at the first mentioning row, having skipped only non-mentioning ones |
| Events.RowMentions | app/api/events.py:126-127 | the membership test is exactly whether the row mentions the country |
| Events.FirstMatchIsLatest | app/api/events.py:119-129 | in a newest-first reordering, the first matching row has the latest instant of all matching rows |
| Events.NoneInReordering | app/api/events.py:125-131 | no match in a reordering means no match at all |
| Events.GetCountryLatestEvents | app/api/events.py:111-205 | an unknown country or no match gives a 404; otherwise the answer has the day of the latest match and the sorted zones of that day's matches, bucketed by normalised region and location |
| Events.GetCountryEvents | app/api/events.py:211-290 | an unknown country gives a 404; otherwise the answer always has the requested day and the sorted zones of that day's matches, possibly none |
| Events.NoMatchesNoZones | app/api/events.py:228-284 | no matching message gives an empty zone list, not a 404 |
| Events.LatestDayIsLatest | app/api/events.py:119-133 | the latest-events day is not before the day of any matching row |
| Events.DisplayZoneNames | app/api/events.py:56-64 | every message of an all-events zone has the zone's shown name as its normalised display name |
| Translation.TranslateSubbatch | app/services/translation.py:14-73 | empty texts give `[]` without asking the model; otherwise the result is the decoding of the model's reply to the prompt |
| Translation.PlaceLines | app/services/translation.py:51-66 | after the parse loop, each slot holds the translation of the last line placed there, or "" |
| Translation.Fallback | app/services/translation.py:68-71 | empty slots take the original text and the others are kept |
| Translation.LastPlacedIsLast | app/services/translation.py:53-66 | a slot is set iff some line carries its index; then the last such line wins |
| Translation.TranslationsAligned | app/services/translation.py:65-71 | entry `i` is never empty when text `i` is not, and is text `i` when no line carries index `i` |
| Translation.SwapDifferentIndices | app/services/translation.py:53-66 | lines with different indices may come in either order: the result is aligned by index, not by line order |
| Translation.OutOfRangeIgnored | app/services/translation.py:65-66 | a line whose index is outside the chunk changes nothing |
| Translation.PromptBody | app/services/translation.py:34-37 | the body is one line per text, in order, when no text contains a line break |
| Translation.BodyLineIndex | app/services/translation.py:36 | each prompt line starts with its position in brackets, and the digits read back as that position |
| Translation.ChunkTexts | app/services/translation.py:86-89 | the message at `k` is entry `k` minus its chunk start in its chunk's texts |
| Translation.TranslateMessages | app/services/translation.py:76-96 | with a positive batch size every dict gets the translation of its own text from its own chunk and nothing else changes; with a negative one the chunk range is empty and the list is unchanged |
| Translation.TranslateChunk | app/services/translation.py:86-94 | one chunk iteration writes exactly positions `start` to `end - 1` |
| Translation.TranslatedAtNonEmpty | app/services/translation.py:68-71 | a message with text never gets an empty translation |
| Translation.TranslatedAtFallsBack | app/services/translation.py:68-71 | a message its chunk's reply places nothing for keeps its own text |
| Translation.ChunkTranslation | app/services/translation.py:86-94 | a chunk's translation at offset `k - start` is the one the whole list gives position `k` |
| Translation.WriteTranslations | app/services/translation.py:93-94 | the `zip` loop writes `translated_text` on the chunk's positions only |
| Enrichment.Filtered | app/services/enrichment.py:86-93 | an accepted line fills all six expected fields with strings |
| Enrichment.IdToIndex | app/services/enrichment.py:68 | every id maps to a position holding that id, and a repeated id maps to its last position |
| Enrichment.EnrichSubbatch | app/services/enrichment.py:27-98 | empty items give `[]`; otherwise the result is the decoding of the model's reply to the prompt |
| Enrichment.PlaceLines | app/services/enrichment.py:69-96 | the parse loop gives, for each position, the enrichment of the first accepted line for its id, or the default |
| Enrichment.PlaceLine | app/services/enrichment.py:72-96 | one line updates `seen_ids` and the result for one more line |
| Enrichment.EnrichmentStep | app/services/enrichment.py:83-96 | one more line changes only the slot its id maps to, and only when the id is known and not yet seen |
| Enrichment.FirstCandidateSnoc | app/services/enrichment.py:83-96 | an id is seen after one more line iff it was seen before or the line carries it |
| Enrichment.FirstCandidateIsFirst | app/services/enrichment.py:83-96 | an id has an accepted line iff some line carries it; the first such line wins |
| Enrichment.FirstCandidateAppend | app/services/enrichment.py:83 | a later line for an id already seen is ignored |
| Enrichment.LocalIdsAlign | app/services/enrichment.py:68-69 | with ids equal to positions, entry `p` is filled from the first line with id `p`, or is the default with all fields `None` |
| Enrichment.ItemsOf | app/services/enrichment.py:114-117 | a chunk's items are numbered by their positions |
| Enrichment.OrNone | app/services/enrichment.py:123-126 | an empty value is stored as `None` |
| Enrichment.EnrichedAtIsFirst | app/services/enrichment.py:110-126 | a message is enriched from the first line of its chunk's reply that carries its position in the chunk, or gets the default |
| Enrichment.EnrichedAtFields | app/services/enrichment.py:121-126 | without a line, country, region, location and title become `None`; with one, they take its values, with empty ones as `None` |
| Enrichment.ChunkEnrichment | app/services/enrichment.py:110-121 | a chunk's enrichment at offset `k - start` is the one the whole list gives position `k` |
| Enrichment.EnrichMessages | app/services/enrichment.py:101-128 | with a positive batch size every dict gets the four fields of its own enrichment and nothing else changes; with a negative one the chunk range is empty and the list is unchanged |
| Enrichment.EnrichChunk | app/services/enrichment.py:110-126 | one chunk iteration writes exactly positions `start` to `end - 1` |
| Enrichment.WriteEnrichments | app/services/enrichment.py:121-126 | the `zip` loop updates the chunk's positions only; `if enr` never skips one |
| Fetch.Sanitize | app/services/fetch.py:46 | the sanitised channel is no longer than the input and has only letters, digits and underscores |
| Fetch.SanitizeKeeps | app/services/fetch.py:46 | sanitising a valid channel name leaves it unchanged |
| Fetch.SourcesOf | app/services/fetch.py:27-50 | the channel order lists exactly the mapping's keys, each once |
| Fetch.Sources | app/services/fetch.py:15-52 | the parsed setting lists exactly the mapping's keys, each once |
| Fetch.ParseEntry | app/services/fetch.py:29-50 | the loop body for one piece gives that piece's entry, with each `continue` as `None` |
| Fetch.CollectSources | app/services/fetch.py:27-52 | the loop builds the mapping and its insertion order from the pieces' entries |
| Fetch.ParseSourcesEnv | app/services/fetch.py:15-52 | `_parse_sources_env` returns the parsed setting; a channel is listed iff it is mapped |
| Fetch.SourcesOfEmpty | app/services/fetch.py:27-52 | there is no channel exactly when the mapping is empty |
| Fetch.SourcesEmpty | app/services/fetch.py:22-52 | a setting gives no channel exactly when it gives an empty mapping |
| Fetch.BlankSettingNoSources | app/services/fetch.py:22-25 | a blank setting gives no channel |
| Fetch.EntryValid | app/services/fetch.py:44-48 | every kept entry has a non-empty channel of letters, digits and underscores |
| Fetch.SourcesValid | app/services/fetch.py:29-50 | every channel of the setting is non-empty and made of letters, digits and underscores |
| Fetch.RepeatedChannelOverwrites | app/services/fetch.py:50 | a repeated channel keeps its first position and takes the newer label |
| Fetch.SplitAtFirstColon | app/services/fetch.py:39-40 | the channel ends at the first ":" and the label is everything after it |
| Fetch.LabelKeepsLaterColons | app/services/fetch.py:39-50 | the label keeps any later colons |
| Fetch.UnprefixedUnchanged | app/services/fetch.py:30-36 | an entry with no surrounding whitespace and no "@" is not changed by trimming |
| Fetch.CollectChannel | app/services/fetch.py:106-128 | the inner loop returns one dict per kept message, in Telegram's order |
| Fetch.ChannelRecordsSound | app/services/fetch.py:106-128 | every dict has the channel, a non-blank text and a date not before the cutoff, and comes from a kept message |
| Fetch.ChannelRecordsComplete | app/services/fetch.py:106-128 | every message with a date at or after the cutoff and a non-blank text gives a dict |
| Fetch.FetchChannels | app/services/fetch.py:59-128 | an empty mapping gives nothing; otherwise channels are visited in order, and a failed lookup skips its channel |
| Fetch.FetchedRecordsSound | app/services/fetch.py:59-128 | every dict of the whole fetch has the channel of one of the fetched channels, a non-blank text and a date not before the cutoff |
| Fetch.FetchRawMessages | app/services/fetch.py:55-131 | the result is the dicts of the setting's channels, in order, with a cutoff 24 hours before `now` |
| Pipeline.FilterExistingDropsStored | tools/run_pipeline.py:62-81 | the result, early returns included, keeps in order exactly the messages whose (channel, id) pair is not stored with both present |
| Pipeline.EventTimestamp | tools/run_pipeline.py:32-43 | a stored event timestamp is missing or carries a UTC offset |
| Pipeline.EventTimestampInstant | tools/run_pipeline.py:40-43 | making a naive value UTC-aware keeps its instant |
| Pipeline.RowOf | tools/run_pipeline.py:44-56 | the row's source is the dict's source when truthy and "unknown" otherwise; channel, message id, translated text, country, region, location, title and orientation are copied, the raw text is the text or "", the event timestamp is the parsed `date`, and the row gets its id and creation time |
| Pipeline.Database.constructor | tools/run_pipeline.py:102 | a fresh table is empty and valid |
| Pipeline.Database.StoreMessages | tools/run_pipeline.py:24-58 | one new row per dict is appended, in order, with fresh increasing ids |
| Pipeline.Database.DeleteOldMessages | tools/run_pipeline.py:84-95 | exactly the rows whose event is before the cutoff are removed; ids stay increasing |
| Pipeline.FilterIncreasing | tools/run_pipeline.py:93 | deleting rows keeps the ids increasing and adds no row |
| Pipeline.DeleteKeepsExactly | tools/run_pipeline.py:93 | a row survives iff its timestamp is missing or not before the cutoff |
| Pipeline.TranslateEnrichDedupe | tools/run_pipeline.py:113-115 | translation then enrichment update the list in place, then deduplication builds the result |
| Pipeline.RunPipelineOnce | tools/run_pipeline.py:101-117 | an empty fetch or an all-stored fetch changes nothing, whatever the batch size; otherwise the table gains the processed new messages and is pruned to seven days |
| DatabaseUrl.WithSslmode | app/database.py:18-21 | the rewrite only appends; a PostgreSQL URL then contains "sslmode"; other URLs, and those that already contain "sslmode", are unchanged |
| DatabaseUrl.Configure | app/database.py:16-27 | an unset or empty `DB_URL` gives the local SQLite file; otherwise the URL extends `DB_URL`; `is_sqlite` holds iff the URL starts with "sqlite" |
| DatabaseUrl.SslmodeSeparator | app/database.py:20-21 | the parameter is joined with "&" when the URL has a "?", and with "?" otherwise |
| DatabaseUrl.WithSslmodeIdempotent | app/database.py:19-21 | rewriting twice is rewriting once |
| DatabaseUrl.OtherUrlsUnchanged | app/database.py:17-24 | a non-PostgreSQL URL is used as it is |
| DatabaseUrl.PostgresNotSqlite | app/database.py:19-24 | a PostgreSQL URL never counts as SQLite |

## Left out

- Network and storage I/O are parameters or plain data:
  - the OpenAI call, whose reply is a function from the prompt to decoded lines;
  - the Telegram client (`get_entity` and `get_messages`, with its per-channel `limit`), a function from a channel to its entity and messages;
  - SQL sessions and statements, whose rows are a sequence and whose queries are filters over it;
  - `countries.json`, whose aliases and coordinates are a parameter;
  - environment settings and `app/config.py`, whose values are parameters.
- JSON decoding, `int()` of a JSON id and `str()` of a JSON value are not modelled. A reply line arrives already classified.
- `datetime.fromisoformat` is a parameter, and `utcnow` and `datetime.now` are one `now` parameter.
- Fetch.FetchRawMessages: the 50-message limit per channel is applied inside the Telegram function.
- Fetch.Entity: an entity's `username` attribute is modelled as an optional value plus a flag saying whether the attribute exists at all.
- A failure of a model call, or an exception in a chunk, aborts the whole run in the source. The model has no such failure.
- Translation.TranslateMessages: on a non-empty list, a batch size of 0 makes `range` raise `ValueError`, which aborts the run; the model requires a non-zero size there instead of modelling that exception. An empty list returns before `range` whatever the size. A negative size is modelled: the loop runs zero times and every dict stays untranslated.
- Enrichment.EnrichMessages: on a non-empty list, a batch size of 0 raises `ValueError` in the same way and is excluded the same way. An empty list returns before `range` whatever the size. A negative size is modelled: the loop runs zero times and every dict stays unenriched.
- Pipeline.RunPipelineOnce: a batch size of 0 is excluded only when new messages reach translation, where the source raises `ValueError`; an empty or all-stored fetch returns before that whatever the size.
- Async execution, the session choice (`TG_SESSION`), log output and the debug `print` of the URL are left out.
- The web dashboard (`static/js/dashboard.js`), the FastAPI wiring and the schemas are not part of this model. `tools/export_messages.py` and the Telegram login script are not part of this model either.
- Text.Lower: implements `str.lower` for ASCII and the Latin-1 capitals only. Other scripts are left unchanged, because full Unicode case mapping is library data.
- Zones.StripMarks: decomposes the lower-case Latin-1 letters and drops the marks U+0300 to U+036F only. Full NFD is library data.
- Translation.PromptBody: proved only for texts without a line break. A text with a line break makes the numbered prompt ambiguous to the model.
- Translation.TextOf: a `text` key that holds `None` is read as "", the same as an absent key. Every record field has the same conflation of `None` with absence.
- Pipeline.Database: row ids come from a counter that is never reused. SQLite may reuse the id of a deleted last row.
- Pipeline.Survives: compares instants, and a naive timestamp is read as UTC. The source compares the stored value with a naive `utcnow()` cutoff.
- Dates.InstantsDesc: rows with equal `created_at` are not ordered. Only their common day is used, so the order does not matter.
- Countries.ActivePeriod: instants are whole seconds, so a day ends at its last second. The source's `datetime.max.time()` ends it at the last microsecond, and the sub-second part of `created_at` is not modelled.
