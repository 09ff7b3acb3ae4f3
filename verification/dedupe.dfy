/** `dedupe_messages`: one pass over the pipeline dicts with a "seen" set of
    keys, keeping the first dict of every key. */
module Dedupe {
  import opened Wrappers
  import opened Text
  import opened Seqs
  import opened Records

  /** The tagged tuple a dict is compared by. The tag keeps a title key and
      a text key apart even when their strings agree. */
  datatype DedupeKey =
    | TitleKey(source: Option<string>, channel: Option<string>, country: string, title: string)
    | TextKey(source: Option<string>, channel: Option<string>, country: string, text: string)

  /** The stripped title, "" when it is missing or empty. */
  function TitleOf(m: Record): string {
    Strip(m.title.GetOr(""))
  }

  /** The first non-empty of the translated, raw and original texts, stripped. */
  function TextOf(m: Record): string {
    Strip(Or(m.translatedText, Or(m.rawText, m.text)).GetOr(""))
  }

  /** The country, "" when it is missing or empty. */
  function CountryOf(m: Record): string {
    Or(m.country, Some("")).GetOr("")
  }

  function Key(m: Record): DedupeKey {
    if TitleOf(m) != "" then TitleKey(m.source, m.channel, CountryOf(m), TitleOf(m))
    else TextKey(m.source, m.channel, CountryOf(m), TextOf(m))
  }

  /** What `dedupe_messages(messages)` returns. */
  function Deduped(messages: seq<Record>): seq<Record> {
    DistinctBy(messages, Key)
  }

  /** The loop of `dedupe_messages`. */
  method DedupeMessages(messages: seq<Record>) returns (result: seq<Record>)
    ensures result == Deduped(messages)
  {
    var keyOf: Record -> DedupeKey := Key;
    var seen: set<DedupeKey> := {};
    result := [];
    var i := 0;
    while i < |messages|
      invariant 0 <= i <= |messages|
      invariant result == DistinctBy(messages[..i], keyOf)
      invariant seen == KeySet(messages[..i], keyOf)
    {
      var msg := messages[i];
      var key := keyOf(msg);
      DistinctByStep(messages, i, seen, result, keyOf);
      i := i + 1;
      if key in seen {
        continue;
      }
      seen := seen + {key};
      result := result + [msg];
    }
    TakeAll(messages);
  }

  /** The result is the subsequence of the input made of the dicts no
      earlier dict shares a key with. */
  lemma DedupeKeepsFirsts(messages: seq<Record>)
    ensures KeepsExactly(Deduped(messages), messages, i => IsFirst(messages, Key, i))
  {
    DistinctByKeepsFirsts(messages, Key);
  }

  /** Kept keys are pairwise distinct, and every key of the input is kept. */
  lemma DedupeKeys(messages: seq<Record>)
    ensures KeysDistinct(Deduped(messages), Key)
    ensures KeySet(Deduped(messages), Key) == KeySet(messages, Key)
  {
    DistinctByKeysDistinct(messages, Key);
    DistinctByKeySet(messages, Key);
  }

  /** Deduplicating twice is deduplicating once. */
  lemma DedupeIdempotent(messages: seq<Record>)
    ensures Deduped(Deduped(messages)) == Deduped(messages)
  {
    DistinctByIdempotent(messages, Key);
  }

  /** A dict with a non-blank title never collides with one without. */
  lemma TitleAndTextKeysDiffer(a: Record, b: Record)
    requires TitleOf(a) != "" && TitleOf(b) == ""
    ensures Key(a) != Key(b)
  {
  }

  /** Surrounding whitespace of the title does not matter, but source,
      channel and country are compared as they are. */
  lemma KeyComparesFields(a: Record, b: Record)
    requires TitleOf(a) != "" && TitleOf(b) != ""
    ensures Key(a) == Key(b) <==>
      a.source == b.source && a.channel == b.channel && CountryOf(a) == CountryOf(b) && TitleOf(a) == TitleOf(b)
  {
  }

  /** Two dicts with the same source, channel, country and non-blank title
      but different texts: only the first is kept. */
  lemma SameTitleKeepsFirst(a: Record, b: Record)
    requires TitleOf(a) != "" && TitleOf(a) == TitleOf(b)
    requires a.source == b.source && a.channel == b.channel && CountryOf(a) == CountryOf(b)
    ensures Deduped([a, b]) == [a]
  {
    DistinctByPair(a, b, Key);
  }
}
