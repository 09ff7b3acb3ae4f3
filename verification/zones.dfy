/** The zone views shared by the three per-country endpoints: the `norm`
    key that makes zone names case-, accent- and spacing-insensitive, the
    display name, the Telegram deep link, the preview, the grouping of
    messages into buckets in first-appearance order, and the zone entries
    built from the buckets. */
module Zones {
  import opened Wrappers
  import opened Text
  import opened Seqs
  import opened Sorting
  import opened Records

  /** A combining diacritical mark (general category Mn, block U+0300-U+036F). */
  predicate IsCombiningMark(c: char) {
    '\U{300}' <= c <= '\U{36f}'
  }

  /** The base letter of a lower-case Latin-1 letter whose canonical
      decomposition is that letter followed by combining marks. */
  function BaseLetter(c: char): char {
    if '\U{e0}' <= c <= '\U{e5}' then 'a'
    else if c == '\U{e7}' then 'c'
    else if '\U{e8}' <= c <= '\U{eb}' then 'e'
    else if '\U{ec}' <= c <= '\U{ef}' then 'i'
    else if c == '\U{f1}' then 'n'
    else if '\U{f2}' <= c <= '\U{f6}' then 'o'
    else if '\U{f9}' <= c <= '\U{fc}' then 'u'
    else if c == '\U{fd}' || c == '\U{ff}' then 'y'
    else c
  }

  /** NFD followed by dropping every combining mark. */
  function StripMarks(s: string): (r: string)
    ensures |r| <= |s|
    ensures forall i :: 0 <= i < |r| ==> !IsCombiningMark(r[i])
  {
    if s == [] then []
    else (if IsCombiningMark(s[0]) then [] else [BaseLetter(s[0])]) + StripMarks(s[1..])
  }

  /** Every run of whitespace becomes one space. */
  function CollapseSpaces(s: string): (r: string)
    ensures forall i :: 0 <= i < |r| && IsSpace(r[i]) ==> r[i] == ' '
    ensures forall i :: 0 <= i < |r| - 1 ==> !(IsSpace(r[i]) && IsSpace(r[i + 1]))
    ensures r == [] <==> s == []
    ensures r != [] ==> IsSpace(r[0]) == IsSpace(s[0])
    decreases |s|
  {
    if s == [] then []
    else if !IsSpace(s[0]) then [s[0]] + CollapseSpaces(s[1..])
    else [' '] + CollapseSpaces(TrimLeft(s))
  }

  /** The grouping key of a zone name: stripped, lower-cased, without
      diacritics, whitespace runs collapsed; `None` gives "". */
  function Norm(v: Option<string>): (r: string)
    ensures forall i :: 0 <= i < |r| ==> !IsCombiningMark(r[i])
    ensures forall i :: 0 <= i < |r| && IsSpace(r[i]) ==> r[i] == ' '
    ensures forall i :: 0 <= i < |r| - 1 ==> !(IsSpace(r[i]) && IsSpace(r[i + 1]))
  {
    if v.None? then "" else
      var s := StripMarks(Lower(Strip(v.value)));
      CollapseKeepsMarkFree(s);
      CollapseSpaces(s)
  }

  lemma {:induction false} CollapseKeepsMarkFree(s: string)
    requires forall i :: 0 <= i < |s| ==> !IsCombiningMark(s[i])
    ensures forall i :: 0 <= i < |CollapseSpaces(s)| ==> !IsCombiningMark(CollapseSpaces(s)[i])
    decreases |s|
  {
    if s != [] {
      if !IsSpace(s[0]) {
        CollapseKeepsMarkFree(s[1..]);
      } else {
        var t := TrimLeft(s);
        TrimLeftSplits(s);
        assert forall i :: 0 <= i < |t| ==> t[i] == s[|s| - |t| + i];
        CollapseKeepsMarkFree(t);
      }
    }
  }

  /** A string without whitespace is left as it is. */
  lemma {:induction false} CollapseNoSpace(s: string)
    requires forall i :: 0 <= i < |s| ==> !IsSpace(s[i])
    ensures CollapseSpaces(s) == s
  {
    if s != [] {
      CollapseNoSpace(s[1..]);
    }
  }

  /** Case does not matter to the key. */
  lemma NormIgnoresCase(s: string)
    ensures Norm(Some(Lower(s))) == Norm(Some(s))
  {
    StripLower(s);
    LowerIdempotent(Strip(s));
  }

  /** Whitespace around the name does not matter to the key. */
  lemma NormIgnoresSurroundingSpace(s: string)
    ensures Norm(Some(Strip(s))) == Norm(Some(s))
  {
    StripIdempotent(s);
  }

  lemma StripKayes() ensures Strip("kayes ") == "kayes" {
    assert "kayes " == "kayes" + [' '];
    StripAppendSpace("kayes", ' ');
    StripUnchanged("kayes");
  }

  lemma LowerKayes() ensures Lower("Kayes") == "kayes" {}

  /** "Kayes" and "kayes " fall into the same bucket. */
  lemma KayesSharesBucket()
    ensures Norm(Some("Kayes")) == Norm(Some("kayes "))
  {
    StripKayes();
    NormIgnoresSurroundingSpace("kayes ");
    LowerKayes();
    NormIgnoresCase("Kayes");
  }

  lemma StripSegou() ensures Strip("S\U{e9}gou") == "S\U{e9}gou" && Strip("segou") == "segou" {
    StripUnchanged("S\U{e9}gou");
    StripUnchanged("segou");
  }

  lemma LowerSegou() ensures Lower("S\U{e9}gou") == "s\U{e9}gou" && Lower("segou") == "segou" {}

  lemma MarksSegou() ensures StripMarks("s\U{e9}gou") == "segou" && StripMarks("segou") == "segou" {}

  /** "S\U{e9}gou" and "segou" fall into the same bucket. */
  lemma AccentsDoNotMatter()
    ensures Norm(Some("S\U{e9}gou")) == Norm(Some("segou"))
  {
    StripSegou();
    LowerSegou();
    MarksSegou();
  }

  /** `display_name(m)`: the stripped region, else the stripped location,
      else "Zone inconnue". */
  function DisplayName(m: Message): (r: string)
    ensures r != ""
    ensures r == "Zone inconnue" || r == Strip(m.region.GetOr("")) || r == Strip(m.location.GetOr(""))
  {
    if Truthy(m.region) && Strip(m.region.value) != "" then Strip(m.region.value)
    else if Truthy(m.location) && Strip(m.location.value) != "" then Strip(m.location.value)
    else "Zone inconnue"
  }

  const TelegramPrefix: string := "https://t.me/"

  /** The deep link, present iff the channel and the Telegram id are both
      truthy (non-empty, non-zero). */
  function Url(channel: Option<string>, telegramId: Option<int>): (r: Option<string>)
    ensures r.Some? <==> Truthy(channel) && telegramId.Some? && telegramId.value != 0
    ensures r.Some? ==> StartsWith(r.value, TelegramPrefix)
  {
    if Truthy(channel) && telegramId.Some? && telegramId.value != 0 then
      Some(TelegramPrefix + channel.value + "/" + IntToString(telegramId.value))
    else None
  }

  lemma IntToStringNoSlash(i: int)
    ensures '/' !in IntToString(i)
  {
    var r := IntToString(i);
    if i >= 0 {
      assert forall k :: 0 <= k < |r| ==> '0' <= r[k] <= '9';
    } else {
      var t := NatToString(-i);
      assert forall k :: 0 <= k < |t| ==> '0' <= t[k] <= '9';
      assert r == "-" + t;
    }
  }

  /** The link gives back the channel and the id: after the prefix, it is
      the channel and the decimal id separated by one "/" (for a channel
      without "/"). */
  lemma UrlParts(channel: string, telegramId: int)
    requires channel != "" && telegramId != 0 && '/' !in channel
    ensures var u := Url(Some(channel), Some(telegramId)).value;
      Split(u[|TelegramPrefix|..], '/') == [channel, IntToString(telegramId)]
  {
    var u := Url(Some(channel), Some(telegramId)).value;
    var rest := channel + "/" + IntToString(telegramId);
    assert u[|TelegramPrefix|..] == rest;
    IntToStringNoSlash(telegramId);
    SplitPrefix(channel, IntToString(telegramId), '/');
    SplitNoSeparator(IntToString(telegramId), '/');
    assert rest == channel + ['/'] + IntToString(telegramId);
  }

  /** The translated text when non-empty, else the raw text, stripped. */
  function FullText(m: Message): string {
    Strip(if Truthy(m.translatedText) then m.translatedText.value else m.rawText)
  }

  const PreviewLimit: nat := 280
  const PreviewKeep: nat := 277

  /** The preview: the text itself up to 280 characters, else its first 277
      characters and "...". */
  function Preview(text: string): (r: string)
    ensures |r| <= PreviewLimit
    ensures |text| <= PreviewLimit ==> r == text
    ensures |text| > PreviewLimit ==> |r| == PreviewLimit && r[..PreviewKeep] == text[..PreviewKeep] && r[PreviewKeep..] == "..."
  {
    if |text| > PreviewLimit then text[..PreviewKeep] + "..." else text
  }

  /** A 281-character text previews as 280 characters ending in "...". */
  lemma PreviewOfLongText(text: string)
    requires |text| == PreviewLimit + 1
    ensures |Preview(text)| == PreviewLimit && Preview(text)[PreviewLimit - 3..] == "..."
  {
  }

  /** One entry of a zone's `messages`. */
  datatype EventMessage = EventMessage(
    id: int,
    telegramMessageId: Option<int>,
    channel: Option<string>,
    title: Option<string>,
    source: string,
    orientation: Option<string>,
    eventTimestamp: Option<DateTime>,
    createdAt: int,
    url: Option<string>,
    translatedText: string,
    preview: string)

  function ToEventMessage(m: Message): EventMessage {
    var full := FullText(m);
    EventMessage(m.id, m.telegramMessageId, m.channel, m.title, m.source, m.orientation,
                 m.eventTimestamp, m.createdAt, Url(m.channel, m.telegramMessageId), full, Preview(full))
  }

  /** The entries of a bucket's messages, in bucket order. */
  function EventMessagesOf(items: seq<Message>): (r: seq<EventMessage>)
    ensures |r| == |items|
  {
    if items == [] then [] else EventMessagesOf(items[..|items| - 1]) + [ToEventMessage(items[|items| - 1])]
  }

  /** The inner loop over a bucket's items. */
  method EventMessages(items: seq<Message>) returns (r: seq<EventMessage>)
    ensures r == EventMessagesOf(items)
  {
    r := [];
    var j := 0;
    while j < |items|
      invariant 0 <= j <= |items|
      invariant r == EventMessagesOf(items[..j])
    {
      TakeSnoc(items, j);
      r := r + [ToEventMessage(items[j])];
      j := j + 1;
    }
    TakeAll(items);
  }

  /** The messages sharing key `k`, in input order. */
  function Bucket<K(==)>(msgs: seq<Message>, key: Message -> K, k: K): seq<Message> {
    Filter(msgs, (m: Message) => key(m) == k)
  }

  /** The keys in first-appearance order: the iteration order of `buckets`. */
  function BucketKeys<K(==)>(msgs: seq<Message>, key: Message -> K): (r: seq<K>)
    ensures |r| == |DistinctBy(msgs, key)|
  {
    var firsts := DistinctBy(msgs, key);
    seq(|firsts|, i requires 0 <= i < |firsts| => key(firsts[i]))
  }

  /** The buckets, in first-appearance order of their keys. */
  function Buckets<K(==)>(msgs: seq<Message>, key: Message -> K): (r: seq<seq<Message>>)
    ensures |r| == |BucketKeys(msgs, key)|
  {
    var keys := BucketKeys(msgs, key);
    seq(|keys|, i requires 0 <= i < |keys| => Bucket(msgs, key, keys[i]))
  }

  /** The buckets after appending each message, in order, to the list of its key. */
  method GroupBy<K(==)>(msgs: seq<Message>, key: Message -> K) returns (order: seq<K>, buckets: map<K, seq<Message>>)
    ensures order == BucketKeys(msgs, key)
    ensures forall k :: k in buckets <==> k in order
    ensures forall k :: k in buckets ==> buckets[k] == Bucket(msgs, key, k)
  {
    order, buckets := [], map[];
    var i := 0;
    while i < |msgs|
      invariant 0 <= i <= |msgs|
      invariant order == BucketKeys(msgs[..i], key)
      invariant forall k :: k in buckets <==> k in order
      invariant forall k :: k in buckets ==> buckets[k] == Bucket(msgs[..i], key, k)
    {
      var m := msgs[i];
      var k := key(m);
      GroupStep(msgs[..i], m, key);
      TakeSnoc(msgs, i);
      if k !in buckets {
        buckets := buckets[k := []];
        order := order + [k];
      }
      buckets := buckets[k := buckets[k] + [m]];
      i := i + 1;
    }
    TakeAll(msgs);
  }

  /** How one more message extends the buckets and their key order. */
  lemma GroupStep<K>(msgs: seq<Message>, m: Message, key: Message -> K)
    ensures KeySet(msgs + [m], key) == KeySet(msgs, key) + {key(m)}
    ensures BucketKeys(msgs + [m], key) == BucketKeys(msgs, key) + (if key(m) in KeySet(msgs, key) then [] else [key(m)])
    ensures forall k :: Bucket(msgs + [m], key, k) == Bucket(msgs, key, k) + (if key(m) == k then [m] else [])
    ensures key(m) !in KeySet(msgs, key) ==> Bucket(msgs, key, key(m)) == []
    ensures key(m) in KeySet(msgs, key) <==> key(m) in BucketKeys(msgs, key)
  {
    KeySetSnoc(msgs, m, key);
    BucketKeysMembers(msgs, key, key(m));
    BucketSize(msgs, key, key(m));
    CountKeyPositive(msgs, key, key(m));
    assert (msgs + [m])[..|msgs|] == msgs;
  }

  lemma BucketKeysMembers<K>(msgs: seq<Message>, key: Message -> K, k: K)
    ensures k in BucketKeys(msgs, key) <==> k in KeySet(msgs, key)
  {
    var firsts := DistinctBy(msgs, key);
    DistinctByKeySet(msgs, key);
    if k in KeySet(firsts, key) {
      var j :| 0 <= j < |firsts| && key(firsts[j]) == k;
      assert BucketKeys(msgs, key)[j] == k;
    }
    if k in BucketKeys(msgs, key) {
      var j :| 0 <= j < |firsts| && BucketKeys(msgs, key)[j] == k;
      assert key(firsts[j]) in KeySet(firsts, key);
    }
  }

  /** A zone of the answer. */
  datatype ZoneEvents = ZoneEvents(region: Option<string>, location: Option<string>, messagesCount: nat, messages: seq<EventMessage>)

  function ZoneCount(z: ZoneEvents): int { z.messagesCount }

  /** The names a zone shows, chosen from its bucket. */
  datatype ZoneLabel = ZoneLabel(region: Option<string>, location: Option<string>)

  function ZoneOf(items: seq<Message>, naming: seq<Message> -> ZoneLabel): ZoneEvents {
    ZoneEvents(naming(items).region, naming(items).location, |items|, EventMessagesOf(items))
  }

  function ZonesFrom(buckets: seq<seq<Message>>, naming: seq<Message> -> ZoneLabel): (r: seq<ZoneEvents>)
    ensures |r| == |buckets|
  {
    if buckets == [] then []
    else ZonesFrom(buckets[..|buckets| - 1], naming) + [ZoneOf(buckets[|buckets| - 1], naming)]
  }

  /** One zone per bucket, in bucket order, before sorting. */
  function ZonesOf<K(==)>(msgs: seq<Message>, key: Message -> K, naming: seq<Message> -> ZoneLabel): (r: seq<ZoneEvents>)
    ensures |r| == |Buckets(msgs, key)|
  {
    ZonesFrom(Buckets(msgs, key), naming)
  }

  /** Buckets, zone entries and the final sort of one per-country view. */
  method BuildZones<K(==)>(msgs: seq<Message>, key: Message -> K, naming: seq<Message> -> ZoneLabel) returns (zones: seq<ZoneEvents>)
    ensures zones == SortDesc(ZonesOf(msgs, key, naming), ZoneCount)
  {
    var order, buckets := GroupBy(msgs, key);
    ghost var all := Buckets(msgs, key);
    var payload: seq<ZoneEvents> := [];
    var i := 0;
    while i < |order|
      invariant 0 <= i <= |order|
      invariant payload == ZonesFrom(all[..i], naming)
    {
      var items := BucketItems(msgs, key, order, buckets, i);
      var eventMessages := EventMessages(items);
      TakeSnoc(all, i);
      payload := payload + [ZoneEvents(naming(items).region, naming(items).location, |items|, eventMessages)];
      i := i + 1;
    }
    TakeAll(all);
    zones := SortDesc(payload, ZoneCount);
  }

  /** `items` of the `i`-th entry of `buckets.items()`. */
  method BucketItems<K(==)>(msgs: seq<Message>, key: Message -> K, order: seq<K>, buckets: map<K, seq<Message>>, i: int)
    returns (items: seq<Message>)
    requires order == BucketKeys(msgs, key)
    requires forall k :: k in buckets <==> k in order
    requires forall k :: k in buckets ==> buckets[k] == Bucket(msgs, key, k)
    requires 0 <= i < |order|
    ensures items == Buckets(msgs, key)[i]
  {
    items := buckets[order[i]];
  }

  /** The buckets partition the messages: every message is in the bucket of
      its key, a bucket holds only messages with its key, in input order,
      as many as carry that key, and no two buckets share a key. */
  lemma BucketsPartition<K>(msgs: seq<Message>, key: Message -> K)
    ensures forall i, j :: 0 <= i < j < |BucketKeys(msgs, key)| ==> BucketKeys(msgs, key)[i] != BucketKeys(msgs, key)[j]
    ensures forall m :: m in msgs ==> key(m) in BucketKeys(msgs, key)
    ensures forall k, m :: m in Bucket(msgs, key, k) <==> m in msgs && key(m) == k
    ensures forall k :: |Bucket(msgs, key, k)| == CountKey(msgs, key, k)
  {
    var firsts := DistinctBy(msgs, key);
    var keys := BucketKeys(msgs, key);
    DistinctByKeysDistinct(msgs, key);
    DistinctByKeySet(msgs, key);
    forall m | m in msgs ensures key(m) in keys {
      var k :| 0 <= k < |msgs| && msgs[k] == m;
      assert key(msgs[k]) in KeySet(msgs, key);
      var j :| 0 <= j < |firsts| && key(firsts[j]) == key(m);
      assert keys[j] == key(m);
    }
    forall k, m ensures m in Bucket(msgs, key, k) <==> m in msgs && key(m) == k {
      FilterMembership(msgs, (m: Message) => key(m) == k, m);
    }
    forall k ensures |Bucket(msgs, key, k)| == CountKey(msgs, key, k) {
      BucketSize(msgs, key, k);
    }
  }

  lemma {:induction false} BucketSize<K>(msgs: seq<Message>, key: Message -> K, k: K)
    ensures |Bucket(msgs, key, k)| == CountKey(msgs, key, k)
  {
    if msgs != [] {
      BucketSize(msgs[..|msgs| - 1], key, k);
    }
  }

  /** Each bucket is exactly the subsequence of messages carrying its key. */
  lemma BucketKeepsOrder<K>(msgs: seq<Message>, key: Message -> K, k: K)
    ensures KeepsExactly(Bucket(msgs, key, k), msgs, j => 0 <= j < |msgs| && key(msgs[j]) == k)
  {
    FilterKeepsExactly(msgs, (m: Message) => key(m) == k);
  }

  /** Zones come most messages first; zones with as many messages keep the
      order in which their keys first appeared. */
  lemma ZonesOrder<K>(msgs: seq<Message>, key: Message -> K, naming: seq<Message> -> ZoneLabel, n: int)
    ensures SortedDesc(SortDesc(ZonesOf(msgs, key, naming), ZoneCount), ZoneCount)
    ensures WithKey(SortDesc(ZonesOf(msgs, key, naming), ZoneCount), ZoneCount, n) == WithKey(ZonesOf(msgs, key, naming), ZoneCount, n)
  {
    SortDescSorted(ZonesOf(msgs, key, naming), ZoneCount);
    SortDescStable(ZonesOf(msgs, key, naming), ZoneCount, n);
  }
}
