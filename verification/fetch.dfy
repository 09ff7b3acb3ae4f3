/** The pure parts of `app/services/fetch.py`: parsing the
    `SOURCES_TELEGRAM` setting into channels and labels, and turning the
    messages Telegram returns for a channel into pipeline dicts. The
    Telegram client is a function from a channel name to the entity and
    its latest messages, or `None` when either call fails. */
module Fetch {
  import opened Wrappers
  import opened Text
  import opened Seqs
  import opened Records

  /** One entry of the setting: its sanitized channel and its label (the orientation). */
  datatype Source = Source(channel: string, tag: Option<string>)

  /** An ASCII letter, a digit or an underscore. */
  predicate ChannelChar(c: char) {
    ('A' <= c <= 'Z') || ('a' <= c <= 'z') || ('0' <= c <= '9') || c == '_'
  }

  /** The channel name with every character that is not a letter, a digit or
      an underscore removed. */
  function Sanitize(s: string): (r: string)
    ensures |r| <= |s|
    ensures forall i :: 0 <= i < |r| ==> ChannelChar(r[i])
  {
    if s == [] then []
    else Sanitize(s[..|s| - 1]) + (if ChannelChar(s[|s| - 1]) then [s[|s| - 1]] else [])
  }

  /** An entry after trimming and removing one leading "@". */
  function Unprefixed(part: string): string {
    var p := Strip(part);
    if StartsWith(p, "@") then Strip(p[1..]) else p
  }

  /** The channel of an unprefixed entry: everything before the first
      ":" when there is one. */
  function ChannelPart(p: string): string {
    match IndexOf(p, ':')
    case Some(k) => p[..k]
    case None => p
  }

  /** Its label: everything after the first ":", or `None` when there is
      no ":". */
  function LabelPart(p: string): Option<string> {
    match IndexOf(p, ':')
    case Some(k) => Some(p[k + 1..])
    case None => None
  }

  /** The stored label: stripped when non-empty, otherwise `None`. */
  function StoredLabel(tag: Option<string>): Option<string> {
    if Truthy(tag) then Some(Strip(tag.value)) else None
  }

  /** What one comma-separated piece contributes: nothing when it is blank
      or its channel sanitizes to nothing. */
  function Entry(part: string): Option<Source> {
    if Strip(part) == "" then None
    else
      var p := Unprefixed(part);
      if Sanitize(ChannelPart(p)) == "" then None
      else Some(Source(Sanitize(ChannelPart(p)), StoredLabel(LabelPart(p))))
  }

  /** The `mapping` dict after one more piece: a new channel goes to the
      end, a known one keeps its place and takes the new label. */
  function AddEntry(prev: (seq<string>, map<string, Option<string>>), entry: Option<Source>): (seq<string>, map<string, Option<string>>) {
    match entry
    case None => prev
    case Some(src) =>
      (if src.channel in prev.1 then prev.0 else prev.0 + [src.channel], prev.1[src.channel := src.tag])
  }

  /** The `mapping` dict after the given entries: channels in
      first-insertion order, and the label of each, a later entry
      overwriting an earlier. */
  function SourcesOf(entries: seq<Option<Source>>): (r: (seq<string>, map<string, Option<string>>))
    ensures forall c :: c in r.0 <==> c in r.1
    ensures forall i, j :: 0 <= i < j < |r.0| ==> r.0[i] != r.0[j]
  {
    if entries == [] then ([], map[])
    else AddEntry(SourcesOf(entries[..|entries| - 1]), entries[|entries| - 1])
  }

  lemma SourcesOfStep(entries: seq<Option<Source>>, i: nat)
    requires i < |entries|
    ensures SourcesOf(entries[..i + 1]) == AddEntry(SourcesOf(entries[..i]), entries[i])
  {
    TakeSnoc(entries, i);
  }

  /** The entries of the comma-separated pieces. */
  function EntriesOf(parts: seq<string>, entry: string -> Option<Source>): (r: seq<Option<Source>>)
    ensures |r| == |parts|
  {
    seq(|parts|, i requires 0 <= i < |parts| => entry(parts[i]))
  }

  /** What `_parse_sources_env()` returns for the setting. */
  function Sources(setting: string): (r: (seq<string>, map<string, Option<string>>))
    ensures forall c :: c in r.0 <==> c in r.1
    ensures forall i, j :: 0 <= i < j < |r.0| ==> r.0[i] != r.0[j]
  {
    var raw := Strip(setting);
    if raw == "" then ([], map[]) else SourcesOf(EntriesOf(Split(raw, ','), Entry))
  }

  /** The body of the loop of `_parse_sources_env` for one piece, its
      `continue`s as `None`. */
  method ParseEntry(part0: string) returns (entry: Option<Source>)
    ensures entry == Entry(part0)
  {
    var part := Strip(part0);
    if part == "" {
      assert Entry(part0) == None;
      return None;
    }
    if StartsWith(part, "@") {
      part := Strip(part[1..]);
    }
    assert part == Unprefixed(part0);
    var chan, tag := ChannelPart(part), LabelPart(part);
    chan := Sanitize(chan);
    if chan == "" {
      assert Entry(part0) == None;
      return None;
    }
    entry := Some(Source(chan, if Truthy(tag) then Some(Strip(tag.value)) else None));
    assert entry == Entry(part0);
  }

  /** `_parse_sources_env()` */
  method ParseSourcesEnv(setting: string) returns (channels: seq<string>, mapping: map<string, Option<string>>)
    ensures channels == Sources(setting).0 && mapping == Sources(setting).1
    ensures forall c :: c in channels ==> c in mapping
    ensures channels == [] <==> mapping == map[]
  {
    var raw := Strip(setting);
    if raw == "" {
      return [], map[];
    }
    channels, mapping := CollectSources(Split(raw, ','));
    SourcesOfEmpty(EntriesOf(Split(raw, ','), Entry));
  }

  /** The loop of `_parse_sources_env` over the comma-separated pieces. */
  method CollectSources(parts: seq<string>) returns (channels: seq<string>, mapping: map<string, Option<string>>)
    ensures (channels, mapping) == SourcesOf(EntriesOf(parts, Entry))
  {
    ghost var entries := EntriesOf(parts, Entry);
    channels, mapping := [], map[];
    var i := 0;
    while i < |parts|
      invariant 0 <= i <= |parts|
      invariant (channels, mapping) == SourcesOf(entries[..i])
    {
      var entry := ParseEntry(parts[i]);
      SourcesOfStep(entries, i);
      i := i + 1;
      if entry.None? {
        continue;
      }
      var chan := entry.value.channel;
      if chan !in mapping {
        channels := channels + [chan];
      }
      mapping := mapping[chan := entry.value.tag];
    }
    TakeAll(entries);
  }

  /** There are no channels exactly when the mapping is empty. */
  lemma {:induction false} SourcesOfEmpty(entries: seq<Option<Source>>)
    ensures SourcesOf(entries).0 == [] <==> SourcesOf(entries).1 == map[]
  {
    if entries != [] {
      SourcesOfEmpty(entries[..|entries| - 1]);
    }
  }

  /** The setting gives no channel exactly when it gives no label. */
  lemma SourcesEmpty(setting: string)
    ensures Sources(setting).0 == [] <==> Sources(setting).1 == map[]
  {
    if Strip(setting) != "" {
      SourcesOfEmpty(EntriesOf(Split(Strip(setting), ','), Entry));
    }
  }

  /** A blank setting gives no channel. */
  lemma BlankSettingNoSources(setting: string)
    requires IsBlank(setting)
    ensures Sources(setting) == ([], map[])
  {
  }

  /** A channel the fetch can look up: non-empty, `[A-Za-z0-9_]` only. */
  predicate ValidChannel(c: string) {
    c != "" && forall i :: 0 <= i < |c| ==> ChannelChar(c[i])
  }

  /** Every entry that is kept has a valid channel. */
  lemma EntryValid(part: string)
    ensures Entry(part).Some? ==> ValidChannel(Entry(part).value.channel)
  {
  }

  lemma {:induction false} SourcesOfValid(entries: seq<Option<Source>>)
    requires forall i :: 0 <= i < |entries| && entries[i].Some? ==> ValidChannel(entries[i].value.channel)
    ensures forall c :: c in SourcesOf(entries).1 ==> ValidChannel(c)
  {
    if entries != [] {
      SourcesOfValid(entries[..|entries| - 1]);
    }
  }

  /** Every channel of the setting is non-empty and made of
      `[A-Za-z0-9_]` only. */
  lemma SourcesValid(setting: string)
    ensures forall c :: c in Sources(setting).1 ==> ValidChannel(c)
  {
    var raw := Strip(setting);
    if raw != "" {
      var parts := Split(raw, ',');
      forall i | 0 <= i < |parts| ensures EntriesOf(parts, Entry)[i] == Entry(parts[i]) {}
      forall i | 0 <= i < |parts| ensures Entry(parts[i]).Some? ==> ValidChannel(Entry(parts[i]).value.channel) {
        EntryValid(parts[i]);
      }
      SourcesOfValid(EntriesOf(parts, Entry));
    }
  }

  /** A repeated channel keeps its first position and takes the label of
      its last entry. */
  lemma RepeatedChannelOverwrites(entries: seq<Option<Source>>, src: Source)
    requires src.channel in SourcesOf(entries).1
    ensures SourcesOf(entries + [Some(src)]).0 == SourcesOf(entries).0
    ensures SourcesOf(entries + [Some(src)]).1 == SourcesOf(entries).1[src.channel := src.tag]
  {
    assert (entries + [Some(src)])[..|entries|] == entries;
  }

  /** The channel ends at the first ":", so the label keeps any later
      colon. */
  lemma LabelKeepsLaterColons(chan: string, tag: string)
    requires chan != [] && ':' !in chan && !IsSpace(chan[0]) && chan[0] != '@'
    requires tag != [] && !IsSpace(tag[|tag| - 1])
    requires forall i :: 0 <= i < |chan| ==> ChannelChar(chan[i])
    ensures Entry(chan + ":" + tag) == Some(Source(chan, Some(Strip(tag))))
  {
    var p := chan + ":" + tag;
    assert p[0] == chan[0] && p[|p| - 1] == tag[|tag| - 1];
    UnprefixedUnchanged(p);
    SplitAtFirstColon(chan, tag);
    SanitizeKeeps(chan);
    EntryOfParts(p, chan, tag);
  }

  /** An entry with no surrounding whitespace and no leading "@" is its
      own unprefixed form. */
  lemma UnprefixedUnchanged(p: string)
    requires p != [] && !IsSpace(p[0]) && !IsSpace(p[|p| - 1]) && p[0] != '@'
    ensures Strip(p) == p && Unprefixed(p) == p
  {
    StripUnchanged(p);
    assert !StartsWith(p, "@") by {
      assert p[..1][0] == p[0];
    }
  }

  /** `Entry` in terms of the pieces it splits an unprefixed entry into. */
  lemma EntryOfParts(p: string, chan: string, tag: string)
    requires Strip(p) != "" && Unprefixed(p) == p
    requires ChannelPart(p) == chan && LabelPart(p) == Some(tag)
    requires chan != [] && Sanitize(chan) == chan && tag != []
    ensures Entry(p) == Some(Source(chan, Some(Strip(tag))))
  {
  }

  /** The first ":" of `chan + ":" + tag` is the one after `chan` when
      `chan` has none. */
  lemma SplitAtFirstColon(chan: string, tag: string)
    requires ':' !in chan
    ensures ChannelPart(chan + ":" + tag) == chan
    ensures LabelPart(chan + ":" + tag) == Some(tag)
  {
    var p := chan + ":" + tag;
    assert p[|chan|] == ':' && p[..|chan|] == chan && p[|chan| + 1..] == tag;
    assert IndexOf(p, ':') == Some(|chan|);
  }

  /** Sanitizing a valid channel name leaves it as it is. */
  lemma {:induction false} SanitizeKeeps(s: string)
    requires forall i :: 0 <= i < |s| ==> ChannelChar(s[i])
    ensures Sanitize(s) == s
  {
    if s != [] {
      SanitizeKeeps(s[..|s| - 1]);
    }
  }

  /** The part of a Telegram message the fetch reads. */
  datatype TelegramMessage = TelegramMessage(id: int, date: Option<DateTime>, message: Option<string>)

  /** The part of a Telegram entity the fetch reads; `hasUsername` is false
      when the entity has no `username` attribute at all. */
  datatype Entity = Entity(title: Option<string>, username: Option<string>, hasUsername: bool)

  /** The entity's title when non-empty, else its username attribute (which
      may be empty), else the channel name when there is no such attribute. */
  function RealSource(entity: Entity, chan: string): Option<string> {
    if Truthy(entity.title) then entity.title
    else if entity.hasUsername then entity.username
    else Some(chan)
  }

  /** The message text, "" when missing or empty. */
  function TextOf(m: TelegramMessage): string {
    if Truthy(m.message) then m.message.value else ""
  }

  /** A message is kept iff it has a date, not before the cutoff, and a
      non-blank text. */
  predicate Kept(m: TelegramMessage, cutoff: int) {
    m.date.Some? && UtcInstant(m.date.value) >= cutoff && Strip(TextOf(m)) != ""
  }

  /** The dict appended for a kept message. */
  function RecordOf(m: TelegramMessage, chan: string, orient: Option<string>, entity: Entity): Record
    requires m.date.Some?
  {
    Record(
      source := RealSource(entity, chan),
      channel := Some(chan),
      orientation := Some(Lower(if Truthy(orient) then orient.value else "inconnu")),
      text := Some(TextOf(m)),
      date := Some(DateTimeValue(m.date.value)),
      telegramMessageId := Some(m.id),
      translatedText := None,
      rawText := None,
      country := None,
      region := None,
      location := None,
      title := None)
  }

  /** The dicts a channel's messages give, in the order Telegram returns
      them. */
  function ChannelRecords(msgs: seq<TelegramMessage>, chan: string, orient: Option<string>, entity: Entity, cutoff: int): seq<Record> {
    if msgs == [] then []
    else
      var last := msgs[|msgs| - 1];
      ChannelRecords(msgs[..|msgs| - 1], chan, orient, entity, cutoff)
      + (if Kept(last, cutoff) then [RecordOf(last, chan, orient, entity)] else [])
  }

  /** The inner loop of `fetch_raw_messages_24h` for one channel. */
  method CollectChannel(msgs: seq<TelegramMessage>, chan: string, orient: Option<string>, entity: Entity, cutoff: int)
    returns (results: seq<Record>)
    ensures results == ChannelRecords(msgs, chan, orient, entity, cutoff)
  {
    results := [];
    var i := 0;
    while i < |msgs|
      invariant 0 <= i <= |msgs|
      invariant results == ChannelRecords(msgs[..i], chan, orient, entity, cutoff)
    {
      var m := msgs[i];
      TakeSnoc(msgs, i);
      i := i + 1;
      if m.date.None? {
        continue;
      }
      if UtcInstant(m.date.value) < cutoff {
        continue;
      }
      var text := TextOf(m);
      if Strip(text) == "" {
        continue;
      }
      results := results + [RecordOf(m, chan, orient, entity)];
    }
    TakeAll(msgs);
  }

  /** Every dict of a channel has that channel, a lower-case orientation,
      a non-blank text and a date not before the cutoff, and comes from one
      of the channel's messages. */
  lemma {:induction false} ChannelRecordsSound(msgs: seq<TelegramMessage>, chan: string, orient: Option<string>, entity: Entity, cutoff: int, r: Record)
    requires r in ChannelRecords(msgs, chan, orient, entity, cutoff)
    ensures r.channel == Some(chan)
    ensures r.text.Some? && Strip(r.text.value) != ""
    ensures r.date.Some? && r.date.value.DateTimeValue? && UtcInstant(r.date.value.dt) >= cutoff
    ensures exists m :: m in msgs && Kept(m, cutoff) && r == RecordOf(m, chan, orient, entity)
  {
    var init, last := msgs[..|msgs| - 1], msgs[|msgs| - 1];
    InitLast(msgs);
    if r in ChannelRecords(init, chan, orient, entity, cutoff) {
      ChannelRecordsSound(init, chan, orient, entity, cutoff, r);
      var m :| m in init && Kept(m, cutoff) && r == RecordOf(m, chan, orient, entity);
      assert m in msgs;
    } else {
      assert Kept(last, cutoff) && r == RecordOf(last, chan, orient, entity);
      assert last in msgs;
    }
  }

  /** Every kept message gives a dict. */
  lemma {:induction false} ChannelRecordsComplete(msgs: seq<TelegramMessage>, chan: string, orient: Option<string>, entity: Entity, cutoff: int, m: TelegramMessage)
    requires m in msgs && Kept(m, cutoff)
    ensures RecordOf(m, chan, orient, entity) in ChannelRecords(msgs, chan, orient, entity, cutoff)
  {
    var init := msgs[..|msgs| - 1];
    if m != msgs[|msgs| - 1] {
      assert m in init by {
        var k :| 0 <= k < |msgs| && msgs[k] == m;
        assert k < |init| && init[k] == m;
      }
      ChannelRecordsComplete(init, chan, orient, entity, cutoff, m);
    }
  }

  /** Everything `fetch_raw_messages_24h` returns: the channels in the
      order of the setting, each one's dicts after the previous ones'; a
      channel whose lookup fails contributes nothing. */
  function FetchedRecords(channels: seq<string>, mapping: map<string, Option<string>>,
                          telegram: string -> Option<(Entity, seq<TelegramMessage>)>, cutoff: int): seq<Record>
    requires forall c :: c in channels ==> c in mapping
  {
    if channels == [] then []
    else
      var c := channels[|channels| - 1];
      FetchedRecords(channels[..|channels| - 1], mapping, telegram, cutoff)
      + match telegram(c)
        case None => []
        case Some((entity, msgs)) => ChannelRecords(msgs, c, mapping[c], entity, cutoff)
  }

  /** Every dict of the whole fetch comes from one of the fetched
      channels, has a non-blank text and a date not before the cutoff. */
  lemma {:induction false} FetchedRecordsSound(channels: seq<string>, mapping: map<string, Option<string>>,
                                               telegram: string -> Option<(Entity, seq<TelegramMessage>)>, cutoff: int, r: Record)
    requires forall c :: c in channels ==> c in mapping
    requires r in FetchedRecords(channels, mapping, telegram, cutoff)
    ensures exists c :: c in channels && r.channel == Some(c)
    ensures r.text.Some? && Strip(r.text.value) != ""
    ensures r.date.Some? && r.date.value.DateTimeValue? && UtcInstant(r.date.value.dt) >= cutoff
  {
    var init, c := channels[..|channels| - 1], channels[|channels| - 1];
    InitLast(channels);
    if r in FetchedRecords(init, mapping, telegram, cutoff) {
      FetchedRecordsSound(init, mapping, telegram, cutoff, r);
      var c' :| c' in init && r.channel == Some(c');
      assert c' in channels;
    } else {
      var (entity, msgs) := telegram(c).value;
      ChannelRecordsSound(msgs, c, mapping[c], entity, cutoff, r);
      assert c in channels;
    }
  }

  /** `fetch_raw_messages_24h()`, 24 hours before `now`. */
  method FetchRawMessages(setting: string, telegram: string -> Option<(Entity, seq<TelegramMessage>)>, now: int)
    returns (results: seq<Record>)
    ensures results == FetchedRecords(Sources(setting).0, Sources(setting).1, telegram, now - 24 * 3600)
  {
    var channels, mapping := ParseSourcesEnv(setting);
    results := FetchChannels(channels, mapping, telegram, now - 24 * 3600);
  }

  /** The body of `fetch_raw_messages_24h` after parsing the setting: no
      channel gives nothing, otherwise a loop over the channels in which a
      failing lookup skips the channel. */
  method FetchChannels(channels: seq<string>, mapping: map<string, Option<string>>,
                       telegram: string -> Option<(Entity, seq<TelegramMessage>)>, cutoff: int)
    returns (results: seq<Record>)
    requires forall c :: c in channels ==> c in mapping
    requires channels == [] <==> mapping == map[]
    ensures results == FetchedRecords(channels, mapping, telegram, cutoff)
  {
    if mapping == map[] {
      return [];
    }
    results := [];
    var i := 0;
    while i < |channels|
      invariant 0 <= i <= |channels|
      invariant results == FetchedRecords(channels[..i], mapping, telegram, cutoff)
    {
      FetchedRecordsStep(channels, mapping, telegram, cutoff, i);
      var chan := channels[i];
      var orient := mapping[chan];
      var reply := telegram(chan);
      i := i + 1;
      if reply.None? {
        continue;
      }
      var (entity, msgs) := reply.value;
      var records := CollectChannel(msgs, chan, orient, entity, cutoff);
      results := results + records;
    }
    TakeAll(channels);
  }

  lemma FetchedRecordsStep(channels: seq<string>, mapping: map<string, Option<string>>,
                           telegram: string -> Option<(Entity, seq<TelegramMessage>)>, cutoff: int, i: nat)
    requires i < |channels| && forall c :: c in channels ==> c in mapping
    ensures FetchedRecords(channels[..i + 1], mapping, telegram, cutoff)
      == FetchedRecords(channels[..i], mapping, telegram, cutoff)
         + match telegram(channels[i])
           case None => []
           case Some((entity, msgs)) => ChannelRecords(msgs, channels[i], mapping[channels[i]], entity, cutoff)
  {
    TakeSnoc(channels, i);
  }
}
