/** The translation step: `_translate_subbatch` numbers a chunk of texts in
    a prompt, reads the model's reply line by line and places each
    translation by the index the line carries, falling back to the original
    text; `translate_messages` runs it over consecutive chunks and writes
    `translated_text` into every message dict. The model is a function from
    the prompt to the reply's non-blank lines, each already decoded. */
module Translation {
  import opened Wrappers
  import opened Text
  import opened Seqs
  import opened Records

  /** One non-blank reply line after `json.loads`. `Placed` carries the
      `index` value when it is an `int` (a JSON `true` counts as 1) and
      `str()` of the `translation` value. */
  datatype TranslationLine =
    | Malformed    // not JSON, not an object, or without "index" or "translation"
    | NonIntIndex  // "index" is not an int
    | Placed(index: int, translation: string)

  const Header: string :=
    "Tu es un traducteur professionnel.\n"
    + "Je vais te donner une liste de messages numérotés.\n"
    + "Pour chaque message, réponds STRICTEMENT en JSON Lines :\n"
    + "{\"index\": <int>, \"translation\": \"<texte traduit>\"}\n"
    + "Un seul objet JSON par ligne, même ordre que les index.\n"
    + "Pas de texte hors JSON, pas de commentaire.\n"
    + "IMPORTANT : Traduis chaque message en français naturel, même si le texte original est en anglais ou dans une autre langue.\n"
    + "Si un message contient des noms propres, hashtags, expressions spécifiques ou éléments non traduisibles, conserve-les tels quels et mets-les entre guillemets dans la traduction française.\n"
    + "Messages :\n"

  /** The prompt line of a text: its index in brackets, a space, the text. */
  function BodyLine(i: nat, text: string): string {
    "[" + NatToString(i) + "] " + text
  }

  function BodyLines(texts: seq<string>): (r: seq<string>)
    ensures |r| == |texts|
  {
    seq(|texts|, i requires 0 <= i < |texts| => BodyLine(i, texts[i]))
  }

  function Prompt(texts: seq<string>): string {
    Header + Join(BodyLines(texts), '\n')
  }

  /** The translation of the last reply line placed at `i`, if any. */
  function LastPlaced(lines: seq<TranslationLine>, i: int): Option<string> {
    if lines == [] then None
    else
      var last := lines[|lines| - 1];
      if last.Placed? && last.index == i then Some(last.translation) else LastPlaced(lines[..|lines| - 1], i)
  }

  /** Entry `i` of the result: the placed translation unless it is missing
      or empty, in which case the original text. */
  function TranslationAt(texts: seq<string>, lines: seq<TranslationLine>, i: int): string
    requires 0 <= i < |texts|
  {
    var t := LastPlaced(lines, i).GetOr("");
    if t == "" then texts[i] else t
  }

  /** What `_translate_subbatch(texts)` returns for a reply. */
  function Translations(texts: seq<string>, lines: seq<TranslationLine>): (r: seq<string>)
    ensures |r| == |texts|
  {
    seq(|texts|, i requires 0 <= i < |texts| => TranslationAt(texts, lines, i))
  }

  /** `_translate_subbatch(texts)`; `reply` answers the prompt. */
  method TranslateSubbatch(texts: seq<string>, reply: string -> seq<TranslationLine>) returns (translations: seq<string>)
    ensures texts == [] ==> translations == []
    ensures texts != [] ==> translations == Translations(texts, reply(Prompt(texts)))
  {
    if texts == [] {
      return [];
    }
    var bodyLines: seq<string> := [];
    var i := 0;
    while i < |texts|
      invariant 0 <= i <= |texts|
      invariant bodyLines == BodyLines(texts[..i])
    {
      bodyLines := bodyLines + [BodyLine(i, texts[i])];
      i := i + 1;
    }
    TakeAll(texts);
    var prompt := Header + Join(bodyLines, '\n');
    var lines := reply(prompt);
    var placed := PlaceLines(lines, |texts|);
    translations := Fallback(placed, texts);
  }

  /** The parse loop: every accepted line overwrites its slot. */
  method PlaceLines(lines: seq<TranslationLine>, n: nat) returns (placed: array<string>)
    ensures fresh(placed) && placed.Length == n
    ensures forall i :: 0 <= i < n ==> placed[i] == LastPlaced(lines, i).GetOr("")
  {
    placed := new string[n](_ => "");
    var k := 0;
    while k < |lines|
      invariant 0 <= k <= |lines|
      invariant forall i :: 0 <= i < n ==> placed[i] == LastPlaced(lines[..k], i).GetOr("")
    {
      TakeSnoc(lines, k);
      match lines[k] {
        case Malformed =>
        case NonIntIndex =>
        case Placed(idx, t) =>
          if 0 <= idx < n {
            placed[idx] := t;
          }
      }
      k := k + 1;
    }
    TakeAll(lines);
  }

  /** The fallback loop: empty slots take the original text. */
  method Fallback(placed: array<string>, texts: seq<string>) returns (translations: seq<string>)
    requires placed.Length == |texts|
    modifies placed
    ensures translations == seq(|texts|, i requires 0 <= i < |texts| => if old(placed[i]) == "" then texts[i] else old(placed[i]))
  {
    var i := 0;
    while i < placed.Length
      invariant 0 <= i <= placed.Length
      invariant forall j :: 0 <= j < i ==> placed[j] == if old(placed[j]) == "" then texts[j] else old(placed[j])
      invariant forall j :: i <= j < placed.Length ==> placed[j] == old(placed[j])
    {
      if placed[i] == "" {
        placed[i] := texts[i];
      }
      i := i + 1;
    }
    translations := placed[..];
  }

  /** A later line placed at `i` overrides an earlier one: the entry is the
      translation of the last line placed there, and no later line is. */
  lemma {:induction false} LastPlacedIsLast(lines: seq<TranslationLine>, i: int)
    ensures LastPlaced(lines, i).Some? <==> exists k :: 0 <= k < |lines| && lines[k].Placed? && lines[k].index == i
    ensures LastPlaced(lines, i).Some? ==>
      exists k :: 0 <= k < |lines| && lines[k] == Placed(i, LastPlaced(lines, i).value)
        && forall k' :: k < k' < |lines| ==> !(lines[k'].Placed? && lines[k'].index == i)
  {
    if lines != [] {
      var init, last := lines[..|lines| - 1], lines[|lines| - 1];
      LastPlacedIsLast(init, i);
      if !(last.Placed? && last.index == i) {
        if LastPlaced(init, i).Some? {
          var k :| 0 <= k < |init| && init[k] == Placed(i, LastPlaced(init, i).value)
            && forall k' :: k < k' < |init| ==> !(init[k'].Placed? && init[k'].index == i);
          assert lines[k] == init[k];
          forall k' | k < k' < |lines| ensures !(lines[k'].Placed? && lines[k'].index == i) {
            if k' < |init| { assert lines[k'] == init[k']; }
          }
        }
        forall k | 0 <= k < |lines| && lines[k].Placed? && lines[k].index == i ensures LastPlaced(init, i).Some? {
          assert k < |init| && init[k] == lines[k];
        }
      } else {
        assert lines[|lines| - 1] == Placed(i, last.translation);
      }
    }
  }

  /** Every entry is aligned with its input: the placed translation when it
      is non-empty, the input text otherwise; so an entry is empty only when
      its input is. */
  lemma TranslationsAligned(texts: seq<string>, lines: seq<TranslationLine>, i: int)
    requires 0 <= i < |texts|
    ensures texts[i] != "" ==> Translations(texts, lines)[i] != ""
    ensures (forall k :: 0 <= k < |lines| ==> !(lines[k].Placed? && lines[k].index == i)) ==> Translations(texts, lines)[i] == texts[i]
  {
    LastPlacedIsLast(lines, i);
  }

  /** Two reply lines placed at different indices may come in either order. */
  lemma {:induction false} SwapDifferentIndices(texts: seq<string>, p: seq<TranslationLine>, a: TranslationLine, b: TranslationLine, q: seq<TranslationLine>)
    requires !(a.Placed? && b.Placed? && a.index == b.index)
    ensures Translations(texts, p + [a, b] + q) == Translations(texts, p + [b, a] + q)
  {
    forall i | 0 <= i < |texts| ensures LastPlaced(p + [a, b] + q, i) == LastPlaced(p + [b, a] + q, i) {
      SwapLastPlaced(p, a, b, q, i);
    }
  }

  lemma {:induction false} SwapLastPlaced(p: seq<TranslationLine>, a: TranslationLine, b: TranslationLine, q: seq<TranslationLine>, i: int)
    requires !(a.Placed? && b.Placed? && a.index == b.index)
    ensures LastPlaced(p + [a, b] + q, i) == LastPlaced(p + [b, a] + q, i)
  {
    if q == [] {
      assert p + [a, b] + q == p + [a] + [b];
      assert p + [b, a] + q == p + [b] + [a];
      assert (p + [a] + [b])[..|p| + 1] == p + [a];
      assert (p + [b] + [a])[..|p| + 1] == p + [b];
      assert (p + [a])[..|p|] == p && (p + [b])[..|p|] == p;
    } else {
      var q0 := q[..|q| - 1];
      assert (p + [a, b] + q)[..|p + [a, b] + q| - 1] == p + [a, b] + q0;
      assert (p + [b, a] + q)[..|p + [b, a] + q| - 1] == p + [b, a] + q0;
      SwapLastPlaced(p, a, b, q0, i);
    }
  }

  /** A line whose index lies outside the chunk changes nothing. */
  lemma OutOfRangeIgnored(texts: seq<string>, lines: seq<TranslationLine>, j: int, t: string)
    requires j < 0 || j >= |texts|
    ensures Translations(texts, lines + [Placed(j, t)]) == Translations(texts, lines)
  {
    assert (lines + [Placed(j, t)])[..|lines|] == lines;
  }

  /** Each prompt line starts with its position in brackets; when no text
      contains a line break, the body splits back into exactly those lines. */
  lemma PromptBody(texts: seq<string>)
    requires texts != []
    requires forall i :: 0 <= i < |texts| ==> '\n' !in texts[i]
    ensures Split(Join(BodyLines(texts), '\n'), '\n') == BodyLines(texts)
  {
    var lines := BodyLines(texts);
    forall i | 0 <= i < |lines| ensures '\n' !in lines[i] {
      var digits := NatToString(i);
      assert lines[i] == "[" + digits + "] " + texts[i];
      assert '\n' !in digits;
    }
    SplitJoin(lines, '\n');
  }

  /** The number in brackets reads back as the position. */
  lemma BodyLineIndex(i: nat, text: string)
    ensures var line := BodyLine(i, text); var digits := NatToString(i);
      line[0] == '[' && line[|digits| + 1] == ']' && DecimalValue(line[1..|digits| + 1]) == i
  {
    var digits := NatToString(i);
    var line := BodyLine(i, text);
    assert line[1..|digits| + 1] == digits;
  }

  /** The original text of a message, "" when the key is absent. */
  function TextOf(m: Record): string {
    m.text.GetOr("")
  }

  function TextsOf(s: seq<Record>): (r: seq<string>)
    ensures |r| == |s|
  {
    seq(|s|, i requires 0 <= i < |s| => TextOf(s[i]))
  }

  /** The translation `translate_messages` gives the message at position
      `k` of `s`: its entry in the translation of its own chunk. */
  function TranslatedAt(s: seq<Record>, batchSize: nat, reply: string -> seq<TranslationLine>, k: int): string
    requires batchSize > 0 && 0 <= k < |s|
  {
    var texts := ChunkTexts(s, batchSize, k);
    Translations(texts, reply(Prompt(texts)))[k - ChunkStart(k, batchSize)]
  }

  /** The texts of the chunk holding position `k`; the message at `k` is
      entry `k - ChunkStart(k, batchSize)`. */
  function ChunkTexts(s: seq<Record>, batchSize: nat, k: int): (r: seq<string>)
    requires batchSize > 0 && 0 <= k < |s|
    ensures k - ChunkStart(k, batchSize) < |r| && r[k - ChunkStart(k, batchSize)] == TextOf(s[k])
  {
    var start := ChunkStart(k, batchSize);
    var end := if start + batchSize < |s| then start + batchSize else |s|;
    TextsOf(s[start..end])
  }

  /** `translate_messages(messages)`: every dict gets the translation of
      its own text from its own chunk; nothing else changes. A negative
      batch size makes the chunk range empty, so the list is left as it
      is; a zero one is refused by `range`. */
  method TranslateMessages(messages: array<Record>, batchSize: int, reply: string -> seq<TranslationLine>)
    requires batchSize != 0 || messages.Length == 0
    modifies messages
    ensures batchSize < 0 ==> forall k :: 0 <= k < messages.Length ==> messages[k] == old(messages[k])
    ensures batchSize > 0 ==> forall k :: 0 <= k < messages.Length ==>
      messages[k] == old(messages[k]).(translatedText := Some(TranslatedAt(old(messages[..]), batchSize, reply, k)))
  {
    if batchSize < 0 || messages.Length == 0 {
      return;
    }
    ghost var orig := messages[..];
    var total := messages.Length;
    var start := 0;
    while start < total
      invariant forall k :: start <= k < start + batchSize ==> ChunkStart(k, batchSize) == start
      invariant forall k :: 0 <= k < total && k < start ==>
        messages[k] == orig[k].(translatedText := Some(TranslatedAt(orig, batchSize, reply, k)))
      invariant forall k :: start <= k < total ==> messages[k] == orig[k]
    {
      var end := if start + batchSize < total then start + batchSize else total;
      TranslateChunk(messages, batchSize, reply, start, end, orig);
      forall k | start + batchSize <= k < start + 2 * batchSize ensures ChunkStart(k, batchSize) == start + batchSize {
        assert ChunkStart(k - batchSize, batchSize) == start;
      }
      start := start + batchSize;
    }
  }

  /** One iteration of the chunk loop of `translate_messages`. */
  method TranslateChunk(messages: array<Record>, batchSize: nat, reply: string -> seq<TranslationLine>, start: nat, end: nat,
                        ghost orig: seq<Record>)
    requires batchSize > 0 && messages.Length == |orig| && start < end
    requires end == if start + batchSize < |orig| then start + batchSize else |orig|
    requires forall k :: start <= k < start + batchSize ==> ChunkStart(k, batchSize) == start
    requires forall k :: start <= k < |orig| ==> messages[k] == orig[k]
    modifies messages
    ensures forall k :: 0 <= k < messages.Length ==>
      messages[k] == if start <= k < end then orig[k].(translatedText := Some(TranslatedAt(orig, batchSize, reply, k))) else old(messages[k])
  {
    var texts := seq(end - start, j requires 0 <= j < end - start reads messages => TextOf(messages[start + j]));
    assert texts == TextsOf(orig[start..end]);
    var translations := TranslateSubbatch(texts, reply);
    forall k | start <= k < end ensures translations[k - start] == TranslatedAt(orig, batchSize, reply, k) {
      ChunkTranslation(orig, batchSize, reply, start, end, translations, k);
    }
    WriteTranslations(messages, start, end, translations);
  }

  /** The reply lines of the chunk holding position `k`. */
  function ChunkReply(s: seq<Record>, batchSize: nat, reply: string -> seq<TranslationLine>, k: int): seq<TranslationLine>
    requires batchSize > 0 && 0 <= k < |s|
  {
    reply(Prompt(ChunkTexts(s, batchSize, k)))
  }

  /** A message with text never ends up with an empty translation. */
  lemma TranslatedAtNonEmpty(s: seq<Record>, batchSize: nat, reply: string -> seq<TranslationLine>, k: int)
    requires batchSize > 0 && 0 <= k < |s|
    ensures TextOf(s[k]) != "" ==> TranslatedAt(s, batchSize, reply, k) != ""
  {
    var texts := ChunkTexts(s, batchSize, k);
    TranslationsAligned(texts, reply(Prompt(texts)), k - ChunkStart(k, batchSize));
  }

  /** A message the reply of its chunk places nothing for keeps its own
      text as translation. */
  lemma TranslatedAtFallsBack(s: seq<Record>, batchSize: nat, reply: string -> seq<TranslationLine>, k: int)
    requires batchSize > 0 && 0 <= k < |s|
    requires forall j :: 0 <= j < |ChunkReply(s, batchSize, reply, k)| ==>
      var line := ChunkReply(s, batchSize, reply, k)[j]; !(line.Placed? && line.index == k - ChunkStart(k, batchSize))
    ensures TranslatedAt(s, batchSize, reply, k) == TextOf(s[k])
  {
    var texts := ChunkTexts(s, batchSize, k);
    var lines := reply(Prompt(texts));
    var p := k - ChunkStart(k, batchSize);
    assert lines == ChunkReply(s, batchSize, reply, k);
    TranslationsAligned(texts, lines, p);
    assert TranslatedAt(s, batchSize, reply, k) == Translations(texts, lines)[p] == texts[p];
  }

  /** The translation computed for the chunk that starts at `start` holds,
      at `k - start`, the translation the whole list assigns to position `k`. */
  lemma ChunkTranslation(s: seq<Record>, batchSize: nat, reply: string -> seq<TranslationLine>, start: nat, end: nat,
                         translations: seq<string>, k: int)
    requires batchSize > 0 && start <= k < end
    requires end == if start + batchSize < |s| then start + batchSize else |s|
    requires ChunkStart(k, batchSize) == start
    requires translations == Translations(TextsOf(s[start..end]), reply(Prompt(TextsOf(s[start..end]))))
    ensures translations[k - start] == TranslatedAt(s, batchSize, reply, k)
  {
    assert ChunkTexts(s, batchSize, k) == TextsOf(s[start..end]);
  }

  /** The `zip(sub, translations)` loop: positions `start` to `end - 1` get
      their translation, all others are left alone. */
  method WriteTranslations(messages: array<Record>, start: nat, end: nat, translations: seq<string>)
    requires start <= end <= messages.Length && |translations| == end - start
    modifies messages
    ensures forall k :: 0 <= k < messages.Length ==>
      messages[k] == if start <= k < end then old(messages[k]).(translatedText := Some(translations[k - start])) else old(messages[k])
  {
    var j := start;
    while j < end
      invariant start <= j <= end
      invariant forall k :: 0 <= k < messages.Length ==>
        messages[k] == if start <= k < j then old(messages[k]).(translatedText := Some(translations[k - start])) else old(messages[k])
    {
      messages[j] := messages[j].(translatedText := Some(translations[j - start]));
      j := j + 1;
    }
  }
}
