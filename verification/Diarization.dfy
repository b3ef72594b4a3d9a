/** What `transcribe_audio_file` (voicy_functions.py) makes of the speech
    service's answer: the choice of result and alternative, the grouping of
    recognised words into one line per speaker turn, and the fallbacks to
    the plain transcript or to a fixed message. The service itself (upload,
    long-running recognition, blob cleanup) and the duration probe are
    oracle inputs: a `TranscribeCall` says what they returned. */
module Diarization {
  import opened Basics

  /** One recognised word and the speaker tag the service attached to it, if any. */
  datatype WordInfo = WordInfo(word: string, speakerTag: Option<int>)
  datatype Alternative = Alternative(transcript: string, words: seq<WordInfo>)
  datatype SpeechResult = SpeechResult(alternatives: seq<Alternative>)
  datatype Response = Response(results: seq<SpeechResult>)

  /** What the long-running recognition call did: raised (upload, recognition
      or timeout) or answered. */
  datatype Recognition = RecognitionFailed(detail: string) | Recognized(response: Response)

  /** The external behaviour seen by one `transcribe_audio_file` call. The
      speech and storage clients are built before the function's `try`, so a
      failure there escapes to the caller (`SetupRaised`). Otherwise the
      duration probe yields minutes or nothing, and recognition runs. */
  datatype TranscribeCall =
    | SetupRaised(detail: string)
    | Ran(probedMinutes: Option<real>, recognition: Recognition)

  /** The outcome of `transcribe_audio_file`: an exception, or the pair
      `(dialogue_text, duration_minutes)`. */
  datatype Transcription = Raised(detail: string) | Returned(text: string, minutes: real)

  /** The value of `current_speaker_tag`: `None`, an integer tag, or the
      string "Неизвестный" it takes after an untagged word. */
  datatype Speaker = NoSpeaker | Tagged(tag: int) | Unknown

  const UNKNOWN_SPEAKER: string := "Неизвестный"
  const NO_SPEECH: string := "Не удалось распознать речь."
  const AUDIO_MISSING: string := "Ошибка: Исходный аудиофайл не найден для транскрипции."
  const TRANSCRIPTION_ERROR_PREFIX: string := "Ошибка транскрипции: "

  /** Python's `speaker_tag == current_speaker_tag`: `None` equals only `None`,
      an int equals only the same int, and nothing equals "Неизвестный". */
  predicate SameSpeaker(tag: Option<int>, s: Speaker) {
    match tag
    case None => s.NoSpeaker?
    case Some(n) => s == Tagged(n)
  }

  /** `speaker_tag if speaker_tag is not None else "Неизвестный"` */
  function SpeakerOf(tag: Option<int>): Speaker {
    match tag
    case None => Unknown
    case Some(n) => Tagged(n)
  }

  /** `f"{current_speaker_tag}"` */
  function LabelText(s: Speaker): string {
    match s
    case NoSpeaker => "None"
    case Tagged(n) => IntToString(n)
    case Unknown => UNKNOWN_SPEAKER
  }

  /** The label of the last line, where `None` is replaced by "Неизвестный". */
  function FinalLabelText(s: Speaker): string {
    if s.NoSpeaker? then UNKNOWN_SPEAKER else LabelText(s)
  }

  /** `f"Спикер {current_speaker_tag}: {current_line.strip()}"` */
  function RenderLine(speakerLabel: string, line: string): string {
    "Спикер " + speakerLabel + ": " + Strip(line)
  }

  /** The text `current_line` accumulates: every word followed by one space. */
  function Spoken(ws: seq<WordInfo>): (r: string)
    ensures ws != [] ==> r != []
  {
    if ws == [] then "" else Spoken(ws[..|ws| - 1]) + ws[|ws| - 1].word + " "
  }

  function TaggedCount(ws: seq<WordInfo>): nat {
    if ws == [] then 0
    else TaggedCount(ws[..|ws| - 1]) + (if ws[|ws| - 1].speakerTag.Some? then 1 else 0)
  }

  /** One dialogue line before rendering: its speaker and its words. */
  datatype Line = Line(speaker: Speaker, words: seq<WordInfo>)

  /** One step of the reference grouping: the word joins the last line when
      its tag equals that line's speaker, and otherwise opens a new line.
      Before the first word the speaker is `None`, so a leading untagged word
      opens a line whose speaker is `None`. */
  function Extend(prev: seq<Line>, w: WordInfo): (g: seq<Line>)
    ensures g != [] && g[|g| - 1].words != [] && g[|g| - 1].words[|g[|g| - 1].words| - 1] == w
  {
    if prev == [] then
      [Line(if SameSpeaker(w.speakerTag, NoSpeaker) then NoSpeaker else SpeakerOf(w.speakerTag), [w])]
    else
      var last := prev[|prev| - 1];
      if SameSpeaker(w.speakerTag, last.speaker) then
        prev[..|prev| - 1] + [Line(last.speaker, last.words + [w])]
      else
        prev + [Line(SpeakerOf(w.speakerTag), [w])]
  }

  /** The reference grouping of a word sequence into speaker lines. */
  function Group(ws: seq<WordInfo>): (g: seq<Line>)
    ensures (g == []) == (ws == [])
  {
    if ws == [] then [] else Extend(Group(ws[..|ws| - 1]), ws[|ws| - 1])
  }

  lemma GroupSnoc(ws: seq<WordInfo>, w: WordInfo)
    ensures Group(ws + [w]) == Extend(Group(ws), w)
  {
    assert (ws + [w])[..|ws|] == ws;
  }

  /** The words of all lines, in order. */
  function Flatten(g: seq<Line>): seq<WordInfo> {
    if g == [] then [] else Flatten(g[..|g| - 1]) + g[|g| - 1].words
  }

  /** The lines that are flushed on a speaker change, rendered. */
  function RenderedLines(g: seq<Line>): (r: seq<string>)
    ensures |r| == |g|
  {
    if g == [] then []
    else RenderedLines(g[..|g| - 1]) + [RenderLine(LabelText(g[|g| - 1].speaker), Spoken(g[|g| - 1].words))]
  }

  /** The `dialogue` list built by the word loop: every line but the last is
      flushed with its own label, the last one after the loop. */
  function Dialogue(ws: seq<WordInfo>): (d: seq<string>)
    ensures |d| == |Group(ws)|
  {
    var g := Group(ws);
    if g == [] then []
    else RenderedLines(g[..|g| - 1]) + [RenderLine(FinalLabelText(g[|g| - 1].speaker), Spoken(g[|g| - 1].words))]
  }

  /** The result-selection chain: only the first alternative of the last
      result is used; tagged words give the dialogue, words without any tag
      give the plain transcript, no words give the transcript when it is
      non-empty, and anything else gives a fixed message. */
  function SelectTranscript(r: Response): string {
    if r.results != [] && r.results[|r.results| - 1].alternatives != [] then
      var alt := r.results[|r.results| - 1].alternatives[0];
      if alt.words != [] then
        if Dialogue(alt.words) != [] && TaggedCount(alt.words) > 0 then JoinLines(Dialogue(alt.words))
        else alt.transcript
      else if alt.transcript != "" then alt.transcript
      else NO_SPEECH
    else NO_SPEECH
  }

  /** The whole of `transcribe_audio_file` as seen from its caller, given
      whether the converted audio file exists. */
  function Transcribe(call: TranscribeCall, audioExists: bool): Transcription {
    match call
    case SetupRaised(e) => Raised(e)
    case Ran(probed, recognition) =>
      if !audioExists then Returned(AUDIO_MISSING, 0.0)
      else
        var text := match recognition
          case RecognitionFailed(e) => TRANSCRIPTION_ERROR_PREFIX + e
          case Recognized(resp) => SelectTranscript(resp);
        Returned(text, probed.GetOr(0.0))
  }

  /** The loop state after some words: `current` and `current_line` are the
      speaker and the text of the last line so far, and `dialogue` holds the
      lines before it. */
  predicate Tracks(g: seq<Line>, dialogue: seq<string>, current: Speaker, currentLine: string) {
    if g == [] then current == NoSpeaker && currentLine == "" && dialogue == []
    else
      && g[|g| - 1].words != []
      && current == g[|g| - 1].speaker
      && currentLine == Spoken(g[|g| - 1].words)
      && dialogue == RenderedLines(g[..|g| - 1])
  }

  /** The word loop: walks the words once, keeping the current speaker and
      line, and flushes a line at every speaker change. */
  method BuildDialogue(words: seq<WordInfo>) returns (dialogue: seq<string>, taggedCount: nat)
    ensures dialogue == Dialogue(words)
    ensures taggedCount == TaggedCount(words)
  {
    dialogue := [];
    var current: Speaker := NoSpeaker;
    var currentLine: string := "";
    taggedCount := 0;
    ghost var g: seq<Line> := [];
    var i := 0;
    while i < |words|
      invariant 0 <= i <= |words|
      invariant g == Group(words[..i])
      invariant taggedCount == TaggedCount(words[..i])
      invariant Tracks(g, dialogue, current, currentLine)
    {
      var w := words[i];
      PrefixStep(words, i);
      if w.speakerTag.Some? {
        taggedCount := taggedCount + 1;
      }
      dialogue, current, currentLine := AddWord(g, dialogue, current, currentLine, w);
      g := Extend(g, w);
      i := i + 1;
    }
    assert words[..i] == words;
    TracksFinal(words, dialogue, current, currentLine);
    if currentLine != "" {
      dialogue := dialogue + [RenderLine(FinalLabelText(current), currentLine)];
    }
  }

  /** One pass of the word loop: a word of another speaker flushes the
      current line (when there is one) and opens a new line; a word of the
      current speaker is added to the current line. */
  method AddWord(ghost g: seq<Line>, dialogue: seq<string>, current: Speaker, currentLine: string, w: WordInfo)
    returns (dialogue': seq<string>, current': Speaker, currentLine': string)
    requires Tracks(g, dialogue, current, currentLine)
    ensures Tracks(Extend(g, w), dialogue', current', currentLine')
  {
    dialogue', current', currentLine' := dialogue, current, currentLine;
    if !SameSpeaker(w.speakerTag, current) {
      if currentLine != "" {
        TracksFlush(g, dialogue, current, currentLine, w);
        dialogue' := dialogue + [RenderLine(LabelText(current), currentLine)];
      } else {
        TracksFirst(g, dialogue, current, currentLine, w);
      }
      current' := SpeakerOf(w.speakerTag);
      currentLine' := w.word + " ";
    } else {
      TracksJoin(g, dialogue, current, currentLine, w);
      currentLine' := currentLine + w.word + " ";
    }
  }

  /** After the last word, flushing the current line (if any) gives the dialogue. */
  lemma TracksFinal(words: seq<WordInfo>, dialogue: seq<string>, current: Speaker, currentLine: string)
    requires Tracks(Group(words), dialogue, current, currentLine)
    ensures Dialogue(words) == if currentLine != "" then dialogue + [RenderLine(FinalLabelText(current), currentLine)] else dialogue
  {
  }

  /** Moving the loop index one word further is one grouping step. */
  lemma PrefixStep(words: seq<WordInfo>, i: nat)
    requires i < |words|
    ensures Group(words[..i + 1]) == Extend(Group(words[..i]), words[i])
    ensures TaggedCount(words[..i + 1]) == TaggedCount(words[..i]) + (if words[i].speakerTag.Some? then 1 else 0)
  {
    assert words[..i + 1][..i] == words[..i];
    assert words[..i + 1] == words[..i] + [words[i]];
    GroupSnoc(words[..i], words[i]);
  }

  /** A word of another speaker flushes the current line and opens its own. */
  lemma TracksFlush(g: seq<Line>, dialogue: seq<string>, current: Speaker, currentLine: string, w: WordInfo)
    requires Tracks(g, dialogue, current, currentLine)
    requires !SameSpeaker(w.speakerTag, current) && currentLine != ""
    ensures Tracks(Extend(g, w), dialogue + [RenderLine(LabelText(current), currentLine)], SpeakerOf(w.speakerTag), w.word + " ")
  {
    assert g != [];
    var l := Line(SpeakerOf(w.speakerTag), [w]);
    assert Extend(g, w) == g + [l];
    assert (g + [l])[..|g|] == g;
    RenderedLinesSnoc(g);
    SpokenOne(w);
  }

  lemma SpokenOne(w: WordInfo)
    ensures Spoken([w]) == w.word + " "
  {
    assert [w][..0] == [];
    assert "" + w.word == w.word;
  }

  /** A tagged first word opens the first line; nothing is flushed. */
  lemma TracksFirst(g: seq<Line>, dialogue: seq<string>, current: Speaker, currentLine: string, w: WordInfo)
    requires Tracks(g, dialogue, current, currentLine)
    requires !SameSpeaker(w.speakerTag, current) && currentLine == ""
    ensures Tracks(Extend(g, w), dialogue, SpeakerOf(w.speakerTag), w.word + " ")
  {
    SpokenSnoc([], w);
    assert [] + [w] == [w];
  }

  /** A word of the current speaker (or an untagged first word) joins the current line. */
  lemma TracksJoin(g: seq<Line>, dialogue: seq<string>, current: Speaker, currentLine: string, w: WordInfo)
    requires Tracks(g, dialogue, current, currentLine)
    requires SameSpeaker(w.speakerTag, current)
    ensures Tracks(Extend(g, w), dialogue, current, currentLine + w.word + " ")
  {
    if g != [] {
      SpokenSnoc(g[|g| - 1].words, w);
      assert Extend(g, w)[..|g| - 1] == g[..|g| - 1];
    } else {
      SpokenSnoc([], w);
      assert [] + [w] == [w];
    }
  }

  /** Appending one word adds its text and a space to the line. */
  lemma SpokenSnoc(ws: seq<WordInfo>, w: WordInfo)
    ensures Spoken(ws + [w]) == Spoken(ws) + w.word + " "
  {
    assert (ws + [w])[..|ws|] == ws;
  }

  /** Rendering a non-empty line list renders the last line after the others. */
  lemma RenderedLinesSnoc(g: seq<Line>)
    requires g != []
    ensures RenderedLines(g) == RenderedLines(g[..|g| - 1]) + [RenderLine(LabelText(g[|g| - 1].speaker), Spoken(g[|g| - 1].words))]
  {
  }

  /** `transcribe_audio_file` with its external calls replaced by `call`. */
  method TranscribeAudioFile(call: TranscribeCall, audioExists: bool) returns (t: Transcription)
    ensures t == Transcribe(call, audioExists)
  {
    if call.SetupRaised? {
      return Raised(call.detail);
    }
    var minutes: real := 0.0;
    if audioExists && call.probedMinutes.Some? {
      minutes := call.probedMinutes.value;
    }
    if !audioExists {
      return Returned(AUDIO_MISSING, minutes);
    }
    match call.recognition
    case RecognitionFailed(e) =>
      t := Returned(TRANSCRIPTION_ERROR_PREFIX + e, minutes);
    case Recognized(resp) =>
      var text := NO_SPEECH;
      if resp.results != [] {
        var final := resp.results[|resp.results| - 1];
        if final.alternatives != [] {
          var alt := final.alternatives[0];
          if alt.words != [] {
            var dialogue, tagged := BuildDialogue(alt.words);
            if dialogue != [] && tagged > 0 {
              text := JoinLines(dialogue);
            } else {
              text := alt.transcript;
            }
          } else if alt.transcript != "" {
            text := alt.transcript;
          }
        }
      }
      t := Returned(text, minutes);
  }

  // ---------------------------------------------------------------------
  // Properties of the grouping

  /** Where a line may stand and what its words carry: a tagged line holds
      only words with that tag; an "unknown" line is a single untagged word
      and never the first line; a `None` line is only the first line and holds
      only untagged words. */
  predicate LineFits(l: Line, k: int) {
    match l.speaker
    case NoSpeaker => k == 0 && forall w | w in l.words :: w.speakerTag.None?
    case Tagged(n) => forall w | w in l.words :: w.speakerTag == Some(n)
    case Unknown => k > 0 && |l.words| == 1 && l.words[0].speakerTag.None?
  }

  /** Every line is non-empty and fits its place, and every line after the
      first starts with a word whose tag differs from the previous speaker. */
  predicate WellGrouped(g: seq<Line>) {
    && (forall k | 0 <= k < |g| :: g[k].words != [] && LineFits(g[k], k))
    && (forall k | 0 <= k < |g| - 1 :: !SameSpeaker(g[k + 1].words[0].speakerTag, g[k].speaker))
  }

  lemma FlattenSnoc(g: seq<Line>, l: Line)
    ensures Flatten(g + [l]) == Flatten(g) + l.words
  {
    assert (g + [l])[..|g|] == g;
  }

  /** `WellGrouped` checked one line at a time, from the end. */
  lemma WellGroupedSnoc(g: seq<Line>, l: Line)
    ensures WellGrouped(g + [l]) <==>
      && WellGrouped(g)
      && l.words != [] && LineFits(l, |g|)
      && (g != [] ==> !SameSpeaker(l.words[0].speakerTag, g[|g| - 1].speaker))
  {
    var g' := g + [l];
    assert forall k | 0 <= k < |g| :: g'[k] == g[k];
    assert g'[|g|] == l;
    if WellGrouped(g') {
      assert l.words != [] && LineFits(l, |g|);
      if g != [] {
        assert !SameSpeaker(g'[|g|].words[0].speakerTag, g'[|g| - 1].speaker);
      }
    }
  }

  lemma ExtendFlatten(prev: seq<Line>, w: WordInfo)
    ensures Flatten(Extend(prev, w)) == Flatten(prev) + [w]
  {
    if prev == [] {
      FlattenSnoc([], Extend(prev, w)[0]);
      assert Extend(prev, w) == [] + [Extend(prev, w)[0]];
    } else {
      var init, last := prev[..|prev| - 1], prev[|prev| - 1];
      assert prev == init + [last];
      FlattenSnoc(init, last);
      if SameSpeaker(w.speakerTag, last.speaker) {
        FlattenSnoc(init, Line(last.speaker, last.words + [w]));
      } else {
        FlattenSnoc(prev, Line(SpeakerOf(w.speakerTag), [w]));
      }
    }
  }

  /** One grouping step keeps the shape and appends exactly the new word. */
  lemma ExtendKeepsShape(prev: seq<Line>, w: WordInfo)
    requires WellGrouped(prev)
    ensures WellGrouped(Extend(prev, w))
    ensures Flatten(Extend(prev, w)) == Flatten(prev) + [w]
  {
    ExtendFlatten(prev, w);
    if prev == [] {
      var l := Extend(prev, w)[0];
      assert Extend(prev, w) == [] + [l];
      assert LineFits(l, 0);
      WellGroupedSnoc([], l);
    } else {
      var init, last := prev[..|prev| - 1], prev[|prev| - 1];
      assert prev == init + [last];
      if SameSpeaker(w.speakerTag, last.speaker) {
        ExtendJoinShape(init, last, w);
        assert Extend(prev, w) == init + [Line(last.speaker, last.words + [w])];
      } else {
        ExtendNewShape(prev, w);
      }
    }
  }

  /** A word of the last line's speaker joins that line and keeps the shape. */
  lemma ExtendJoinShape(init: seq<Line>, last: Line, w: WordInfo)
    requires WellGrouped(init + [last]) && SameSpeaker(w.speakerTag, last.speaker)
    ensures WellGrouped(init + [Line(last.speaker, last.words + [w])])
  {
    WellGroupedSnoc(init, last);
    var l' := Line(last.speaker, last.words + [w]);
    assert (last.words + [w])[0] == last.words[0];
    assert LineFits(l', |init|);
    WellGroupedSnoc(init, l');
  }

  /** A word of another speaker opens a new line and keeps the shape. */
  lemma ExtendNewShape(prev: seq<Line>, w: WordInfo)
    requires WellGrouped(prev) && prev != [] && !SameSpeaker(w.speakerTag, prev[|prev| - 1].speaker)
    ensures WellGrouped(Extend(prev, w))
  {
    var l := Line(SpeakerOf(w.speakerTag), [w]);
    assert Extend(prev, w) == prev + [l];
    assert LineFits(l, |prev|);
    WellGroupedSnoc(prev, l);
  }

  /** The grouping has the shape `WellGrouped` describes, and concatenating
      the words of all its lines, in order, gives back the input words. */
  lemma {:induction false} GroupShape(ws: seq<WordInfo>)
    ensures WellGrouped(Group(ws))
    ensures Flatten(Group(ws)) == ws
    decreases |ws|
  {
    if ws != [] {
      var pre, last := ws[..|ws| - 1], ws[|ws| - 1];
      GroupShape(pre);
      assert Group(ws) == Extend(Group(pre), last);
      ExtendKeepsShape(Group(pre), last);
      assert pre + [last] == ws;
    }
  }

  /** A non-empty well-grouped split is one grouping step after a shorter one. */
  lemma PeelLast(g: seq<Line>) returns (g': seq<Line>, w: WordInfo)
    requires WellGrouped(g) && g != []
    ensures WellGrouped(g')
    ensures Extend(g', w) == g
    ensures Flatten(g) == Flatten(g') + [w]
  {
    var init, l := g[..|g| - 1], g[|g| - 1];
    assert g == init + [l];
    WellGroupedSnoc(init, l);
    w := l.words[|l.words| - 1];
    if |l.words| == 1 {
      g' := init;
      PeelSingle(init, l, w);
    } else {
      var l' := Line(l.speaker, l.words[..|l.words| - 1]);
      g' := init + [l'];
      PeelMany(init, l, l', w);
    }
    ExtendFlatten(g', w);
  }

  /** A last line of one word is opened by that word. */
  lemma PeelSingle(init: seq<Line>, l: Line, w: WordInfo)
    requires WellGrouped(init + [l]) && l.words == [w]
    ensures WellGrouped(init) && Extend(init, w) == init + [l]
  {
    WellGroupedSnoc(init, l);
    assert LineFits(l, |init|);
    if init != [] {
      assert !SameSpeaker(w.speakerTag, init[|init| - 1].speaker);
    }
  }

  /** A last line of several words is its shorter self joined by its last word. */
  lemma PeelMany(init: seq<Line>, l: Line, l': Line, w: WordInfo)
    requires WellGrouped(init + [l])
    requires |l.words| > 1 && l' == Line(l.speaker, l.words[..|l.words| - 1]) && l.words == l'.words + [w]
    ensures WellGrouped(init + [l']) && Extend(init + [l'], w) == init + [l]
  {
    PeelLastLine(init, l, l', w);
    var g' := init + [l'];
    assert g'[..|g'| - 1] == init && g'[|g'| - 1] == l';
    assert Line(l.speaker, l'.words + [w]) == l;
  }

  /** Dropping the last word of a line of two or more words keeps it fitting,
      and the dropped word has the line's speaker. */
  lemma PeelLastLine(init: seq<Line>, l: Line, l': Line, w: WordInfo)
    requires WellGrouped(init + [l])
    requires |l.words| > 1 && l' == Line(l.speaker, l.words[..|l.words| - 1]) && l.words == l'.words + [w]
    ensures WellGrouped(init + [l'])
    ensures SameSpeaker(w.speakerTag, l.speaker)
  {
    WellGroupedSnoc(init, l);
    assert w in l.words;
    assert forall v | v in l'.words :: v in l.words;
    assert l'.words[0] == l.words[0];
    WellGroupedSnoc(init, l');
  }

  /** `WellGrouped` together with `Flatten` pins the grouping down: any
      well-grouped split of the words is the one `Group` computes. */
  lemma {:induction false} GroupUnique(g: seq<Line>, ws: seq<WordInfo>)
    requires WellGrouped(g) && Flatten(g) == ws
    ensures g == Group(ws)
    decreases |ws|
  {
    if g != [] {
      var g', w := PeelLast(g);
      GroupUnique(g', Flatten(g'));
      GroupSnoc(Flatten(g'), w);
    }
  }

  /** Where the grouping puts each line: an "unknown" line is a single
      untagged word and never the first line, and a tagged line holds only
      words with that tag. */
  lemma LinesFit(ws: seq<WordInfo>, k: nat)
    requires k < |Group(ws)|
    ensures Group(ws)[k].speaker == Unknown ==> |Group(ws)[k].words| == 1 && k > 0
    ensures Group(ws)[k].speaker.Tagged? ==>
      forall w | w in Group(ws)[k].words :: w.speakerTag == Some(Group(ws)[k].speaker.tag)
  {
    GroupShape(ws);
    assert LineFits(Group(ws)[k], k);
  }

  /** Every untagged word after a tagged word gets a line of its own under
      "Неизвестный". */
  lemma {:induction false} UntaggedAfterTagged(ws: seq<WordInfo>, i: nat, j: nat)
    requires i < j < |ws| && ws[i].speakerTag.Some? && ws[j].speakerTag.None?
    ensures Line(Unknown, [ws[j]]) in Group(ws)
    decreases |ws|
  {
    var pre, w := ws[..|ws| - 1], ws[|ws| - 1];
    var prev := Group(pre);
    assert ws == pre + [w];
    GroupSnoc(pre, w);
    assert pre[i] == ws[i];
    if j == |ws| - 1 {
      LastNotNoSpeaker(pre, i);
      assert Extend(prev, w) == prev + [Line(Unknown, [w])];
    } else {
      assert pre[j] == ws[j];
      UntaggedAfterTagged(pre, i, j);
      UnknownLineKept(prev, Line(Unknown, [ws[j]]), w);
    }
  }

  /** An "unknown" line is never joined, so one more word keeps it. */
  lemma UnknownLineKept(prev: seq<Line>, l: Line, w: WordInfo)
    requires l in prev && l.speaker == Unknown
    ensures l in Extend(prev, w)
  {
    var k :| 0 <= k < |prev| && prev[k] == l;
    var last := prev[|prev| - 1];
    if SameSpeaker(w.speakerTag, last.speaker) {
      assert k < |prev| - 1;
      assert Extend(prev, w)[k] == l;
    } else {
      assert Extend(prev, w)[k] == l;
    }
  }

  /** Once a tagged word has been seen, the current speaker is never `None` again. */
  lemma {:induction false} LastNotNoSpeaker(ws: seq<WordInfo>, i: nat)
    requires i < |ws| && ws[i].speakerTag.Some?
    ensures Group(ws) != [] && Group(ws)[|Group(ws)| - 1].speaker != NoSpeaker
    decreases |ws|
  {
    var pre, w := ws[..|ws| - 1], ws[|ws| - 1];
    assert ws == pre + [w];
    GroupSnoc(pre, w);
    if i < |ws| - 1 {
      assert pre[i] == ws[i];
      LastNotNoSpeaker(pre, i);
    }
  }

  /** Untagged words in front of the first tagged word are emitted under the
      label "None" (Python's `f"{None}"`). */
  lemma {:induction false} LeadingUntaggedUnderNone(ws: seq<WordInfo>)
    requires ws != [] && ws[0].speakerTag.None?
    requires TaggedCount(ws) > 0
    ensures |Dialogue(ws)| >= 2
    ensures Group(ws)[0].speaker == NoSpeaker
    ensures Dialogue(ws)[0] == RenderLine("None", Spoken(Group(ws)[0].words))
  {
    LeadingLineNone(ws);
    DialogueHead(ws);
  }

  /** The first line of such words has speaker `None` and is not the last. */
  lemma LeadingLineNone(ws: seq<WordInfo>)
    requires ws != [] && ws[0].speakerTag.None?
    requires TaggedCount(ws) > 0
    ensures |Group(ws)| >= 2 && Group(ws)[0].speaker == NoSpeaker
  {
    FirstSpeakerNone(ws);
    var i := TaggedWord(ws);
    LastNotNoSpeaker(ws, i);
  }

  /** A leading untagged word leaves the first line under `None`. */
  lemma {:induction false} FirstSpeakerNone(ws: seq<WordInfo>)
    requires ws != [] && ws[0].speakerTag.None?
    ensures Group(ws)[0].speaker == NoSpeaker
    decreases |ws|
  {
    var pre, w := ws[..|ws| - 1], ws[|ws| - 1];
    assert ws == pre + [w];
    GroupSnoc(pre, w);
    if pre == [] {
      assert Extend([], w) == [Line(NoSpeaker, [w])];
    } else {
      assert pre[0] == ws[0];
      FirstSpeakerNone(pre);
      ExtendKeepsFirstSpeaker(Group(pre), w);
    }
  }

  /** A grouping step never changes the speaker of the first line. */
  lemma ExtendKeepsFirstSpeaker(prev: seq<Line>, w: WordInfo)
    requires prev != []
    ensures Extend(prev, w)[0].speaker == prev[0].speaker
  {
  }

  /** A positive tag count points at a tagged word. */
  lemma {:induction false} TaggedWord(ws: seq<WordInfo>) returns (i: nat)
    requires TaggedCount(ws) > 0
    ensures i < |ws| && ws[i].speakerTag.Some?
    decreases |ws|
  {
    var pre := ws[..|ws| - 1];
    if ws[|ws| - 1].speakerTag.Some? {
      i := |ws| - 1;
    } else {
      i := TaggedWord(pre);
      assert ws[i] == pre[i];
    }
  }

  /** With two lines or more, the first dialogue line is the first line
      rendered with its own label. */
  lemma DialogueHead(ws: seq<WordInfo>)
    requires |Group(ws)| >= 2
    ensures Dialogue(ws)[0] == RenderLine(LabelText(Group(ws)[0].speaker), Spoken(Group(ws)[0].words))
  {
    var g, d := DialogueUnfold(ws);
    DialogueHeadOf(g);
  }

  /** With two lines or more, the lines rendered as the loop does start with
      the first line under its own label. */
  lemma DialogueHeadOf(g: seq<Line>)
    requires |g| >= 2
    ensures (RenderedLines(g[..|g| - 1]) + [FinalLine(g)])[0] == RenderLine(LabelText(g[0].speaker), Spoken(g[0].words))
  {
    var init := g[..|g| - 1];
    RenderedLinesAt(init, 0);
    PrefixHead(g);
    SnocHead(RenderedLines(init), FinalLine(g), RenderedLines(init) + [FinalLine(g)]);
  }

  /** The last line, rendered as after the loop. */
  function FinalLine(g: seq<Line>): string
    requires g != []
  {
    RenderLine(FinalLabelText(g[|g| - 1].speaker), Spoken(g[|g| - 1].words))
  }

  lemma DialogueUnfold(ws: seq<WordInfo>) returns (g: seq<Line>, d: seq<string>)
    requires Group(ws) != []
    ensures g == Group(ws) && d == Dialogue(ws)
    ensures g != [] && d == RenderedLines(g[..|g| - 1]) + [FinalLine(g)]
  {
    g, d := Group(ws), Dialogue(ws);
  }

  lemma PrefixHead(g: seq<Line>)
    requires |g| >= 2
    ensures g[..|g| - 1][0] == g[0]
  {
  }

  lemma SnocHead<T>(xs: seq<T>, x: T, ys: seq<T>)
    requires xs != [] && ys == xs + [x]
    ensures ys[0] == xs[0]
  {
  }

  lemma AllUntaggedCount(ws: seq<WordInfo>)
    requires forall w | w in ws :: w.speakerTag.None?
    ensures TaggedCount(ws) == 0
    decreases |ws|
  {
    if ws != [] {
      AllUntaggedCount(ws[..|ws| - 1]);
    }
  }

  lemma RenderedLinesAt(g: seq<Line>, k: nat)
    requires k < |g|
    ensures RenderedLines(g)[k] == RenderLine(LabelText(g[k].speaker), Spoken(g[k].words))
    decreases |g|
  {
    if k < |g| - 1 {
      RenderedLinesAt(g[..|g| - 1], k);
    }
  }

  // ---------------------------------------------------------------------
  // Properties of the result selection

  /** Words without a single speaker tag fall back to the plain transcript;
      at least one tag gives the "\n"-joined dialogue, one line per group. */
  lemma DiarizationFallback(alt: Alternative, r: Response)
    requires r.results != [] && r.results[|r.results| - 1].alternatives != []
    requires alt == r.results[|r.results| - 1].alternatives[0]
    requires alt.words != []
    ensures TaggedCount(alt.words) == 0 ==> SelectTranscript(r) == alt.transcript
    ensures TaggedCount(alt.words) > 0 ==>
      SelectTranscript(r) == JoinLines(Dialogue(alt.words)) && |Dialogue(alt.words)| == |Group(alt.words)| > 0
  {
  }

  /** Without words the transcript is used when non-empty, and the fixed
      "no speech" message otherwise; so is an empty response. */
  lemma NoWordsFallback(r: Response)
    ensures r.results == [] ==> SelectTranscript(r) == NO_SPEECH
    ensures r.results != [] && r.results[|r.results| - 1].alternatives == [] ==> SelectTranscript(r) == NO_SPEECH
    ensures (r.results != [] && r.results[|r.results| - 1].alternatives != []
             && r.results[|r.results| - 1].alternatives[0].words == []) ==>
      SelectTranscript(r) == (if r.results[|r.results| - 1].alternatives[0].transcript != ""
                              then r.results[|r.results| - 1].alternatives[0].transcript else NO_SPEECH)
  {
  }

  /** Only the last result's first alternative matters: earlier results and
      later alternatives are ignored. */
  lemma OnlyLastResultCounts(earlier: seq<SpeechResult>, final: SpeechResult, other: SpeechResult)
    requires final.alternatives != [] && other.alternatives != []
    requires other.alternatives[0] == final.alternatives[0]
    ensures SelectTranscript(Response(earlier + [final])) == SelectTranscript(Response([other]))
  {
  }

  /** A word whose text neither starts nor ends with whitespace. */
  predicate Plain(w: WordInfo) {
    w.word != [] && !IsSpace(w.word[0]) && !IsSpace(w.word[|w.word| - 1])
  }

  /** Two words of one speaker followed by a word of another give two lines,
      "Спикер <n1>: <x> <y>" and "Спикер <n2>: <z>", joined by a newline;
      for instance hi(1) there(1) bye(2) gives "Спикер 1: hi there\nСпикер 2: bye". */
  lemma TwoSpeakersExample(x: WordInfo, y: WordInfo, z: WordInfo, n1: int, n2: int, transcript: string)
    requires x.speakerTag == Some(n1) && y.speakerTag == Some(n1) && z.speakerTag == Some(n2) && n1 != n2
    requires Plain(x) && Plain(y) && Plain(z)
    ensures SelectTranscript(Response([SpeechResult([Alternative(transcript, [x, y, z])])]))
      == ("Спикер " + IntToString(n1) + ": " + (x.word + " " + y.word)) + "\n" + ("Спикер " + IntToString(n2) + ": " + z.word)
  {
    var ws := [x, y, z];
    ExampleDialogue(x, y, z, n1, n2, ws);
    ExampleSelected(transcript, ws);
    ExampleJoin(Dialogue(ws));
  }

  /** Three words, the last one tagged, are rendered as a dialogue. */
  lemma ExampleSelected(transcript: string, ws: seq<WordInfo>)
    requires |ws| == 3 && ws[2].speakerTag.Some?
    ensures SelectTranscript(Response([SpeechResult([Alternative(transcript, ws)])])) == JoinLines(Dialogue(ws))
  {
    assert TaggedCount(ws) == TaggedCount(ws[..2]) + 1;
    DiarizationFallback(Alternative(transcript, ws), Response([SpeechResult([Alternative(transcript, ws)])]));
  }

  lemma ExampleJoin(lines: seq<string>)
    requires |lines| == 2
    ensures JoinLines(lines) == lines[0] + "\n" + lines[1]
  {
    assert lines[..1] == [lines[0]];
  }

  lemma ExampleDialogue(x: WordInfo, y: WordInfo, z: WordInfo, n1: int, n2: int, ws: seq<WordInfo>)
    requires x.speakerTag == Some(n1) && y.speakerTag == Some(n1) && z.speakerTag == Some(n2) && n1 != n2
    requires Plain(x) && Plain(y) && Plain(z)
    requires ws == [x, y, z]
    ensures Dialogue(ws) == ["Спикер " + IntToString(n1) + ": " + (x.word + " " + y.word), "Спикер " + IntToString(n2) + ": " + z.word]
  {
    ExampleLines(x, y, z, n1, n2, ws);
    ExampleFirstLine(x, y, LabelText(Tagged(n1)));
    ExampleLastLine(z, FinalLabelText(Tagged(n2)));
  }

  /** The dialogue of the two-speaker example, before rendering. */
  lemma ExampleLines(x: WordInfo, y: WordInfo, z: WordInfo, n1: int, n2: int, ws: seq<WordInfo>)
    requires x.speakerTag == Some(n1) && y.speakerTag == Some(n1) && z.speakerTag == Some(n2) && n1 != n2
    requires ws == [x, y, z]
    ensures Dialogue(ws) == [RenderLine(LabelText(Tagged(n1)), Spoken([x, y])), RenderLine(FinalLabelText(Tagged(n2)), Spoken([z]))]
  {
    ExampleGrouping(x, y, z, n1, n2);
    var l1 := Line(Tagged(n1), [x, y]);
    var l2 := Line(Tagged(n2), [z]);
    assert [l1, l2][..1] == [l1];
    assert [l1][..0] == [];
  }

  lemma ExampleFirstLine(x: WordInfo, y: WordInfo, speakerLabel: string)
    requires Plain(x) && Plain(y)
    ensures RenderLine(speakerLabel, Spoken([x, y])) == "Спикер " + speakerLabel + ": " + (x.word + " " + y.word)
  {
    SpokenPair(x, y);
    var t := x.word + " " + y.word;
    assert t[0] == x.word[0] && t[|t| - 1] == y.word[|y.word| - 1];
    RenderTrailingSpace(speakerLabel, t);
  }

  lemma ExampleLastLine(z: WordInfo, speakerLabel: string)
    requires Plain(z)
    ensures RenderLine(speakerLabel, Spoken([z])) == "Спикер " + speakerLabel + ": " + z.word
  {
    assert Spoken([z]) == z.word + " " by {
      assert [z][..0] == [];
      assert "" + z.word == z.word;
    }
    RenderTrailingSpace(speakerLabel, z.word);
  }

  lemma ExampleGrouping(x: WordInfo, y: WordInfo, z: WordInfo, n1: int, n2: int)
    requires x.speakerTag == Some(n1) && y.speakerTag == Some(n1) && z.speakerTag == Some(n2) && n1 != n2
    ensures Group([x, y, z]) == [Line(Tagged(n1), [x, y]), Line(Tagged(n2), [z])]
  {
    GroupSnoc([], x);
    GroupSnoc([x], y);
    GroupSnoc([x, y], z);
    assert [] + [x] == [x] && [x] + [y] == [x, y] && [x, y] + [z] == [x, y, z];
  }

  lemma SpokenPair(x: WordInfo, y: WordInfo)
    ensures Spoken([x, y]) == (x.word + " " + y.word) + " "
  {
    assert [x, y][..1] == [x] && [x][..0] == [];
    assert Spoken([x]) == x.word + " " by {
      assert "" + x.word == x.word;
    }
    assert Spoken([x, y]) == x.word + " " + y.word + " ";
  }

  /** A line whose words neither start nor end with whitespace is rendered
      without the trailing space the word loop adds. */
  lemma RenderTrailingSpace(speakerLabel: string, text: string)
    requires text != [] && !IsSpace(text[0]) && !IsSpace(text[|text| - 1])
    ensures RenderLine(speakerLabel, text + " ") == "Спикер " + speakerLabel + ": " + text
  {
    StripTrailingSpace(text);
  }
}
