/** `transcription_service`: parsing YouTube's JSON3 captions into timed segments, folding
    segments into chunks of about thirty seconds that end at sentence ends, the Whisper fallback's
    segment mapping and size guard, and the choice between the two sources. Downloads, temporary
    files and the Whisper request are not modelled: what they produce is an input. */
module Transcription {
  import opened Wrappers
  import opened Text
  import opened Seqs

  /** A `{start_time, end_time, text}` dict, in seconds: a caption or Whisper segment, or a
      merged chunk. */
  datatype Chunk = Chunk(startTime: real, endTime: real, text: string)

  function TextOf(c: Chunk): string {
    c.text
  }

  function Texts(cs: seq<Chunk>): seq<string> {
    Map(cs, TextOf)
  }

  // ---- JSON3 captions ----

  /** A piece of an event's `segs` list; `utf8` is `None` when the key is missing. */
  datatype Json3Seg = Json3Seg(utf8: Option<string>)

  /** One caption event; each field is `None` when its key is missing. */
  datatype Json3Event = Json3Event(segs: Option<seq<Json3Seg>>, tStartMs: Option<int>, dDurationMs: Option<int>)

  /** The caption document; `events` is `None` when the key is missing. */
  datatype Json3Doc = Json3Doc(events: Option<seq<Json3Event>>)

  /** The text parts an event keeps: each piece's `utf8` (default `""`) stripped, when the
      result is neither empty nor a newline, in order. */
  function TextParts(segs: seq<Json3Seg>): seq<string> {
    if |segs| == 0 then []
    else
      var text := Strip(segs[|segs| - 1].utf8.GetOr(""));
      TextParts(segs[..|segs| - 1]) + (if text != "" && text != "\n" then [text] else [])
  }

  /** Every kept part is stripped and non-empty. */
  lemma {:induction false} TextPartsSpec(segs: seq<Json3Seg>)
    ensures forall k :: 0 <= k < |TextParts(segs)| ==> TextParts(segs)[k] != "" && Stripped(TextParts(segs)[k])
  {
    if |segs| > 0 {
      TextPartsSpec(segs[..|segs| - 1]);
      StripSpec(segs[|segs| - 1].utf8.GetOr(""));
    }
  }

  /** A JSON3 time in milliseconds, in seconds. */
  function MsToSeconds(ms: int): real {
    ms as real / 1000.0
  }

  /** The segment an event contributes, if any: one exactly when it has a `segs` list with a
      kept part, spanning `tStartMs` to `tStartMs + dDurationMs` (each 0 when missing). */
  function EventSegment(event: Json3Event): (r: Option<Chunk>)
    ensures r.Some? <==> event.segs.Some? && TextParts(event.segs.value) != []
  {
    if event.segs.None? then None
    else
      var parts := TextParts(event.segs.value);
      if parts == [] then None
      else
        var startMs := event.tStartMs.GetOr(0);
        var durationMs := event.dDurationMs.GetOr(0);
        Some(Chunk(MsToSeconds(startMs), MsToSeconds(startMs + durationMs), Join(parts, " ")))
  }

  /** The segments of a list of events, in event order. */
  function Json3Segments(events: seq<Json3Event>): seq<Chunk> {
    if |events| == 0 then []
    else
      var last := EventSegment(events[|events| - 1]);
      Json3Segments(events[..|events| - 1]) + (if last.Some? then [last.value] else [])
  }

  /** What `_parse_json3_captions` returns: `None` when no event yields a segment, otherwise
      the merged chunks. */
  function Json3Captions(data: Json3Doc): Option<seq<Chunk>> {
    var segments := Json3Segments(data.events.GetOr([]));
    if segments == [] then None else Some(Merge(segments))
  }

  /** Joining stripped, non-empty parts with single spaces gives stripped, non-empty text. */
  lemma {:induction false} JoinStripped(parts: seq<string>)
    requires |parts| > 0
    requires forall k :: 0 <= k < |parts| ==> parts[k] != "" && Stripped(parts[k])
    ensures Join(parts, " ") != "" && Stripped(Join(parts, " "))
  {
    if |parts| > 1 {
      JoinStripped(parts[1..]);
      var rest := Join(parts[1..], " ");
      var j := parts[0] + " " + rest;
      assert j[0] == parts[0][0];
      assert j[|j| - 1] == rest[|rest| - 1];
    }
  }

  /** Every parsed segment carries stripped, non-empty text, and there is none exactly when no
      event has a `segs` list with a non-blank piece. */
  lemma {:induction false} Json3SegmentsSpec(events: seq<Json3Event>)
    ensures forall k :: 0 <= k < |Json3Segments(events)| ==>
      Json3Segments(events)[k].text != "" && Stripped(Json3Segments(events)[k].text)
    ensures Json3Segments(events) == [] <==> forall e :: 0 <= e < |events| ==> EventSegment(events[e]).None?
    ensures |Json3Segments(events)| <= |events|
  {
    if |events| > 0 {
      var init := events[..|events| - 1];
      Json3SegmentsSpec(init);
      var last := EventSegment(events[|events| - 1]);
      if last.Some? {
        TextPartsSpec(events[|events| - 1].segs.value);
        JoinStripped(TextParts(events[|events| - 1].segs.value));
      }
      assert forall e :: 0 <= e < |init| ==> init[e] == events[e];
    }
  }

  /** The inner loop of `_parse_json3_captions` over one event's pieces. */
  method KeptTextParts(segs: seq<Json3Seg>) returns (textParts: seq<string>)
    ensures textParts == TextParts(segs)
  {
    textParts := [];
    var j := 0;
    while j < |segs|
      invariant 0 <= j <= |segs|
      invariant textParts == TextParts(segs[..j])
    {
      var text := Strip(segs[j].utf8.GetOr(""));
      if text != "" && text != "\n" {
        textParts := textParts + [text];
      }
      assert segs[..j + 1][..j] == segs[..j];
      j := j + 1;
    }
    assert segs[..j] == segs;
  }

  /** `_parse_json3_captions`, step by step as written: events without `segs` are skipped,
      missing times default to 0, kept parts are joined with spaces, and the segments are merged
      unless there are none. */
  method ParseJson3Captions(data: Json3Doc) returns (r: Option<seq<Chunk>>)
    ensures r == Json3Captions(data)
  {
    var events := data.events.GetOr([]);
    var segments: seq<Chunk> := [];
    var e := 0;
    while e < |events|
      invariant 0 <= e <= |events|
      invariant segments == Json3Segments(events[..e])
    {
      var event := events[e];
      ghost var contributed := EventSegment(event);
      if event.segs.Some? {
        var startMs := event.tStartMs.GetOr(0);
        var durationMs := event.dDurationMs.GetOr(0);
        var textParts := KeptTextParts(event.segs.value);
        if textParts != [] {
          var segment := Chunk(MsToSeconds(startMs), MsToSeconds(startMs + durationMs), Join(textParts, " "));
          assert contributed == Some(segment);
          segments := segments + [segment];
        } else {
          assert contributed == None;
        }
      } else {
        assert contributed == None;
      }
      assert events[..e + 1][..e] == events[..e];
      assert Json3Segments(events[..e + 1]) ==
        Json3Segments(events[..e]) + (if contributed.Some? then [contributed.value] else []);
      e := e + 1;
    }
    assert events[..e] == events;
    if segments == [] {
      r := None;
    } else {
      var chunks := MergeIntoChunks(segments);
      r := Some(chunks);
    }
  }

  // ---- merging segments into chunks ----

  /** `window_seconds`, whose default every caller uses. */
  const WindowSeconds: real := 30.0

  predicate IsSentencePunct(c: char) {
    c == '.' || c == '!' || c == '?'
  }

  /** `bool(re.search(r'[.!?]\s*$', text))`, computed as: the text without trailing whitespace
      ends in `.`, `!` or `?`. */
  predicate IsSentenceEnd(text: string) {
    var t := TrimEnd(text);
    |t| > 0 && IsSentencePunct(t[|t| - 1])
  }

  /** The regular expression read literally: a punctuation mark at `i`, whitespace up to `j`,
      and `$` at `j` (the end, or just before a final newline). */
  predicate RegexMatchAt(text: string, i: int, j: int) {
    0 <= i < j <= |text| && IsSentencePunct(text[i]) && AllSpace(text[i + 1..j]) &&
    (j == |text| || (j == |text| - 1 && text[j] == '\n'))
  }

  /** Where `TrimEnd` cuts: just after the last character that is not whitespace. */
  lemma {:induction false} TrimEndAt(s: string, p: int)
    requires 0 <= p < |s| && !IsSpace(s[p]) && AllSpace(s[p + 1..])
    ensures |TrimEnd(s)| == p + 1
  {
    if p < |s| - 1 {
      assert IsSpace(s[|s| - 1]) by {
        assert s[p + 1..][|s| - 2 - p] == s[|s| - 1];
      }
      var init := s[..|s| - 1];
      assert init[p] == s[p];
      assert AllSpace(init[p + 1..]) by {
        forall k | p + 1 <= k < |init| ensures IsSpace(init[k]) {
          assert init[k] == s[p + 1..][k - p - 1];
        }
      }
      TrimEndAt(init, p);
    }
  }

  /** The two readings agree. */
  lemma SentenceEndIsRegex(text: string)
    ensures IsSentenceEnd(text) <==> exists i, j :: RegexMatchAt(text, i, j)
  {
    var t := TrimEnd(text);
    TrimEndSpec(text);
    if IsSentenceEnd(text) {
      assert text[|t| - 1] == t[|t| - 1];
      assert text[|t|..] == text[|t| - 1 + 1..|text|];
      assert RegexMatchAt(text, |t| - 1, |text|);
    }
    if exists i, j :: RegexMatchAt(text, i, j) {
      var i, j :| RegexMatchAt(text, i, j);
      assert AllSpace(text[i + 1..]) by {
        forall k | i + 1 <= k < |text| ensures IsSpace(text[k]) {
          if k < j {
            assert text[i + 1..j][k - i - 1] == text[k];
          }
        }
      }
      TrimEndAt(text, i);
      assert t[i] == text[i];
    }
  }

  /** A new chunk starts at `seg` exactly when the window is reached and the current text ends
      a sentence. */
  predicate ShouldSplit(current: Chunk, seg: Chunk) {
    seg.endTime - current.startTime >= WindowSeconds && IsSentenceEnd(current.text)
  }

  /** One step of the fold: either `seg` starts a new chunk, or the last chunk is extended to
      `seg`'s end and gets `" " + seg.text` appended. */
  function MergeStep(chunks: seq<Chunk>, seg: Chunk): seq<Chunk>
    requires |chunks| > 0
  {
    var current := chunks[|chunks| - 1];
    if ShouldSplit(current, seg) then chunks + [seg]
    else chunks[..|chunks| - 1] + [Chunk(current.startTime, seg.endTime, current.text + " " + seg.text)]
  }

  /** The chunks `_merge_into_chunks` produces, as a fold over the segments. */
  function Merge(segs: seq<Chunk>): (r: seq<Chunk>)
    ensures |segs| == 0 ==> r == []
    ensures |segs| > 0 ==> 1 <= |r| <= |segs|
  {
    if |segs| == 0 then []
    else if |segs| == 1 then [segs[0]]
    else MergeStep(Merge(segs[..|segs| - 1]), segs[|segs| - 1])
  }

  /** `_merge_into_chunks` as written: a current chunk updated in place, pushed when a new one
      starts and once more at the end. */
  method MergeIntoChunks(segments: seq<Chunk>) returns (chunks: seq<Chunk>)
    ensures chunks == Merge(segments)
  {
    if |segments| == 0 {
      return [];
    }
    chunks := [];
    var current := segments[0];
    assert segments[..1] == [segments[0]];
    var i := 1;
    while i < |segments|
      invariant 1 <= i <= |segments|
      invariant chunks + [current] == Merge(segments[..i])
    {
      var seg := segments[i];
      ghost var before := chunks + [current];
      MergeLoopStep(segments, i);
      MergeStepOnLast(chunks, current, seg);
      var elapsed := seg.endTime - current.startTime;
      var isSentenceEnd := IsSentenceEnd(current.text);
      if elapsed >= WindowSeconds && isSentenceEnd {
        assert ShouldSplit(current, seg);
        chunks := chunks + [current];
        current := seg;
      } else {
        assert !ShouldSplit(current, seg);
        current := current.(endTime := seg.endTime, text := current.text + " " + seg.text);
      }
      assert chunks + [current] == MergeStep(before, seg);
      i := i + 1;
    }
    assert segments[..i] == segments;
    chunks := chunks + [current];
  }

  /** One step of the fold on `chunks + [current]`: `seg` is appended as a new chunk, or
      `current` is extended by it. */
  lemma MergeStepOnLast(chunks: seq<Chunk>, current: Chunk, seg: Chunk)
    ensures MergeStep(chunks + [current], seg) ==
      if ShouldSplit(current, seg) then chunks + [current] + [seg]
      else chunks + [Chunk(current.startTime, seg.endTime, current.text + " " + seg.text)]
  {
    var before := chunks + [current];
    assert before[..|before| - 1] == chunks;
  }

  /** The fold over one more segment is one more step. */
  lemma MergeLoopStep(segments: seq<Chunk>, i: nat)
    requires 1 <= i < |segments|
    ensures Merge(segments[..i + 1]) == MergeStep(Merge(segments[..i]), segments[i])
  {
    var p := segments[..i + 1];
    assert |p| > 1 && p[|p| - 1] == segments[i];
    assert p[..|p| - 1] == segments[..i];
    assert Merge(p) == MergeStep(Merge(p[..|p| - 1]), p[|p| - 1]);
  }

  /** The first chunk starts where the first segment starts; the last ends where the last
      segment ends. */
  lemma {:induction false} MergeBoundaries(segs: seq<Chunk>)
    requires |segs| > 0
    ensures Merge(segs)[0].startTime == segs[0].startTime
    ensures Merge(segs)[|Merge(segs)| - 1].endTime == segs[|segs| - 1].endTime
  {
    if |segs| > 1 {
      var init := segs[..|segs| - 1];
      MergeBoundaries(init);
      assert init[0] == segs[0];
    }
  }

  lemma TextsSnoc(cs: seq<Chunk>, c: Chunk)
    ensures Texts(cs + [c]) == Texts(cs) + [c.text]
  {
  }

  /** No text is lost, duplicated or reordered: the chunks' texts joined with spaces are the
      segments' texts joined with spaces. */
  lemma {:induction false} MergePreservesText(segs: seq<Chunk>)
    ensures Join(Texts(Merge(segs)), " ") == Join(Texts(segs), " ")
  {
    if |segs| > 1 {
      var init := segs[..|segs| - 1];
      var last := segs[|segs| - 1];
      MergePreservesText(init);
      assert Merge(segs) == MergeStep(Merge(init), last);
      assert segs == init + [last];
      TextsSnoc(init, last);
      JoinSnoc(Texts(init), last.text, " ");
      MergeStepText(Merge(init), last);
    }
  }

  /** One step of the fold adds a space and the segment's text to the joined text. */
  lemma MergeStepText(m: seq<Chunk>, seg: Chunk)
    requires |m| > 0
    ensures Join(Texts(MergeStep(m, seg)), " ") == Join(Texts(m), " ") + " " + seg.text
  {
    var current := m[|m| - 1];
    var front := m[..|m| - 1];
    assert m == front + [current];
    TextsSnoc(front, current);
    if ShouldSplit(current, seg) {
      TextsSnoc(m, seg);
      JoinSnoc(Texts(m), seg.text, " ");
    } else {
      var merged := Chunk(current.startTime, seg.endTime, current.text + " " + seg.text);
      TextsSnoc(front, merged);
      if |front| > 0 {
        JoinSnoc(Texts(front), merged.text, " ");
        JoinSnoc(Texts(front), current.text, " ");
      }
    }
  }

  /** The break after chunk `k` of `r` happened at a segment of `segs` (not the first) that
      starts chunk `k + 1` and ends at least the window's length after chunk `k` starts. */
  predicate BreakAtSegment(segs: seq<Chunk>, r: seq<Chunk>, k: int)
    requires 0 <= k < |r| - 1
  {
    exists i :: 0 < i < |segs| && segs[i].startTime == r[k + 1].startTime &&
      segs[i].endTime - r[k].startTime >= WindowSeconds
  }

  /** Where chunks break: every chunk but the last ends a sentence, and each break happened at
      a segment reaching the window. */
  lemma {:induction false} MergeBreaks(segs: seq<Chunk>)
    ensures forall k :: 0 <= k < |Merge(segs)| - 1 ==> IsSentenceEnd(Merge(segs)[k].text)
    ensures forall k :: 0 <= k < |Merge(segs)| - 1 ==> BreakAtSegment(segs, Merge(segs), k)
  {
    if |segs| > 1 {
      var n := |segs|;
      var init := segs[..n - 1];
      var last := segs[n - 1];
      var m := Merge(init);
      var r := Merge(segs);
      MergeBreaks(init);
      assert |m| <= |r|;
      assert forall j :: 0 <= j < |m| - 1 ==> r[j] == m[j];
      assert forall j :: 0 <= j < |m| ==> r[j].startTime == m[j].startTime;
      forall k | 0 <= k < |r| - 1
        ensures IsSentenceEnd(r[k].text) && BreakAtSegment(segs, r, k)
      {
        if k < |m| - 1 {
          assert BreakAtSegment(init, m, k);
          var i :| 0 < i < |init| && init[i].startTime == m[k + 1].startTime &&
            init[i].endTime - m[k].startTime >= WindowSeconds;
          assert segs[i] == init[i];
        } else {
          assert r == m + [last];
          assert segs[n - 1].startTime == r[k + 1].startTime;
        }
      }
    }
  }

  // ---- Whisper fallback ----

  /** One segment of Whisper's `verbose_json` response. */
  datatype WhisperSegment = WhisperSegment(start: real, end: real, text: string)

  /** What the audio download left behind: an error, no file, or a file of this many bytes. */
  datatype AudioDownload = DownloadFailed(message: string) | NoAudioFile | AudioFile(sizeBytes: nat)

  const NoAudioMessage: string := "Audio file not found after download"
  const TooLargeMessage: string := "Audio file too large. Whisper API supports up to 25MB. Try a shorter video."

  /** `file_size_mb > 25` with `file_size_mb = size / (1024 * 1024)`. */
  predicate AudioTooLarge(sizeBytes: nat) {
    (sizeBytes as real) / (1024.0 * 1024.0) > 25.0
  }

  /** The guard in bytes: more than 26,214,400 bytes is refused. */
  lemma AudioLimitInBytes(sizeBytes: nat)
    ensures AudioTooLarge(sizeBytes) <==> sizeBytes > 26214400
  {
    var mb := (sizeBytes as real) / 1048576.0;
    assert mb * 1048576.0 == sizeBytes as real;
  }

  /** The mapping loop over `response.segments`. */
  method WhisperSegments(response: seq<WhisperSegment>) returns (segments: seq<Chunk>)
    ensures segments == Seqs.Map(response, StripSegment)
    ensures |segments| == |response|
    ensures forall k :: 0 <= k < |response| ==>
      segments[k] == Chunk(response[k].start, response[k].end, Strip(response[k].text))
  {
    segments := [];
    var k := 0;
    while k < |response|
      invariant 0 <= k <= |response|
      invariant segments == Seqs.Map(response[..k], StripSegment)
    {
      Seqs.MapSnoc(response, k, StripSegment);
      segments := segments + [StripSegment(response[k])];
      k := k + 1;
    }
    assert response[..k] == response;
  }

  /** One response segment as a chunk: its times and its stripped text. */
  function StripSegment(w: WhisperSegment): Chunk {
    Chunk(w.start, w.end, Strip(w.text))
  }

  /** `seg.text.strip()` for one segment of the response. */
  function SegmentText(w: WhisperSegment): string {
    Strip(w.text)
  }

  /** The texts of the stripped segments are the stripped texts of the response. */
  lemma {:induction false} StrippedTexts(response: seq<WhisperSegment>)
    ensures Texts(Seqs.Map(response, StripSegment)) == Seqs.Map(response, SegmentText)
  {
    if |response| > 0 {
      var segments := Seqs.Map(response, StripSegment);
      StrippedTexts(response[1..]);
      assert segments[1..] == Seqs.Map(response[1..], StripSegment);
    }
  }

  /** `transcribe_with_whisper` after the download: a failed download or a missing file is an
      error, a file over 25 MB is refused before Whisper is asked (`requested` says whether it
      was), and otherwise the response's segments are stripped and merged. */
  method TranscribeWithWhisper(audio: AudioDownload, response: seq<WhisperSegment>)
    returns (r: Result<seq<Chunk>, string>, requested: bool)
    ensures requested <==> audio.AudioFile? && !AudioTooLarge(audio.sizeBytes)
    ensures !requested ==> r.Failure?
    ensures audio.DownloadFailed? ==> r == Failure("Failed to download audio: " + audio.message)
    ensures audio.NoAudioFile? ==> r == Failure(NoAudioMessage)
    ensures audio.AudioFile? && AudioTooLarge(audio.sizeBytes) ==>
      r == Failure(TooLargeMessage)
    ensures requested ==>
      && r == Success(Merge(Seqs.Map(response, StripSegment)))
      && |r.value| <= |response|
      && (response != [] ==> r.value != [])
      && Join(Texts(r.value), " ") == Join(Seqs.Map(response, SegmentText), " ")
  {
    match audio
    case DownloadFailed(message) =>
      return Failure("Failed to download audio: " + message), false;
    case NoAudioFile =>
      return Failure(NoAudioMessage), false;
    case AudioFile(sizeBytes) =>
      if AudioTooLarge(sizeBytes) {
        return Failure(TooLargeMessage), false;
      }
      requested := true;
      var chunks := TranscribeResponse(response);
      r := Success(chunks);
  }

  /** The transcription response's segments, stripped and merged into chunks: no more chunks
      than segments, at least one when there was a segment, and the same text. */
  method TranscribeResponse(response: seq<WhisperSegment>) returns (chunks: seq<Chunk>)
    ensures chunks == Merge(Seqs.Map(response, StripSegment))
    ensures |chunks| <= |response|
    ensures response != [] ==> chunks != []
    ensures Join(Texts(chunks), " ") == Join(Seqs.Map(response, SegmentText), " ")
  {
    var segments := WhisperSegments(response);
    chunks := MergeIntoChunks(segments);
    MergePreservesText(segments);
    StrippedTexts(response);
  }

  // ---- choosing the source ----

  datatype Source = YoutubeCaptions | Whisper

  /** `get_transcript`: captions when they gave a non-empty list, otherwise the Whisper
      outcome (which is only consulted then). */
  function GetTranscript(captions: Option<seq<Chunk>>, whisper: Result<seq<Chunk>, string>): Result<(seq<Chunk>, Source), string> {
    if captions.Some? && captions.value != [] then Success((captions.value, YoutubeCaptions))
    else
      match whisper
      case Success(chunks) => Success((chunks, Whisper))
      case Failure(e) => Failure(e)
  }

  /** Captions from a JSON3 document are used exactly when some event produced a segment;
      otherwise the transcript is Whisper's, tagged so. */
  lemma GetTranscriptSpec(data: Json3Doc, whisper: Result<seq<Chunk>, string>)
    ensures var r := GetTranscript(Json3Captions(data), whisper);
      (r.Success? && r.value.1 == YoutubeCaptions) <==> Json3Segments(data.events.GetOr([])) != []
    ensures Json3Segments(data.events.GetOr([])) == [] ==>
      GetTranscript(Json3Captions(data), whisper) ==
        (if whisper.Success? then Success((whisper.value, Whisper)) else Failure(whisper.error))
  {
  }
}
