/** `ai_service`: the deterministic parts around the language model. That is `MM:SS` time
    formatting, the transcript text sent for a summary, the fallback summary, the context
    package for a question (summary, transcript window, nearby Q&A) and the filter over streamed
    deltas. The model's replies are inputs. */
module AiService {
  import opened Wrappers
  import opened Text
  import opened Seqs
  import opened Transcription

  // ---- _format_time ----

  /** `_format_time`: `int(seconds // 60)` and `int(seconds % 60)`, each as `{:02d}`. For a
      float, `//` floors and `%` takes the divisor's sign, so both are floors. */
  function FormatTime(seconds: real): string {
    var minutes := (seconds / 60.0).Floor;
    var secs := (seconds - 60.0 * minutes as real).Floor;
    Pad2(minutes) + ":" + Pad2(secs)
  }

  /** For a non-negative time the text is `MM:SS`: at least two digits of minutes, a colon and
      exactly two digits of seconds below 60, which together read back as the whole seconds. */
  lemma FormatTimeSpec(seconds: real)
    requires seconds >= 0.0
    ensures var r := FormatTime(seconds);
      && |r| >= 5 && r[|r| - 3] == ':'
      && (forall k :: 0 <= k < |r| - 3 ==> IsDigit(r[k]))
      && (forall k :: |r| - 2 <= k < |r| ==> IsDigit(r[k]))
      && ParseDigits(r[|r| - 2..]) < 60
      && ParseDigits(r[..|r| - 3]) * 60 + ParseDigits(r[|r| - 2..]) == seconds.Floor
  {
    var minutes := (seconds / 60.0).Floor;
    var rest := seconds - 60.0 * minutes as real;
    var secs := rest.Floor;
    assert 0.0 <= rest < 60.0;
    assert 0 <= secs < 60;
    assert seconds.Floor == 60 * minutes + secs by {
      assert seconds == (60 * minutes) as real + rest;
    }
    Pad2Spec(minutes);
    Pad2Spec(secs);
    var m := Pad2(minutes);
    var s := Pad2(secs);
    var r := m + ":" + s;
    assert r == FormatTime(seconds);
    assert r[..|r| - 3] == m;
    assert r[|r| - 2..] == s;
  }

  // ---- generate_video_summary ----

  /** The summary dict, one field per key the backend reads; `None` is a missing key. */
  datatype Summary = Summary(
    title: Option<string>,
    topic: Option<string>,
    level: Option<string>,
    keyConcepts: Option<seq<string>>,
    paragraph: Option<string>)

  /** What the summary step stores: the model's parsed JSON with `title` set to the video's
      title, or, when the request or the parse fails (`None`), the fallback dict. */
  function GenerateVideoSummary(title: string, reply: Option<Summary>): (r: Summary)
    ensures r.title == Some(title)
    ensures reply.Some? ==> r == reply.value.(title := Some(title))
  {
    match reply
    case Some(parsed) => parsed.(title := Some(title))
    case None =>
      Summary(Some(title), Some("Unable to generate summary"), Some("unknown"), Some([]),
        Some("Summary generation failed. The video can still be used for Q&A."))
  }

  /** The 15-minute cut-off of the summary transcript, in seconds. */
  const SummaryCutoff: real := 900.0

  const ContinuesMarker: string := "\n[... transcript continues ...]"

  /** One line of the summary transcript: `[start-end] text` and a newline. */
  function SummaryLine(c: Chunk): string {
    "[" + FormatTime(c.startTime) + "-" + FormatTime(c.endTime) + "] " + c.text + "\n"
  }

  /** The index of the first chunk starting after the cut-off, or the length when none does. */
  function FirstLate(chunks: seq<Chunk>): (k: nat)
    ensures k <= |chunks|
    ensures forall j :: 0 <= j < k ==> chunks[j].startTime <= SummaryCutoff
    ensures k < |chunks| ==> chunks[k].startTime > SummaryCutoff
  {
    if |chunks| == 0 || chunks[0].startTime > SummaryCutoff then 0 else 1 + FirstLate(chunks[1..])
  }

  /** `FirstLate` is the one index before which every chunk is in time and at which a chunk
      is late (or the list ends). */
  lemma {:induction false} FirstLateAt(chunks: seq<Chunk>, i: nat)
    requires i <= |chunks|
    requires forall j :: 0 <= j < i ==> chunks[j].startTime <= SummaryCutoff
    requires i < |chunks| ==> chunks[i].startTime > SummaryCutoff
    ensures FirstLate(chunks) == i
  {
    if i > 0 {
      FirstLateAt(chunks[1..], i - 1);
    }
  }

  /** The summary lines of `chunks`, concatenated in order. */
  function SummaryLines(chunks: seq<Chunk>): string {
    if |chunks| == 0 then "" else SummaryLines(chunks[..|chunks| - 1]) + SummaryLine(chunks[|chunks| - 1])
  }

  /** One more chunk adds its line at the end. */
  lemma SummaryLinesSnoc(chunks: seq<Chunk>, i: nat, text: string, line: string)
    requires i < |chunks| && text == SummaryLines(chunks[..i]) && line == SummaryLine(chunks[i])
    ensures SummaryLines(chunks[..i + 1]) == text + line
  {
    assert chunks[..i + 1][..i] == chunks[..i];
  }

  /** The transcript loop of `generate_video_summary`: one line per chunk, in order, up to the
      first chunk that starts after 15 minutes, where the continuation marker is added and the
      loop stops; later chunks are never read. */
  method SummaryTranscript(chunks: seq<Chunk>) returns (text: string)
    ensures var k := FirstLate(chunks);
      text == SummaryLines(chunks[..k]) + (if k < |chunks| then ContinuesMarker else "")
  {
    text := "";
    var i := 0;
    while i < |chunks|
      invariant 0 <= i <= |chunks|
      invariant i <= FirstLate(chunks)
      invariant text == SummaryLines(chunks[..i])
    {
      var chunk := chunks[i];
      if chunk.startTime > SummaryCutoff {
        text := text + ContinuesMarker;
        return;
      }
      assert i != FirstLate(chunks);
      var line := SummaryLine(chunk);
      SummaryLinesSnoc(chunks, i, text, line);
      text := text + line;
      i := i + 1;
    }
    assert chunks[..i] == chunks;
  }

  // ---- build_context ----

  /** One entry of `qa_history` as `build_context` reads it. */
  datatype QaItem = QaItem(videoTimestamp: real, question: string, answer: string)

  function Max(a: real, b: real): real {
    if a >= b then a else b
  }

  function Abs(x: real): real {
    if x < 0.0 then -x else x
  }

  /** `window_start`: sixty seconds back, not before the start of the video. */
  function WindowStart(timestamp: real): real {
    Max(0.0, timestamp - 60.0)
  }

  /** `window_end`: thirty seconds ahead. */
  function WindowEnd(timestamp: real): real {
    timestamp + 30.0
  }

  /** A chunk is relevant when its closed interval meets the closed window. */
  predicate InWindow(c: Chunk, timestamp: real) {
    c.endTime >= WindowStart(timestamp) && c.startTime <= WindowEnd(timestamp)
  }

  /** `relevant_chunks`. */
  function SelectChunks(chunks: seq<Chunk>, timestamp: real): seq<Chunk> {
    if |chunks| == 0 then []
    else (if InWindow(chunks[0], timestamp) then [chunks[0]] else []) + SelectChunks(chunks[1..], timestamp)
  }

  /** The selection is the comprehension with the window test. */
  lemma {:induction false} SelectChunksIsFilter(chunks: seq<Chunk>, timestamp: real)
    ensures SelectChunks(chunks, timestamp) == Filter(chunks, (c: Chunk) => InWindow(c, timestamp))
  {
    if |chunks| > 0 {
      SelectChunksIsFilter(chunks[1..], timestamp);
    }
  }

  /** The selected chunks are exactly those meeting the window, in transcript order. */
  lemma SelectChunksSpec(chunks: seq<Chunk>, timestamp: real)
    ensures IsSubseq(SelectChunks(chunks, timestamp), chunks)
    ensures forall c :: c in SelectChunks(chunks, timestamp) <==> c in chunks && InWindow(c, timestamp)
  {
    SelectChunksIsFilter(chunks, timestamp);
    FilterSpec(chunks, (c: Chunk) => InWindow(c, timestamp));
  }

  /** A Q&A entry is nearby when it was asked within five minutes of `timestamp`. */
  predicate IsNearby(qa: QaItem, timestamp: real) {
    Abs(qa.videoTimestamp - timestamp) <= 300.0
  }

  /** The most Q&A entries the context includes. */
  const MaxNearbyQa: nat := 5

  /** The comprehension step of `nearby_qa`. */
  function NearbyEntries(qaHistory: seq<QaItem>, timestamp: real): seq<QaItem> {
    if |qaHistory| == 0 then []
    else (if IsNearby(qaHistory[0], timestamp) then [qaHistory[0]] else []) + NearbyEntries(qaHistory[1..], timestamp)
  }

  lemma {:induction false} NearbyEntriesIsFilter(qaHistory: seq<QaItem>, timestamp: real)
    ensures NearbyEntries(qaHistory, timestamp) == Filter(qaHistory, (q: QaItem) => IsNearby(q, timestamp))
  {
    if |qaHistory| > 0 {
      NearbyEntriesIsFilter(qaHistory[1..], timestamp);
    }
  }

  /** `nearby_qa`: the nearby entries, then the last five of them. */
  function NearbyQa(qaHistory: seq<QaItem>, timestamp: real): seq<QaItem> {
    LastN(NearbyEntries(qaHistory, timestamp), MaxNearbyQa)
  }

  /** The included Q&A: at most five nearby entries in the order asked, the latest of all the
      nearby ones (all of them when there are five or fewer). */
  lemma NearbyQaSpec(qaHistory: seq<QaItem>, timestamp: real)
    ensures var near := NearbyEntries(qaHistory, timestamp);
      var r := NearbyQa(qaHistory, timestamp);
      && |r| == (if |near| < MaxNearbyQa then |near| else MaxNearbyQa)
      && r == near[|near| - |r|..]
      && (forall k :: 0 <= k < |r| ==> IsNearby(r[k], timestamp))
      && IsSubseq(r, qaHistory)
  {
    var p := (q: QaItem) => IsNearby(q, timestamp);
    var near := NearbyEntries(qaHistory, timestamp);
    NearbyEntriesIsFilter(qaHistory, timestamp);
    FilterSpec(qaHistory, p);
    var r := NearbyQa(qaHistory, timestamp);
    SubseqSuffix(near, qaHistory, |near| - |r|);
    forall k | 0 <= k < |r| ensures IsNearby(r[k], timestamp) {
      assert r[k] == near[|near| - |r| + k];
    }
  }

  /** How long an included answer may be before it is cut. */
  const AnswerLimit: nat := 300

  /** A long answer is cut to its first 300 characters followed by `...`. */
  function Truncate(answer: string): (r: string)
    ensures |r| <= AnswerLimit + 3
    ensures |answer| <= AnswerLimit ==> r == answer
    ensures |answer| > AnswerLimit ==> |r| == AnswerLimit + 3 && r[..AnswerLimit] == answer[..AnswerLimit] && r[AnswerLimit..] == "..."
  {
    if |answer| > AnswerLimit then answer[..AnswerLimit] + "..." else answer
  }

  const SummaryHeader: string := "=== VIDEO SUMMARY ==="
  const QaHeader: string := "=== PREVIOUS Q&A (this session) ==="
  const YouAreHere: string := " <<<< YOU ARE HERE"

  function TranscriptHeader(timestamp: real): string {
    "=== TRANSCRIPT (around " + FormatTime(timestamp) + ") ==="
  }

  /** `if summary:`: a present summary with at least one key. */
  predicate Truthy(summary: Option<Summary>) {
    summary.Some? &&
    (summary.value.title.Some? || summary.value.topic.Some? || summary.value.level.Some? ||
     summary.value.keyConcepts.Some? || summary.value.paragraph.Some?)
  }

  /** The summary lines: header, title, topic and level (each `Unknown` when missing), the key
      concepts only when there are some, the paragraph, and a blank line. */
  function SummarySection(summary: Option<Summary>): seq<string> {
    if !Truthy(summary) then []
    else
      var s := summary.value;
      var concepts := s.keyConcepts.GetOr([]);
      [SummaryHeader,
       "Title: " + s.title.GetOr("Unknown"),
       "Topic: " + s.topic.GetOr("Unknown"),
       "Level: " + s.level.GetOr("Unknown")]
      + (if concepts != [] then ["Key concepts: " + Join(concepts, ", ")] else [])
      + ["Summary: " + s.paragraph.GetOr(""), ""]
  }

  /** A transcript line without its marker: `[start-end] text`. */
  function LineBody(c: Chunk): string {
    "[" + FormatTime(c.startTime) + "-" + FormatTime(c.endTime) + "] " + c.text
  }

  /** A transcript line, marked when the chunk contains `timestamp`. */
  function TranscriptLine(c: Chunk, timestamp: real): string {
    LineBody(c) + (if c.startTime <= timestamp <= c.endTime then YouAreHere else "")
  }

  /** The marker is appended exactly to the lines of chunks that contain `timestamp`. */
  lemma MarkerIff(c: Chunk, timestamp: real)
    ensures TranscriptLine(c, timestamp) == LineBody(c) + YouAreHere <==> c.startTime <= timestamp <= c.endTime
  {
    if !(c.startTime <= timestamp <= c.endTime) {
      assert |TranscriptLine(c, timestamp)| < |LineBody(c) + YouAreHere|;
    }
  }

  /** One transcript line per chunk, in order. */
  function TranscriptLines(chunks: seq<Chunk>, timestamp: real): (r: seq<string>)
    ensures |r| == |chunks|
  {
    if |chunks| == 0 then []
    else TranscriptLines(chunks[..|chunks| - 1], timestamp) + [TranscriptLine(chunks[|chunks| - 1], timestamp)]
  }

  lemma TranscriptLinesSnoc(chunks: seq<Chunk>, i: nat, timestamp: real)
    requires i < |chunks|
    ensures TranscriptLines(chunks[..i + 1], timestamp) == TranscriptLines(chunks[..i], timestamp) + [TranscriptLine(chunks[i], timestamp)]
  {
    assert chunks[..i + 1][..i] == chunks[..i];
  }

  /** The transcript lines: when some chunk is selected, the header, one line per selected
      chunk in order, and a blank line. */
  function TranscriptSection(chunks: seq<Chunk>, timestamp: real): seq<string> {
    var relevant := SelectChunks(chunks, timestamp);
    if relevant == [] then []
    else [TranscriptHeader(timestamp)] + TranscriptLines(relevant, timestamp) + [""]
  }

  /** The two lines of one included entry, the answer truncated. */
  function QaLines(qa: QaItem): seq<string> {
    var t := FormatTime(qa.videoTimestamp);
    ["[" + t + "] Q: " + qa.question, "[" + t + "] A: " + Truncate(qa.answer)]
  }

  function AllQaLines(qas: seq<QaItem>): seq<string> {
    if |qas| == 0 then [] else AllQaLines(qas[..|qas| - 1]) + QaLines(qas[|qas| - 1])
  }

  lemma AllQaLinesSnoc(qas: seq<QaItem>, i: nat)
    requires i < |qas|
    ensures AllQaLines(qas[..i + 1]) == AllQaLines(qas[..i]) + QaLines(qas[i])
  {
    assert qas[..i + 1][..i] == qas[..i];
  }

  /** The Q&A lines: when some entry is included, the header, two lines per entry, and a blank
      line. */
  function QaSection(qaHistory: seq<QaItem>, timestamp: real): seq<string> {
    if qaHistory == [] then []
    else
      var nearby := NearbyQa(qaHistory, timestamp);
      if nearby == [] then [] else [QaHeader] + AllQaLines(nearby) + [""]
  }

  /** `context_parts`, section by section. */
  function ContextParts(summary: Option<Summary>, chunks: seq<Chunk>, timestamp: real, qaHistory: seq<QaItem>): seq<string> {
    SummarySection(summary) + TranscriptSection(chunks, timestamp) + QaSection(qaHistory, timestamp)
  }

  /** Section 1 of `build_context`: the summary lines, appended one by one. */
  method AppendSummarySection(parts: seq<string>, summary: Option<Summary>) returns (contextParts: seq<string>)
    ensures contextParts == parts + SummarySection(summary)
  {
    contextParts := parts;
    if Truthy(summary) {
      var s := summary.value;
      contextParts := contextParts + [SummaryHeader];
      contextParts := contextParts + ["Title: " + s.title.GetOr("Unknown")];
      contextParts := contextParts + ["Topic: " + s.topic.GetOr("Unknown")];
      contextParts := contextParts + ["Level: " + s.level.GetOr("Unknown")];
      var keyConcepts := s.keyConcepts.GetOr([]);
      if keyConcepts != [] {
        contextParts := contextParts + ["Key concepts: " + Join(keyConcepts, ", ")];
      }
      contextParts := contextParts + ["Summary: " + s.paragraph.GetOr("")];
      contextParts := contextParts + [""];
    }
  }

  /** The loop over `relevant_chunks`: one line per chunk, marked when it contains the
      timestamp. */
  method MarkedLines(relevantChunks: seq<Chunk>, timestamp: real) returns (lines: seq<string>)
    ensures lines == TranscriptLines(relevantChunks, timestamp)
  {
    lines := [];
    var i := 0;
    while i < |relevantChunks|
      invariant 0 <= i <= |relevantChunks|
      invariant lines == TranscriptLines(relevantChunks[..i], timestamp)
    {
      var chunk := relevantChunks[i];
      var marker := if chunk.startTime <= timestamp <= chunk.endTime then YouAreHere else "";
      lines := lines + [LineBody(chunk) + marker];
      TranscriptLinesSnoc(relevantChunks, i, timestamp);
      i := i + 1;
    }
    assert relevantChunks[..i] == relevantChunks;
  }

  /** Section 2 of `build_context`: the transcript window. */
  method AppendTranscriptSection(parts: seq<string>, chunks: seq<Chunk>, timestamp: real) returns (contextParts: seq<string>)
    ensures contextParts == parts + TranscriptSection(chunks, timestamp)
  {
    contextParts := parts;
    var relevantChunks := SelectChunks(chunks, timestamp);
    if relevantChunks != [] {
      contextParts := contextParts + [TranscriptHeader(timestamp)];
      var lines := MarkedLines(relevantChunks, timestamp);
      contextParts := contextParts + lines;
      contextParts := contextParts + [""];
    }
  }

  /** The loop over `nearby_qa`: a question line and an answer line per entry, the answer cut
      to 300 characters and `...` when longer. */
  method QaEntryLines(nearbyQa: seq<QaItem>) returns (lines: seq<string>)
    ensures lines == AllQaLines(nearbyQa)
  {
    lines := [];
    var i := 0;
    while i < |nearbyQa|
      invariant 0 <= i <= |nearbyQa|
      invariant lines == AllQaLines(nearbyQa[..i])
    {
      var qa := nearbyQa[i];
      var t := FormatTime(qa.videoTimestamp);
      lines := lines + ["[" + t + "] Q: " + qa.question];
      var answer := qa.answer;
      if |answer| > AnswerLimit {
        answer := answer[..AnswerLimit] + "...";
      }
      lines := lines + ["[" + t + "] A: " + answer];
      AllQaLinesSnoc(nearbyQa, i);
      i := i + 1;
    }
    assert nearbyQa[..i] == nearbyQa;
  }

  /** Section 3 of `build_context`: the nearby Q&A. */
  method AppendQaSection(parts: seq<string>, qaHistory: seq<QaItem>, timestamp: real) returns (contextParts: seq<string>)
    ensures contextParts == parts + QaSection(qaHistory, timestamp)
  {
    contextParts := parts;
    if qaHistory != [] {
      var nearbyQa := NearbyQa(qaHistory, timestamp);
      if nearbyQa != [] {
        contextParts := contextParts + [QaHeader];
        var lines := QaEntryLines(nearbyQa);
        contextParts := contextParts + lines;
        contextParts := contextParts + [""];
      }
    }
  }

  /** `build_context`: the three sections in order, joined with newlines. */
  method BuildContext(summary: Option<Summary>, chunks: seq<Chunk>, timestamp: real, qaHistory: seq<QaItem>)
    returns (context: string)
    ensures context == Join(ContextParts(summary, chunks, timestamp, qaHistory), "\n")
  {
    var contextParts := AppendSummarySection([], summary);
    contextParts := AppendTranscriptSection(contextParts, chunks, timestamp);
    contextParts := AppendQaSection(contextParts, qaHistory, timestamp);
    SectionsInOrder(contextParts, summary, chunks, timestamp, qaHistory);
    context := Join(contextParts, "\n");
  }

  /** Appending the three sections to an empty list gives `context_parts`. */
  lemma SectionsInOrder(parts: seq<string>, summary: Option<Summary>, chunks: seq<Chunk>, timestamp: real, qaHistory: seq<QaItem>)
    requires parts == [] + SummarySection(summary) + TranscriptSection(chunks, timestamp) + QaSection(qaHistory, timestamp)
    ensures parts == ContextParts(summary, chunks, timestamp, qaHistory)
  {
    assert [] + SummarySection(summary) == SummarySection(summary);
  }

  /** A section header line. */
  predicate IsHeader(line: string) {
    |line| >= 4 && line[..4] == "=== "
  }

  function Headers(parts: seq<string>): seq<string> {
    Filter(parts, IsHeader)
  }

  /** Section headers appear in this order, each exactly when its section has content: the
      summary header when the summary is truthy, the transcript header when some chunk meets the
      window, the Q&A header when some entry is included. */
  lemma ContextHeaders(summary: Option<Summary>, chunks: seq<Chunk>, timestamp: real, qaHistory: seq<QaItem>)
    ensures Headers(ContextParts(summary, chunks, timestamp, qaHistory)) ==
      (if Truthy(summary) then [SummaryHeader] else []) +
      (if SelectChunks(chunks, timestamp) != [] then [TranscriptHeader(timestamp)] else []) +
      (if NearbyQa(qaHistory, timestamp) != [] then [QaHeader] else [])
  {
    var a := SummarySection(summary);
    var b := TranscriptSection(chunks, timestamp);
    var c := QaSection(qaHistory, timestamp);
    FilterAppend(a + b, c, IsHeader);
    FilterAppend(a, b, IsHeader);
    SummaryHeaders(summary);
    TranscriptHeaders(chunks, timestamp);
    QaHeaders(qaHistory, timestamp);
  }

  lemma SummaryHeaders(summary: Option<Summary>)
    ensures Headers(SummarySection(summary)) == if Truthy(summary) then [SummaryHeader] else []
  {
    if Truthy(summary) {
      var s := summary.value;
      var concepts := s.keyConcepts.GetOr([]);
      var fixed := ["Title: " + s.title.GetOr("Unknown"), "Topic: " + s.topic.GetOr("Unknown"),
                    "Level: " + s.level.GetOr("Unknown")];
      var conceptLine := if concepts != [] then ["Key concepts: " + Join(concepts, ", ")] else [];
      var tail := ["Summary: " + s.paragraph.GetOr(""), ""];
      var rest := fixed + conceptLine + tail;
      assert SummarySection(summary) == [SummaryHeader] + rest;
      forall k | 0 <= k < |fixed| ensures !IsHeader(fixed[k]) {
        assert fixed[k][0] != '=';
      }
      forall k | 0 <= k < |conceptLine| ensures !IsHeader(conceptLine[k]) {
        assert conceptLine[k][0] == 'K';
      }
      forall k | 0 <= k < |tail| ensures !IsHeader(tail[k]) {
        assert k == 0 ==> tail[k][0] == 'S';
      }
      FilterNonePass(fixed, IsHeader);
      FilterNonePass(conceptLine, IsHeader);
      FilterNonePass(tail, IsHeader);
      FilterAppend(fixed, conceptLine, IsHeader);
      FilterAppend(fixed + conceptLine, tail, IsHeader);
      assert ([SummaryHeader] + rest)[1..] == rest;
      assert IsHeader(SummaryHeader);
    }
  }

  lemma TranscriptHeaders(chunks: seq<Chunk>, timestamp: real)
    ensures Headers(TranscriptSection(chunks, timestamp)) ==
      if SelectChunks(chunks, timestamp) != [] then [TranscriptHeader(timestamp)] else []
  {
    var relevant := SelectChunks(chunks, timestamp);
    if relevant != [] {
      var rest := TranscriptLines(relevant, timestamp) + [""];
      TranscriptLinesNoHeader(relevant, timestamp);
      forall k | 0 <= k < |rest| ensures !IsHeader(rest[k]) {
        if k < |relevant| {
          assert rest[k][0] == '[';
        }
      }
      FilterNonePass(rest, IsHeader);
      var h := TranscriptHeader(timestamp);
      assert h[..4] == "=== ";
      assert TranscriptSection(chunks, timestamp) == [h] + rest;
    }
  }

  lemma {:induction false} TranscriptLinesNoHeader(chunks: seq<Chunk>, timestamp: real)
    ensures forall k :: 0 <= k < |TranscriptLines(chunks, timestamp)| ==>
      |TranscriptLines(chunks, timestamp)[k]| > 0 && TranscriptLines(chunks, timestamp)[k][0] == '['
  {
    if |chunks| > 0 {
      TranscriptLinesNoHeader(chunks[..|chunks| - 1], timestamp);
    }
  }

  lemma {:induction false} AllQaLinesNoHeader(qas: seq<QaItem>)
    ensures forall k :: 0 <= k < |AllQaLines(qas)| ==> |AllQaLines(qas)[k]| > 0 && AllQaLines(qas)[k][0] == '['
  {
    if |qas| > 0 {
      AllQaLinesNoHeader(qas[..|qas| - 1]);
    }
  }

  lemma QaHeaders(qaHistory: seq<QaItem>, timestamp: real)
    ensures Headers(QaSection(qaHistory, timestamp)) ==
      if NearbyQa(qaHistory, timestamp) != [] then [QaHeader] else []
  {
    var nearby := NearbyQa(qaHistory, timestamp);
    if nearby != [] {
      var rest := AllQaLines(nearby) + [""];
      AllQaLinesNoHeader(nearby);
      forall k | 0 <= k < |rest| ensures !IsHeader(rest[k]) {
        if k < |AllQaLines(nearby)| {
          assert rest[k][0] == '[';
        }
      }
      FilterNonePass(rest, IsHeader);
      assert IsHeader(QaHeader);
      assert QaSection(qaHistory, timestamp) == [QaHeader] + rest;
    }
  }

  /** The stored summary always opens the context with its summary section, whose title line
      names the video. */
  lemma StoredSummaryShown(title: string, reply: Option<Summary>, chunks: seq<Chunk>, timestamp: real, qaHistory: seq<QaItem>)
    ensures var section := SummarySection(Some(GenerateVideoSummary(title, reply)));
      && |section| >= 6 && section[0] == SummaryHeader && section[1] == "Title: " + title
      && ContextParts(Some(GenerateVideoSummary(title, reply)), chunks, timestamp, qaHistory)[..|section|] == section
  {
    var summary := GenerateVideoSummary(title, reply);
    SummarySectionOpens(summary);
    var section := SummarySection(Some(summary));
    var transcript := TranscriptSection(chunks, timestamp);
    PrefixOfConcat(section, transcript, QaSection(qaHistory, timestamp));
  }

  /** A summary with a title opens its section with the header and the title line. */
  lemma SummarySectionOpens(summary: Summary)
    requires summary.title.Some?
    ensures var section := SummarySection(Some(summary));
      |section| >= 6 && section[0] == SummaryHeader && section[1] == "Title: " + summary.title.value
  {
    assert Truthy(Some(summary));
  }

  // ---- answer_question and answer_question_stream ----

  /** `answer_question`: the model's reply, or its failure re-raised with a fixed prefix. */
  function AnswerQuestion(reply: Result<string, string>): (r: Result<string, string>)
    ensures r.Success? <==> reply.Success?
    ensures r.Success? ==> r.value == reply.value
    ensures r.Failure? ==> r.error == "Failed to generate answer: " + reply.error
  {
    match reply
    case Success(answer) => Success(answer)
    case Failure(e) => Failure("Failed to generate answer: " + e)
  }

  const StreamErrorFragment: string := "\n\n[Error: Failed to generate answer. Please try again.]"

  /** A streamed delta's `content`, `None` when it is null. */
  function DeltaText(delta: Option<string>): string {
    delta.GetOr("")
  }

  predicate NonEmpty(s: string) {
    s != ""
  }

  /** The fragments a run of deltas yields: the non-empty contents, in order. */
  function DeltaFragments(deltas: seq<Option<string>>): seq<string> {
    Filter(Map(deltas, DeltaText), NonEmpty)
  }

  /** One more delta adds its content when it is non-empty, and nothing otherwise. */
  lemma DeltaFragmentsSnoc(deltas: seq<Option<string>>, i: nat)
    requires i < |deltas|
    ensures DeltaFragments(deltas[..i + 1]) == DeltaFragments(deltas[..i]) +
      (if deltas[i].Some? && deltas[i].value != "" then [deltas[i].value] else [])
  {
    MapSnoc(deltas, i, DeltaText);
    FilterAppend(Map(deltas[..i], DeltaText), [DeltaText(deltas[i])], NonEmpty);
  }

  /** Skipping empty contents loses no text. */
  lemma {:induction false} DropEmptyKeepsText(parts: seq<string>)
    ensures Join(Filter(parts, NonEmpty), "") == Join(parts, "")
  {
    if |parts| > 0 {
      DropEmptyKeepsText(parts[1..]);
      assert parts == [parts[0]] + parts[1..];
      ConcatAppend([parts[0]], parts[1..]);
      var h := if NonEmpty(parts[0]) then [parts[0]] else [];
      ConcatAppend(h, Filter(parts[1..], NonEmpty));
    }
  }

  /** `answer_question_stream`: the deltas received before the stream ended, and whether it
      ended in an exception. Only non-empty contents are yielded, in order; an exception adds
      one error fragment after them. */
  method AnswerQuestionStream(deltas: seq<Option<string>>, failed: bool) returns (fragments: seq<string>)
    ensures fragments == DeltaFragments(deltas) + (if failed then [StreamErrorFragment] else [])
    ensures forall k :: 0 <= k < |fragments| ==> fragments[k] != ""
    ensures Join(fragments, "") == Join(Map(deltas, DeltaText), "") + (if failed then StreamErrorFragment else "")
  {
    fragments := [];
    var i := 0;
    while i < |deltas|
      invariant 0 <= i <= |deltas|
      invariant fragments == DeltaFragments(deltas[..i])
    {
      var content := deltas[i];
      DeltaFragmentsSnoc(deltas, i);
      if content.Some? && content.value != "" {
        fragments := fragments + [content.value];
      }
      i := i + 1;
    }
    assert deltas[..i] == deltas;
    var sent := fragments;
    FilterSpec(Map(deltas, DeltaText), NonEmpty);
    DropEmptyKeepsText(Map(deltas, DeltaText));
    if failed {
      fragments := fragments + [StreamErrorFragment];
      ConcatAppend(sent, [StreamErrorFragment]);
    }
  }
}
