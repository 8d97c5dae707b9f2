/** The three Supabase tables the routes use (`videos`, `transcript_chunks`, `qa_history`) as
    one in-memory store, with the queries the routes issue. Row ids come from a counter here;
    the database generates UUIDs. */
module Store {
  import opened Wrappers
  import opened Transcription
  import opened AiService
  import Seqs

  /** The `video_status` enum. */
  datatype Status = Processing | Ready | Failed

  datatype VideoRow = VideoRow(id: nat, youtubeVideoId: string, title: string, url: string, status: Status, summary: Option<Summary>)

  datatype ChunkRow = ChunkRow(videoId: nat, startTime: real, endTime: real, text: string)

  datatype QaRow = QaRow(id: nat, userId: string, videoId: nat, videoTimestamp: real, question: string, answer: string)

  /** An `HTTPException`: status code and detail. */
  datatype HttpError = HttpError(status: nat, detail: string)

  // ---- queries ----

  /** `videos.select("*").eq(column, value)`, first row; `key` reads the column. */
  function FindFirst<K(==)>(videos: seq<VideoRow>, key: VideoRow -> K, value: K): (r: Option<VideoRow>)
    ensures r.Some? ==> r.value in videos && key(r.value) == value
    ensures r.None? <==> forall k :: 0 <= k < |videos| ==> key(videos[k]) != value
  {
    if |videos| == 0 then None
    else if key(videos[0]) == value then Some(videos[0])
    else FindFirst(videos[1..], key, value)
  }

  function RowId(v: VideoRow): nat { v.id }

  function RowYoutubeId(v: VideoRow): string { v.youtubeVideoId }

  /** `videos.select("*").eq("id", id)`, first row. */
  function FindVideo(videos: seq<VideoRow>, id: nat): Option<VideoRow> {
    FindFirst(videos, RowId, id)
  }

  /** `videos.select("*").eq("youtube_video_id", youtubeVideoId)`, first row. */
  function FindByYoutubeId(videos: seq<VideoRow>, youtubeVideoId: string): Option<VideoRow> {
    FindFirst(videos, RowYoutubeId, youtubeVideoId)
  }

  /** `videos.update({"status": status}).eq("id", id)`: every row with that id gets the status;
      the others are untouched. */
  function WithStatus(videos: seq<VideoRow>, id: nat, status: Status): (r: seq<VideoRow>)
    ensures |r| == |videos|
    ensures forall k :: 0 <= k < |r| ==> r[k].id == videos[k].id
    ensures forall k :: 0 <= k < |r| ==>
      r[k] == if videos[k].id == id then videos[k].(status := status) else videos[k]
  {
    if |videos| == 0 then []
    else [if videos[0].id == id then videos[0].(status := status) else videos[0]] + WithStatus(videos[1..], id, status)
  }

  /** `videos.update({"summary": summary, "status": "ready"}).eq("id", id)`. */
  function WithSummary(videos: seq<VideoRow>, id: nat, summary: Summary): (r: seq<VideoRow>)
    ensures |r| == |videos|
    ensures forall k :: 0 <= k < |r| ==> r[k].id == videos[k].id
    ensures forall k :: 0 <= k < |r| ==>
      r[k] == if videos[k].id == id then videos[k].(status := Ready, summary := Some(summary)) else videos[k]
  {
    if |videos| == 0 then []
    else
      [if videos[0].id == id then videos[0].(status := Ready, summary := Some(summary)) else videos[0]]
      + WithSummary(videos[1..], id, summary)
  }

  /** `transcript_chunks.delete().eq("video_id", videoId)`: the remaining rows, in order. */
  function WithoutChunksOf(chunks: seq<ChunkRow>, videoId: nat): (r: seq<ChunkRow>)
    ensures forall row :: row in r <==> row in chunks && row.videoId != videoId
  {
    if |chunks| == 0 then []
    else (if chunks[0].videoId != videoId then [chunks[0]] else []) + WithoutChunksOf(chunks[1..], videoId)
  }

  /** The filters of the chunk-window query: this video, `end_time >= windowStart`,
      `start_time <= windowEnd`. */
  function WindowRows(chunks: seq<ChunkRow>, videoId: nat, windowStart: real, windowEnd: real): (r: seq<ChunkRow>)
    ensures forall row :: row in r <==>
      row in chunks && row.videoId == videoId && row.endTime >= windowStart && row.startTime <= windowEnd
  {
    if |chunks| == 0 then []
    else
      var row := chunks[0];
      (if row.videoId == videoId && row.endTime >= windowStart && row.startTime <= windowEnd then [row] else [])
      + WindowRows(chunks[1..], videoId, windowStart, windowEnd)
  }

  predicate SortedByStart(rows: seq<ChunkRow>) {
    forall j, k :: 0 <= j < k < |rows| ==> rows[j].startTime <= rows[k].startTime
  }

  /** Puts `x` after every row that starts no later, so rows with equal starts keep their
      order. */
  function InsertByStart(sorted: seq<ChunkRow>, x: ChunkRow): seq<ChunkRow> {
    if |sorted| == 0 then [x]
    else if x.startTime < sorted[0].startTime then [x] + sorted
    else [sorted[0]] + InsertByStart(sorted[1..], x)
  }

  /** Inserting adds exactly `x`. */
  lemma {:induction false} InsertByStartCount(sorted: seq<ChunkRow>, x: ChunkRow)
    ensures multiset(InsertByStart(sorted, x)) == multiset(sorted) + multiset{x}
  {
    if |sorted| > 0 && x.startTime >= sorted[0].startTime {
      InsertByStartCount(sorted[1..], x);
      assert sorted == [sorted[0]] + sorted[1..];
    }
  }

  predicate StartsFrom(rows: seq<ChunkRow>, bound: real) {
    forall k :: 0 <= k < |rows| ==> bound <= rows[k].startTime
  }

  /** A bound below every row and below `x` stays below every row after the insertion. */
  lemma {:induction false} InsertByStartBound(sorted: seq<ChunkRow>, x: ChunkRow, bound: real)
    requires StartsFrom(sorted, bound) && bound <= x.startTime
    ensures StartsFrom(InsertByStart(sorted, x), bound)
  {
    if |sorted| > 0 && x.startTime >= sorted[0].startTime {
      InsertByStartBound(sorted[1..], x, bound);
    }
  }

  /** Inserting keeps a sorted list sorted. */
  lemma {:induction false} InsertByStartSorted(sorted: seq<ChunkRow>, x: ChunkRow)
    requires SortedByStart(sorted)
    ensures SortedByStart(InsertByStart(sorted, x))
  {
    if |sorted| > 0 {
      var r := InsertByStart(sorted, x);
      if x.startTime < sorted[0].startTime {
        forall i, j | 0 <= i < j < |r| ensures r[i].startTime <= r[j].startTime {
          if i == 0 {
            assert r[j] == sorted[j - 1];
          } else {
            assert r[i] == sorted[i - 1] && r[j] == sorted[j - 1];
          }
        }
      } else {
        var rest := InsertByStart(sorted[1..], x);
        InsertByStartSorted(sorted[1..], x);
        InsertByStartBound(sorted[1..], x, sorted[0].startTime);
        assert r == [sorted[0]] + rest;
        forall i, j | 0 <= i < j < |r| ensures r[i].startTime <= r[j].startTime {
          assert r[j] == rest[j - 1];
          if i > 0 {
            assert r[i] == rest[i - 1];
          }
        }
      }
    }
  }

  /** `.order("start_time")`, as an insertion sort; rows that start together keep their stored
      order. */
  function SortByStart(rows: seq<ChunkRow>): seq<ChunkRow> {
    if |rows| == 0 then []
    else InsertByStart(SortByStart(rows[..|rows| - 1]), rows[|rows| - 1])
  }

  /** The sorted rows are the same rows, in start-time order. */
  lemma {:induction false} SortByStartSpec(rows: seq<ChunkRow>)
    ensures multiset(SortByStart(rows)) == multiset(rows)
    ensures SortedByStart(SortByStart(rows))
  {
    if |rows| > 0 {
      var init := rows[..|rows| - 1];
      SortByStartSpec(init);
      InsertByStartCount(SortByStart(init), rows[|rows| - 1]);
      InsertByStartSorted(SortByStart(init), rows[|rows| - 1]);
      assert rows == init + [rows[|rows| - 1]];
    }
  }

  /** The chunk-window query of both ask routes. */
  function ChunkWindowQuery(chunks: seq<ChunkRow>, videoId: nat, timestamp: real): seq<ChunkRow> {
    SortByStart(WindowRows(chunks, videoId, WindowStart(timestamp), WindowEnd(timestamp)))
  }

  /** `chunks_data`: the three fields `build_context` reads. */
  function ChunkData(rows: seq<ChunkRow>): (r: seq<Chunk>)
    ensures |r| == |rows|
    ensures forall k :: 0 <= k < |r| ==> r[k] == Chunk(rows[k].startTime, rows[k].endTime, rows[k].text)
  {
    if |rows| == 0 then [] else [Chunk(rows[0].startTime, rows[0].endTime, rows[0].text)] + ChunkData(rows[1..])
  }

  /** The query returns exactly this video's rows meeting the window, by start time. */
  lemma ChunkWindowQuerySpec(chunks: seq<ChunkRow>, videoId: nat, timestamp: real)
    ensures var r := ChunkWindowQuery(chunks, videoId, timestamp);
      && SortedByStart(r)
      && forall row :: row in r <==>
        row in chunks && row.videoId == videoId &&
        InWindow(Chunk(row.startTime, row.endTime, row.text), timestamp)
  {
    var rows := WindowRows(chunks, videoId, WindowStart(timestamp), WindowEnd(timestamp));
    var r := ChunkWindowQuery(chunks, videoId, timestamp);
    SortByStartSpec(rows);
    forall row ensures row in r <==> row in rows {
      assert row in r <==> row in multiset(r);
      assert row in rows <==> row in multiset(rows);
    }
  }

  /** The query and `build_context` use the same closed window, so `build_context`'s own filter
      keeps every fetched chunk. */
  lemma WindowRefilterKeepsAll(chunks: seq<ChunkRow>, videoId: nat, timestamp: real)
    ensures var data := ChunkData(ChunkWindowQuery(chunks, videoId, timestamp));
      SelectChunks(data, timestamp) == data
  {
    var r := ChunkWindowQuery(chunks, videoId, timestamp);
    ChunkWindowQuerySpec(chunks, videoId, timestamp);
    var data := ChunkData(r);
    forall k | 0 <= k < |data| ensures InWindow(data[k], timestamp) {
      assert r[k] in r;
    }
    SelectAllInWindow(data, timestamp);
  }

  lemma {:induction false} SelectAllInWindow(chunks: seq<Chunk>, timestamp: real)
    requires forall k :: 0 <= k < |chunks| ==> InWindow(chunks[k], timestamp)
    ensures SelectChunks(chunks, timestamp) == chunks
  {
    if |chunks| > 0 {
      SelectAllInWindow(chunks[1..], timestamp);
    }
  }

  /** `qa_history.select("*").eq("user_id", userId).eq("video_id", videoId).order("created_at")`,
      with rows created in the order they were inserted. */
  function QaQuery(qaHistory: seq<QaRow>, userId: string, videoId: nat): (r: seq<QaRow>)
    ensures forall row :: row in r <==> row in qaHistory && row.userId == userId && row.videoId == videoId
    ensures Seqs.IsSubseq(r, qaHistory)
  {
    if |qaHistory| == 0 then []
    else
      var rest := QaQuery(qaHistory[1..], userId, videoId);
      if qaHistory[0].userId == userId && qaHistory[0].videoId == videoId then
        assert ([qaHistory[0]] + rest)[1..] == rest;
        [qaHistory[0]] + rest
      else
        Seqs.SubseqDropHead(rest, qaHistory);
        rest
  }

  /** `qa_data`: the three fields `build_context` reads. */
  function QaData(rows: seq<QaRow>): (r: seq<QaItem>)
    ensures |r| == |rows|
    ensures forall k :: 0 <= k < |r| ==> r[k] == QaItem(rows[k].videoTimestamp, rows[k].question, rows[k].answer)
  {
    if |rows| == 0 then [] else [QaItem(rows[0].videoTimestamp, rows[0].question, rows[0].answer)] + QaData(rows[1..])
  }

  // ---- the store ----

  class Database {
    var videos: seq<VideoRow>
    var chunks: seq<ChunkRow>
    var qaHistory: seq<QaRow>
    var nextId: nat

    /** Every id was handed out by the counter, and video ids are unique. */
    ghost predicate Valid()
      reads this
    {
      && (forall k :: 0 <= k < |videos| ==> videos[k].id < nextId)
      && (forall k :: 0 <= k < |qaHistory| ==> qaHistory[k].id < nextId)
      && (forall j, k :: 0 <= j < k < |videos| ==> videos[j].id != videos[k].id)
    }

    constructor ()
      ensures Valid()
      ensures videos == [] && chunks == [] && qaHistory == []
    {
      videos := [];
      chunks := [];
      qaHistory := [];
      nextId := 0;
    }

    /** `qa_history.insert(entry)`: the stored row, with a fresh id. */
    method InsertQa(userId: string, videoId: nat, videoTimestamp: real, question: string, answer: string)
      returns (row: QaRow)
      requires Valid()
      modifies this
      ensures Valid()
      ensures row == QaRow(old(nextId), userId, videoId, videoTimestamp, question, answer)
      ensures qaHistory == old(qaHistory) + [row]
      ensures forall k :: 0 <= k < |old(qaHistory)| ==> old(qaHistory)[k].id != row.id
      ensures videos == old(videos) && chunks == old(chunks) && nextId == old(nextId) + 1
    {
      row := QaRow(nextId, userId, videoId, videoTimestamp, question, answer);
      qaHistory := qaHistory + [row];
      nextId := nextId + 1;
    }

    /** `videos.insert(data)` of a new video, which starts out `processing` without a
        summary. */
    method InsertVideo(youtubeVideoId: string, title: string, url: string) returns (row: VideoRow)
      requires Valid()
      modifies this
      ensures Valid()
      ensures row == VideoRow(old(nextId), youtubeVideoId, title, url, Processing, None)
      ensures videos == old(videos) + [row]
      ensures FindVideo(videos, row.id) == Some(row)
      ensures qaHistory == old(qaHistory) && chunks == old(chunks) && nextId == old(nextId) + 1
    {
      row := VideoRow(nextId, youtubeVideoId, title, url, Processing, None);
      FindAfterOthers(videos, row);
      videos := videos + [row];
      nextId := nextId + 1;
    }

    /** `transcript_chunks.insert(batch)`. */
    method InsertChunks(batch: seq<ChunkRow>)
      requires Valid()
      modifies this
      ensures Valid()
      ensures chunks == old(chunks) + batch
      ensures videos == old(videos) && qaHistory == old(qaHistory) && nextId == old(nextId)
    {
      chunks := chunks + batch;
    }

    /** `transcript_chunks.delete().eq("video_id", videoId)`. */
    method DeleteChunks(videoId: nat)
      requires Valid()
      modifies this
      ensures Valid()
      ensures chunks == WithoutChunksOf(old(chunks), videoId)
      ensures videos == old(videos) && qaHistory == old(qaHistory) && nextId == old(nextId)
    {
      chunks := WithoutChunksOf(chunks, videoId);
    }

    /** `videos.update({"status": status}).eq("id", id)`. */
    method UpdateStatus(id: nat, status: Status)
      requires Valid()
      modifies this
      ensures Valid()
      ensures videos == WithStatus(old(videos), id, status)
      ensures chunks == old(chunks) && qaHistory == old(qaHistory) && nextId == old(nextId)
    {
      videos := WithStatus(videos, id, status);
    }

    /** `videos.update({"summary": summary, "status": "ready"}).eq("id", id)`. */
    method UpdateReady(id: nat, summary: Summary)
      requires Valid()
      modifies this
      ensures Valid()
      ensures videos == WithSummary(old(videos), id, summary)
      ensures chunks == old(chunks) && qaHistory == old(qaHistory) && nextId == old(nextId)
    {
      videos := WithSummary(videos, id, summary);
    }
  }

  /** A row appended with an id no earlier row has is what a lookup of that id finds. */
  lemma {:induction false} FindAfterOthers(videos: seq<VideoRow>, row: VideoRow)
    requires forall k :: 0 <= k < |videos| ==> videos[k].id != row.id
    ensures FindVideo(videos + [row], row.id) == Some(row)
  {
    if |videos| > 0 {
      assert (videos + [row])[1..] == videos[1..] + [row];
      FindAfterOthers(videos[1..], row);
    } else {
      assert videos + [row] == [row];
    }
  }

  /** With unique ids, looking up a stored row's id finds that row. */
  lemma {:induction false} FindStored(videos: seq<VideoRow>, k: nat)
    requires k < |videos|
    requires forall i, j :: 0 <= i < j < |videos| ==> videos[i].id != videos[j].id
    ensures FindVideo(videos, videos[k].id) == Some(videos[k])
  {
    if k > 0 {
      assert videos[0].id != videos[k].id;
      FindStored(videos[1..], k - 1);
    }
  }

  /** A status update is seen by the next lookup of that id. */
  lemma {:induction false} FindWithStatus(videos: seq<VideoRow>, id: nat, status: Status)
    ensures FindVideo(WithStatus(videos, id, status), id) ==
      if FindVideo(videos, id).Some? then Some(FindVideo(videos, id).value.(status := status)) else None
  {
    if |videos| > 0 {
      FindWithStatus(videos[1..], id, status);
      assert WithStatus(videos, id, status)[1..] == WithStatus(videos[1..], id, status);
    }
  }

  /** With unique ids, the row found by its YouTube id is also what a lookup of its own id
      finds. */
  lemma {:induction false} FoundByYoutubeId(videos: seq<VideoRow>, youtubeVideoId: string)
    requires forall i, j :: 0 <= i < j < |videos| ==> videos[i].id != videos[j].id
    requires FindByYoutubeId(videos, youtubeVideoId).Some?
    ensures FindVideo(videos, FindByYoutubeId(videos, youtubeVideoId).value.id) == FindByYoutubeId(videos, youtubeVideoId)
  {
    if videos[0].youtubeVideoId != youtubeVideoId {
      var rest := videos[1..];
      FoundByYoutubeId(rest, youtubeVideoId);
      var v := FindByYoutubeId(rest, youtubeVideoId).value;
      var j :| 0 <= j < |rest| && rest[j] == v;
      assert videos[j + 1] == v;
    }
  }
}
