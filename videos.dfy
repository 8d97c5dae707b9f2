/** The `/videos` submission route and the background job it schedules: how a video's row and
    its transcript rows change. The transcript, the batch insert that fails (if any) and the
    summary reply are inputs. */
module VideoRoutes {
  import opened Wrappers
  import opened Transcription
  import opened AiService
  import opened YouTube
  import opened Store
  import opened Seqs

  /** `chunk_records`: one row per transcript chunk, in order, tagged with the video. */
  function ChunkRecords(videoId: nat, chunks: seq<Chunk>): (r: seq<ChunkRow>)
    ensures |r| == |chunks|
    ensures forall k :: 0 <= k < |r| ==> r[k].videoId == videoId
    ensures ChunkData(r) == chunks
  {
    if |chunks| == 0 then []
    else
      var c := chunks[0];
      var rest := ChunkRecords(videoId, chunks[1..]);
      assert ChunkData([ChunkRow(videoId, c.startTime, c.endTime, c.text)] + rest)[1..] == ChunkData(rest);
      [ChunkRow(videoId, c.startTime, c.endTime, c.text)] + rest
  }

  const BatchSize: nat := 100

  function Min(a: int, b: int): int {
    if a < b then a else b
  }

  /** The slices `xs[i:i + 100]` for `i` in `range(0, len(xs), 100)`. */
  function Batches<T>(xs: seq<T>): seq<seq<T>>
    decreases |xs|
  {
    if |xs| == 0 then [] else [xs[..Min(BatchSize, |xs|)]] + Batches(xs[Min(BatchSize, |xs|)..])
  }

  function Flatten<T>(xss: seq<seq<T>>): seq<T> {
    if |xss| == 0 then [] else xss[0] + Flatten(xss[1..])
  }

  /** The batches are ⌈n/100⌉ consecutive pieces of 1 to 100 elements that together are the
      whole list, so none for an empty list. */
  lemma {:induction false} BatchesSpec<T>(xs: seq<T>)
    ensures Flatten(Batches(xs)) == xs
    ensures |Batches(xs)| == (|xs| + BatchSize - 1) / BatchSize
    ensures forall k :: 0 <= k < |Batches(xs)| ==> 1 <= |Batches(xs)[k]| <= BatchSize
  {
    if |xs| > 0 {
      var n := Min(BatchSize, |xs|);
      BatchesSpec(xs[n..]);
      assert xs[..n] + xs[n..] == xs;
      assert Batches(xs)[1..] == Batches(xs[n..]);
    }
  }

  /** Batch `b` starts at element `100 * b`. */
  lemma {:induction false} BatchAt<T>(xs: seq<T>, b: nat)
    requires BatchSize * b < |xs|
    ensures b < |Batches(xs)|
    ensures Batches(xs)[b] == xs[BatchSize * b..Min(BatchSize * b + BatchSize, |xs|)]
  {
    if b > 0 {
      assert Min(BatchSize, |xs|) == BatchSize;
      var rest := xs[BatchSize..];
      assert Batches(xs) == [xs[..BatchSize]] + Batches(rest);
      BatchAt(rest, b - 1);
      SliceOfSuffix(xs, BatchSize, BatchSize * (b - 1), Min(BatchSize * (b - 1) + BatchSize, |rest|));
    }
  }

  lemma SliceOfSuffix<T>(xs: seq<T>, n: nat, lo: nat, hi: nat)
    requires n <= |xs| && lo <= hi <= |xs| - n
    ensures xs[n..][lo..hi] == xs[n + lo..n + hi]
  {
  }

  lemma {:induction false} FlattenSnoc<T>(xss: seq<seq<T>>, x: seq<T>)
    ensures Flatten(xss + [x]) == Flatten(xss) + x
  {
    if |xss| == 0 {
      assert xss + [x] == [x];
    } else {
      assert (xss + [x])[1..] == xss[1..] + [x];
      FlattenSnoc(xss[1..], x);
    }
  }

  /** `_process_video`. `transcript` is what `get_transcript` returned or raised; `failingBatch`
      is the index of the first batch insert that raises, if one does; `summaryReply` is what
      the summary request gave. On success every record is stored and the video is ready with
      its summary; on any failure the video is marked failed and the batches already inserted
      stay. */
  method ProcessVideo(db: Database, videoId: nat, title: string, transcript: Result<(seq<Chunk>, Source), string>,
                      failingBatch: Option<nat>, summaryReply: Option<Summary>)
    requires db.Valid()
    modifies db
    ensures db.Valid()
    ensures db.qaHistory == old(db.qaHistory) && db.nextId == old(db.nextId)
    ensures transcript.Failure? ==>
      db.chunks == old(db.chunks) && db.videos == WithStatus(old(db.videos), videoId, Failed)
    ensures transcript.Success? ==>
      var records := ChunkRecords(videoId, transcript.value.0);
      var batches := Batches(records);
      if failingBatch.Some? && failingBatch.value < |batches| then
        && db.chunks == old(db.chunks) + Flatten(batches[..failingBatch.value])
        && db.videos == WithStatus(old(db.videos), videoId, Failed)
      else
        && db.chunks == old(db.chunks) + records
        && db.videos == WithSummary(old(db.videos), videoId, GenerateVideoSummary(title, summaryReply))
  {
    if transcript.Failure? {
      db.UpdateStatus(videoId, Failed);
      return;
    }
    var chunks := transcript.value.0;
    var chunkRecords := ChunkRecords(videoId, chunks);
    var inserted := InsertBatches(db, chunkRecords, failingBatch);
    if !inserted {
      db.UpdateStatus(videoId, Failed);
      return;
    }
    var summary := GenerateVideoSummary(title, summaryReply);
    db.UpdateReady(videoId, summary);
  }

  /** The loop of `_process_video` that inserts the records 100 at a time. It stops at the
      batch `failingBatch`, if there is one, with the earlier batches stored; otherwise every
      record is stored. */
  method InsertBatches(db: Database, records: seq<ChunkRow>, failingBatch: Option<nat>) returns (inserted: bool)
    requires db.Valid()
    modifies db
    ensures db.Valid()
    ensures db.videos == old(db.videos) && db.qaHistory == old(db.qaHistory) && db.nextId == old(db.nextId)
    ensures inserted <==> !(failingBatch.Some? && failingBatch.value < |Batches(records)|)
    ensures inserted ==> db.chunks == old(db.chunks) + records
    ensures !inserted ==> db.chunks == old(db.chunks) + Flatten(Batches(records)[..failingBatch.value])
  {
    ghost var batches := Batches(records);
    BatchesSpec(records);
    var i := 0;
    var b := 0;
    while i < |records|
      invariant i == BatchSize * b && b <= |batches|
      invariant db.chunks == old(db.chunks) + Flatten(batches[..b])
      invariant failingBatch.Some? ==> b <= failingBatch.value
      invariant db.Valid() && db.videos == old(db.videos)
      invariant db.qaHistory == old(db.qaHistory) && db.nextId == old(db.nextId)
    {
      var batch := records[i..Min(i + BatchSize, |records|)];
      BatchAt(records, b);
      if failingBatch == Some(b) {
        return false;
      }
      StoredAfterBatch(old(db.chunks), batches, b, db.chunks, batch);
      db.InsertChunks(batch);
      i := i + BatchSize;
      b := b + 1;
    }
    assert b == |batches|;
    assert batches[..b] == batches;
    return true;
  }

  /** Storing batch `b` after the earlier ones leaves the first `b + 1` batches stored. */
  lemma StoredAfterBatch(before: seq<ChunkRow>, batches: seq<seq<ChunkRow>>, b: nat, stored: seq<ChunkRow>, batch: seq<ChunkRow>)
    requires b < |batches| && batch == batches[b] && stored == before + Flatten(batches[..b])
    ensures stored + batch == before + Flatten(batches[..b + 1])
  {
    FlattenSnoc(batches[..b], batch);
    TakeSnoc(batches, b);
  }

  /** A scheduled `_process_video(video_id, youtube_video_id, title)`. */
  datatype ProcessTask = ProcessTask(videoId: nat, youtubeVideoId: string, title: string)

  /** `submit_video`. `fetch` is what the metadata request gives for the URL's id. Returns the
      response and the background tasks scheduled. An invalid or inaccessible video is refused
      with 400 and changes nothing. */
  method SubmitVideo(db: Database, url: string, fetch: MetadataFetch)
    returns (response: Result<VideoRow, HttpError>, scheduled: seq<ProcessTask>)
    requires db.Valid()
    modifies db
    ensures db.Valid()
    ensures db.qaHistory == old(db.qaHistory)
    ensures ValidateVideo(url, fetch).Failure? ==>
      && response == Failure(HttpError(400, ValidateVideo(url, fetch).error)) && scheduled == []
      && db.videos == old(db.videos) && db.chunks == old(db.chunks)
    ensures ValidateVideo(url, fetch).Success? ==>
      Registered(old(db.videos), old(db.chunks), old(db.nextId), url, ValidateVideo(url, fetch).value,
                 db.videos, db.chunks, response, scheduled)
    ensures response.Success? ==> FindVideo(db.videos, response.value.id) == Some(response.value)
    ensures forall k :: 0 <= k < |scheduled| ==>
      response.Success? && scheduled[k].videoId == response.value.id && response.value.status == Processing
  {
    var validated := ValidateVideo(url, fetch);
    if validated.Failure? {
      return Failure(HttpError(400, validated.error)), [];
    }
    var video;
    video, scheduled := Register(db, url, validated.value);
    response := Success(video);
  }

  /** What `submit_video` does with a validated video, as a relation between the tables before
      and after: a video already stored is returned as it is, unless it failed; then it goes
      back to processing, loses its transcript rows and is processed again. A new video is
      stored as processing and processed once. */
  ghost predicate Registered(videos: seq<VideoRow>, chunks: seq<ChunkRow>, nextId: nat, url: string, validated: Validated,
                             videos': seq<VideoRow>, chunks': seq<ChunkRow>,
                             response: Result<VideoRow, HttpError>, scheduled: seq<ProcessTask>)
  {
    var youtubeVideoId := validated.videoId;
    match FindByYoutubeId(videos, youtubeVideoId)
    case Some(video) =>
      if video.status == Failed then
        && response == Success(video.(status := Processing))
        && videos' == WithStatus(videos, video.id, Processing)
        && chunks' == WithoutChunksOf(chunks, video.id)
        && scheduled == [ProcessTask(video.id, youtubeVideoId, video.title)]
      else
        && response == Success(video)
        && videos' == videos && chunks' == chunks
        && scheduled == []
    case None =>
      var row := VideoRow(nextId, youtubeVideoId, validated.metadata.title, url, Processing, None);
      && response == Success(row)
      && videos' == videos + [row] && chunks' == chunks
      && scheduled == [ProcessTask(row.id, youtubeVideoId, row.title)]
  }

  /** The store steps of `submit_video` after validation. */
  method Register(db: Database, url: string, validated: Validated) returns (video: VideoRow, scheduled: seq<ProcessTask>)
    requires db.Valid()
    modifies db
    ensures db.Valid()
    ensures db.qaHistory == old(db.qaHistory)
    ensures Registered(old(db.videos), old(db.chunks), old(db.nextId), url, validated, db.videos, db.chunks, Success(video), scheduled)
    ensures FindVideo(db.videos, video.id) == Some(video)
    ensures forall k :: 0 <= k < |scheduled| ==> scheduled[k].videoId == video.id && video.status == Processing
  {
    var youtubeVideoId := validated.videoId;
    var existing := FindByYoutubeId(db.videos, youtubeVideoId);
    if existing.None? {
      video := db.InsertVideo(youtubeVideoId, validated.metadata.title, url);
      scheduled := [ProcessTask(video.id, youtubeVideoId, video.title)];
      return;
    }
    video := existing.value;
    FoundByYoutubeId(db.videos, youtubeVideoId);
    scheduled := [];
    if video.status == Failed {
      video, scheduled := Retry(db, video, youtubeVideoId);
    }
  }

  /** The retry of a failed video: back to processing, its transcript rows deleted, and one
      job scheduled. */
  method Retry(db: Database, failed: VideoRow, youtubeVideoId: string) returns (video: VideoRow, scheduled: seq<ProcessTask>)
    requires db.Valid() && FindVideo(db.videos, failed.id) == Some(failed)
    modifies db
    ensures db.Valid()
    ensures db.qaHistory == old(db.qaHistory)
    ensures video == failed.(status := Processing)
    ensures db.videos == WithStatus(old(db.videos), failed.id, Processing)
    ensures db.chunks == WithoutChunksOf(old(db.chunks), failed.id)
    ensures scheduled == [ProcessTask(failed.id, youtubeVideoId, failed.title)]
    ensures FindVideo(db.videos, video.id) == Some(video)
  {
    FindWithStatus(db.videos, failed.id, Processing);
    db.UpdateStatus(failed.id, Processing);
    db.DeleteChunks(failed.id);
    scheduled := [ProcessTask(failed.id, youtubeVideoId, failed.title)];
    video := failed.(status := Processing);
  }

  /** Registering a video moves a stored video only from failed back to processing, adds rows
      only as processing, and schedules at most one job. */
  lemma RegisterTransitions(videos: seq<VideoRow>, chunks: seq<ChunkRow>, nextId: nat, url: string, validated: Validated,
                            videos': seq<VideoRow>, chunks': seq<ChunkRow>,
                            response: Result<VideoRow, HttpError>, scheduled: seq<ProcessTask>)
    requires forall i, j :: 0 <= i < j < |videos| ==> videos[i].id != videos[j].id
    requires Registered(videos, chunks, nextId, url, validated, videos', chunks', response, scheduled)
    ensures |videos| <= |videos'| && |scheduled| <= 1
    ensures forall k :: 0 <= k < |videos| ==>
      videos'[k].status == videos[k].status || (videos[k].status == Failed && videos'[k].status == Processing)
    ensures forall k :: |videos| <= k < |videos'| ==> videos'[k].status == Processing
  {
    var found := FindByYoutubeId(videos, validated.videoId);
    if found.Some? && found.value.status == Failed {
      var j :| 0 <= j < |videos| && videos[j] == found.value;
      forall k | 0 <= k < |videos| && videos[k].id == found.value.id ensures videos[k].status == Failed {
        assert k == j;
      }
    }
  }
}
