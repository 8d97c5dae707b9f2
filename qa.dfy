/** The `/qa/ask` and `/qa/ask/stream` routes: request guards, the context queries, and the
    store write after the answer. The model's reply and the streamed deltas are inputs. */
module QaRoutes {
  import opened Wrappers
  import opened Text
  import opened Seqs
  import opened AiService
  import opened Store

  /** The fields the routes read from the request body; `None` stands for absent. */
  datatype AskRequest = AskRequest(videoId: Option<nat>, timestamp: Option<real>, question: Option<string>)

  /** `request.get("timestamp", 0)`. */
  function RequestTimestamp(req: AskRequest): real {
    req.timestamp.GetOr(0.0)
  }

  /** `request.get("question", "")`. */
  function RequestQuestion(req: AskRequest): string {
    req.question.GetOr("")
  }

  const RequiredDetail: string := "video_id and question are required"
  const NotFoundDetail: string := "Video not found"
  const NotReadyDetail: string := "Video is still being processed"

  /** The guards both routes run before any work: the video to answer about, or the HTTP
      error. */
  function CheckAsk(videos: seq<VideoRow>, req: AskRequest): (r: Result<VideoRow, HttpError>)
    ensures r.Success? ==>
      && req.videoId.Some? && RequestQuestion(req) != ""
      && r.value in videos && r.value.id == req.videoId.value && r.value.status == Ready
    ensures r.Failure? ==> r.error.status == 400 || r.error.status == 404
  {
    if req.videoId.None? || RequestQuestion(req) == "" then Failure(HttpError(400, RequiredDetail))
    else
      match FindVideo(videos, req.videoId.value)
      case None => Failure(HttpError(404, NotFoundDetail))
      case Some(video) =>
        if video.status != Ready then Failure(HttpError(400, NotReadyDetail)) else Success(video)
  }

  /** A missing field is refused with 400 whatever the store holds, so no read is needed to
      refuse it. */
  lemma RequiredFieldsFirst(videos1: seq<VideoRow>, videos2: seq<VideoRow>, req: AskRequest)
    requires req.videoId.None? || RequestQuestion(req) == ""
    ensures CheckAsk(videos1, req) == CheckAsk(videos2, req) == Failure(HttpError(400, RequiredDetail))
  {
  }

  /** A request is accepted exactly when both fields are present and a stored video with that
      id is ready; an unknown id is 404 and a video still processing or failed is 400. */
  lemma CheckAskSpec(videos: seq<VideoRow>, req: AskRequest)
    requires UniqueIds(videos)
    ensures CheckAsk(videos, req).Success? <==>
      && req.videoId.Some? && RequestQuestion(req) != ""
      && exists k :: 0 <= k < |videos| && videos[k].id == req.videoId.value && videos[k].status == Ready
    ensures req.videoId.Some? && RequestQuestion(req) != "" ==>
      (CheckAsk(videos, req) == Failure(HttpError(404, NotFoundDetail)) <==>
       forall k :: 0 <= k < |videos| ==> videos[k].id != req.videoId.value)
  {
    if req.videoId.Some? && RequestQuestion(req) != "" {
      var id := req.videoId.value;
      var found := FindVideo(videos, id);
      if found.Some? {
        var j :| 0 <= j < |videos| && videos[j] == found.value;
        forall k | 0 <= k < |videos| && videos[k].id == id ensures videos[k] == found.value {
          assert videos[k].id == videos[j].id;
        }
      }
    }
  }

  /** Video ids are unique in the table. */
  predicate UniqueIds(videos: seq<VideoRow>) {
    forall j, k :: 0 <= j < k < |videos| ==> videos[j].id != videos[k].id
  }

  /** The context both routes build for an accepted request: the stored summary, the chunk
      window and this user's earlier questions on the video. */
  function AskContext(video: VideoRow, chunks: seq<ChunkRow>, qaHistory: seq<QaRow>, userId: string, timestamp: real): string {
    Join(ContextParts(video.summary, ChunkData(ChunkWindowQuery(chunks, video.id, timestamp)), timestamp,
                      QaData(QaQuery(qaHistory, userId, video.id))), "\n")
  }

  /** The queries and `build_context` call shared by both routes. */
  method GatherContext(db: Database, video: VideoRow, userId: string, timestamp: real) returns (context: string)
    ensures context == AskContext(video, db.chunks, db.qaHistory, userId, timestamp)
  {
    var chunksData := ChunkData(ChunkWindowQuery(db.chunks, video.id, timestamp));
    var qaData := QaData(QaQuery(db.qaHistory, userId, video.id));
    context := BuildContext(video.summary, chunksData, timestamp, qaData);
  }

  /** `ask_question_endpoint`. `reply` is what the model answers for the context and question.
      A refused request and a failed answer store nothing; an answer is stored as one new row,
      which is the response. */
  method AskQuestion(db: Database, req: AskRequest, userId: string, reply: Result<string, string>)
    returns (response: Result<QaRow, HttpError>, context: string)
    requires db.Valid()
    modifies db
    ensures db.Valid()
    ensures db.videos == old(db.videos) && db.chunks == old(db.chunks)
    ensures CheckAsk(old(db.videos), req).Failure? ==>
      response == Failure(CheckAsk(old(db.videos), req).error) && db.qaHistory == old(db.qaHistory)
    ensures CheckAsk(old(db.videos), req).Success? ==>
      context == AskContext(CheckAsk(old(db.videos), req).value, old(db.chunks), old(db.qaHistory), userId, RequestTimestamp(req))
    ensures CheckAsk(old(db.videos), req).Success? && reply.Failure? ==>
      response == Failure(HttpError(500, "Failed to generate answer: " + reply.error)) &&
      db.qaHistory == old(db.qaHistory)
    ensures CheckAsk(old(db.videos), req).Success? && reply.Success? ==>
      response == Success(QaRow(old(db.nextId), userId, req.videoId.value, RequestTimestamp(req), RequestQuestion(req), reply.value)) &&
      db.qaHistory == old(db.qaHistory) + [response.value]
  {
    context := "";
    var checked := CheckAsk(db.videos, req);
    if checked.Failure? {
      return Failure(checked.error), context;
    }
    var video := checked.value;
    var timestamp := RequestTimestamp(req);
    var question := RequestQuestion(req);
    context := GatherContext(db, video, userId, timestamp);
    var answer := AnswerQuestion(reply);
    if answer.Failure? {
      return Failure(HttpError(500, answer.error)), context;
    }
    var row := db.InsertQa(userId, req.videoId.value, timestamp, question, answer.value);
    response := Success(row);
  }

  /** The server-sent events of the stream: `data: {"text": ...}` and
      `data: {"done": true, "qa_id": ...}`. */
  datatype StreamEvent = TextEvent(text: string) | DoneEvent(qaId: nat)

  /** The text a client assembles from the events, in order. */
  function StreamedText(events: seq<StreamEvent>): string {
    if |events| == 0 then ""
    else StreamedText(events[..|events| - 1]) + (if events[|events| - 1].TextEvent? then events[|events| - 1].text else "")
  }

  /** `event_generator`: one text event per fragment in arrival order, then one insert of the
      concatenated answer, then one done event carrying the new row's id. What was streamed is
      what was stored. */
  method EventGenerator(db: Database, fragments: seq<string>, userId: string, videoId: nat, timestamp: real, question: string)
    returns (events: seq<StreamEvent>)
    requires db.Valid()
    modifies db
    ensures db.Valid()
    ensures db.videos == old(db.videos) && db.chunks == old(db.chunks)
    ensures |events| == |fragments| + 1
    ensures forall k :: 0 <= k < |fragments| ==> events[k] == TextEvent(fragments[k])
    ensures db.qaHistory == old(db.qaHistory) + [QaRow(old(db.nextId), userId, videoId, timestamp, question, Join(fragments, ""))]
    ensures events[|fragments|] == DoneEvent(old(db.nextId))
    ensures StreamedText(events) == db.qaHistory[|db.qaHistory| - 1].answer
  {
    var fullAnswerParts: seq<string> := [];
    events := [];
    for i := 0 to |fragments|
      invariant fullAnswerParts == fragments[..i]
      invariant |events| == i
      invariant forall k :: 0 <= k < i ==> events[k] == TextEvent(fragments[k])
      invariant StreamedText(events) == Join(fullAnswerParts, "")
      invariant unchanged(db)
    {
      var chunk := fragments[i];
      ConcatAppend(fullAnswerParts, [chunk]);
      assert (events + [TextEvent(chunk)])[..i] == events;
      fullAnswerParts := fullAnswerParts + [chunk];
      events := events + [TextEvent(chunk)];
    }
    assert fullAnswerParts == fragments;
    var fullAnswer := Join(fullAnswerParts, "");
    var row := db.InsertQa(userId, videoId, timestamp, question, fullAnswer);
    assert (events + [DoneEvent(row.id)])[..|events|] == events;
    events := events + [DoneEvent(row.id)];
  }

  /** `ask_question_stream_endpoint`: the same guards and context, then the events for a model
      run that delivered `deltas` and possibly ended in an exception (`failed`). The stored
      answer is all the text the model sent, plus the error text when it failed. */
  method AskQuestionStream(db: Database, req: AskRequest, userId: string, deltas: seq<Option<string>>, failed: bool)
    returns (response: Result<seq<StreamEvent>, HttpError>, context: string)
    requires db.Valid()
    modifies db
    ensures db.Valid()
    ensures db.videos == old(db.videos) && db.chunks == old(db.chunks)
    ensures CheckAsk(old(db.videos), req).Failure? ==>
      response == Failure(CheckAsk(old(db.videos), req).error) && db.qaHistory == old(db.qaHistory)
    ensures CheckAsk(old(db.videos), req).Success? ==>
      && context == AskContext(CheckAsk(old(db.videos), req).value, old(db.chunks), old(db.qaHistory), userId, RequestTimestamp(req))
      && response.Success?
      && |db.qaHistory| == |old(db.qaHistory)| + 1
      && db.qaHistory[..|old(db.qaHistory)|] == old(db.qaHistory)
      && var row := db.qaHistory[|old(db.qaHistory)|];
         && row == QaRow(old(db.nextId), userId, req.videoId.value, RequestTimestamp(req), RequestQuestion(req), row.answer)
         && row.answer == Join(Map(deltas, DeltaText), "") + (if failed then StreamErrorFragment else "")
         && StreamedText(response.value) == row.answer
         && |response.value| > 0
         && response.value[|response.value| - 1] == DoneEvent(row.id)
  {
    context := "";
    var checked := CheckAsk(db.videos, req);
    if checked.Failure? {
      return Failure(checked.error), context;
    }
    var video := checked.value;
    var timestamp := RequestTimestamp(req);
    var question := RequestQuestion(req);
    context := GatherContext(db, video, userId, timestamp);
    var fragments := AnswerQuestionStream(deltas, failed);
    var events := EventGenerator(db, fragments, userId, req.videoId.value, timestamp, question);
    assert old(db.qaHistory) + [db.qaHistory[|old(db.qaHistory)|]] == db.qaHistory;
    response := Success(events);
  }
}
