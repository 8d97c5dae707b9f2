/** `youtube_service`: video id extraction from the four accepted URL shapes, the metadata
    defaults, the classification of download errors and the acceptance decision. yt-dlp itself
    is not modelled: what it returns (or the error it raises) is an input. */
module YouTube {
  import opened Wrappers
  import opened Text

  /** `[a-zA-Z0-9_-]`. */
  predicate IsIdChar(c: char) {
    ('a' <= c <= 'z') || ('A' <= c <= 'Z') || ('0' <= c <= '9') || c == '_' || c == '-'
  }

  /** What `([a-zA-Z0-9_-]{11})` captures. */
  predicate IsVideoId(s: string) {
    |s| == 11 && forall i :: 0 <= i < |s| ==> IsIdChar(s[i])
  }

  /** The fixed text of each pattern of `YOUTUBE_PATTERNS`, in list order, without the optional
      `(?:https?://)?(?:www\.)?` in front. Dropping that optional part does not change what
      `re.search` captures: each fixed text contains its only `y` at its start, so two
      occurrences of it are at least its length (9 or more) apart, more than the longest
      optional part (`https://www.`, 12 characters, but never followed by a second occurrence
      within 9 characters of the first); the leftmost match therefore captures after the
      leftmost occurrence that is followed by eleven id characters. */
  const WatchCore: string := "youtube.com/watch?v="
  const ShortLinkCore: string := "youtu.be/"
  const EmbedCore: string := "youtube.com/embed/"
  const ShortsCore: string := "youtube.com/shorts/"
  const PatternCores: seq<string> := [WatchCore, ShortLinkCore, EmbedCore, ShortsCore]

  /** The pattern whose fixed text is `core` matches at index `i` of `url`. */
  predicate MatchAt(url: string, core: string, i: int) {
    OccursAt(url, core, i) && i + |core| + 11 <= |url| &&
    forall k :: i + |core| <= k < i + |core| + 11 ==> IsIdChar(url[k])
  }

  /** The group-1 text of a match at `i`. */
  function Captured(url: string, core: string, i: int): string
    requires MatchAt(url, core, i)
  {
    url[i + |core|..i + |core| + 11]
  }

  /** `re.search(pattern, url)` from index `from` on: the leftmost match, if any. */
  function Search(url: string, core: string, from: nat): Option<string>
    decreases |url| - from
  {
    if from > |url| then None
    else if MatchAt(url, core, from) then Some(Captured(url, core, from))
    else Search(url, core, from + 1)
  }

  /** `extract_video_id`: the capture of the first pattern, in list order, that matches. */
  function ExtractVideoId(url: string): Option<string> {
    FirstPattern(url, PatternCores)
  }

  function FirstPattern(url: string, cores: seq<string>): Option<string> {
    if |cores| == 0 then None
    else
      match Search(url, cores[0], 0)
      case Some(id) => Some(id)
      case None => FirstPattern(url, cores[1..])
  }

  /** `Search` finds the leftmost match at or after `from`, and nothing when there is none. */
  lemma {:induction false} SearchSpec(url: string, core: string, from: nat)
    ensures Search(url, core, from).None? <==> forall i :: from <= i ==> !MatchAt(url, core, i)
    ensures Search(url, core, from).Some? ==>
      exists i :: from <= i && MatchAt(url, core, i) && Search(url, core, from).value == Captured(url, core, i) &&
        forall j :: from <= j < i ==> !MatchAt(url, core, j)
    decreases |url| - from
  {
    if from <= |url| && !MatchAt(url, core, from) {
      SearchSpec(url, core, from + 1);
      if Search(url, core, from).Some? {
        var i :| from + 1 <= i && MatchAt(url, core, i) && Search(url, core, from).value == Captured(url, core, i) &&
          forall j :: from + 1 <= j < i ==> !MatchAt(url, core, j);
        assert forall j :: from <= j < i ==> !MatchAt(url, core, j);
      }
    }
  }

  /** Text after a match does not change what `Search` finds. */
  lemma {:induction false} SearchIgnoresTail(url: string, tail: string, core: string, from: nat)
    requires Search(url, core, from).Some?
    ensures Search(url + tail, core, from) == Search(url, core, from)
    decreases |url| - from
  {
    var u := url + tail;
    assert u[..|url|] == url;
    if MatchAt(url, core, from) {
      assert u[from..from + |core|] == url[from..from + |core|];
      assert Captured(u, core, from) == Captured(url, core, from);
    } else {
      SearchSpec(url, core, from);
      var i :| from <= i && MatchAt(url, core, i);
      assert from < i;
      assert from + |core| + 11 <= |url|;
      assert u[from..from + |core| + 11] == url[from..from + |core| + 11];
      assert u[from..from + |core|] == url[from..from + |core|];
      SearchIgnoresTail(url, tail, core, from + 1);
    }
  }

  /** A found id is eleven id characters. */
  lemma ExtractedIsVideoId(url: string)
    requires ExtractVideoId(url).Some?
    ensures IsVideoId(ExtractVideoId(url).value)
  {
    FirstPatternSpec(url, PatternCores);
  }

  /** `extract_video_id` returns the capture of the leftmost match of the first pattern that
      matches at all; it returns `None` exactly when no pattern matches anywhere. */
  lemma {:induction false} FirstPatternSpec(url: string, cores: seq<string>)
    ensures FirstPattern(url, cores).None? <==> forall k, i :: 0 <= k < |cores| ==> !MatchAt(url, cores[k], i)
    ensures FirstPattern(url, cores).Some? ==>
      exists k, i :: 0 <= k < |cores| && MatchAt(url, cores[k], i) &&
        FirstPattern(url, cores).value == Captured(url, cores[k], i) &&
        (forall k', j :: 0 <= k' < k ==> !MatchAt(url, cores[k'], j)) &&
        (forall j :: j < i ==> !MatchAt(url, cores[k], j))
  {
    if |cores| > 0 {
      SearchSpec(url, cores[0], 0);
      FirstPatternSpec(url, cores[1..]);
      match Search(url, cores[0], 0)
      case Some(id) =>
        var i :| 0 <= i && MatchAt(url, cores[0], i) && id == Captured(url, cores[0], i) &&
          forall j :: 0 <= j < i ==> !MatchAt(url, cores[0], j);
        assert forall j :: j < i ==> !MatchAt(url, cores[0], j);
      case None =>
        if FirstPattern(url, cores).Some? {
          var k, i :| 0 <= k < |cores| - 1 && MatchAt(url, cores[1..][k], i) &&
            FirstPattern(url, cores).value == Captured(url, cores[1..][k], i) &&
            (forall k', j :: 0 <= k' < k ==> !MatchAt(url, cores[1..][k'], j)) &&
            (forall j :: j < i ==> !MatchAt(url, cores[1..][k], j));
          assert cores[1..][k] == cores[k + 1];
          forall k', j | 0 <= k' < k + 1 ensures !MatchAt(url, cores[k'], j) {
            if k' > 0 {
              assert cores[k'] == cores[1..][k' - 1];
            }
          }
        } else {
          forall k, i | 0 <= k < |cores| ensures !MatchAt(url, cores[k], i) {
            if k > 0 {
              assert cores[k] == cores[1..][k - 1];
            }
          }
        }
    }
  }

  /** Each fixed text starts with its only `y`, and has a `.` at `DotOffset`. */
  function DotOffset(core: string): nat {
    if core == ShortLinkCore then 5 else 7
  }

  predicate WellShaped(core: string) {
    |core| > DotOffset(core) && core[0] == 'y' && core[DotOffset(core)] == '.' &&
    forall o :: 0 < o < |core| ==> core[o] != 'y'
  }

  lemma CoresWellShaped()
    ensures forall k :: 0 <= k < |PatternCores| ==> WellShaped(PatternCores[k])
  {
    assert WellShaped(WatchCore);
    assert WellShaped(ShortLinkCore);
    assert WellShaped(EmbedCore);
    assert WellShaped(ShortsCore);
  }

  /** Two different fixed texts disagree at a position both of them have. */
  lemma CoresDiffer(j: nat, k: nat)
    requires j < k < |PatternCores|
    ensures exists d :: 0 <= d < |PatternCores[j]| && d < |PatternCores[k]| && PatternCores[j][d] != PatternCores[k][d]
  {
    assert WatchCore[5] == 'b' && WatchCore[12] == 'w';
    assert ShortLinkCore[5] == '.';
    assert EmbedCore[5] == 'b' && EmbedCore[12] == 'e';
    assert ShortsCore[5] == 'b' && ShortsCore[12] == 's';
    var d := if j == 1 || k == 1 then 5 else 12;
    assert PatternCores[j][d] != PatternCores[k][d];
  }

  /** Away from the position of the fixed text, no pattern can match such a URL. */
  lemma NoMatchElsewhere(scheme: string, core: string, id: string, rest: string, c: string, i: int)
    requires WellShaped(core) && WellShaped(c)
    requires 'y' !in scheme && IsVideoId(id) && '.' !in rest
    requires i != |scheme|
    ensures !MatchAt(scheme + core + id + rest, c, i)
  {
    var url := scheme + core + id + rest;
    var p := |scheme|;
    var q := p + |core|;
    if 0 <= i && i + |c| <= |url| {
      if i < p {
        assert url[i] == scheme[i];
        assert scheme[i] in scheme;
        assert url[i..i + |c|][0] == url[i] != c[0];
      } else if i < q {
        assert url[i] == core[i - p];
        assert url[i..i + |c|][0] == url[i] != c[0];
      } else {
        var o := DotOffset(c);
        if i + o < q + 11 {
          assert url[i + o] == id[i + o - q];
        } else {
          assert url[i + o] == rest[i + o - q - 11];
          assert rest[i + o - q - 11] in rest;
        }
        assert url[i..i + |c|][o] == url[i + o] != c[o];
      }
    }
  }

  /** At the position of one fixed text, an earlier pattern does not match. */
  lemma NoEarlierPatternThere(j: nat, k: nat, url: string, p: nat)
    requires j < k < |PatternCores|
    requires OccursAt(url, PatternCores[k], p)
    ensures !MatchAt(url, PatternCores[j], p)
  {
    CoresDiffer(j, k);
    var core := PatternCores[k];
    var d :| 0 <= d < |PatternCores[j]| && d < |core| && PatternCores[j][d] != core[d];
    assert url[p + d] == core[d] by { assert url[p..p + |core|][d] == url[p + d]; }
    if p + |PatternCores[j]| <= |url| {
      assert url[p..p + |PatternCores[j]|][d] == url[p + d];
    }
  }

  /** The first pattern that finds something decides. */
  lemma {:induction false} FirstPatternAt(url: string, cores: seq<string>, k: nat, id: string)
    requires k < |cores|
    requires forall j :: 0 <= j < k ==> Search(url, cores[j], 0).None?
    requires Search(url, cores[k], 0) == Some(id)
    ensures FirstPattern(url, cores) == Some(id)
  {
    if k > 0 {
      FirstPatternAt(url, cores[1..], k - 1, id);
    }
  }

  /** The four URL shapes: `<scheme>` + fixed text + id + rest yields the id, whatever comes
      after it, as long as the scheme has no `y` and the rest has no `.` (otherwise the rest may
      hold a match of an earlier pattern, which then wins). */
  lemma UrlShapes(k: nat, scheme: string, id: string, rest: string)
    requires k < |PatternCores|
    requires 'y' !in scheme && IsVideoId(id) && '.' !in rest
    ensures ExtractVideoId(scheme + PatternCores[k] + id + rest) == Some(id)
  {
    var core := PatternCores[k];
    var url := scheme + core + id + rest;
    var p := |scheme|;
    CoresWellShaped();
    assert url[p..p + |core|] == core;
    assert url[p + |core|..p + |core| + 11] == id;
    assert MatchAt(url, core, p);
    forall j, i | 0 <= j < |PatternCores| && (j < k || i < p)
      ensures !MatchAt(url, PatternCores[j], i)
    {
      if i == p {
        NoEarlierPatternThere(j, k, url, p);
      } else {
        NoMatchElsewhere(scheme, core, id, rest, PatternCores[j], i);
      }
    }
    forall j | 0 <= j <= k ensures Search(url, PatternCores[j], 0) == if j < k then None else Some(id) {
      SearchSpec(url, PatternCores[j], 0);
    }
    FirstPatternAt(url, PatternCores, k, id);
  }

  // ---- metadata, error classification, acceptance ----

  /** The fields of yt-dlp's info dictionary that are read; `None` is a missing key. */
  datatype Info = Info(
    title: Option<string>, duration: Option<real>, description: Option<string>,
    uploader: Option<string>, isLive: Option<bool>, availability: Option<string>)

  datatype Metadata = Metadata(
    title: string, duration: real, description: string, uploader: string,
    isLive: bool, availability: string)

  /** What the metadata request does: returns info, or raises yt-dlp's `DownloadError`, or
      raises anything else. */
  datatype MetadataFetch = Fetched(info: Info) | DownloadError(message: string) | OtherError(message: string)

  const InvalidUrlMessage: string := "Invalid YouTube URL. Please provide a valid YouTube video link."
  const LiveMessage: string := "Live videos are not supported. Please use a recorded video."

  /** Which of the four `ValueError` messages a `DownloadError` turns into. */
  datatype DownloadErrorKind = PrivateVideo | AgeRestricted | Unavailable | Inaccessible

  /** The message raised for each kind; `Inaccessible` passes the original message on. */
  function KindMessage(kind: DownloadErrorKind, message: string): string {
    match kind
    case PrivateVideo => "This video is private and cannot be accessed."
    case AgeRestricted => "This video is age-restricted and cannot be processed."
    case Unavailable => "This video is unavailable."
    case Inaccessible => "Unable to access this video: " + message
  }

  /** The defaults `get_video_metadata` applies to a missing key. */
  function MetadataOf(info: Info): (m: Metadata)
    ensures info.title.None? ==> m.title == "Unknown Title"
    ensures info.duration.None? ==> m.duration == 0.0
    ensures info.isLive.None? ==> !m.isLive
    ensures info.availability.None? ==> m.availability == "public"
    ensures info.description.None? ==> m.description == ""
    ensures info.uploader.None? ==> m.uploader == ""
    ensures info.title.Some? ==> m.title == info.title.value
    ensures info.description.Some? ==> m.description == info.description.value
    ensures info.uploader.Some? ==> m.uploader == info.uploader.value
    ensures info.duration.Some? ==> m.duration == info.duration.value
    ensures info.isLive.Some? ==> m.isLive == info.isLive.value
    ensures info.availability.Some? ==> m.availability == info.availability.value
  {
    Metadata(info.title.GetOr("Unknown Title"), info.duration.GetOr(0.0), info.description.GetOr(""),
      info.uploader.GetOr(""), info.isLive.GetOr(false), info.availability.GetOr("public"))
  }

  /** The `DownloadError` branch as written: substring tests on the lower-cased message, first
      hit wins. The test for `"age"` also fires on words such as "webpage". */
  function ClassifyAsWritten(message: string): DownloadErrorKind {
    var m := Lower(message);
    if Contains(m, "private") then PrivateVideo
    else if Contains(m, "age") then AgeRestricted
    else if Contains(m, "unavailable") || Contains(m, "not available") then Unavailable
    else Inaccessible
  }

  predicate IsAsciiLetter(c: char) {
    ('a' <= c <= 'z') || ('A' <= c <= 'Z')
  }

  /** `w` occurs at `i` as a whole word: no letter right before or right after it. */
  predicate WordAt(s: string, w: string, i: int) {
    OccursAt(s, w, i) && (i == 0 || !IsAsciiLetter(s[i - 1])) &&
    (i + |w| == |s| || !IsAsciiLetter(s[i + |w|]))
  }

  predicate ContainsWord(s: string, w: string) {
    exists i :: 0 <= i <= |s| - |w| && WordAt(s, w, i)
  }

  /** The classification with the age test on the word "age" (as in "confirm your age" and
      "age-restricted"); the rest of the model uses this one. */
  function Classify(message: string): DownloadErrorKind {
    var m := Lower(message);
    if Contains(m, "private") then PrivateVideo
    else if ContainsWord(m, "age") then AgeRestricted
    else if Contains(m, "unavailable") || Contains(m, "not available") then Unavailable
    else Inaccessible
  }

  /** The order of the tests: a message naming "private" is reported private whatever else it
      says; the age restriction only without "private"; "unavailable" only without either. */
  lemma ClassifyOrder(message: string)
    ensures Classify(message) == PrivateVideo <==> Contains(Lower(message), "private")
    ensures Classify(message) == AgeRestricted <==>
      !Contains(Lower(message), "private") && ContainsWord(Lower(message), "age")
    ensures Classify(message) == Unavailable <==>
      !Contains(Lower(message), "private") && !ContainsWord(Lower(message), "age") &&
      (Contains(Lower(message), "unavailable") || Contains(Lower(message), "not available"))
  {
  }

  /** Every "age" in the lower-cased message is a whole word. */
  predicate AgeOnlyAsWord(message: string) {
    Contains(Lower(message), "age") ==> ContainsWord(Lower(message), "age")
  }

  /** Where "age" only ever occurs as a word, the corrected classification is the one written. */
  lemma ClassifyAgreesOnWords(message: string)
    requires AgeOnlyAsWord(message)
    ensures Classify(message) == ClassifyAsWritten(message)
  {
  }

  /** A whole-word occurrence is an occurrence, so the corrected test never reports an age
      restriction the written one would not. */
  lemma CorrectedAgeImpliesWritten(message: string)
    ensures Classify(message) == AgeRestricted ==> ClassifyAsWritten(message) == AgeRestricted
  {
    var m := Lower(message);
    if ContainsWord(m, "age") {
      var i :| 0 <= i <= |m| - 3 && WordAt(m, "age", i);
      assert OccursAt(m, "age", i);
    }
  }

  /** yt-dlp's message for a page it could not fetch. */
  const WebpageError := "Unable to download webpage"

  /** yt-dlp reports a network failure as "Unable to download webpage"; as written this is
      classified as an age restriction, while the corrected test passes the message on. */
  lemma WebpageMisclassified()
    ensures ClassifyAsWritten(WebpageError) == AgeRestricted
    ensures Classify(WebpageError) == Inaccessible
  {
    LowerWebpage();
    WebpageWords();
  }

  lemma LowerWebpage()
    ensures Lower("Unable to download webpage") == "unable to download webpage"
  {
    var msg := "Unable to download webpage";
    var m := "unable to download webpage";
    forall i | 0 <= i < |msg| ensures Lower(msg)[i] == m[i] {}
  }

  lemma WebpageWords()
    ensures OccursAt("unable to download webpage", "age", 23)
    ensures !Contains("unable to download webpage", "private")
    ensures !ContainsWord("unable to download webpage", "age")
    ensures !Contains("unable to download webpage", "unavailable")
    ensures !Contains("unable to download webpage", "not available")
  {
    var m := "unable to download webpage";
    NotContainsByChar(m, "private", 0);
    NotContainsByChar(m, "unavailable", 3);
    NotContainsByChar(m, "not available", 5);
    AgeInsideWebpage();
  }

  lemma AgeInsideWebpage()
    ensures OccursAt("unable to download webpage", "age", 23)
    ensures !ContainsWord("unable to download webpage", "age")
  {
    var m := "unable to download webpage";
    forall i | 0 <= i <= |m| - 3 ensures !WordAt(m, "age", i) {
      assert m[i..i + 3][0] == m[i];
      assert m[i..i + 3][1] == m[i + 1];
    }
  }

  /** The age-restriction report as yt-dlp words it is still recognised. */
  lemma ConfirmAgeRecognised()
    ensures Classify("Sign in to confirm your age") == AgeRestricted
  {
    var m := "sign in to confirm your age";
    LowerConfirmAge();
    assert WordAt(m, "age", 24);
    NotContainsByChar(m, "private", 0);
  }

  lemma LowerConfirmAge()
    ensures Lower("Sign in to confirm your age") == "sign in to confirm your age"
  {
    var msg := "Sign in to confirm your age";
    var m := "sign in to confirm your age";
    forall i | 0 <= i < |msg| ensures Lower(msg)[i] == m[i] {}
  }

  /** `get_video_metadata`: defaults on success, the classified message on a `DownloadError`,
      a generic message on any other error. */
  function GetVideoMetadata(fetch: MetadataFetch): Result<Metadata, string> {
    match fetch
    case Fetched(info) => Success(MetadataOf(info))
    case DownloadError(message) => Failure(KindMessage(Classify(message), message))
    case OtherError(message) => Failure("Failed to fetch video information: " + message)
  }

  /** A video that passed: its id, its metadata, and whether the over-three-hours warning was
      logged. */
  datatype Validated = Validated(videoId: string, metadata: Metadata, longVideoWarning: bool)

  /** `validate_video`. `fetch` is what the metadata request would do for the extracted id. */
  function ValidateVideo(url: string, fetch: MetadataFetch): Result<Validated, string> {
    match ExtractVideoId(url)
    case None => Failure(InvalidUrlMessage)
    case Some(id) =>
      match GetVideoMetadata(fetch)
      case Failure(e) => Failure(e)
      case Success(metadata) =>
        if metadata.isLive then Failure(LiveMessage)
        else Success(Validated(id, metadata, metadata.duration > 3.0 * 3600.0))
  }

  /** The acceptance rules: a URL without an id is rejected whatever the metadata would be (so
      before it is fetched); a live video is rejected; any other fetched video is accepted, with
      the id from the URL, and a duration over three hours only raises the warning. */
  lemma ValidateVideoSpec(url: string, fetch: MetadataFetch)
    ensures ExtractVideoId(url).None? ==> ValidateVideo(url, fetch) == Failure(InvalidUrlMessage)
    ensures ExtractVideoId(url).Some? && fetch.Fetched? ==>
      (ValidateVideo(url, fetch).Success? <==> !MetadataOf(fetch.info).isLive)
    ensures ValidateVideo(url, fetch).Success? ==>
      var v := ValidateVideo(url, fetch).value;
      fetch.Fetched? && Some(v.videoId) == ExtractVideoId(url) && IsVideoId(v.videoId) &&
      v.metadata == MetadataOf(fetch.info) && !v.metadata.isLive &&
      (v.longVideoWarning <==> v.metadata.duration > 10800.0)
    ensures fetch.DownloadError? && ExtractVideoId(url).Some? ==>
      ValidateVideo(url, fetch) == Failure(KindMessage(Classify(fetch.message), fetch.message))
    ensures fetch.DownloadError? && ExtractVideoId(url).Some? && AgeOnlyAsWord(fetch.message) ==>
      ValidateVideo(url, fetch) == Failure(KindMessage(ClassifyAsWritten(fetch.message), fetch.message))
  {
    if ExtractVideoId(url).Some? {
      ExtractedIsVideoId(url);
    }
    if fetch.DownloadError? && AgeOnlyAsWord(fetch.message) {
      ClassifyAgreesOnWords(fetch.message);
    }
  }

  /** Where the two tests part: for yt-dlp's "Unable to download webpage" on a valid URL, the
      code as written raises the age-restriction message, and the model passes the message on. */
  lemma ValidateWebpageDiffers(url: string)
    requires ExtractVideoId(url).Some?
    ensures KindMessage(ClassifyAsWritten(WebpageError), WebpageError) ==
      "This video is age-restricted and cannot be processed."
    ensures ValidateVideo(url, DownloadError(WebpageError)) ==
      Failure("Unable to access this video: " + WebpageError)
  {
    WebpageMisclassified();
  }
}
