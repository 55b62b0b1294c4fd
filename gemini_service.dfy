/** The video-generation service (services/geminiService.ts): resolving the API
    key, turning the image's data URL into a base64 payload, submitting one
    Veo request, polling the long-running operation until it is done, and
    turning the finished operation into a playable URL or an error message.

    The Google GenAI SDK, the `window.aistudio` host object, `process.env`
    and the `FileReader` are not modelled as code: their answers are inputs
    (a `Host`, the reader's data URL inside an `ImageFile`, the submission's
    `Reply` and the sequence of `Reply`s the status calls give), and every
    call the service makes on them is recorded as an `Event`. */
module GeminiService {
  import opened Wrappers
  import opened Types

  // ---------------------------------------------------------------------
  // Constants of the source
  // ---------------------------------------------------------------------

  const VeoModel: string := "veo-3.1-fast-generate-preview"
  const Resolution720p: string := "720p"
  const AspectRatio16x9: string := "16:9"
  /** The fixed wait before each status call, in milliseconds. */
  const PollIntervalMs: nat := 5000

  const KeyMissingMessage: string := "API Key selection failed or was cancelled."
  const NoVideoUriMessage: string := "No video URI returned from generation."
  const GenerateFallbackMessage: string := "Failed to generate video"
  const KeyParam: string := "&key="

  // ---------------------------------------------------------------------
  // The collaborators' data
  // ---------------------------------------------------------------------

  /** What `window.aistudio` offers: whether `hasSelectedApiKey` is a
      function, what it answers, and whether `openSelectKey` is a function. */
  datatype AiStudio = AiStudio(
    hasSelectedApiKeyIsFunction: bool,
    hasSelectedApiKey: bool,
    openSelectKeyIsFunction: bool)

  /** The host: `window.aistudio` (absent or present) and the value of
      `process.env.API_KEY` at the moment it is read (absent or a string). */
  datatype Host = Host(aistudio: Option<AiStudio>, envApiKey: Option<string>)

  datatype Video = Video(uri: Option<string>)
  datatype GeneratedVideo = GeneratedVideo(video: Option<Video>)
  datatype VideosResponse = VideosResponse(generatedVideos: Option<seq<GeneratedVideo>>)

  /** One snapshot of the long-running operation, as the SDK returns it. */
  datatype Operation = Operation(name: string, done: bool, response: Option<VideosResponse>)

  /** What an SDK call gives back: a snapshot, or a thrown error with its
      `message` (the empty string when the message is empty or missing). */
  datatype Reply = Returned(operation: Operation) | Threw(message: string)

  datatype ImageInput = ImageInput(imageBytes: Option<string>, mimeType: string)
  datatype VideoConfig = VideoConfig(numberOfVideos: nat, resolution: string, aspectRatio: string)
  datatype GenerationRequest = GenerationRequest(
    model: string, prompt: string, image: ImageInput, config: VideoConfig)

  /** Every call the service makes on its collaborators, in order. */
  datatype Event =
    | HasSelectedApiKey
    | OpenSelectKey
    | CreateClient(apiKey: string)
    | GenerateVideos(request: GenerationRequest)
    | Sleep(ms: nat)
    | GetVideosOperation(operation: Operation)

  // ---------------------------------------------------------------------
  // getApiKey
  // ---------------------------------------------------------------------

  datatype KeyLookup = KeyLookup(key: string, calls: seq<Event>)

  /** getApiKey: probe `window.aistudio`, open the key dialog when no key is
      selected, then read `process.env.API_KEY || ''`. */
  function GetApiKey(host: Host): (r: KeyLookup)
    // the key is the environment's value, or '' when that is missing or empty
    ensures r.key == "" <==> (host.envApiKey == None || host.envApiKey == Some(""))
    ensures r.key != "" ==> host.envApiKey == Some(r.key)
    // the host is asked only when aistudio exists and offers the function
    ensures HasSelectedApiKey in r.calls <==>
              host.aistudio.Some? && host.aistudio.value.hasSelectedApiKeyIsFunction
    // the dialog is opened only when no key is selected and it can be opened
    ensures OpenSelectKey in r.calls <==>
              host.aistudio.Some? && host.aistudio.value.hasSelectedApiKeyIsFunction
              && !host.aistudio.value.hasSelectedApiKey
              && host.aistudio.value.openSelectKeyIsFunction
    // nothing but these two probes happens, the check first
    ensures r.calls == [] || r.calls == [HasSelectedApiKey]
            || r.calls == [HasSelectedApiKey, OpenSelectKey]
  {
    var calls :=
      match host.aistudio
      case None => []
      case Some(studio) =>
        if !studio.hasSelectedApiKeyIsFunction then []
        else if studio.hasSelectedApiKey then [HasSelectedApiKey]
        else if studio.openSelectKeyIsFunction then [HasSelectedApiKey, OpenSelectKey]
        else [HasSelectedApiKey];
    KeyLookup(host.envApiKey.GetOr(""), calls)
  }

  // ---------------------------------------------------------------------
  // result.split(',')[1]
  // ---------------------------------------------------------------------

  /** JavaScript's `s.split(',')`: the maximal comma-free pieces between commas. */
  function Split(s: string): (parts: seq<string>)
    ensures |parts| >= 1
    ensures forall i :: 0 <= i < |parts| ==> ',' !in parts[i]
    ensures |parts| == 1 <==> ',' !in s
    decreases |s|
  {
    if s == [] then [""]
    else
      var rest := Split(s[1..]);
      if s[0] == ',' then [""] + rest
      else [[s[0]] + rest[0]] + rest[1..]
  }

  /** `parts.join(',')`, the inverse of Split. */
  function Join(parts: seq<string>): string
    requires |parts| >= 1
  {
    if |parts| == 1 then parts[0] else parts[0] + "," + Join(parts[1..])
  }

  /** The base64 payload of a data URL: the second comma-separated segment,
      or `undefined` (None) when there is no comma. */
  function Base64Payload(dataUrl: string): (payload: Option<string>)
    ensures payload.Some? <==> ',' in dataUrl
    ensures payload.Some? ==> ',' !in payload.value
  {
    var parts := Split(dataUrl);
    if |parts| >= 2 then Some(parts[1]) else None
  }

  // ---------------------------------------------------------------------
  // The request, the URI and the error messages
  // ---------------------------------------------------------------------

  /** The `generateVideos` argument built at lines 44-56. */
  function VideoRequest(prompt: string, imageBytes: Option<string>, mimeType: string): (request: GenerationRequest)
    // the fixed model and configuration, around the caller's prompt and image
    ensures request.model == VeoModel && request.prompt == prompt
    ensures request.image.imageBytes == imageBytes && request.image.mimeType == mimeType
    ensures request.config.numberOfVideos == 1
    ensures request.config.resolution == Resolution720p && request.config.aspectRatio == AspectRatio16x9
  {
    GenerationRequest(VeoModel, prompt, ImageInput(imageBytes, mimeType),
                      VideoConfig(1, Resolution720p, AspectRatio16x9))
  }

  /** `operation.response?.generatedVideos?.[0]?.video?.uri`. */
  function VideoUri(op: Operation): (uri: Option<string>)
    // a URI is found only along the whole optional chain, and then it is the first video's
    ensures uri.Some? ==>
              && op.response.Some? && op.response.value.generatedVideos.Some?
              && |op.response.value.generatedVideos.value| > 0
              && op.response.value.generatedVideos.value[0].video.Some?
              && uri == op.response.value.generatedVideos.value[0].video.value.uri
    // the whole chain gives exactly the first video's URI
    ensures (&& op.response.Some? && op.response.value.generatedVideos.Some?
             && |op.response.value.generatedVideos.value| > 0
             && op.response.value.generatedVideos.value[0].video.Some?) ==>
              uri == op.response.value.generatedVideos.value[0].video.value.uri
    // any missing link in the chain gives undefined
    ensures (|| op.response.None? || op.response.value.generatedVideos.None?
             || op.response.value.generatedVideos.value == []
             || op.response.value.generatedVideos.value[0].video.None?) ==> uri.None?
  {
    match op.response
    case None => None
    case Some(response) =>
      match response.generatedVideos
      case None => None
      case Some(videos) =>
        if |videos| == 0 then None
        else match videos[0].video
          case None => None
          case Some(video) => video.uri
  }

  /** Whether the URI is falsy: `undefined` or the empty string. */
  predicate MissingUri(uri: Option<string>): (missing: bool)
    ensures !missing <==> uri.Some? && |uri.value| > 0
  {
    uri == None || uri == Some("")
  }

  /** Removes a trailing `&key=<apiKey>`; the inverse of KeyedUrl. */
  function StripKey(url: string, apiKey: string): Option<string>
  {
    var suffix := KeyParam + apiKey;
    if |suffix| <= |url| && url[|url| - |suffix|..] == suffix
    then Some(url[..|url| - |suffix|])
    else None
  }

  /** `${videoUri}&key=${apiKey}`. */
  function KeyedUrl(videoUri: string, apiKey: string): (url: string)
    ensures |url| == |videoUri| + |KeyParam| + |apiKey|
    ensures url[..|videoUri|] == videoUri
    ensures url[|videoUri|..] == KeyParam + apiKey
    ensures StripKey(url, apiKey) == Some(videoUri)
  {
    videoUri + KeyParam + apiKey
  }

  /** `error.message || "Failed to generate video"`. */
  function ErrorMessage(message: string): (r: string)
    ensures r != ""
    ensures message != "" ==> r == message
    ensures message == "" ==> r == GenerateFallbackMessage
  {
    if message == "" then GenerateFallbackMessage else message
  }

  // ---------------------------------------------------------------------
  // The poll loop, as a specification
  // ---------------------------------------------------------------------

  /** How the poll loop ends: a done snapshot, an error thrown by a status
      call, or (when the given replies run out first) still waiting. */
  datatype PollEnd = Completed(operation: Operation) | PollThrew(message: string) | StillWaiting

  /** `passed` lists the snapshot handed to each status call, in order. */
  datatype PollRun = PollRun(passed: seq<Operation>, end: PollEnd)

  /** `while (!operation.done) { wait 5s; operation = getVideosOperation(operation) }`
      from the moment `op` is held and `from` status calls have been made;
      the i-th status call answers `replies[i]`. */
  function PollLoop(op: Operation, replies: seq<Reply>, from: nat): (r: PollRun)
    requires from <= |replies|
    decreases |replies| - from
    // at most one status call per remaining reply; a completed loop holds a done snapshot
    ensures |r.passed| <= |replies| - from
    ensures r.end.Completed? ==> r.end.operation.done
  {
    if op.done then PollRun([], Completed(op))
    else if from == |replies| then PollRun([], StillWaiting)
    else
      match replies[from]
      case Threw(message) => PollRun([op], PollThrew(message))
      case Returned(next) =>
        var rest := PollLoop(next, replies, from + 1);
        PollRun([op] + rest.passed, rest.end)
  }

  /** What the loop hands to the status calls and where it stops, for every
      sequence of replies. */
  lemma {:induction false} PollLoopPassesPrevious(op: Operation, replies: seq<Reply>, from: nat)
    requires from <= |replies|
    ensures var r := PollLoop(op, replies, from);
      // at most one status call per reply; only snapshots that are not done
      // are ever passed on
      && from + |r.passed| <= |replies|
      && (forall j :: 0 <= j < |r.passed| ==> !r.passed[j].done)
      // the first call passes the snapshot held, every later one the
      // snapshot the previous call returned
      && (r.passed != [] ==> r.passed[0] == op)
      && (forall j :: 1 <= j < |r.passed| ==> replies[from + j - 1] == Returned(r.passed[j]))
      // the loop stops at a done snapshot, the first thrown error, or when
      // the replies run out
      && (r.end.Completed? ==> r.end.operation.done)
      && (r.end.Completed? && r.passed == [] ==> r.end.operation == op)
      && (r.end.Completed? && r.passed != [] ==>
            replies[from + |r.passed| - 1] == Returned(r.end.operation))
      && (r.end.PollThrew? ==>
            r.passed != [] && replies[from + |r.passed| - 1] == Threw(r.end.message))
      && (r.end.StillWaiting? ==> from + |r.passed| == |replies| && (r.passed == [] ==> !op.done))
    decreases |replies| - from
  {
    if !op.done && from < |replies| && replies[from].Returned? {
      PollLoopPassesPrevious(replies[from].operation, replies, from + 1);
    }
  }

  /** The calls the poll loop makes: a 5000 ms sleep, then one status call
      with the snapshot held at that point, once per passed snapshot. */
  function PollCalls(passed: seq<Operation>): seq<Event>
  {
    if passed == [] then []
    else PollCalls(passed[..|passed| - 1]) + [Sleep(PollIntervalMs), GetVideosOperation(passed[|passed| - 1])]
  }

  /** One more turn of the loop adds one sleep and one status call. */
  lemma PollCallsSnoc(passed: seq<Operation>, op: Operation)
    ensures PollCalls(passed + [op]) == PollCalls(passed) + [Sleep(PollIntervalMs), GetVideosOperation(op)]
  {
    assert (passed + [op])[..|passed|] == passed;
  }

  /** Every call of the loop is a sleep or a status call. */
  lemma {:induction false} PollCallsAreSleepsAndStatusCalls(passed: seq<Operation>)
    ensures forall k :: 0 <= k < |PollCalls(passed)| ==>
              PollCalls(passed)[k].Sleep? || PollCalls(passed)[k].GetVideosOperation?
    decreases |passed|
  {
    if passed != [] {
      PollCallsAreSleepsAndStatusCalls(passed[..|passed| - 1]);
    }
  }

  // ---------------------------------------------------------------------
  // generateArchitectureVideo, as a specification
  // ---------------------------------------------------------------------

  /** How the service call ends: the returned URL, the message of the error
      it throws, or not at all within the status replies given. */
  datatype JobOutcome = Resolved(url: string) | Rejected(message: string) | StillPolling

  datatype Job = Job(outcome: JobOutcome, calls: seq<Event>)

  /** Lines 64-70 and the catch at 72-75, once the loop has ended. */
  function FinishJob(end: PollEnd, apiKey: string): (outcome: JobOutcome)
    // the call settles iff the loop did, and returns a URL iff the done snapshot has a URI
    ensures outcome.StillPolling? <==> end.StillWaiting?
    ensures outcome.Resolved? <==> end.Completed? && !MissingUri(VideoUri(end.operation))
    ensures outcome.Resolved? ==> StripKey(outcome.url, apiKey) == VideoUri(end.operation)
    // a thrown status error keeps its message; every rejection has one
    ensures end.PollThrew? ==> outcome == Rejected(ErrorMessage(end.message))
    ensures outcome.Rejected? ==> outcome.message != ""
  {
    match end
    case StillWaiting => StillPolling
    case PollThrew(message) => Rejected(ErrorMessage(message))
    case Completed(op) =>
      var videoUri := VideoUri(op);
      if MissingUri(videoUri) then Rejected(ErrorMessage(NoVideoUriMessage))
      else Resolved(KeyedUrl(videoUri.value, apiKey))
  }

  /** generateArchitectureVideo(imageFile, prompt) when the submission answers
      `submission` and the status calls answer `replies` in turn. */
  function GenerateVideo(host: Host, imageFile: ImageFile, prompt: string,
                         submission: Reply, replies: seq<Reply>): (job: Job)
    // the key probes come first, whatever follows
    ensures |GetApiKey(host).calls| <= |job.calls|
    ensures job.calls[..|GetApiKey(host).calls|] == GetApiKey(host).calls
    // only a submitted request can be polled or return a URL
    ensures !job.outcome.Rejected? ==> GetApiKey(host).key != "" && submission.Returned?
  {
    var lookup := GetApiKey(host);
    if lookup.key == "" then Job(Rejected(KeyMissingMessage), lookup.calls)
    else
      var request := VideoRequest(prompt, Base64Payload(imageFile.dataUrl), imageFile.mimeType);
      var submitted := lookup.calls + [CreateClient(lookup.key), GenerateVideos(request)];
      match submission
      case Threw(message) => Job(Rejected(ErrorMessage(message)), submitted)
      case Returned(first) =>
        var run := PollLoop(first, replies, 0);
        Job(FinishJob(run.end, lookup.key), submitted + PollCalls(run.passed))
  }

  // ---------------------------------------------------------------------
  // Properties of the base64 extraction
  // ---------------------------------------------------------------------

  /** Joining the pieces of a split gives the string back. */
  lemma {:induction false} JoinSplit(s: string)
    ensures Join(Split(s)) == s
    decreases |s|
  {
    if s != [] {
      JoinSplit(s[1..]);
      var rest := Split(s[1..]);
      if s[0] != ',' && |rest| > 1 {
        assert Join(rest) == rest[0] + "," + Join(rest[1..]);
        assert Split(s)[1..] == rest[1..];
      }
    }
  }

  /** Splitting a comma-free prefix glues it to the first piece of the rest. */
  lemma {:induction false} SplitCommaFreePrefix(p: string, t: string)
    requires ',' !in p
    ensures Split(p + t) == [p + Split(t)[0]] + Split(t)[1..]
    decreases |p|
  {
    if p == [] {
      assert p + t == t && p + Split(t)[0] == Split(t)[0];
      assert Split(t) == [Split(t)[0]] + Split(t)[1..];
    } else {
      assert (p + t)[1..] == p[1..] + t;
      assert (p + t)[0] == p[0] && p[0] in p;
      SplitCommaFreePrefix(p[1..], t);
      assert [p[0]] + (p[1..] + Split(t)[0]) == p + Split(t)[0];
    }
  }

  /** A leading comma starts with an empty piece. */
  lemma SplitLeadingComma(x: string)
    ensures Split("," + x) == [""] + Split(x)
  {
    assert ("," + x)[1..] == x;
  }

  /** Splitting the join of comma-free pieces gives the pieces back. */
  lemma {:induction false} SplitJoin(parts: seq<string>)
    requires |parts| >= 1
    requires forall i :: 0 <= i < |parts| ==> ',' !in parts[i]
    ensures Split(Join(parts)) == parts
    decreases |parts|
  {
    if |parts| == 1 {
      SplitCommaFreePrefix(parts[0], "");
      assert parts[0] + "" == parts[0];
    } else {
      SplitJoin(parts[1..]);
      var tail := "," + Join(parts[1..]);
      assert Join(parts) == parts[0] + tail;
      SplitCommaFreePrefix(parts[0], tail);
      SplitLeadingComma(Join(parts[1..]));
      assert parts[0] + "" == parts[0];
      assert parts == [parts[0]] + parts[1..];
    }
  }

  /** The payload is the segment between the first and the second comma
      (or the end of the URL). */
  lemma PayloadIsSecondSegment(prefix: string, segment: string, rest: string)
    requires ',' !in prefix && ',' !in segment
    requires rest == [] || rest[0] == ','
    ensures Base64Payload(prefix + "," + segment + rest) == Some(segment)
  {
    var tail := segment + rest;
    assert prefix + "," + segment + rest == prefix + ("," + tail);
    SplitCommaFreePrefix(prefix, "," + tail);
    SplitLeadingComma(tail);
    SplitCommaFreePrefix(segment, rest);
    assert Split(rest)[0] == "" by {
      if rest != [] {
        assert rest[0] == ',';
      }
    }
    assert Split(tail)[0] == segment;
    assert Split(prefix + ("," + tail))[1] == Split(tail)[0];
  }

  /** With exactly one comma, the payload is everything after it. */
  lemma PayloadAfterOnlyComma(header: string, data: string)
    requires ',' !in header && ',' !in data
    ensures Base64Payload(header + "," + data) == Some(data)
  {
    PayloadIsSecondSegment(header, data, "");
    assert header + "," + data + "" == header + "," + data;
  }

  lemma PayloadOfPngDataUrl()
    ensures Base64Payload("data:image/png;base64,XYZ") == Some("XYZ")
  {
    PayloadAfterOnlyComma("data:image/png;base64", "XYZ");
    assert "data:image/png;base64" + "," + "XYZ" == "data:image/png;base64,XYZ";
  }

  // ---------------------------------------------------------------------
  // Properties of the poll loop
  // ---------------------------------------------------------------------

  /** Every status call is preceded by exactly one 5000 ms sleep and passes
      the snapshot held at that moment. */
  lemma {:induction false} PollCallsShape(passed: seq<Operation>)
    ensures |PollCalls(passed)| == 2 * |passed|
    ensures forall j :: 0 <= j < |passed| ==>
              PollCalls(passed)[2 * j] == Sleep(PollIntervalMs)
              && PollCalls(passed)[2 * j + 1] == GetVideosOperation(passed[j])
    decreases |passed|
  {
    if passed != [] {
      PollCallsShape(passed[..|passed| - 1]);
    }
  }

  /** Given snapshots `snaps`, where `snaps[0]` is held after `from` status
      calls and the next calls give `snaps[1]`, `snaps[2]`, ...: the loop makes
      one status call per snapshot that is not done and stops exactly at the
      first done one. */
  lemma {:induction false} PollStopsAtFirstDone(snaps: seq<Operation>, replies: seq<Reply>, from: nat)
    requires |snaps| >= 1 && from + |snaps| - 1 <= |replies|
    requires forall j :: 0 <= j < |snaps| - 1 ==> !snaps[j].done
    requires forall k :: from <= k < from + |snaps| - 1 ==> replies[k] == Returned(snaps[k - from + 1])
    requires snaps[|snaps| - 1].done
    ensures PollLoop(snaps[0], replies, from)
            == PollRun(snaps[..|snaps| - 1], Completed(snaps[|snaps| - 1]))
    decreases |snaps|
  {
    if |snaps| > 1 {
      assert replies[from] == Returned(snaps[1]);
      PollStopsAtFirstDone(snaps[1..], replies, from + 1);
      assert [snaps[0]] + snaps[1..][..|snaps| - 2] == snaps[..|snaps| - 1];
    }
  }

  /** The loop has no bound and no timeout: as long as every snapshot is not
      done it keeps waiting and polling, one status call per reply, and never
      ends with an error of its own. */
  lemma {:induction false} PollNeverTimesOut(snaps: seq<Operation>, replies: seq<Reply>, from: nat)
    requires |snaps| >= 1 && from + |snaps| == |replies| + 1
    requires forall j :: 0 <= j < |snaps| ==> !snaps[j].done
    requires forall k :: from <= k < from + |snaps| - 1 ==> replies[k] == Returned(snaps[k - from + 1])
    ensures PollLoop(snaps[0], replies, from) == PollRun(snaps[..|snaps| - 1], StillWaiting)
    decreases |snaps|
  {
    if |snaps| > 1 {
      assert replies[from] == Returned(snaps[1]);
      PollNeverTimesOut(snaps[1..], replies, from + 1);
      assert [snaps[0]] + snaps[1..][..|snaps| - 2] == snaps[..|snaps| - 1];
    }
  }

  /** A status call that throws ends the loop at once: no further call. */
  lemma {:induction false} PollAbortsOnError(snaps: seq<Operation>, replies: seq<Reply>,
                                             from: nat, message: string)
    requires 1 <= |snaps| && from + |snaps| <= |replies|
    requires forall j :: 0 <= j < |snaps| ==> !snaps[j].done
    requires forall k :: from <= k < from + |snaps| - 1 ==> replies[k] == Returned(snaps[k - from + 1])
    requires replies[from + |snaps| - 1] == Threw(message)
    ensures PollLoop(snaps[0], replies, from) == PollRun(snaps, PollThrew(message))
    decreases |snaps|
  {
    if |snaps| > 1 {
      assert replies[from] == Returned(snaps[1]);
      PollAbortsOnError(snaps[1..], replies, from + 1, message);
      assert [snaps[0]] + snaps[1..] == snaps;
    }
  }

  // ---------------------------------------------------------------------
  // Properties of the whole service call
  // ---------------------------------------------------------------------

  predicate IsProbe(e: Event)
  {
    e == HasSelectedApiKey || e == OpenSelectKey
  }

  /** An empty key ends the call with the key message before any client is
      created or any request is made. */
  lemma EmptyKeyStopsEarly(host: Host, imageFile: ImageFile, prompt: string,
                           submission: Reply, replies: seq<Reply>)
    requires GetApiKey(host).key == ""
    ensures var job := GenerateVideo(host, imageFile, prompt, submission, replies);
      job.outcome == Rejected(KeyMissingMessage)
      && job.calls == GetApiKey(host).calls
      && forall e :: e in job.calls ==> IsProbe(e)
  {
  }

  /** With a key, the client gets exactly that key and exactly one request
      is submitted: the fixed Veo model and configuration, the prompt, the
      file's MIME type and the payload of its data URL. */
  lemma SubmittedRequestIsFixed(host: Host, imageFile: ImageFile, prompt: string,
                                submission: Reply, replies: seq<Reply>)
    requires GetApiKey(host).key != ""
    ensures var job := GenerateVideo(host, imageFile, prompt, submission, replies);
      var lookup := GetApiKey(host);
      && |job.calls| >= |lookup.calls| + 2
      && job.calls[..|lookup.calls|] == lookup.calls
      && job.calls[|lookup.calls|] == CreateClient(lookup.key)
      && job.calls[|lookup.calls| + 1] == GenerateVideos(GenerationRequest(
           VeoModel, prompt, ImageInput(Base64Payload(imageFile.dataUrl), imageFile.mimeType),
           VideoConfig(1, "720p", "16:9")))
      && (forall k :: |lookup.calls| + 2 <= k < |job.calls| ==>
            job.calls[k].Sleep? || job.calls[k].GetVideosOperation?)
  {
    var lookup := GetApiKey(host);
    var job := GenerateVideo(host, imageFile, prompt, submission, replies);
    if submission.Returned? {
      var run := PollLoop(submission.operation, replies, 0);
      var prefix := lookup.calls + [CreateClient(lookup.key), GenerateVideos(VideoRequest(prompt, Base64Payload(imageFile.dataUrl), imageFile.mimeType))];
      assert job.calls == prefix + PollCalls(run.passed);
      PollCallsAreSleepsAndStatusCalls(run.passed);
      forall k | |lookup.calls| + 2 <= k < |job.calls|
        ensures job.calls[k].Sleep? || job.calls[k].GetVideosOperation?
      {
        assert job.calls[k] == PollCalls(run.passed)[k - |prefix|];
      }
    }
  }

  /** A failed submission is never followed by a status call. */
  lemma SubmissionErrorMeansNoPolling(host: Host, imageFile: ImageFile, prompt: string,
                                      message: string, replies: seq<Reply>)
    ensures var job := GenerateVideo(host, imageFile, prompt, Threw(message), replies);
      && (GetApiKey(host).key != "" ==> job.outcome == Rejected(ErrorMessage(message)))
      && forall e :: e in job.calls ==> !e.GetVideosOperation? && !e.Sleep?
  {
  }

  /** A run of not-done snapshots ending in a done one: the status calls are
      exactly one per not-done snapshot, each after one sleep and passing
      that snapshot, and the outcome is decided by the done snapshot alone. */
  lemma JobPollsUntilFirstDone(host: Host, imageFile: ImageFile, prompt: string,
                               snaps: seq<Operation>, replies: seq<Reply>)
    requires GetApiKey(host).key != ""
    requires |snaps| >= 1 && |snaps| - 1 <= |replies|
    requires forall j :: 0 <= j < |snaps| - 1 ==> !snaps[j].done && replies[j] == Returned(snaps[j + 1])
    requires snaps[|snaps| - 1].done
    ensures var job := GenerateVideo(host, imageFile, prompt, Returned(snaps[0]), replies);
      var lookup := GetApiKey(host);
      var polls := job.calls[|lookup.calls| + 2..];
      && |job.calls| == |lookup.calls| + 2 + 2 * (|snaps| - 1)
      && (forall j :: 0 <= j < |snaps| - 1 ==>
            polls[2 * j] == Sleep(PollIntervalMs) && polls[2 * j + 1] == GetVideosOperation(snaps[j]))
      && job.outcome == FinishJob(Completed(snaps[|snaps| - 1]), lookup.key)
  {
    PollStopsAtFirstDone(snaps, replies, 0);
    PollCallsShape(snaps[..|snaps| - 1]);
  }

  /** When every snapshot stays not done, the call never settles and never
      reports a timeout: after any number of replies it is still polling. */
  lemma JobNeverTimesOut(host: Host, imageFile: ImageFile, prompt: string,
                         snaps: seq<Operation>, replies: seq<Reply>)
    requires GetApiKey(host).key != ""
    requires |snaps| == |replies| + 1
    requires forall j :: 0 <= j < |snaps| ==> !snaps[j].done
    requires forall j :: 0 <= j < |replies| ==> replies[j] == Returned(snaps[j + 1])
    ensures var job := GenerateVideo(host, imageFile, prompt, Returned(snaps[0]), replies);
      job.outcome == StillPolling
      && |job.calls| == |GetApiKey(host).calls| + 2 + 2 * |replies|
  {
    PollNeverTimesOut(snaps, replies, 0);
    PollCallsShape(snaps[..|replies|]);
  }

  /** The call succeeds exactly when there is a key, the submission and every
      status call answered, and the done snapshot names a non-empty URI of a
      first video; the URL is then that URI with `&key=<key>` appended. */
  lemma ResolvedExactly(host: Host, imageFile: ImageFile, prompt: string,
                        submission: Reply, replies: seq<Reply>)
    ensures var job := GenerateVideo(host, imageFile, prompt, submission, replies);
      var key := GetApiKey(host).key;
      job.outcome.Resolved? <==>
        && key != ""
        && submission.Returned?
        && PollLoop(submission.operation, replies, 0).end.Completed?
        && !MissingUri(VideoUri(PollLoop(submission.operation, replies, 0).end.operation))
    ensures var job := GenerateVideo(host, imageFile, prompt, submission, replies);
      job.outcome.Resolved? ==>
        var done := PollLoop(submission.operation, replies, 0).end.operation;
        && done.done
        && done.response.Some?
        && done.response.value.generatedVideos.Some?
        && |done.response.value.generatedVideos.value| > 0
        && done.response.value.generatedVideos.value[0].video.Some?
        && var uri := done.response.value.generatedVideos.value[0].video.value.uri;
        && uri.Some? && uri.value != ""
        && job.outcome.url == uri.value + "&key=" + GetApiKey(host).key
    // and conversely, in the snapshot's own terms
    ensures var job := GenerateVideo(host, imageFile, prompt, submission, replies);
      var key := GetApiKey(host).key;
      (&& key != ""
       && submission.Returned?
       && PollLoop(submission.operation, replies, 0).end.Completed?
       && var done := PollLoop(submission.operation, replies, 0).end.operation;
       && done.response.Some?
       && done.response.value.generatedVideos.Some?
       && |done.response.value.generatedVideos.value| > 0
       && done.response.value.generatedVideos.value[0].video.Some?
       && var uri := done.response.value.generatedVideos.value[0].video.value.uri;
       && uri.Some? && uri.value != "") ==>
        var uri := PollLoop(submission.operation, replies, 0).end.operation
                     .response.value.generatedVideos.value[0].video.value.uri;
        job.outcome == Resolved(uri.value + "&key=" + key)
  {
    if submission.Returned? {
      PollLoopPassesPrevious(submission.operation, replies, 0);
    }
  }

  /** A done snapshot without a response, with no or an empty video list, or
      whose first video has no or an empty URI, ends in the no-URI error and
      never in a URL. */
  lemma MissingUriIsAnError(host: Host, imageFile: ImageFile, prompt: string,
                            submission: Reply, replies: seq<Reply>)
    requires GetApiKey(host).key != "" && submission.Returned?
    requires PollLoop(submission.operation, replies, 0).end.Completed?
    requires var done := PollLoop(submission.operation, replies, 0).end.operation;
      || done.response.None?
      || done.response.value.generatedVideos.None?
      || done.response.value.generatedVideos.value == []
      || done.response.value.generatedVideos.value[0].video.None?
      || MissingUri(done.response.value.generatedVideos.value[0].video.value.uri)
    ensures GenerateVideo(host, imageFile, prompt, submission, replies).outcome
            == Rejected(NoVideoUriMessage)
  {
  }

  /** Every error the call throws has a non-empty message: the remote one
      when it has one, otherwise the fallback. */
  lemma RejectionsCarryAMessage(host: Host, imageFile: ImageFile, prompt: string,
                                submission: Reply, replies: seq<Reply>)
    ensures var job := GenerateVideo(host, imageFile, prompt, submission, replies);
      job.outcome.Rejected? ==> job.outcome.message != ""
    ensures var job := GenerateVideo(host, imageFile, prompt, submission, replies);
      submission.Threw? && submission.message != "" && GetApiKey(host).key != "" ==>
        job.outcome == Rejected(submission.message)
    ensures var job := GenerateVideo(host, imageFile, prompt, submission, replies);
      submission.Threw? && submission.message == "" && GetApiKey(host).key != "" ==>
        job.outcome == Rejected(GenerateFallbackMessage)
    // a status call that throws is rethrown through the same fallback
    ensures var job := GenerateVideo(host, imageFile, prompt, submission, replies);
      GetApiKey(host).key != "" && submission.Returned?
      && PollLoop(submission.operation, replies, 0).end.PollThrew? ==>
        var message := PollLoop(submission.operation, replies, 0).end.message;
        job.outcome == Rejected(if message == "" then GenerateFallbackMessage else message)
  {
  }

  /** Every URL the call returns is non-empty. */
  lemma ResolvedUrlIsNonEmpty(host: Host, imageFile: ImageFile, prompt: string,
                              submission: Reply, replies: seq<Reply>)
    ensures var job := GenerateVideo(host, imageFile, prompt, submission, replies);
      job.outcome.Resolved? ==> job.outcome.url != ""
  {
  }

  // ---------------------------------------------------------------------
  // generateArchitectureVideo, step by step
  // ---------------------------------------------------------------------

  /** Lines 59-62: `while (!operation.done)` replaces `operation` with each
      new snapshot, waiting 5000 ms before every status call; the i-th status
      call answers `replies[i]`. `calls` is the sleeps and status calls made. */
  method PollUntilDone(first: Operation, replies: seq<Reply>) returns (end: PollEnd, calls: seq<Event>)
    ensures end == PollLoop(first, replies, 0).end
    ensures calls == PollCalls(PollLoop(first, replies, 0).passed)
  {
    var operation := first;
    calls := [];
    ghost var passed: seq<Operation> := [];
    var i := 0;
    while !operation.done
      invariant 0 <= i <= |replies| && i == |passed|
      invariant calls == PollCalls(passed)
      invariant PollLoop(first, replies, 0).passed == passed + PollLoop(operation, replies, i).passed
      invariant PollLoop(first, replies, 0).end == PollLoop(operation, replies, i).end
      decreases |replies| - i
    {
      if i == |replies| {
        assert passed + [] == passed;
        return StillWaiting, calls;
      }
      calls := calls + [Sleep(PollIntervalMs), GetVideosOperation(operation)];
      PollCallsSnoc(passed, operation);
      passed := passed + [operation];
      if replies[i].Threw? {
        return PollThrew(replies[i].message), calls;
      }
      operation := replies[i].operation;
      i := i + 1;
    }
    assert passed + [] == passed;
    end := Completed(operation);
  }

  /** The service call as the source runs it: the awaited steps in order,
      the poll loop, and the URI check. `calls` is what it asked of its
      collaborators. */
  method GenerateArchitectureVideo(host: Host, imageFile: ImageFile, prompt: string,
                                   submission: Reply, replies: seq<Reply>)
    returns (outcome: JobOutcome, calls: seq<Event>)
    ensures Job(outcome, calls) == GenerateVideo(host, imageFile, prompt, submission, replies)
  {
    var lookup := GetApiKey(host);
    var apiKey := lookup.key;
    calls := lookup.calls;
    if apiKey == "" {
      return Rejected(KeyMissingMessage), calls;
    }
    calls := calls + [CreateClient(apiKey)];
    var base64Data := Base64Payload(imageFile.dataUrl);
    var request := VideoRequest(prompt, base64Data, imageFile.mimeType);
    calls := calls + [GenerateVideos(request)];
    if submission.Threw? {
      return Rejected(ErrorMessage(submission.message)), calls;
    }
    var end, polls := PollUntilDone(submission.operation, replies);
    calls := calls + polls;
    match end {
      case StillWaiting =>
        outcome := StillPolling;
      case PollThrew(message) =>
        outcome := Rejected(ErrorMessage(message));
      case Completed(operation) =>
        var videoUri := VideoUri(operation);
        if MissingUri(videoUri) {
          outcome := Rejected(ErrorMessage(NoVideoUriMessage));
        } else {
          outcome := Resolved(KeyedUrl(videoUri.value, apiKey));
        }
    }
  }
}
