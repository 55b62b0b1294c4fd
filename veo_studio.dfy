/** The generation logic of the Veo component (components/VeoStudio.tsx) with
    the rendering taken out: the selected file, the prompt and the
    `VideoGenerationState` record, and the handlers that update them. The
    `await` inside handleGenerate splits it in two steps, StartGeneration and
    FinishGeneration, so that a file change can happen in between;
    HandleGenerate runs both around the service call. */
module VeoStudioComponent {
  import opened Wrappers
  import opened Types
  import GeminiService

  const DefaultPrompt: string :=
    "Cinematic, futuristic visualization of data packets flowing through a secure network, glowing lines connecting server nodes, 4k quality, highly detailed."
  const NoFileMessage: string := "Please upload an image first."
  const InitializingMessage: string := "Initializing Veo model..."
  const DoneMessage: string := "Done!"
  const UnknownErrorMessage: string := "An unknown error occurred"

  /** The state the component starts in. */
  const IdleState: VideoGenerationState := VideoGenerationState(false, "", None, None)

  /** The state written when a generation starts. */
  const StartedState: VideoGenerationState := VideoGenerationState(true, InitializingMessage, None, None)

  /** The state written when the awaited service call settles: `Ok(url)` is
      a returned URL, `Err(message)` a thrown error's message ("" when empty
      or missing). */
  function SettledState(result: Result<string, string>): (s: VideoGenerationState)
    // generation is over and exactly one of result and error is set
    ensures !s.isGenerating
    ensures s.videoUri.Some? <==> result.Ok?
    ensures s.error.Some? <==> result.Err?
    // the URL is kept as returned, and a shown error is never empty
    ensures result.Ok? ==> s.videoUri == Some(result.value) && s.progressMessage == DoneMessage
    ensures result.Err? ==> s.error.value != "" && s.progressMessage == ""
    ensures result.Err? && result.error != "" ==> s.error == Some(result.error)
    // an empty or missing message is shown as the component's own fallback
    ensures result.Err? && result.error == "" ==> s.error == Some(UnknownErrorMessage)
  {
    match result
    case Ok(videoUrl) => VideoGenerationState(false, DoneMessage, Some(videoUrl), None)
    case Err(message) =>
      VideoGenerationState(false, "", None,
                           Some(if message == "" then UnknownErrorMessage else message))
  }

  /** How the component sees the service call's end; None while it is still
      polling (the `await` has not returned). */
  function ServiceResult(outcome: GeminiService.JobOutcome): (shown: Option<Result<string, string>>)
    ensures shown.None? <==> outcome.StillPolling?
    ensures shown.Some? && shown.value.Ok? <==> outcome.Resolved?
    ensures outcome.Resolved? ==> shown.value.value == outcome.url
    ensures outcome.Rejected? ==> shown.value.error == outcome.message
  {
    match outcome
    case Resolved(url) => Some(Ok(url))
    case Rejected(message) => Some(Err(message))
    case StillPolling => None
  }

  /** Through the service, for the paths modelled, a generation settles
      exactly when the service call returns or throws, and then shows either
      the non-empty URL it returned or exactly the message it threw: the
      service's messages on these paths are never empty, so the component's
      own "unknown error" fallback is not used. (A FileReader failure, which
      is not modelled, would reach that fallback.) */
  lemma ServiceOutcomeShownAsIs(host: GeminiService.Host, imageFile: ImageFile, prompt: string,
                                submission: GeminiService.Reply, replies: seq<GeminiService.Reply>)
    ensures var outcome := GeminiService.GenerateVideo(host, imageFile, prompt, submission, replies).outcome;
      var shown := ServiceResult(outcome);
      && (outcome.StillPolling? <==> shown.None?)
      && (outcome.Resolved? ==>
            shown.Some? && SettledState(shown.value).videoUri == Some(outcome.url) && outcome.url != "")
      && (outcome.Rejected? ==>
            shown.Some? && SettledState(shown.value).error == Some(outcome.message))
  {
    GeminiService.ResolvedUrlIsNonEmpty(host, imageFile, prompt, submission, replies);
    GeminiService.RejectionsCarryAMessage(host, imageFile, prompt, submission, replies);
  }

  class VeoStudio {
    var file: Option<ImageFile>
    var prompt: string
    var state: VideoGenerationState

    /** While generating there is a file, the progress text is the start
        message and no result or error is shown; a result and an error are
        never shown together; without a file nothing is generated or shown. */
    ghost predicate Valid()
      reads this
    {
      && (state.isGenerating ==>
            file.Some? && state.progressMessage == InitializingMessage
            && state.videoUri.None? && state.error.None?)
      && !(state.videoUri.Some? && state.error.Some?)
      && (file.None? ==> !state.isGenerating && state.videoUri.None?)
    }

    /** `disabled={state.isGenerating || !file}` on the generate button. */
    predicate GenerateDisabled(): (disabled: bool)
      reads this
      // the button can only be clicked with a file and no generation running
      ensures !disabled ==> file.Some? && !state.isGenerating
      ensures disabled ==> file.None? || state.isGenerating
    {
      state.isGenerating || file.None?
    }

    constructor ()
      ensures Valid()
      ensures file == None && prompt == DefaultPrompt && state == IdleState
      ensures GenerateDisabled()
    {
      file := None;
      prompt := DefaultPrompt;
      state := IdleState;
    }

    /** handleFileChange: a non-empty file list selects its first file and
        clears the result and the error; no list or an empty one changes
        nothing. */
    method HandleFileChange(files: Option<seq<ImageFile>>)
      requires Valid()
      modifies this
      ensures Valid()
      ensures prompt == old(prompt)
      ensures files.Some? && files.value != [] ==>
                file == Some(files.value[0])
                && state == old(state).(videoUri := None, error := None)
      ensures files.Some? && files.value != [] ==>
                GenerateDisabled() == old(state.isGenerating)
      ensures !(files.Some? && files.value != []) ==>
                file == old(file) && state == old(state)
    {
      if files.Some? && files.value != [] {
        var selectedFile := files.value[0];
        file := Some(selectedFile);
        state := state.(videoUri := None, error := None);
      }
    }

    /** The prompt textarea's onChange. */
    method HandlePromptChange(text: string)
      requires Valid()
      modifies this
      ensures Valid()
      ensures prompt == text && file == old(file) && state == old(state)
    {
      prompt := text;
    }

    /** handleGenerate up to the `await`: without a file only the error is
        set and nothing is called; with one the start state is written and
        the service is called with the file and the prompt. */
    method StartGeneration() returns (call: Option<(ImageFile, string)>)
      requires Valid()
      modifies this
      ensures Valid()
      ensures file == old(file) && prompt == old(prompt)
      ensures old(file).None? ==>
                call == None && state == old(state).(error := Some(NoFileMessage))
      ensures old(file).Some? ==>
                call == Some((old(file).value, old(prompt))) && state == StartedState
      ensures call.Some? ==> GenerateDisabled()
    {
      if file.None? {
        state := state.(error := Some(NoFileMessage));
        return None;
      }
      state := StartedState;
      call := Some((file.value, prompt));
    }

    /** handleGenerate after the `await`: the returned URL or the thrown
        error's message replaces the whole state. It runs only while the
        generation it belongs to is in flight. */
    method FinishGeneration(result: Result<string, string>)
      requires Valid() && state.isGenerating
      modifies this
      ensures Valid()
      ensures file == old(file) && prompt == old(prompt)
      ensures state == SettledState(result)
      ensures !GenerateDisabled()
    {
      state := SettledState(result);
    }

    /** handleGenerate as a whole, with the service call in the middle
        answering `submission` and `replies`; while that call is still
        polling the component stays in the start state. */
    method HandleGenerate(host: GeminiService.Host, submission: GeminiService.Reply,
                          replies: seq<GeminiService.Reply>)
      returns (job: Option<GeminiService.Job>)
      requires Valid()
      modifies this
      ensures Valid()
      ensures file == old(file) && prompt == old(prompt)
      ensures old(file).None? ==>
                job == None && state == old(state).(error := Some(NoFileMessage))
      ensures old(file).Some? ==>
                job == Some(GeminiService.GenerateVideo(host, old(file).value, old(prompt), submission, replies))
      ensures job.Some? && job.value.outcome.StillPolling? ==> state == StartedState
      ensures job.Some? && job.value.outcome.Resolved? ==>
                state == SettledState(Ok(job.value.outcome.url))
      ensures job.Some? && job.value.outcome.Rejected? ==>
                state == SettledState(Err(job.value.outcome.message))
    {
      var call := StartGeneration();
      if call.None? {
        return None;
      }
      var outcome, calls := GeminiService.GenerateArchitectureVideo(host, call.value.0, call.value.1, submission, replies);
      job := Some(GeminiService.Job(outcome, calls));
      match ServiceResult(outcome) {
        case None =>
        case Some(result) => FinishGeneration(result);
      }
    }
  }

  /** One selection, one generation that resolves: the result is shown, no
      error, and the button is enabled again. */
  method SelectThenGenerate(host: GeminiService.Host, image: ImageFile,
                            submission: GeminiService.Reply, replies: seq<GeminiService.Reply>)
    returns (studio: VeoStudio, job: Option<GeminiService.Job>)
    ensures fresh(studio) && studio.Valid()
    ensures job == Some(GeminiService.GenerateVideo(host, image, DefaultPrompt, submission, replies))
    ensures job.value.outcome.Resolved? ==>
              studio.state.videoUri == Some(job.value.outcome.url)
              && studio.state.error == None && !studio.GenerateDisabled()
  {
    studio := new VeoStudio();
    studio.HandleFileChange(Some([image]));
    job := studio.HandleGenerate(host, submission, replies);
  }
}
