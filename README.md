# Veo video generation: service workflow and component state machine

This project models the two pieces of sequential logic in the architecture
visualizer's "Veo Animator" feature and proves properties of them in Dafny.

- **The generation service** (`services/geminiService.ts`, module
  `GeminiService`). `getApiKey` probes the host's key-selection object and
  reads the environment key. `generateArchitectureVideo` checks the key,
  takes the base64 payload out of the image's data URL and submits one
  request to the `veo-3.1-fast-generate-preview` model. It then polls the
  long-running operation every 5000 ms until it is `done`. At the end it
  returns the first video's URI with `&key=<apiKey>` appended, or throws an
  error message.
- **The component** (`components/VeoStudio.tsx`, module `VeoStudioComponent`).
  Class `VeoStudio` holds the selected file, the prompt and the
  `VideoGenerationState` record (`types.ts`, module `Types`). Its handlers
  are methods that change these fields. The predicate `GenerateDisabled`
  models the button's `disabled` attribute.

The SDK, the host and the file reader are not modelled as code. Their
answers are inputs:

- a `Host`: what `window.aistudio` offers and the value of `process.env.API_KEY`;
- an `ImageFile`: the file's MIME type and the data URL a `FileReader` yields for it;
- the `Reply` of the submission;
- the sequence of `Reply`s that the status calls give.

Every call the service makes on these collaborators is recorded as an
`Event`: the two key probes, client creation, the submission with its
request, each 5000 ms sleep, and each status call with the snapshot it
passes.

The poll loop has no bound. The model's methods all terminate, so the loop
consumes a finite sequence of status replies. If the replies run out before
a `done` snapshot, the outcome is `StillPolling`: the call has not settled
and would go on sleeping and polling. `GenerateVideo` is the specification
function. `PollUntilDone` and `GenerateArchitectureVideo` are the
step-by-step methods: `PollUntilDone` is proved equal to `PollLoop`, and
`GenerateArchitectureVideo` to `GenerateVideo`. The lemmas state the
workflow's properties about `GenerateVideo`.

The `async` `handleGenerate` is split at its `await`:

- `StartGeneration` covers the guard and the start state.
- `FinishGeneration` writes the settled state.
- `HandleGenerate` runs both around the service call.

A file can be selected between the two steps, as in the browser.

Three behaviours of the code worth noting:

- `getApiKey` never fails. It always returns `process.env.API_KEY || ''`,
  even after the key dialog. The empty-key error is raised in
  `generateArchitectureVideo` before the client is created.
- Errors carry messages only. Errors raised inside the `try`
  (submission, status calls, missing URI) get
  `error.message || "Failed to generate video"`. The empty-key error is
  thrown before the `try` and keeps its own message.
- The number of status calls equals the number of snapshots seen that are
  not done. This count includes the snapshot the submission returned.
  The loop never times out, and nothing cancels it.

## Model

| member | source | states |
|---|---|---|
| `GeminiService.GetApiKey` | services/geminiService.ts:4-17 | The key is `process.env.API_KEY`, or `''` exactly when that is missing or empty. `hasSelectedApiKey` is asked exactly when `window.aistudio` exists and offers it as a function. `openSelectKey` is called exactly when, in addition, no key is selected and it is a function. No other call happens, and the check comes first. |
| `GeminiService.Split` | services/geminiService.ts:36 | `split(',')` yields at least one piece. No piece contains a comma. There is exactly one piece iff the string has no comma. |
| `GeminiService.JoinSplit` | services/geminiService.ts:36 | Joining the pieces of a split with commas gives the original string back. |
| `GeminiService.SplitJoin` | services/geminiService.ts:36 | Splitting the join of comma-free pieces gives the pieces back, so split and join are inverse. |
| `GeminiService.SplitCommaFreePrefix` | services/geminiService.ts:36 | A comma-free prefix becomes part of the first piece of the split. |
| `GeminiService.Base64Payload` | services/geminiService.ts:35-36 | `split(',')[1]` is defined iff the data URL contains a comma, and it never contains a comma itself. |
| `GeminiService.PayloadIsSecondSegment` | services/geminiService.ts:35-36 | The payload is exactly the segment between the first comma and the next comma, or the end of the URL. |
| `GeminiService.PayloadAfterOnlyComma` | services/geminiService.ts:35-36 | For a data URL with exactly one comma, the payload is everything after it. |
| `GeminiService.PayloadOfPngDataUrl` | services/geminiService.ts:35-36 | `"data:image/png;base64,XYZ"` yields `"XYZ"`. |
| `GeminiService.KeyedUrl` | services/geminiService.ts:69-70 | The returned URL is the video URI followed by `&key=` and the key. Stripping that suffix gives the URI back. |
| `GeminiService.ErrorMessage` | services/geminiService.ts:72-75 | A rethrown error's message is never empty. It is the caught error's own message whenever that is non-empty, and "Failed to generate video" when that is empty. |
| `GeminiService.VideoRequest` | services/geminiService.ts:44-56 | The submitted request always names model `veo-3.1-fast-generate-preview` and asks for one video at `720p` and `16:9`. It carries the caller's prompt, image bytes and MIME type unchanged. |
| `GeminiService.VideoUri` | services/geminiService.ts:64 | A URI is found only when the response, its video list, a first entry and its video all exist. When they all exist the result is exactly that video's `uri`, and any missing link gives `undefined`. |
| `GeminiService.MissingUri` | services/geminiService.ts:65 | A URI counts as missing exactly when it is `undefined` or the empty string. |
| `GeminiService.PollLoop` | services/geminiService.ts:59-62 | The loop makes at most one status call per reply it is given, and when it completes it holds a done snapshot. Its full behaviour is stated by `PollLoopPassesPrevious` and the `Poll*` lemmas below. |
| `GeminiService.PollLoopPassesPrevious` | services/geminiService.ts:59-62 | There is at most one status call per reply, and only snapshots that are not done are passed. The first call passes the submitted snapshot, and each later call passes what the previous call returned. The loop ends at a done snapshot, at the first thrown error, or when the replies run out. |
| `GeminiService.PollCallsShape` | services/geminiService.ts:59-62 | There are twice as many calls as status calls. Every status call is preceded by exactly one 5000 ms sleep and passes the snapshot held at that moment. |
| `GeminiService.PollStopsAtFirstDone` | services/geminiService.ts:59-62 | The loop exits exactly at the first done snapshot. It makes one status call per earlier snapshot that is not done, and none if the submitted one is already done. |
| `GeminiService.PollNeverTimesOut` | services/geminiService.ts:59-62 | While no snapshot is done, the loop makes one status call per reply and is still waiting at the end. It never raises an error of its own. |
| `GeminiService.PollAbortsOnError` | services/geminiService.ts:59-62 | A status call that throws ends the loop at once, and no further call is made. |
| `GeminiService.PollCallsAreSleepsAndStatusCalls` | services/geminiService.ts:59-62 | The loop makes nothing but sleeps and status calls. |
| `GeminiService.FinishJob` | services/geminiService.ts:64-75 | After the loop, the call settles iff the loop ended. It returns a URL iff the done snapshot has a non-missing URI, and stripping `&key=` and the key from the URL gives that URI back. A status error is rethrown as `error.message || "Failed to generate video"`, and every rejection has a non-empty message. |
| `GeminiService.GenerateVideo` | services/geminiService.ts:19-76 | The specification of the whole call. The key probes always come first. Polling and a returned URL happen only with a non-empty key and a submission that answered. Its other properties are the lemmas `EmptyKeyStopsEarly` to `ResolvedUrlIsNonEmpty` below. |
| `GeminiService.EmptyKeyStopsEarly` | services/geminiService.ts:23-28 | With an empty key the call throws "API Key selection failed or was cancelled.". The calls are exactly the key probes: no client is created and no request is made. |
| `GeminiService.SubmittedRequestIsFixed` | services/geminiService.ts:28-56 | With a key, the client is created with that key and exactly one request is submitted. The request has model `veo-3.1-fast-generate-preview`, the prompt, the data URL's payload, the file's MIME type, one video, `720p` and `16:9`. Everything after it is sleeps and status calls. |
| `GeminiService.SubmissionErrorMeansNoPolling` | services/geminiService.ts:43-75 | A failed submission is never followed by a sleep or a status call. Its message is rethrown through the fallback. |
| `GeminiService.JobPollsUntilFirstDone` | services/geminiService.ts:44-67 | For not-done snapshots followed by a done one, the service makes exactly one sleep and one status call per not-done snapshot, each passing that snapshot. The outcome is decided by the done snapshot. |
| `GeminiService.JobNeverTimesOut` | services/geminiService.ts:59-62 | If no snapshot is ever done, the call is still polling after every reply and never settles with a timeout. |
| `GeminiService.ResolvedExactly` | services/geminiService.ts:64-70 | The call returns a URL iff there is a key, the submission and every status call answered, and the done snapshot's first video has a non-empty URI. The URL is then that URI + `"&key="` + the key. Conversely, such a URI in the done snapshot, stated field by field, gives exactly that URL. |
| `GeminiService.MissingUriIsAnError` | services/geminiService.ts:64-67 | A done snapshot with no response, no or an empty video list, or a first video with no or an empty URI ends in "No video URI returned from generation.", never in a URL. |
| `GeminiService.RejectionsCarryAMessage` | services/geminiService.ts:23-75 | Every error the call throws has a non-empty message. A failed submission or status call rethrows its own message, or "Failed to generate video" when that message is empty. |
| `GeminiService.ResolvedUrlIsNonEmpty` | services/geminiService.ts:69-70 | Every returned URL is non-empty. |
| `GeminiService.PollUntilDone` | services/geminiService.ts:58-62 | The `while (!operation.done)` loop, which replaces `operation` with each new snapshot, ends where the poll specification ends and makes exactly its sleeps and status calls. |
| `GeminiService.GenerateArchitectureVideo` | services/geminiService.ts:19-76 | Run step by step, the service call's outcome and calls equal `GenerateVideo`'s. |
| `VeoStudioComponent.SettledState` | components/VeoStudio.tsx:45-60 | After the awaited call, `isGenerating` is false. Exactly one of `videoUri` and `error` is set: the URL on success, the message on failure. The progress text is "Done!" on success and `''` on failure. A shown error is never empty: an empty message becomes "An unknown error occurred". |
| `VeoStudioComponent.ServiceResult` | components/VeoStudio.tsx:45-53 | The `await` produces nothing while the call is still polling. It yields the URL iff the call returned one, and the thrown message iff it threw. |
| `VeoStudioComponent.ServiceOutcomeShownAsIs` | components/VeoStudio.tsx:45-60 | For the paths modelled, with the service's own outcome, the component settles exactly when the call returns or throws. It then shows the non-empty URL or exactly the thrown message, never its own fallback. |
| `VeoStudioComponent.VeoStudio.GenerateDisabled` | components/VeoStudio.tsx:124 | The button is enabled only when a file is selected and no generation is running, and disabled otherwise. |
| `VeoStudioComponent.VeoStudio.constructor` | components/VeoStudio.tsx:6-14 | Initially there is no file, the default prompt is set, nothing is generating, the progress text is empty, and there is no result and no error. The button is disabled. |
| `VeoStudioComponent.VeoStudio.HandleFileChange` | components/VeoStudio.tsx:18-30 | A non-empty file list selects its first file and clears `videoUri` and `error`. `isGenerating` and the progress text stay as they were. No list or an empty list changes nothing. The state invariant is kept. |
| `VeoStudioComponent.VeoStudio.HandlePromptChange` | components/VeoStudio.tsx:113-118 | Editing the prompt changes only the prompt. |
| `VeoStudioComponent.VeoStudio.StartGeneration` | components/VeoStudio.tsx:32-43 | Without a file, only `error` becomes "Please upload an image first." and no call is made. With a file, the state becomes generating, "Initializing Veo model...", no result and no error. The service is then called with the file and the prompt, and the button is disabled. |
| `VeoStudioComponent.VeoStudio.FinishGeneration` | components/VeoStudio.tsx:45-60 | The settled state replaces the whole record, and the button is enabled again. |
| `VeoStudioComponent.VeoStudio.HandleGenerate` | components/VeoStudio.tsx:32-61 | The whole handler around the service call. Without a file nothing is called. With a file the service runs on the file and the prompt. The state then becomes the settled state for the returned URL or the thrown message, or stays at the start state while the call is still polling. |
| `VeoStudioComponent.SelectThenGenerate` | components/VeoStudio.tsx:18-61 | Selecting a file and then generating with a call that resolves shows the URL and no error, and re-enables the button. |

The class invariant `VeoStudio.Valid` holds after every handler:

- while generating, a file is selected, the progress text is the start
  message, and there is no result and no error;
- a result and an error are never shown together;
- without a file nothing is generating and no result is shown.

## Left out

- The `@google/genai` SDK: `generateVideos` and `getVideosOperation` are inputs (`Reply`s), not code.
- The real `setTimeout` delay and the `async` scheduling: a wait is a recorded `Sleep(5000)` event, not time.
- `FileReader`: only the data URL it yields is modelled. Its `onerror` rejection is left out, and so is the preview URL that `handleFileChange` reads, because both are browser I/O. That rejection carries no message, so the component would show "An unknown error occurred"; `ServiceOutcomeShownAsIs` covers only the modelled paths.
- Exceptions from the host object (`hasSelectedApiKey` or `openSelectKey` rejecting) and from `new GoogleGenAI` are left out: they are raised outside the `try`, by code that is not part of this model.
- `console.error` logging.
- The unbounded loop is not modelled as a method that may diverge: the model's methods all terminate. The loop is modelled over any finite sequence of status replies, and `StillPolling` marks a call that has not settled by the end of them.
- `VeoStudioComponent.VeoStudio.FinishGeneration`: requires `isGenerating`. The continuation only runs after its own start, and the disabled button keeps a second generation from overlapping it.
- Cancellation, retries and a configurable poll interval do not exist in the code and are not modelled.
- All JSX rendering, `App.tsx` (the three-way flow toggle and its explanatory text) and the `FlowType` and `DiagramNode` shapes in `types.ts`: these are display concerns with no behaviour.
