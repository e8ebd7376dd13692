# ComfyUI job worker, modelled in Dafny

The worker takes an image-generation job (a style, a prompt, and the URLs of a
reference image and one or two face images) and runs it on a local ComfyUI
server over HTTP:

1. it waits until the server answers its readiness probe;
2. it validates the job, then downloads each image and uploads it to the server;
3. it loads the workflow template of the style and splices the JSON-escaped
   prompt and the uploaded names into its placeholders;
4. it queues the workflow and polls the history of the prompt until it
   completes, fails or times out;
5. it fetches the output images and returns them base64-encoded.

There are two front ends:

- `handler.py`'s `handler` answers serverless jobs.
- `app_lb.py` is an HTTP worker. It has process-wide readiness state, `/ping`
  and `/ready` endpoints, and a `/generate` endpoint that streams keep-alive
  comments and then one `data:` event carrying the result.

The model works over an abstract server:

- Every HTTP reply is an oracle value: a status and a body, or the exception
  the request raised.
- Clocks are sequences of readings.
- UUIDs are a sequence of identifiers.
- base64, `json.loads` of the final workflow text and the response model's
  JSON dump are function parameters.

A Python exception becomes `Err(str(e))`. It carries the exact message the code
produces, for example `'prompt_id'` for the `KeyError` of a reply without a
prompt id.

Modules:

- `Outcomes`: Option and Outcome, and decimal formatting of naturals.
- `Strings`: Python's `str.replace` (replace every non-overlapping occurrence,
  left to right), substring search and ASCII lower-casing.
- `JsonString`: `json.dumps` of a string with ASCII-only output, and a decoder
  following section 7 of RFC 8259 that undoes it.
- `Workflow`: template choice and `prepare_workflow`.
- `Comfy`: the reply types, `upload_image`, `queue_prompt` and the bounded
  readiness probe.
- `Poll`: `wait_for_completion` and the image retrieval.
- `Handler`: the job pipeline shared by both front ends, and `handler`.
- `App`: `app_lb.py`. A `Worker` class holds the readiness flag and the
  request counter, and the `sse_stream` event sequence is a nested loop.

Where the code departs from the idealised behaviour, the model follows the
code:

- Any style other than `couples` uses the single template, so there is no
  unknown-style error.
- A reply without `prompt_id` is an ordinary exception.
- An exception of a history request or an image request propagates out of the
  poll loop; it is not retried.
- `handler` validates the job only after the readiness probes. Only the
  uploads are known not to have happened.
- Both readiness loops sleep only after an exception; a non-200 reply retries
  at once. Their bound is a number of probes, not a time.
- The HTTP worker does not check for the second image of a couples job. Both
  uploads happen, and `str.replace` then raises a `TypeError`
  (`App.CouplesWithoutSecondImage`).

## Model

| member | source | states |
|---|---|---|
| Outcomes.NatToString | handler.py:269 | the decimal text of a natural as an f-string writes it: non-empty, digits only, no leading zero, "0" exactly for zero |
| Outcomes.NatToStringRoundTrip | handler.py:269 | reading the decimal text back gives the number, so each formatted message determines its number |
| Strings.ReplaceAll | handler.py:167-183 | `str.replace` with the pattern itself as replacement changes nothing, and one as long as the pattern keeps the length |
| Strings.ReplaceHit | handler.py:167 | `str.replace` on a text starting with the pattern puts the replacement first and continues after the occurrence |
| Strings.ReplaceSkip | handler.py:167 | `str.replace` copies unchanged a prefix in which no occurrence of the pattern starts |
| Strings.ReplaceAbsent | handler.py:174-176 | `str.replace` leaves a text without the pattern exactly as it is |
| JsonString.Hex4RoundTrip | handler.py:164 | the four lower-case hex digits of a `\u` escape read back to the code unit |
| JsonString.EscapeChar | handler.py:164 | each character's JSON escape is a non-empty run of printable ASCII |
| JsonString.Escape | handler.py:164 | the escaped text is printable ASCII only: no control character and no non-ASCII character survives |
| JsonString.Dumps | handler.py:164 | `json.dumps` of a string is a quoted literal of printable ASCII characters only |
| JsonString.EscapedPrompt | handler.py:164 | `json.dumps(prompt)[1:-1]` is the escape of the prompt's characters, all printable ASCII |
| JsonString.DecodeEscapeChar | handler.py:164 | the RFC 8259 section 7 decoder reads back each escaped character, surrogate pairs included, and consumes exactly its escape |
| JsonString.DecodeSurrogatePair | handler.py:164 | a character above U+FFFF escapes to a surrogate pair that decodes back to it |
| JsonString.DecodeEscapeThen | handler.py:164 | decoding an escaped text followed by more input decodes the text, then the rest |
| JsonString.EscapeRoundTrip | handler.py:164 | the escaped prompt decodes back to exactly the prompt |
| JsonString.DumpsRoundTrip | handler.py:164 | the escaped prompt put back between quotes is a JSON string literal whose value is exactly the prompt |
| JsonString.PlainTextEscapesToItself | handler.py:164 | printable ASCII without `"` and `\` is spliced in unchanged |
| Workflow.TemplateFile | handler.py:144-145 | the couples template exactly for style `couples`, the single template for every other style, unknown ones included |
| Workflow.LoadTemplate | handler.py:142-149 | the template text is returned exactly when its file under `/` exists; otherwise the error is `[Errno 2] No such file or directory: '/<file>'` for the style's file |
| Workflow.Substitute | handler.py:161-183 | the substitution fails exactly for a couples workflow without a second image name, with the `TypeError` message of `str.replace` |
| Workflow.PrepareWorkflow | handler.py:152-184 | the prepared workflow is the substituted text exactly when the substitution succeeds and the text parses; a failure carries the substitution's `TypeError` message, or else the parser's message |
| Workflow.Fill | handler.py:167-183 | filling a placeholder replaces exactly its slots by the value and keeps every other piece at its position |
| Workflow.ReplaceFillsSlots | handler.py:167-183 | on a template in which the placeholder text occurs only at its slots, `str.replace` of the placeholder fills exactly those slots and changes no other text |
| Workflow.SingleFillsSlots | handler.py:167-182 | a single workflow gets the escaped prompt, then the reference image in IMAGE1, then the user image in IMAGE2; IMAGE3 slots and all other text are unchanged |
| Workflow.CouplesFillsSlots | handler.py:167-176 | a couples workflow also gets the second user image in IMAGE3, after the other three substitutions |
| Workflow.PromptTextIsSubstitutedLater | handler.py:167-182 | the replacements are sequential: placeholder text inside the prompt is replaced by a later step |
| Comfy.UploadImage | handler.py:107-139 | the image is posted only after a 200 download; the result is a name exactly when the upload also got 200; the name is the server's, or `<uuid>_<filename>` when the reply lacks one; a non-200 download raises "Failed to download image from <url>", a non-200 upload "Failed to upload image to ComfyUI: <text>", and a raising request its own message |
| Comfy.QueuePrompt | handler.py:187-204 | the prompt id is returned exactly for a 200 reply that holds one; another status raises "Failed to queue prompt: " with the reply body; a 200 without a prompt id raises a `KeyError`; a raising request passes its message on |
| Comfy.ProbeUntilReady | handler.py:308-319 | at most `limit` probes; readiness exactly when one of them got a 200; probing stops at the first 200; without one, all `limit` probes are made |
| Poll.Classify | handler.py:213-267 | an exception propagates; a non-200 reply or an absent entry continues; completion is tested before the error test; an unfinished 200 entry whose `status_str` lower-cases to contain "error" raises "ComfyUI workflow failed: <status_str>", and no other reply raises except by its own exception |
| Poll.RefOfDefaults | handler.py:236-245 | the `/view` query keeps the record's filename, and its `subfolder` and `type` when present; absent ones default to `''` and `'output'` |
| Poll.FetchOne | handler.py:236-257 | a record without filename raises `'filename'`; a raising request raises its message; an image is returned exactly for a 200 reply, and it is the reply's content; another status gives nothing |
| Poll.Fetch | handler.py:230-259 | retrieval never returns more images than there are records |
| Poll.KeptIndices | handler.py:256-257 | the records a 200 reply answers, by increasing index, with none left out |
| Poll.FetchKeepsOrder | handler.py:233-257 | the retrieved images are the contents of the 200 replies, in node order and then list order |
| Poll.FetchFailsIff | handler.py:236-254 | retrieval raises exactly when a record lacks its filename or its request raises |
| Poll.AllFetchedWhenAllOk | handler.py:256-257 | when every request gets 200, one image per declared record is returned |
| Poll.FetchErrSticks | handler.py:236-254 | once retrieval has raised, later records change nothing |
| Poll.DeclaredAppend | handler.py:233-235 | the records are visited node by node, nodes without `images` contributing none |
| Poll.ExtractImages | handler.py:230-259 | the nested retrieval loops compute the retrieval of the declared records, with the `subfolder` and `type` defaults |
| Poll.RetrievalStops | handler.py:236-254 | an exception in the middle of the loops is the result of the whole retrieval |
| Poll.PollFrom | handler.py:211-267 | the loop from its j-th test on (test, classify, continue); its own contract says only that it issues at least the j requests already made, and `Poll.PollRunShape` characterises the run |
| Poll.PollRunShape | handler.py:207-269 | every history request is issued while the elapsed time is below the timeout; a time-out happens only once the loop test sees the timeout reached, after replies that all continued; any other end comes from the last reply |
| Poll.NeverCompletingTimesOut | handler.py:211-269 | a history that never completes nor reports an error ends in "Workflow timed out after <timeout> seconds", and only after the timeout |
| Poll.WaitForCompletion | handler.py:207-269 | the polling loop agrees with the specified run: its result and its number of history requests |
| Handler.StageImages | handler.py:349-359 | staging succeeds exactly when every `upload_image` it makes succeeds (user 2 only when its URL is truthy), and returns their names, with no third name when user 2 is not truthy; a failure carries the first failing upload's message; uploads go reference, user 1, user 2, each under `<uuid>_<filename>`; a failed reference download stops the job before anything is posted |
| Handler.Submit | handler.py:349-378 | the images posted are exactly the staging's; a failed staging, then a missing template, is the submission's error; once staged and loaded, a `prepare_workflow` error is the submission's error and otherwise the prepared workflow is queued under the first identifier the uploads left unused |
| Handler.Pipeline | handler.py:349-383 | a failed submission is the job's error and no polling follows; for a queued prompt the job returns the images of a finished polling run, the exception of a failed one, or "Workflow timed out after 900 seconds"; images come only from a finished run |
| Handler.UnfinishedJobTimesOut | handler.py:375-383 | a queued job whose history never completes ends in "Workflow timed out after 900 seconds" |
| Handler.RunJob | handler.py:349-383 | the job runs the staging, template, queueing and polling steps as specified, with the 900-second timeout |
| Handler.EncodeAll | handler.py:388-392 | one encoded string per image, in order |
| Handler.EncodedDecodeBack | handler.py:388-392 | with a decoder inverting the encoder, decoding the encoded images gives back exactly the retrieved bytes |
| Handler.HandleJob | handler.py:302-410 | the reply for each case: "ComfyUI not ready after 30 seconds" only after 30 probes without a 200; the two validation failures without `jobId` and before any upload; otherwise the pipeline's images encoded in order with "Generated N images successfully", or its error with the job id |
| App.WaitForComfyuiReady | app_lb.py:92-99 | success exactly when the flag is seen set at a check made before the timeout; the first such check returns; "ComfyUI not ready after <timeout> seconds" only once the elapsed time has reached the timeout; it writes no state |
| App.DataEvent | app_lb.py:301 | the final event is a `data: ` line ended by a blank line, distinct from the keep-alive comment |
| App.Outer | app_lb.py:291-301 | each outer test writes an event first: the data event when the job is done, else the keep-alive comment |
| App.Inner | app_lb.py:294-297 | each pass of the inner loop begins with a half-second sleep |
| App.SseStream | app_lb.py:287-301 | the nested heartbeat loops produce exactly the specified event and sleep sequence |
| App.OuterPaced | app_lb.py:291-297 | no run of more than 30 half-second sleeps passes without an event, that is a heartbeat at least every 15 seconds |
| App.InnerPaced | app_lb.py:294-297 | inside the inner loop the run of sleeps stays within 30 |
| App.OuterShape | app_lb.py:291-301 | the stream ends with the one data event; every earlier event is the keep-alive comment |
| App.InnerShape | app_lb.py:294-301 | from inside the inner loop the stream still ends with the one data event after keep-alives and sleeps only |
| App.StreamStart | app_lb.py:291-292 | the stream is the data event alone exactly when the job is done at the first check; otherwise it opens with a keep-alive |
| App.Worker.constructor | app_lb.py:44-45 | the worker starts not ready, with no requests counted |
| App.Worker.Ping | app_lb.py:126-144 | 200 with `{"status":"healthy","comfyui":"ready"}` exactly when the flag is set, else a bodiless 204 |
| App.Worker.Ready | app_lb.py:147-164 | always 200, with the "ready" or the "starting"/"initializing" payload according to the flag |
| App.PingAgreesWithReady | app_lb.py:139-164 | `/ping` and `/ready` report the same readiness |
| App.Worker.StartComfyui | app_lb.py:76-89 | the flag is set, and true returned, exactly when one of 180 probes got a 200; otherwise "ComfyUI failed to start within 180 seconds" after 180 probes; the flag is never cleared |
| App.Worker.BlockingGenerate | app_lb.py:176-264 | it never raises; it waits only when the flag is unset; the readiness error or any pipeline exception becomes `success=False` with its message; otherwise `success=True` with one encoded image per result, in order; `execution_time` is the elapsed clock time |
| App.Worker.Generate | app_lb.py:267-311 | each call counts exactly one request and leaves the flag alone; the response is that of the blocking job; the stream carries it as its final data event |
| App.CouplesWithoutSecondImage | app_lb.py:199-224 | a couples request without a second image posts both images and then fails with the `TypeError` of `str.replace` |

## Left out

- HTTP, the multipart upload, request headers and timeouts: each request is an
  oracle reply, either a status and a body or the exception it raised.
- Malformed reply bodies (`.json()` raising) and JSON values of an unexpected
  type are not modelled. Examples are a non-string `status_str` or `jobId`, or
  a `null` where a string is expected.
- The workflow dictionary is modelled as its serialised text. `json.load` of
  the template file is the identity on that text, and `json.loads` of the
  result (handler.py:184) is a parameter that accepts the text or gives an
  error message.
- `json.dumps` of the whole workflow (handler.py:161) is not modelled. The
  template text is taken to be already serialised.
- base64 (handler.py:391, app_lb.py:241) and the response model's JSON dump
  (app_lb.py:301) are function parameters.
- The pydantic request validation with its HTTP 422 replies is not modelled.
  A request is taken to be valid.
- `time.time`, `time.sleep` and `uuid.uuid4` are replaced as follows:
  - clock readings and identifiers are parameters;
  - sleeps are left out;
  - each loop bounded by time relies on a reading at which the clock has
    passed the timeout, given as a ghost index.
- The clock readings of `_blocking_generate` are separate parameters (the two
  bounding the job, those of the readiness wait, those of the poll loop),
  not one shared clock.
- Process management is not modelled: `subprocess.Popen`, the signal
  handlers and the `comfyui_process` global. Neither is handler.py's
  `start_comfyui` (handler.py:45-104), which nothing calls.
- `/stats`, the root endpoint, the startup event hook, module-level debug
  output and the `pip install` fallback are not modelled.
- Concurrency is left out: the thread pool, asyncio and the event loop.
  - In `generate`, the blocking job runs before the stream in the model;
    whether the job is done after `t` sleeps is an oracle.
  - `wait_for_comfyui_ready` sees the flag through a sequence of
    observations. Another thread may set the flag between them.
- Poll.ReportsError lower-cases ASCII letters only. For the pattern "error"
  this agrees with Python's full `str.lower()`: the only non-ASCII characters
  whose lower case holds ASCII letters are U+0130 (giving `i` and a combining
  dot) and U+212A (giving `k`), and "error" contains neither letter.
- Strings are sequences of Unicode scalar values. A prompt holding a lone
  surrogate, which Python strings allow, is not modelled.
- Strings.ReplaceAll: `str.replace` with an empty pattern is not modelled. The
  core only replaces non-empty placeholders.
- Workflow.ReplaceFillsSlots: this holds only for a template in which the
  placeholder text occurs only at its slots (`CleanFor`). Text produced by an
  earlier replacement that spells a placeholder is replaced again, as
  `Workflow.PromptTextIsSubstitutedLater` shows.
