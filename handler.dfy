/** The serverless request handler (handler.py:272-410) and the job pipeline
    it shares with the HTTP worker: stage the images, build the workflow,
    queue it, wait for it, encode the results. */
module Handler {
  import opened Outcomes
  import opened Comfy
  import opened Workflow
  import opened Poll

  /** Every oracle the pipeline consults. `uuid(k)` is the k-th `uuid.uuid4()`
      of the job; `history(id, k)` the k-th reply for prompt `id`;
      `pollClock` the clock readings of `wait_for_completion`. */
  datatype Server = Server(
    probe: nat -> ProbeReply,
    download: string -> DownloadReply,
    upload: (string, Bytes) -> UploadReply,
    files: string -> Option<string>,
    loads: string -> Option<string>,
    queue: (string, string) -> QueueReply,
    history: (string, nat) -> HistoryReply,
    view: ImageRef -> ViewReply,
    pollClock: nat -> real,
    uuid: nat -> string)

  /** The job timeout both front ends pass to `wait_for_completion`. */
  const JobTimeout: nat := 900

  /** The server's clock reaches the job timeout at reading `deadline`. */
  predicate ClockPasses(server: Server, deadline: nat) {
    0 < deadline && Elapsed(server.pollClock, deadline) >= JobTimeout as real
  }

  /** Python truthiness of an optional string: present and not empty. */
  predicate Truthy(v: Option<string>) {
    v.Some? && v.value != ""
  }

  /** What the pipeline returned or raised, and the names of the images it
      posted to the server, in posting order. */
  datatype JobRun = JobRun(result: Outcome<seq<Bytes>>, uploads: seq<string>)

  /** The staging part: the three uploads (the second user image only when
      its URL is truthy), in the order reference, user 1, user 2. On success
      the result holds the three names; `nextUuid` is the index of the next
      unused identifier. */
  datatype Staging = Staging(names: Outcome<(string, string, Option<string>)>, uploads: seq<string>, nextUuid: nat)

  function PostedName(s: Staged, uuid: string, filename: string): seq<string> {
    if s.posted then [UniqueName(uuid, filename)] else []
  }

  /** The `upload_image` call that uses the k-th identifier of the job. */
  function UploadNth(server: Server, url: string, filename: string, k: nat): Staged {
    UploadImage(url, filename, server.uuid(k), server.download, server.upload)
  }

  function StageImages(referenceUrl: string, user1Url: string, user2Url: Option<string>, server: Server): (st: Staging)
    // staging succeeds exactly when each upload it makes succeeds, and returns their names
    ensures st.names.Ok? <==>
      && UploadNth(server, referenceUrl, "reference.png", 0).result.Ok?
      && UploadNth(server, user1Url, "user1.png", 1).result.Ok?
      && (Truthy(user2Url) ==> UploadNth(server, user2Url.value, "user2.png", 2).result.Ok?)
    ensures st.names.Ok? ==>
      && st.names.value.0 == UploadNth(server, referenceUrl, "reference.png", 0).result.value
      && st.names.value.1 == UploadNth(server, user1Url, "user1.png", 1).result.value
      && st.names.value.2 == (if Truthy(user2Url) then Some(UploadNth(server, user2Url.value, "user2.png", 2).result.value) else None)
    // a failure carries the message of the first upload that failed
    ensures UploadNth(server, referenceUrl, "reference.png", 0).result.Err? ==>
      st.names == Err(UploadNth(server, referenceUrl, "reference.png", 0).result.msg)
    ensures UploadNth(server, referenceUrl, "reference.png", 0).result.Ok?
            && UploadNth(server, user1Url, "user1.png", 1).result.Err? ==>
      st.names == Err(UploadNth(server, user1Url, "user1.png", 1).result.msg)
    ensures UploadNth(server, referenceUrl, "reference.png", 0).result.Ok?
            && UploadNth(server, user1Url, "user1.png", 1).result.Ok?
            && Truthy(user2Url) && UploadNth(server, user2Url.value, "user2.png", 2).result.Err? ==>
      st.names == Err(UploadNth(server, user2Url.value, "user2.png", 2).result.msg)
    ensures |st.uploads| <= 3
    ensures st.names.Ok? ==> |st.uploads| == (if Truthy(user2Url) then 3 else 2)
    ensures st.names.Ok? ==> (st.names.value.2.Some? <==> Truthy(user2Url))
    ensures st.names.Ok? ==> st.nextUuid == |st.uploads|
    // on success every image was posted, under its fresh name, in order
    ensures st.names.Ok? ==>
      st.uploads == [UniqueName(server.uuid(0), "reference.png"), UniqueName(server.uuid(1), "user1.png")]
                    + (if Truthy(user2Url) then [UniqueName(server.uuid(2), "user2.png")] else [])
    // a reference image that cannot be downloaded stops the job before anything is posted
    ensures !(server.download(referenceUrl).Downloaded? && server.download(referenceUrl).status == StatusOk) ==>
      st.names.Err? && st.uploads == []
  {
    var ref := UploadNth(server, referenceUrl, "reference.png", 0);
    var up0 := PostedName(ref, server.uuid(0), "reference.png");
    match ref.result
    case Err(m) => Staging(Err(m), up0, 1)
    case Ok(refName) =>
      var u1 := UploadNth(server, user1Url, "user1.png", 1);
      var up1 := up0 + PostedName(u1, server.uuid(1), "user1.png");
      match u1.result
      case Err(m) => Staging(Err(m), up1, 2)
      case Ok(u1Name) =>
        if Truthy(user2Url) then
          var u2 := UploadNth(server, user2Url.value, "user2.png", 2);
          var up2 := up1 + PostedName(u2, server.uuid(2), "user2.png");
          match u2.result
          case Err(m) => Staging(Err(m), up2, 3)
          case Ok(u2Name) => Staging(Ok((refName, u1Name, Some(u2Name))), up2, 3)
        else Staging(Ok((refName, u1Name, None)), up1, 2)
  }

  /** Staging, then loading and preparing the template and queueing it: the
      prompt id to poll for. */
  function Submit(styleId: string, referenceUrl: string, user1Url: string, user2Url: Option<string>,
                  prompt: string, server: Server): (r: (Outcome<string>, seq<string>))
    // only the staging posts images
    ensures r.1 == StageImages(referenceUrl, user1Url, user2Url, server).uploads
    // a failed staging or a missing template is the submission's error
    ensures StageImages(referenceUrl, user1Url, user2Url, server).names.Err? ==>
      r.0 == Err(StageImages(referenceUrl, user1Url, user2Url, server).names.msg)
    ensures StageImages(referenceUrl, user1Url, user2Url, server).names.Ok? && LoadTemplate(styleId, server.files).Err? ==>
      r.0 == Err(LoadTemplate(styleId, server.files).msg)
    // a prompt id means every image was staged and the template of the style was found
    ensures r.0.Ok? ==> StageImages(referenceUrl, user1Url, user2Url, server).names.Ok? && LoadTemplate(styleId, server.files).Ok?
    // once staged and loaded, the prepared workflow (or its error) decides the
    // submission, queued under the first identifier the uploads did not use
    ensures var st := StageImages(referenceUrl, user1Url, user2Url, server);
      st.names.Ok? && LoadTemplate(styleId, server.files).Ok? ==>
        var p := PrepareWorkflow(LoadTemplate(styleId, server.files).value, st.names.value.0, st.names.value.1,
                                 st.names.value.2, prompt, styleId == CouplesStyle, server.loads);
        r.0 == (if p.Err? then Err(p.msg) else QueuePrompt(p.value, server.uuid(st.nextUuid), server.queue))
  {
    var st := StageImages(referenceUrl, user1Url, user2Url, server);
    match st.names
    case Err(m) => (Err(m), st.uploads)
    case Ok((refName, u1Name, u2Name)) =>
      match LoadTemplate(styleId, server.files)
      case Err(m) => (Err(m), st.uploads)
      case Ok(template) =>
        match PrepareWorkflow(template, refName, u1Name, u2Name, prompt, styleId == CouplesStyle, server.loads)
        case Err(m) => (Err(m), st.uploads)
        case Ok(workflow) => (QueuePrompt(workflow, server.uuid(st.nextUuid), server.queue), st.uploads)
  }

  /** The whole job (handler.py:349-383, app_lb.py:199-234). */
  function Pipeline(styleId: string, referenceUrl: string, user1Url: string, user2Url: Option<string>,
                    prompt: string, server: Server, ghost deadline: nat): (run: JobRun)
    requires ClockPasses(server, deadline)
    ensures run.uploads == Submit(styleId, referenceUrl, user1Url, user2Url, prompt, server).1
    // a submission that fails is the job's error; no polling happens
    ensures Submit(styleId, referenceUrl, user1Url, user2Url, prompt, server).0.Err? ==>
      run.result == Err(Submit(styleId, referenceUrl, user1Url, user2Url, prompt, server).0.msg)
    // images come only from a queued prompt whose history completed
    ensures run.result.Ok? ==>
      && Submit(styleId, referenceUrl, user1Url, user2Url, prompt, server).0.Ok?
      && var promptId := Submit(styleId, referenceUrl, user1Url, user2Url, prompt, server).0.value;
         var end := PollFrom(0, JobTimeout, server.pollClock, (k: nat) => server.history(promptId, k), server.view, deadline).end;
         end.Finished? && run.result.value == end.images
    // a queued prompt's job ends as its polling loop does: the images of a
    // finished run, the exception of a failed one, the timeout error otherwise
    ensures Submit(styleId, referenceUrl, user1Url, user2Url, prompt, server).0.Ok? ==>
      var promptId := Submit(styleId, referenceUrl, user1Url, user2Url, prompt, server).0.value;
      var end := PollFrom(0, JobTimeout, server.pollClock, (k: nat) => server.history(promptId, k), server.view, deadline).end;
      && (end.Finished? ==> run.result == Ok(end.images))
      && (end.Failed? ==> run.result == Err(end.msg))
      && (end.TimedOut? ==> run.result == Err(TimeoutMessage(JobTimeout)))
  {
    var (queued, uploads) := Submit(styleId, referenceUrl, user1Url, user2Url, prompt, server);
    match queued
    case Err(m) => JobRun(Err(m), uploads)
    case Ok(promptId) =>
      var run := PollFrom(0, JobTimeout, server.pollClock, (k: nat) => server.history(promptId, k), server.view, deadline);
      JobRun(PollOutcome(run.end, JobTimeout), uploads)
  }

  /** A queued prompt whose history never reports completion ends in the
      timeout error of the 900-second job limit. */
  lemma UnfinishedJobTimesOut(styleId: string, referenceUrl: string, user1Url: string, user2Url: Option<string>,
                              prompt: string, server: Server, deadline: nat)
    requires ClockPasses(server, deadline)
    requires Submit(styleId, referenceUrl, user1Url, user2Url, prompt, server).0.Ok?
    requires forall k: nat :: Classify(server.history(Submit(styleId, referenceUrl, user1Url, user2Url, prompt, server).0.value, k)) == Continue
    ensures Pipeline(styleId, referenceUrl, user1Url, user2Url, prompt, server, deadline).result
         == Err("Workflow timed out after 900 seconds")
  {
    var promptId := Submit(styleId, referenceUrl, user1Url, user2Url, prompt, server).0.value;
    NeverCompletingTimesOut(JobTimeout, server.pollClock, (k: nat) => server.history(promptId, k), server.view, deadline);
    JobTimeoutMessage();
  }

  lemma JobTimeoutMessage()
    ensures TimeoutMessage(JobTimeout) == "Workflow timed out after 900 seconds"
  {
    assert NatToString(9) == "9" && NatToString(90) == "90" && NatToString(900) == "900";
  }

  /** Runs the pipeline, with `wait_for_completion` as a loop. */
  method RunJob(styleId: string, referenceUrl: string, user1Url: string, user2Url: Option<string>,
                prompt: string, server: Server, ghost deadline: nat) returns (run: JobRun)
    requires ClockPasses(server, deadline)
    ensures run == Pipeline(styleId, referenceUrl, user1Url, user2Url, prompt, server, deadline)
  {
    var (queued, uploads) := Submit(styleId, referenceUrl, user1Url, user2Url, prompt, server);
    if queued.Err? {
      return JobRun(Err(queued.msg), uploads);
    }
    var promptId := queued.value;
    var images, polls := WaitForCompletion(JobTimeout, server.pollClock, (k: nat) => server.history(promptId, k), server.view, deadline);
    run := JobRun(images, uploads);
  }

  /** The base64 loops of handler.py:388-392 and app_lb.py:239-242: one
      encoded string per image, in order. `encode` is `base64.b64encode`. */
  method EncodeAll(images: seq<Bytes>, encode: Bytes -> string) returns (encoded: seq<string>)
    ensures |encoded| == |images|
    ensures forall i :: 0 <= i < |images| ==> encoded[i] == encode(images[i])
  {
    encoded := [];
    for i := 0 to |images|
      invariant |encoded| == i
      invariant forall k :: 0 <= k < i ==> encoded[k] == encode(images[k])
    {
      encoded := encoded + [encode(images[i])];
    }
  }

  /** With a decoder that inverts the encoder, the encoded images decode back
      to exactly the retrieved bytes. */
  lemma EncodedDecodeBack(images: seq<Bytes>, encoded: seq<string>, encode: Bytes -> string, decode: string -> Bytes)
    requires forall b :: decode(encode(b)) == b
    requires |encoded| == |images|
    requires forall i :: 0 <= i < |images| ==> encoded[i] == encode(images[i])
    ensures seq(|encoded|, i requires 0 <= i < |encoded| => decode(encoded[i])) == images
  {
  }

  /** The `input` object of the event; None stands for an absent key. */
  datatype JobInput = JobInput(
    jobId: Option<string>,
    styleId: Option<string>,
    userImage1Url: Option<string>,
    userImage2Url: Option<string>,
    referenceImageUrl: Option<string>,
    prompt: Option<string>)

  /** The handler's reply: `jobId` is None where the reply has no `jobId` key. */
  datatype HandlerResponse =
    | JobCompleted(jobId: string, images: seq<string>, message: string)
    | JobFailed(failedJobId: Option<string>, error: string)

  const MaxWait: nat := 30
  const MissingFieldsError: string := "Missing required fields: jobId, userImage1Url, referenceImageUrl"
  const MissingImage2Error: string := "Missing userImage2Url for couples style"

  function NotReadyMessage(limit: nat): string {
    "ComfyUI not ready after " + NatToString(limit) + " seconds"
  }

  function SuccessMessage(n: nat): string {
    "Generated " + NatToString(n) + " images successfully"
  }

  /** The required fields are all present and not empty. */
  predicate HasRequired(input: JobInput) {
    Truthy(input.jobId) && Truthy(input.userImage1Url) && Truthy(input.referenceImageUrl)
  }

  predicate WantsCouples(input: JobInput) {
    input.styleId.GetOr("single") == CouplesStyle
  }

  /** `handler` (handler.py:272-410). Besides the reply, it returns how many
      readiness probes it issued and the names of the images it posted. */
  method HandleJob(input: JobInput, server: Server, encode: Bytes -> string, ghost deadline: nat)
    returns (resp: HandlerResponse, probes: nat, uploads: seq<string>)
    requires ClockPasses(server, deadline)
    ensures 0 < probes <= MaxWait
    // readiness: the fixed failure only after 30 probes none of which got a 200
    ensures !ReadyWithin(server.probe, MaxWait) ==> resp == JobFailed(Some(input.jobId.GetOr("unknown")), NotReadyMessage(MaxWait))
    ensures !ReadyWithin(server.probe, MaxWait) ==> probes == MaxWait && uploads == []
    // validation happens after the readiness probes and before any upload
    ensures ReadyWithin(server.probe, MaxWait) && !HasRequired(input) ==>
      resp == JobFailed(None, MissingFieldsError) && uploads == []
    ensures ReadyWithin(server.probe, MaxWait) && HasRequired(input) && WantsCouples(input) && !Truthy(input.userImage2Url) ==>
      resp == JobFailed(None, MissingImage2Error) && uploads == []
    // a valid request runs the pipeline; success carries one encoded image per result, in order
    ensures ReadyWithin(server.probe, MaxWait) && HasRequired(input) && !(WantsCouples(input) && !Truthy(input.userImage2Url)) ==>
      var run := Pipeline(input.styleId.GetOr("single"), input.referenceImageUrl.value, input.userImage1Url.value,
                          input.userImage2Url, input.prompt.GetOr(""), server, deadline);
      && uploads == run.uploads
      && (run.result.Err? <==> resp.JobFailed?)
      && (run.result.Err? ==> resp == JobFailed(Some(input.jobId.value), run.result.msg))
      && (run.result.Ok? ==>
            && resp.JobCompleted? && resp.jobId == input.jobId.value
            && |resp.images| == |run.result.value|
            && (forall i :: 0 <= i < |resp.images| ==> resp.images[i] == encode(run.result.value[i]))
            && resp.message == SuccessMessage(|resp.images|))
  {
    uploads := [];
    var ready;
    ready, probes := ProbeUntilReady(MaxWait, server.probe);
    if !ready {
      resp := JobFailed(Some(input.jobId.GetOr("unknown")), NotReadyMessage(MaxWait));
      return;
    }
    if !Truthy(input.jobId) || !Truthy(input.userImage1Url) || !Truthy(input.referenceImageUrl) {
      resp := JobFailed(None, MissingFieldsError);
      return;
    }
    var styleId := input.styleId.GetOr("single");
    var isCouples := styleId == CouplesStyle;
    if isCouples && !Truthy(input.userImage2Url) {
      resp := JobFailed(None, MissingImage2Error);
      return;
    }
    var run := RunJob(styleId, input.referenceImageUrl.value, input.userImage1Url.value,
                      input.userImage2Url, input.prompt.GetOr(""), server, deadline);
    uploads := run.uploads;
    if run.result.Err? {
      resp := JobFailed(Some(input.jobId.GetOr("unknown")), run.result.msg);
      return;
    }
    var encoded := EncodeAll(run.result.value, encode);
    resp := JobCompleted(input.jobId.value, encoded, SuccessMessage(|encoded|));
  }
}
