/** The image-generation server as seen by the client (handler.py:107-139,
    187-204): its replies are oracle values, and each client call is a
    function from the replies to what the call returns or raises. */
module Comfy {
  import opened Outcomes

  newtype byte = x: int | 0 <= x < 256
  type Bytes = seq<byte>

  const StatusOk: int := 200

  /** A reply to `GET /system_stats`, or the exception `requests.get` raised. */
  datatype ProbeReply = ProbeRaised(msg: string) | Probed(status: int)

  /** A reply to `GET <image url>`. */
  datatype DownloadReply = DownloadRaised(msg: string) | Downloaded(status: int, content: Bytes)

  /** A reply to `POST /upload/image`; `name` is the `name` field of its JSON body. */
  datatype UploadReply = UploadRaised(msg: string) | Uploaded(status: int, text: string, name: Option<string>)

  /** A reply to `POST /prompt`; `promptId` is the `prompt_id` field of its JSON body. */
  datatype QueueReply = QueueRaised(msg: string) | Queued(status: int, text: string, promptId: Option<string>)

  /** The outcome of `upload_image` together with whether it got as far as
      posting the image to the server. */
  datatype Staged = Staged(result: Outcome<string>, posted: bool)

  /** The name `upload_image` asks the server to store the image under. */
  function UniqueName(uuid: string, filename: string): string {
    uuid + "_" + filename
  }

  /** `upload_image` (handler.py:107-139): download the image, fail with
      "Failed to download image from <url>" unless the status is 200, post it
      under a fresh name, fail unless that status is 200, and return the name
      the server assigned, or the requested name when the reply has none.
      Exceptions of either request propagate. */
  function UploadImage(imageUrl: string, filename: string, uuid: string,
                       download: string -> DownloadReply,
                       upload: (string, Bytes) -> UploadReply): (r: Staged)
    ensures r.posted <==> download(imageUrl).Downloaded? && download(imageUrl).status == StatusOk
    ensures r.result.Ok? <==>
      r.posted && upload(UniqueName(uuid, filename), download(imageUrl).content).Uploaded?
      && upload(UniqueName(uuid, filename), download(imageUrl).content).status == StatusOk
    ensures r.result.Ok? ==>
      r.result.value == upload(UniqueName(uuid, filename), download(imageUrl).content).name.GetOr(UniqueName(uuid, filename))
    ensures download(imageUrl).Downloaded? && download(imageUrl).status != StatusOk ==>
      r.result == Err("Failed to download image from " + imageUrl)
    // an exception of either request passes its own message on
    ensures download(imageUrl).DownloadRaised? ==> r.result == Err(download(imageUrl).msg)
    ensures r.posted && upload(UniqueName(uuid, filename), download(imageUrl).content).UploadRaised? ==>
      r.result == Err(upload(UniqueName(uuid, filename), download(imageUrl).content).msg)
    ensures r.posted && upload(UniqueName(uuid, filename), download(imageUrl).content).Uploaded?
            && upload(UniqueName(uuid, filename), download(imageUrl).content).status != StatusOk ==>
      r.result == Err("Failed to upload image to ComfyUI: " + upload(UniqueName(uuid, filename), download(imageUrl).content).text)
  {
    match download(imageUrl)
    case DownloadRaised(m) => Staged(Err(m), false)
    case Downloaded(status, content) =>
      if status != StatusOk then Staged(Err("Failed to download image from " + imageUrl), false)
      else
        var unique := UniqueName(uuid, filename);
        match upload(unique, content)
        case UploadRaised(m) => Staged(Err(m), true)
        case Uploaded(ustatus, text, name) =>
          if ustatus != StatusOk then Staged(Err("Failed to upload image to ComfyUI: " + text), true)
          else Staged(Ok(name.GetOr(unique)), true)
  }

  /** `str(KeyError('prompt_id'))`, raised when the reply has no `prompt_id`. */
  const MissingPromptId: string := "'prompt_id'"

  /** `queue_prompt` (handler.py:187-204): fail with "Failed to queue prompt:
      <body>" unless the status is 200, else return the `prompt_id` of the
      reply; a reply without one raises a KeyError. */
  function QueuePrompt(workflow: string, clientId: string, queue: (string, string) -> QueueReply): (r: Outcome<string>)
    ensures r.Ok? <==> queue(workflow, clientId).Queued? && queue(workflow, clientId).status == StatusOk
                       && queue(workflow, clientId).promptId.Some?
    ensures r.Ok? ==> r.value == queue(workflow, clientId).promptId.value
    ensures queue(workflow, clientId).Queued? && queue(workflow, clientId).status != StatusOk ==>
      r == Err("Failed to queue prompt: " + queue(workflow, clientId).text)
    ensures (queue(workflow, clientId).Queued? && queue(workflow, clientId).status == StatusOk
             && queue(workflow, clientId).promptId.None?) ==> r == Err(MissingPromptId)
    ensures queue(workflow, clientId).QueueRaised? ==> r == Err(queue(workflow, clientId).msg)
  {
    match queue(workflow, clientId)
    case QueueRaised(m) => Err(m)
    case Queued(status, text, promptId) =>
      if status != StatusOk then Err("Failed to queue prompt: " + text)
      else
        match promptId
        case None => Err(MissingPromptId)
        case Some(id) => Ok(id)
  }

  /** A readiness probe that got a 200 reply. */
  predicate ProbeOk(reply: ProbeReply) {
    reply.Probed? && reply.status == StatusOk
  }

  /** Some probe among the first `limit` gets a 200 reply. */
  predicate ReadyWithin(probe: nat -> ProbeReply, limit: nat) {
    exists i :: 0 <= i < limit && ProbeOk(probe(i))
  }

  /** The bounded readiness loops of handler.py:308-319 and app_lb.py:79-89:
      probe at most `limit` times and stop at the first 200 reply. An
      exception only sleeps and a non-200 reply retries at once, so the bound
      is on the number of probes. `probe(i)` is the reply to the i-th probe. */
  method ProbeUntilReady(limit: nat, probe: nat -> ProbeReply) returns (ready: bool, probes: nat)
    ensures probes <= limit
    ensures ready <==> ReadyWithin(probe, limit)
    ensures ready ==> 0 < probes
    ensures !ready ==> probes == limit
    ensures forall i :: 0 <= i < probes ==> (ProbeOk(probe(i)) <==> ready && i == probes - 1)
  {
    ready, probes := false, 0;
    while probes < limit && !ready
      invariant probes <= limit
      invariant ready ==> 0 < probes
      invariant forall i :: 0 <= i < probes ==> (ProbeOk(probe(i)) <==> ready && i == probes - 1)
    {
      ready := ProbeOk(probe(probes));
      probes := probes + 1;
    }
    if ready {
      assert ProbeOk(probe(probes - 1));
    }
  }
}
