/** `wait_for_completion` (handler.py:207-269): a loop, bounded by the clock,
    over the server's replies for one queued prompt, and the retrieval of the
    images of a completed prompt. Clock readings and replies are oracles:
    `clock(0)` is the start time, `clock(k + 1)` the reading of the k-th loop
    test, `history(k)` the k-th reply to `GET /history/<prompt_id>`, and
    `view(ref)` the reply to `GET /view` for an image. */
module Poll {
  import opened Outcomes
  import opened Strings
  import opened Comfy

  /** One entry of a node's `images` list; missing keys are None. */
  datatype ImageRecord = ImageRecord(filename: Option<string>, subfolder: Option<string>, kind: Option<string>)

  /** One node of the `outputs` mapping, in the mapping's order; `images` is
      None when the node has no `images` key. */
  datatype NodeOutput = NodeOutput(nodeId: string, images: Option<seq<ImageRecord>>)

  /** The `status` object: `completed` (False when absent) and `status_str`. */
  datatype JobStatus = JobStatus(completed: bool, statusStr: Option<string>)

  /** `history[prompt_id]`: its `status` (None when absent) and its `outputs`. */
  datatype HistoryEntry = HistoryEntry(status: Option<JobStatus>, outputs: seq<NodeOutput>)

  /** A reply to `GET /history/<prompt_id>`; `entry` is None when the prompt
      is not in the returned history. */
  datatype HistoryReply = HistoryRaised(msg: string) | History(status: int, entry: Option<HistoryEntry>)

  /** The query of one `GET /view` request. */
  datatype ImageRef = ImageRef(filename: string, subfolder: string, kind: string)

  datatype ViewReply = ViewRaised(msg: string) | Viewed(status: int, content: Bytes)

  /** What one iteration of the loop does with a reply. */
  datatype Verdict = Continue | Complete(outputs: seq<NodeOutput>) | Raise(msg: string)

  /** `'error' in status_str.lower()`. */
  predicate ReportsError(s: string) {
    Contains(AsciiLower(s), "error")
  }

  function FailureMessage(statusStr: string): string {
    "ComfyUI workflow failed: " + statusStr
  }

  /** One iteration (handler.py:213-267): an exception of the request
      propagates; a status other than 200 or an absent entry continues;
      `completed` is tested before the error test; a `status_str` reporting an
      error raises with that string; anything else continues. */
  function Classify(reply: HistoryReply): (v: Verdict)
    ensures reply.HistoryRaised? ==> v == Raise(reply.msg)
    ensures reply.History? && (reply.status != StatusOk || reply.entry.None?) ==> v == Continue
    ensures v.Complete? <==> reply.History? && reply.status == StatusOk && reply.entry.Some?
                             && reply.entry.value.status.Some? && reply.entry.value.status.value.completed
    ensures v.Complete? ==> v.outputs == reply.entry.value.outputs
    ensures v.Raise? && reply.History? ==>
      reply.entry.Some? && reply.entry.value.status.Some? && reply.entry.value.status.value.statusStr.Some?
      && ReportsError(reply.entry.value.status.value.statusStr.value)
      && v.msg == FailureMessage(reply.entry.value.status.value.statusStr.value)
    // and, conversely, an unfinished 200 entry whose `status_str` reports an error raises with it
    ensures reply.History? && reply.status == StatusOk && reply.entry.Some? && reply.entry.value.status.Some?
            && !reply.entry.value.status.value.completed && reply.entry.value.status.value.statusStr.Some?
            && ReportsError(reply.entry.value.status.value.statusStr.value) ==>
      v == Raise(FailureMessage(reply.entry.value.status.value.statusStr.value))
  {
    match reply
    case HistoryRaised(m) => Raise(m)
    case History(status, entry) =>
      if status != StatusOk then Continue
      else
        match entry
        case None => Continue
        case Some(e) =>
          match e.status
          case None => Continue
          case Some(st) =>
            if st.completed then Complete(e.outputs)
            else
              match st.statusStr
              case Some(s) => if ReportsError(s) then Raise(FailureMessage(s)) else Continue
              case None => Continue
  }

  /** The records the loop visits: node by node in order, then each node's
      images in list order; nodes without `images` contribute nothing. */
  function Declared(outputs: seq<NodeOutput>): seq<ImageRecord>
  {
    if outputs == [] then []
    else Declared(outputs[..|outputs| - 1]) + outputs[|outputs| - 1].images.GetOr([])
  }

  /** The `/view` query of a record: `subfolder` defaults to '' and `type` to 'output'. */
  function RefOf(rec: ImageRecord): (ref: ImageRef)
    requires rec.filename.Some?
  {
    ImageRef(rec.filename.value, rec.subfolder.GetOr(""), rec.kind.GetOr("output"))
  }

  /** The query keeps the record's filename, and its `subfolder` and `type`
      whenever the record has them; only absent ones take the defaults. */
  lemma RefOfDefaults(rec: ImageRecord)
    requires rec.filename.Some?
    ensures RefOf(rec).filename == rec.filename.value
    ensures rec.subfolder.Some? ==> RefOf(rec).subfolder == rec.subfolder.value
    ensures rec.subfolder.None? ==> RefOf(rec).subfolder == ""
    ensures rec.kind.Some? ==> RefOf(rec).kind == rec.kind.value
    ensures rec.kind.None? ==> RefOf(rec).kind == "output"
  {
  }

  /** `str(KeyError('filename'))`, raised for a record without a filename. */
  const MissingFilename: string := "'filename'"

  /** Fetching one record: an image for a 200 reply, nothing for another
      status, an exception for a missing filename or a failed request. */
  function FetchOne(rec: ImageRecord, view: ImageRef -> ViewReply): (r: Outcome<Option<Bytes>>)
    ensures rec.filename.None? ==> r == Err(MissingFilename)
    ensures rec.filename.Some? && view(RefOf(rec)).ViewRaised? ==> r == Err(view(RefOf(rec)).msg)
    ensures r.Ok? <==> rec.filename.Some? && view(RefOf(rec)).Viewed?
    // an image exactly for a 200 reply, and then its content
    ensures r.Ok? && r.value.Some? <==> rec.filename.Some? && view(RefOf(rec)).Viewed? && view(RefOf(rec)).status == StatusOk
    ensures r.Ok? && r.value.Some? ==> r.value.value == view(RefOf(rec)).content
  {
    match rec.filename
    case None => Err(MissingFilename)
    case Some(_) =>
      match view(RefOf(rec))
      case ViewRaised(m) => Err(m)
      case Viewed(status, content) => if status == StatusOk then Ok(Some(content)) else Ok(None)
  }

  /** The images retrieved for a sequence of records, fetched in order; the
      first exception ends the retrieval. Never more images than records. */
  function Fetch(recs: seq<ImageRecord>, view: ImageRef -> ViewReply): (r: Outcome<seq<Bytes>>)
    ensures r.Ok? ==> |r.value| <= |recs|
  {
    if recs == [] then Ok([])
    else
      match Fetch(recs[..|recs| - 1], view)
      case Err(m) => Err(m)
      case Ok(acc) =>
        match FetchOne(recs[|recs| - 1], view)
        case Err(m) => Err(m)
        case Ok(None) => Ok(acc)
        case Ok(Some(b)) => Ok(acc + [b])
  }

  /** The records whose fetch returns an image (status 200). */
  predicate Kept(rec: ImageRecord, view: ImageRef -> ViewReply) {
    FetchOne(rec, view).Ok? && FetchOne(rec, view).value.Some?
  }

  /** The indices of the kept records, in increasing order. */
  function KeptIndices(recs: seq<ImageRecord>, view: ImageRef -> ViewReply): (ks: seq<nat>)
    ensures forall a, b :: 0 <= a < b < |ks| ==> ks[a] < ks[b]
    ensures forall a :: 0 <= a < |ks| ==> ks[a] < |recs| && Kept(recs[ks[a]], view)
    ensures forall i :: 0 <= i < |recs| && Kept(recs[i], view) ==> i in ks
  {
    if recs == [] then []
    else
      var front := recs[..|recs| - 1];
      var ks := KeptIndices(front, view);
      assert forall i :: 0 <= i < |front| ==> front[i] == recs[i];
      if Kept(recs[|recs| - 1], view) then ks + [|recs| - 1] else ks
  }

  /** Retrieval keeps order and drops only the non-200 replies: the result is
      the content of each kept record, in record order. */
  lemma {:induction false} FetchKeepsOrder(recs: seq<ImageRecord>, view: ImageRef -> ViewReply)
    requires Fetch(recs, view).Ok?
    ensures |Fetch(recs, view).value| == |KeptIndices(recs, view)|
    ensures forall a :: 0 <= a < |KeptIndices(recs, view)| ==>
      Fetch(recs, view).value[a] == FetchOne(recs[KeptIndices(recs, view)[a]], view).value.value
  {
    if recs != [] {
      var front := recs[..|recs| - 1];
      FetchKeepsOrder(front, view);
      assert forall i :: 0 <= i < |front| ==> front[i] == recs[i];
    }
  }

  /** Retrieval raises exactly when some record lacks a filename or its
      request raises. */
  lemma {:induction false} FetchFailsIff(recs: seq<ImageRecord>, view: ImageRef -> ViewReply)
    ensures Fetch(recs, view).Err? <==> exists i :: 0 <= i < |recs| && FetchOne(recs[i], view).Err?
  {
    if recs != [] {
      var front := recs[..|recs| - 1];
      FetchFailsIff(front, view);
      assert forall i :: 0 <= i < |front| ==> front[i] == recs[i];
      if Fetch(front, view).Err? {
        var i :| 0 <= i < |front| && FetchOne(front[i], view).Err?;
        assert FetchOne(recs[i], view).Err?;
      }
    }
  }

  /** When every fetch returns 200, nothing is dropped. */
  lemma {:induction false} AllFetchedWhenAllOk(recs: seq<ImageRecord>, view: ImageRef -> ViewReply)
    requires forall i :: 0 <= i < |recs| ==> Kept(recs[i], view)
    ensures Fetch(recs, view).Ok? && |Fetch(recs, view).value| == |recs|
  {
    if recs != [] {
      var front := recs[..|recs| - 1];
      assert forall i :: 0 <= i < |front| ==> front[i] == recs[i];
      AllFetchedWhenAllOk(front, view);
      assert Kept(recs[|recs| - 1], view);
    }
  }

  /** Fetching the next record extends the fetched prefix by that record's result. */
  lemma FetchSnoc(recs: seq<ImageRecord>, rec: ImageRecord, view: ImageRef -> ViewReply)
    ensures Fetch(recs + [rec], view) ==
      match Fetch(recs, view)
      case Err(m) => Err(m)
      case Ok(acc) =>
        match FetchOne(rec, view)
        case Err(m) => Err(m)
        case Ok(None) => Ok(acc)
        case Ok(Some(b)) => Ok(acc + [b])
  {
    assert (recs + [rec])[..|recs + [rec]| - 1] == recs;
  }

  /** Once retrieval has raised, later records change nothing. */
  lemma {:induction false} FetchErrSticks(recs: seq<ImageRecord>, more: seq<ImageRecord>, view: ImageRef -> ViewReply)
    requires Fetch(recs, view).Err?
    ensures Fetch(recs + more, view) == Fetch(recs, view)
  {
    if more == [] {
      assert recs + more == recs;
    } else {
      var front := more[..|more| - 1];
      FetchErrSticks(recs, front, view);
      FetchSnoc(recs + front, more[|more| - 1], view);
      assert recs + front + [more[|more| - 1]] == recs + more;
    }
  }

  lemma {:induction false} DeclaredAppend(a: seq<NodeOutput>, b: seq<NodeOutput>)
    ensures Declared(a + b) == Declared(a) + Declared(b)
  {
    if b == [] {
      assert a + b == a;
    } else {
      var front := b[..|b| - 1];
      DeclaredAppend(a, front);
      assert (a + b)[..|a + b| - 1] == a + front;
    }
  }

  /** One more node adds its images, if it declares any, after the earlier ones. */
  lemma DeclaredNext(outputs: seq<NodeOutput>, i: nat)
    requires i < |outputs|
    ensures Declared(outputs[..i + 1]) == Declared(outputs[..i]) + outputs[i].images.GetOr([])
  {
    assert outputs[..i + 1][..i] == outputs[..i];
  }

  /** One more image record: its fetch result extends, or ends, the retrieval. */
  lemma FetchNext(base: seq<ImageRecord>, imgs: seq<ImageRecord>, k: nat, acc: seq<Bytes>, view: ImageRef -> ViewReply)
    requires k < |imgs| && Fetch(base + imgs[..k], view) == Ok(acc)
    ensures Fetch(base + imgs[..k + 1], view) ==
      match FetchOne(imgs[k], view)
      case Err(m) => Err(m)
      case Ok(None) => Ok(acc)
      case Ok(Some(b)) => Ok(acc + [b])
  {
    FetchSnoc(base + imgs[..k], imgs[k], view);
    assert base + imgs[..k] + [imgs[k]] == base + imgs[..k + 1];
  }

  /** The image retrieval of handler.py:230-259: nested loops over the nodes
      and their images, appending the content of every 200 reply. */
  method ExtractImages(outputs: seq<NodeOutput>, view: ImageRef -> ViewReply) returns (r: Outcome<seq<Bytes>>)
    ensures r == Fetch(Declared(outputs), view)
  {
    var acc: seq<Bytes> := [];
    var i := 0;
    while i < |outputs|
      invariant 0 <= i <= |outputs|
      invariant Fetch(Declared(outputs[..i]), view) == Ok(acc)
    {
      var node := outputs[i];
      DeclaredNext(outputs, i);
      if node.images.Some? {
        var imgs := node.images.value;
        ghost var base := Declared(outputs[..i]);
        var k := 0;
        assert base + imgs[..k] == base;
        while k < |imgs|
          invariant 0 <= k <= |imgs|
          invariant Fetch(base + imgs[..k], view) == Ok(acc)
        {
          var rec := imgs[k];
          FetchNext(base, imgs, k, acc, view);
          if rec.filename.None? {
            r := Err(MissingFilename);
            RetrievalStops(outputs, i, k, view);
            return;
          }
          var reply := view(RefOf(rec));
          if reply.ViewRaised? {
            r := Err(reply.msg);
            RetrievalStops(outputs, i, k, view);
            return;
          }
          if reply.status == StatusOk {
            acc := acc + [reply.content];
          }
          k := k + 1;
        }
        assert imgs[..k] == imgs;
      } else {
        assert Declared(outputs[..i]) + [] == Declared(outputs[..i]);
      }
      i := i + 1;
    }
    assert outputs[..i] == outputs;
    r := Ok(acc);
  }

  /** The records split around image `k` of node `i`. */
  lemma DeclaredAround(outputs: seq<NodeOutput>, i: nat, k: nat)
    requires i < |outputs| && outputs[i].images.Some? && k < |outputs[i].images.value|
    ensures var imgs := outputs[i].images.value;
      Declared(outputs) == (Declared(outputs[..i]) + imgs[..k + 1]) + (imgs[k + 1..] + Declared(outputs[i + 1..]))
  {
    var imgs := outputs[i].images.value;
    DeclaredAppend(outputs[..i + 1], outputs[i + 1..]);
    assert outputs[..i + 1] + outputs[i + 1..] == outputs;
    DeclaredNext(outputs, i);
    var front, back := Declared(outputs[..i]), Declared(outputs[i + 1..]);
    assert Declared(outputs) == front + imgs + back;
    assert imgs == imgs[..k + 1] + imgs[k + 1..];
    assert front + imgs + back == (front + imgs[..k + 1]) + (imgs[k + 1..] + back);
  }

  /** A retrieval that raised at image `k` of node `i` raised for the whole outputs. */
  lemma RetrievalStops(outputs: seq<NodeOutput>, i: nat, k: nat, view: ImageRef -> ViewReply)
    requires i < |outputs| && outputs[i].images.Some? && k < |outputs[i].images.value|
    requires Fetch(Declared(outputs[..i]) + outputs[i].images.value[..k + 1], view).Err?
    ensures Fetch(Declared(outputs), view) == Fetch(Declared(outputs[..i]) + outputs[i].images.value[..k + 1], view)
  {
    var imgs := outputs[i].images.value;
    DeclaredAround(outputs, i, k);
    FetchErrSticks(Declared(outputs[..i]) + imgs[..k + 1], imgs[k + 1..] + Declared(outputs[i + 1..]), view);
  }

  /** How the loop ends: with the retrieved images, with an exception, or by
      the loop test failing. */
  datatype PollEnd = Finished(images: seq<Bytes>) | Failed(msg: string) | TimedOut

  /** How the loop ends and how many history requests it issued. */
  datatype PollRun = PollRun(end: PollEnd, polls: nat)

  /** `time.time() - start_time` at the k-th clock reading. */
  function Elapsed(clock: nat -> real, k: nat): real {
    clock(k) - clock(0)
  }

  function TimeoutMessage(timeout: nat): string {
    "Workflow timed out after " + NatToString(timeout) + " seconds"
  }

  /** The loop from its j-th test on. `deadline` is an index whose reading is
      past the timeout: the clock does reach it, so the loop ends. */
  function PollFrom(j: nat, timeout: nat, clock: nat -> real, history: nat -> HistoryReply,
                    view: ImageRef -> ViewReply, ghost deadline: nat): (run: PollRun)
    requires j < deadline
    requires Elapsed(clock, deadline) >= timeout as real
    ensures j <= run.polls
    decreases deadline - j
  {
    if Elapsed(clock, j + 1) >= timeout as real then PollRun(TimedOut, j)
    else
      match Classify(history(j))
      case Continue => PollFrom(j + 1, timeout, clock, history, view, deadline)
      case Raise(m) => PollRun(Failed(m), j + 1)
      case Complete(outs) =>
        match Fetch(Declared(outs), view)
        case Err(m) => PollRun(Failed(m), j + 1)
        case Ok(images) => PollRun(Finished(images), j + 1)
  }

  /** What `wait_for_completion` returns or raises. */
  function PollOutcome(end: PollEnd, timeout: nat): Outcome<seq<Bytes>> {
    match end
    case Finished(images) => Ok(images)
    case Failed(m) => Err(m)
    case TimedOut => Err(TimeoutMessage(timeout))
  }

  /** The shape of every run: each history request is issued while the
      elapsed time is below the timeout; a time-out happens only when the loop
      test sees the elapsed time reach the timeout, after replies that all
      said "continue"; any other end comes from the last reply (a completion,
      with its retrieval, or an exception), all earlier replies said "continue". */
  lemma {:induction false} PollRunShape(j: nat, timeout: nat, clock: nat -> real, history: nat -> HistoryReply,
                                        view: ImageRef -> ViewReply, deadline: nat)
    requires j < deadline
    requires Elapsed(clock, deadline) >= timeout as real
    ensures var run := PollFrom(j, timeout, clock, history, view, deadline);
      && (forall k :: j < k <= run.polls ==> Elapsed(clock, k) < timeout as real)
      && (run.end.TimedOut? ==>
            Elapsed(clock, run.polls + 1) >= timeout as real
            && forall i :: j <= i < run.polls ==> Classify(history(i)) == Continue)
      && (!run.end.TimedOut? ==>
            j < run.polls
            && (forall i :: j <= i < run.polls - 1 ==> Classify(history(i)) == Continue)
            && Classify(history(run.polls - 1)) != Continue)
      && (run.end.Finished? ==>
            Classify(history(run.polls - 1)).Complete?
            && Fetch(Declared(Classify(history(run.polls - 1)).outputs), view) == Ok(run.end.images))
      && (run.end.Failed? ==>
            Classify(history(run.polls - 1)) == Raise(run.end.msg)
            || (Classify(history(run.polls - 1)).Complete?
                && Fetch(Declared(Classify(history(run.polls - 1)).outputs), view) == Err(run.end.msg)))
    decreases deadline - j
  {
    var run := PollFrom(j, timeout, clock, history, view, deadline);
    if Elapsed(clock, j + 1) >= timeout as real {
      assert run == PollRun(TimedOut, j);
    } else if Classify(history(j)) == Continue {
      PollRunShape(j + 1, timeout, clock, history, view, deadline);
      assert run == PollFrom(j + 1, timeout, clock, history, view, deadline);
    } else {
      assert run.polls == j + 1 && !run.end.TimedOut?;
    }
  }

  /** A server whose history never completes and never reports an error makes
      the loop time out, and only once the timeout has been reached. */
  lemma NeverCompletingTimesOut(timeout: nat, clock: nat -> real, history: nat -> HistoryReply,
                                view: ImageRef -> ViewReply, deadline: nat)
    requires 0 < deadline
    requires Elapsed(clock, deadline) >= timeout as real
    requires forall i :: Classify(history(i)) == Continue
    ensures PollFrom(0, timeout, clock, history, view, deadline).end == TimedOut
    ensures PollOutcome(PollFrom(0, timeout, clock, history, view, deadline).end, timeout) == Err(TimeoutMessage(timeout))
    ensures Elapsed(clock, PollFrom(0, timeout, clock, history, view, deadline).polls + 1) >= timeout as real
  {
    PollRunShape(0, timeout, clock, history, view, deadline);
  }

  /** `wait_for_completion` (handler.py:207-269): poll while the elapsed time
      is below the timeout, classifying each reply; returns what it returns or
      raises, and the number of history requests it issued. */
  method WaitForCompletion(timeout: nat, clock: nat -> real, history: nat -> HistoryReply,
                           view: ImageRef -> ViewReply, ghost deadline: nat)
    returns (r: Outcome<seq<Bytes>>, polls: nat)
    requires 0 < deadline
    requires Elapsed(clock, deadline) >= timeout as real
    ensures r == PollOutcome(PollFrom(0, timeout, clock, history, view, deadline).end, timeout)
    ensures polls == PollFrom(0, timeout, clock, history, view, deadline).polls
  {
    var startTime := clock(0);
    var j := 0;
    while clock(j + 1) - startTime < timeout as real
      invariant j < deadline
      invariant PollFrom(j, timeout, clock, history, view, deadline) == PollFrom(0, timeout, clock, history, view, deadline)
      decreases deadline - j
    {
      var verdict := Classify(history(j));
      match verdict
      case Continue =>
        j := j + 1;
      case Raise(m) =>
        return Err(m), j + 1;
      case Complete(outs) =>
        var images := ExtractImages(outs, view);
        return images, j + 1;
    }
    return Err(TimeoutMessage(timeout)), j;
  }
}
