/** The HTTP worker (app_lb.py): the process-wide readiness flag and request
    counter, the startup probe, the health endpoints, the blocking generation
    job, and the server-sent-event stream that carries its result. */
module App {
  import opened Outcomes
  import opened Comfy
  import opened Workflow
  import opened Poll
  import opened Handler

  const StartupRetries: nat := 180
  const ReadyTimeout: nat := 120

  function StartupFailure(limit: nat): string {
    "ComfyUI failed to start within " + NatToString(limit) + " seconds"
  }

  /** An HTTP reply whose body is a flat JSON object of string fields. */
  datatype HttpReply = HttpReply(status: nat, body: seq<(string, string)>)

  /** The `GenerateRequest` body, as validated by its model: every field but
      the second user image is a string. */
  datatype GenerateRequest = GenerateRequest(
    jobId: string,
    styleId: string,
    userImage1Url: string,
    referenceImageUrl: string,
    prompt: string,
    userImage2Url: Option<string>)

  /** The `GenerateResponse` model. */
  datatype GenerateResponse = GenerateResponse(
    success: bool,
    images: Option<seq<string>>,
    error: Option<string>,
    executionTime: Option<real>)

  /** The readiness flag is seen set at some check `k` (from 1) while every
      clock reading up to that check is still below the timeout. `seen(k)` is
      the flag as the k-th check reads it; `clock(0)` is the start reading. */
  ghost predicate SeenInTime(seen: nat -> bool, clock: nat -> real, timeout: nat) {
    exists k: nat :: 1 <= k && seen(k) && forall j: nat :: 1 <= j <= k ==> Elapsed(clock, j) < timeout as real
  }

  /** `wait_for_comfyui_ready` (app_lb.py:92-99): poll the flag every half
      second until it is set or the timeout has passed, and raise
      "ComfyUI not ready after <timeout> seconds" in the latter case. The
      sleep is left out; `deadline` is a reading at which the clock has passed
      the timeout. */
  method WaitForComfyuiReady(timeout: nat, seen: nat -> bool, clock: nat -> real, ghost deadline: nat)
    returns (r: Outcome<bool>, checks: nat)
    requires 0 < deadline && Elapsed(clock, deadline) >= timeout as real
    ensures r.Ok? <==> SeenInTime(seen, clock, timeout)
    ensures r.Ok? ==> r.value && 1 <= checks && seen(checks)
    ensures r.Err? ==> r.msg == NotReadyMessage(timeout) && Elapsed(clock, checks + 1) >= timeout as real
    ensures forall j: nat :: 1 <= j <= checks ==> Elapsed(clock, j) < timeout as real
    ensures forall j: nat :: 1 <= j < checks ==> !seen(j)
  {
    var k: nat := 1;
    while Elapsed(clock, k) < timeout as real
      invariant 1 <= k <= deadline
      invariant forall j: nat :: 1 <= j < k ==> Elapsed(clock, j) < timeout as real && !seen(j)
      decreases deadline - k
    {
      if seen(k) {
        return Ok(true), k;
      }
      k := k + 1;
    }
    r, checks := Err(NotReadyMessage(timeout)), k - 1;
    forall s: nat | 1 <= s
      ensures !seen(s) || !(forall j: nat :: 1 <= j <= s ==> Elapsed(clock, j) < timeout as real)
    {
      if k <= s {
        assert 1 <= k <= s && Elapsed(clock, k) >= timeout as real;
      }
    }
  }

  /** What `_blocking_generate` (app_lb.py:176-264) answers, given the flag as
      it reads it on entry: it never raises; when the flag was not set it
      first waits for it; then it runs the job; any exception on the way
      becomes a failed response carrying its message. The execution time is
      the difference of the two clock readings around the job. */
  ghost predicate Answers(readyAtEntry: bool, req: GenerateRequest, server: Server, seen: nat -> bool,
                    readyClock: nat -> real, encode: Bytes -> string, startTime: real,
                    endTime: real, deadline: nat, resp: GenerateResponse, uploads: seq<string>)
    requires ClockPasses(server, deadline)
  {
    && resp.executionTime == Some(endTime - startTime)
    && (resp.success <==> resp.error.None?)
    && (resp.success <==> resp.images.Some?)
    && (!readyAtEntry && !SeenInTime(seen, readyClock, ReadyTimeout) ==>
          !resp.success && resp.error == Some(NotReadyMessage(ReadyTimeout)) && uploads == [])
    && (readyAtEntry || SeenInTime(seen, readyClock, ReadyTimeout) ==>
          var run := Pipeline(req.styleId, req.referenceImageUrl, req.userImage1Url, req.userImage2Url,
                              req.prompt, server, deadline);
          && uploads == run.uploads
          && (resp.success <==> run.result.Ok?)
          && (run.result.Err? ==> resp.error == Some(run.result.msg))
          && (run.result.Ok? ==>
                && |resp.images.value| == |run.result.value|
                && forall i :: 0 <= i < |run.result.value| ==> resp.images.value[i] == encode(run.result.value[i])))
  }

  const KeepAlive: string := ": keep-alive\n\n"

  /** The final event of the stream: a `data:` line holding the response. */
  function DataEvent(json: string): (e: string)
    ensures |e| >= 8 && e[..6] == "data: " && e[|e| - 2..] == "\n\n"
    ensures e != KeepAlive
  {
    var e := "data: " + json + "\n\n";
    assert e[0] != KeepAlive[0];
    e
  }

  /** One observable step of the stream: an event written to the client, or
      a half-second sleep. */
  datatype Step = Emit(text: string) | Sleep

  /** The steps of `sse_stream` (app_lb.py:287-301) from the outer test on,
      after `t` sleeps in all; `done(t)` is whether the job has finished after
      `t` sleeps, and it has by sleep `d`. */
  function Outer(t: nat, done: nat -> bool, d: nat, data: string): (steps: seq<Step>)
    requires t <= d && done(d)
    // each outer test writes an event first, and the stream always ends with the data event
    ensures |steps| >= 1 && steps[0] == (if done(t) then Emit(data) else Emit(KeepAlive))
    decreases d - t, 1
  {
    if done(t) then [Emit(data)]
    else [Emit(KeepAlive)] + Inner(t, 0, done, d, data)
  }

  /** The steps from the inner loop on, after `n` of its 30 sleeps. */
  function Inner(t: nat, n: nat, done: nat -> bool, d: nat, data: string): (steps: seq<Step>)
    requires t < d && done(d) && !done(t) && n < 30
    // the inner loop sleeps first, and the stream still ends with the data event
    ensures |steps| >= 2 && steps[0] == Sleep
    decreases d - t, 0
  {
    [Sleep] + if done(t + 1) || n + 1 == 30 then Outer(t + 1, done, d, data) else Inner(t + 1, n + 1, done, d, data)
  }

  /** `sse_stream` as nested loops. */
  method SseStream(done: nat -> bool, ghost d: nat, data: string) returns (trace: seq<Step>)
    requires done(d)
    ensures trace == Outer(0, done, d, data)
  {
    ghost var goal := Outer(0, done, d, data);
    var t: nat := 0;
    trace := [];
    while !done(t)
      invariant t <= d
      invariant trace + Outer(t, done, d, data) == goal
      decreases d - t
    {
      KeepAliveStep(trace, t, done, d, data);
      trace := trace + [Emit(KeepAlive)];
      ghost var t0 := t;
      var n := 0;
      while n < 30
        invariant 0 <= n <= 30 && t <= d && t == t0 + n
        invariant n < 30 ==> t < d && !done(t) && trace + Inner(t, n, done, d, data) == goal
        invariant n == 30 ==> trace + Outer(t, done, d, data) == goal
        decreases 30 - n
      {
        SleepStep(trace, t, n, done, d, data);
        trace := trace + [Sleep];
        t := t + 1;
        n := n + 1;
        if done(t) {
          break;
        }
      }
    }
    assert Outer(t, done, d, data) == [Emit(data)];
    trace := trace + [Emit(data)];
  }

  /** A failing outer test writes a keep-alive and enters the inner loop. */
  lemma KeepAliveStep(trace: seq<Step>, t: nat, done: nat -> bool, d: nat, data: string)
    requires t <= d && done(d) && !done(t)
    ensures t < d
    ensures trace + Outer(t, done, d, data) == (trace + [Emit(KeepAlive)]) + Inner(t, 0, done, d, data)
  {
    assert t != d;
  }

  /** One sleep of the inner loop moves from `Inner` to its continuation. */
  lemma SleepStep(trace: seq<Step>, t: nat, n: nat, done: nat -> bool, d: nat, data: string)
    requires t < d && done(d) && !done(t) && n < 30
    ensures trace + Inner(t, n, done, d, data) ==
      (trace + [Sleep]) + if done(t + 1) || n + 1 == 30 then Outer(t + 1, done, d, data) else Inner(t + 1, n + 1, done, d, data)
  {
  }

  /** Between two consecutive emitted events no more than 30 sleeps (15
      seconds) pass: scanning `tr` after `run` sleeps, no run reaches 31. */
  predicate Paced(tr: seq<Step>, run: nat) {
    tr == [] || (if tr[0] == Sleep then run < 30 && Paced(tr[1..], run + 1) else Paced(tr[1..], 0))
  }

  /** The stream is paced: a heartbeat at least every 15 seconds. */
  lemma {:induction false} OuterPaced(t: nat, done: nat -> bool, d: nat, data: string)
    requires t <= d && done(d)
    ensures Paced(Outer(t, done, d, data), 0)
    decreases d - t, 1
  {
    if !done(t) {
      var tr := Outer(t, done, d, data);
      InnerPaced(t, 0, done, d, data);
      assert tr[1..] == Inner(t, 0, done, d, data);
    }
  }

  lemma {:induction false} InnerPaced(t: nat, n: nat, done: nat -> bool, d: nat, data: string)
    requires t < d && done(d) && !done(t) && n < 30
    ensures Paced(Inner(t, n, done, d, data), n)
    decreases d - t, 0
  {
    var tr := Inner(t, n, done, d, data);
    if done(t + 1) || n + 1 == 30 {
      OuterPaced(t + 1, done, d, data);
      assert tr[1..] == Outer(t + 1, done, d, data);
      PacedFromZero(Outer(t + 1, done, d, data), n + 1);
    } else {
      InnerPaced(t + 1, n + 1, done, d, data);
      assert tr[1..] == Inner(t + 1, n + 1, done, d, data);
    }
  }

  /** A stream of `Outer` form begins with an event, so it is paced after any
      run shorter than 30 once it is paced after none. */
  lemma PacedFromZero(tr: seq<Step>, run: nat)
    requires run <= 30 && Paced(tr, 0) && (tr == [] || tr[0].Emit?)
    ensures Paced(tr, run)
  {
  }

  /** The stream ends with the one data event; every earlier step is a
      keep-alive comment or a sleep. */
  lemma {:induction false} OuterShape(t: nat, done: nat -> bool, d: nat, data: string)
    requires t <= d && done(d)
    ensures var tr := Outer(t, done, d, data);
      && |tr| > 0 && tr[0].Emit? && tr[|tr| - 1] == Emit(data)
      && forall i :: 0 <= i < |tr| - 1 ==> tr[i] == Emit(KeepAlive) || tr[i] == Sleep
    decreases d - t, 1
  {
    if !done(t) {
      InnerShape(t, 0, done, d, data);
      ConsShape(Emit(KeepAlive), Inner(t, 0, done, d, data), data);
    }
  }

  lemma {:induction false} InnerShape(t: nat, n: nat, done: nat -> bool, d: nat, data: string)
    requires t < d && done(d) && !done(t) && n < 30
    ensures var tr := Inner(t, n, done, d, data);
      && |tr| > 0 && tr[|tr| - 1] == Emit(data)
      && forall i :: 0 <= i < |tr| - 1 ==> tr[i] == Emit(KeepAlive) || tr[i] == Sleep
    decreases d - t, 0
  {
    if done(t + 1) || n + 1 == 30 {
      OuterShape(t + 1, done, d, data);
      ConsShape(Sleep, Outer(t + 1, done, d, data), data);
    } else {
      InnerShape(t + 1, n + 1, done, d, data);
      ConsShape(Sleep, Inner(t + 1, n + 1, done, d, data), data);
    }
  }

  /** A keep-alive or a sleep in front of a stream of that shape keeps it. */
  lemma ConsShape(head: Step, rest: seq<Step>, data: string)
    requires head == Emit(KeepAlive) || head == Sleep
    requires |rest| > 0 && rest[|rest| - 1] == Emit(data)
    requires forall i :: 0 <= i < |rest| - 1 ==> rest[i] == Emit(KeepAlive) || rest[i] == Sleep
    ensures var tr := [head] + rest;
      && |tr| > 0 && tr[|tr| - 1] == Emit(data)
      && forall i :: 0 <= i < |tr| - 1 ==> tr[i] == Emit(KeepAlive) || tr[i] == Sleep
  {
    var tr := [head] + rest;
    forall i | 1 <= i < |tr| - 1
      ensures tr[i] == Emit(KeepAlive) || tr[i] == Sleep
    {
      assert tr[i] == rest[i - 1];
    }
  }

  /** A job already finished when the stream starts yields the data event
      alone; otherwise the stream opens with a keep-alive. */
  lemma StreamStart(done: nat -> bool, d: nat, json: string)
    requires done(d)
    ensures Outer(0, done, d, DataEvent(json)) == [Emit(DataEvent(json))] <==> done(0)
    ensures !done(0) ==> Outer(0, done, d, DataEvent(json))[0] == Emit(KeepAlive)
  {
    var data := DataEvent(json);
    if !done(0) {
      assert |Outer(0, done, d, data)| >= 2;
    }
  }

  /** The process-wide state of the worker (app_lb.py:43-45). */
  class Worker {
    var comfyuiReady: bool
    var requestCount: nat

    constructor ()
      ensures !comfyuiReady && requestCount == 0
    {
      comfyuiReady := false;
      requestCount := 0;
    }

    /** `/ping` (app_lb.py:126-144): 200 with a healthy body exactly when the
        flag is set, else an empty 204. */
    function Ping(): (r: HttpReply)
      reads this
      ensures r.status == 200 <==> comfyuiReady
      ensures r.status == 204 <==> !comfyuiReady
      ensures r.status == 200 ==> r.body == [("status", "healthy"), ("comfyui", "ready")]
      ensures r.status == 204 ==> r.body == []
    {
      if comfyuiReady then HttpReply(200, [("status", "healthy"), ("comfyui", "ready")])
      else HttpReply(204, [])
    }

    /** `/ready` (app_lb.py:147-164): always 200, reporting the flag. */
    function Ready(): (r: HttpReply)
      reads this
      ensures r.status == 200 && |r.body| == 3
      ensures r.body[0] == ("status", if comfyuiReady then "ready" else "starting")
      ensures r.body[1] == ("comfyui", if comfyuiReady then "ready" else "initializing")
    {
      if comfyuiReady then
        HttpReply(200, [("status", "ready"), ("comfyui", "ready"),
                        ("message", "ComfyUI is fully initialized and ready to process requests")])
      else
        HttpReply(200, [("status", "starting"), ("comfyui", "initializing"),
                        ("message", "ComfyUI is still starting up, please wait...")])
    }

    /** The readiness part of `start_comfyui` (app_lb.py:66-89): up to 180
        probes; the first 200 sets the flag, and none raises the startup
        failure. The flag is never cleared. */
    method StartComfyui(probe: nat -> ProbeReply) returns (r: Outcome<bool>, probes: nat)
      modifies this
      ensures r.Ok? <==> ReadyWithin(probe, StartupRetries)
      ensures r.Ok? ==> r.value && comfyuiReady && Ping().status == 200
      ensures r.Err? ==> r.msg == StartupFailure(StartupRetries) && probes == StartupRetries
                         && comfyuiReady == old(comfyuiReady)
      ensures old(comfyuiReady) ==> comfyuiReady
      ensures requestCount == old(requestCount)
    {
      var ready;
      ready, probes := ProbeUntilReady(StartupRetries, probe);
      if ready {
        comfyuiReady := true;
        return Ok(true), probes;
      }
      r := Err(StartupFailure(StartupRetries));
    }

    /** `_blocking_generate` (app_lb.py:176-264). `seen` and `readyClock` feed
        the readiness wait; `startTime` and `endTime` are the clock readings
        that bound the job. */
    method BlockingGenerate(req: GenerateRequest, server: Server, seen: nat -> bool, readyClock: nat -> real,
                            ghost readyDeadline: nat, encode: Bytes -> string, startTime: real, endTime: real,
                            ghost deadline: nat)
      returns (resp: GenerateResponse, uploads: seq<string>)
      requires 0 < readyDeadline && Elapsed(readyClock, readyDeadline) >= ReadyTimeout as real
      requires ClockPasses(server, deadline)
      ensures Answers(comfyuiReady, req, server, seen, readyClock, encode, startTime, endTime, deadline, resp, uploads)
    {
      uploads := [];
      var elapsed := endTime - startTime;
      if !comfyuiReady {
        var waited, checks := WaitForComfyuiReady(ReadyTimeout, seen, readyClock, readyDeadline);
        if waited.Err? {
          return GenerateResponse(false, None, Some(waited.msg), Some(elapsed)), uploads;
        }
      }
      var run := RunJob(req.styleId, req.referenceImageUrl, req.userImage1Url, req.userImage2Url,
                        req.prompt, server, deadline);
      uploads := run.uploads;
      if run.result.Err? {
        return GenerateResponse(false, None, Some(run.result.msg), Some(elapsed)), uploads;
      }
      var encoded := EncodeAll(run.result.value, encode);
      resp := GenerateResponse(true, Some(encoded), None, Some(elapsed));
    }

    /** `POST /generate` (app_lb.py:267-311): count the request, run the job,
        and stream keep-alives until it is done, then its response as one
        data event. `dump` is the response model's JSON serialisation. */
    method Generate(req: GenerateRequest, server: Server, seen: nat -> bool, readyClock: nat -> real,
                    ghost readyDeadline: nat, encode: Bytes -> string, startTime: real, endTime: real,
                    ghost deadline: nat, done: nat -> bool, ghost d: nat, dump: GenerateResponse -> string)
      returns (resp: GenerateResponse, uploads: seq<string>, trace: seq<Step>)
      modifies this
      requires 0 < readyDeadline && Elapsed(readyClock, readyDeadline) >= ReadyTimeout as real
      requires ClockPasses(server, deadline)
      requires done(d)
      ensures requestCount == old(requestCount) + 1
      ensures comfyuiReady == old(comfyuiReady)
      ensures Answers(old(comfyuiReady), req, server, seen, readyClock, encode, startTime, endTime, deadline, resp, uploads)
      ensures trace == Outer(0, done, d, DataEvent(dump(resp)))
    {
      requestCount := requestCount + 1;
      resp, uploads := BlockingGenerate(req, server, seen, readyClock, readyDeadline, encode, startTime, endTime, deadline);
      trace := SseStream(done, d, DataEvent(dump(resp)));
    }
  }

  /** `/ping` and `/ready` agree on whether the worker is ready. */
  lemma PingAgreesWithReady(w: Worker)
    ensures w.Ping().status == 200 <==> w.Ready().body[0].1 == "ready"
  {
  }

  /** Unlike `handler`, the HTTP job does not check for the second user image:
      a couples request without one, whose two uploads and template load
      succeed, posts both images and then fails with the TypeError of
      `str.replace`. */
  lemma CouplesWithoutSecondImage(req: GenerateRequest, server: Server, deadline: nat)
    requires ClockPasses(server, deadline)
    requires req.styleId == CouplesStyle && req.userImage2Url.None?
    requires StageImages(req.referenceImageUrl, req.userImage1Url, None, server).names.Ok?
    requires server.files("/" + CouplesFile).Some?
    ensures var run := Pipeline(req.styleId, req.referenceImageUrl, req.userImage1Url, None, req.prompt, server, deadline);
      && run.result == Err(ReplaceNoneError)
      && run.uploads == [UniqueName(server.uuid(0), "reference.png"), UniqueName(server.uuid(1), "user1.png")]
  {
  }
}
