/**
  One submission goroutine: the events it sends for its log, and the automaton that the rest of
  the model uses in its place.
 */
module Workers {
  import opened Logs

  /** A worker that was not launched, is running, or has sent its terminal event. */
  datatype Worker = Idle | Busy(tryNextSent: bool, slowSent: bool) | Done

  predicate MaySend(w: Worker, e: Event) {
    && w.Busy?
    && (e.TryNext? ==> !w.tryNextSent)
    && (e.Slow? ==> !w.slowSent)
  }

  function AfterSend(w: Worker, e: Event): Worker
    requires MaySend(w, e)
  {
    match e
    case TryNext(_) => w.(tryNextSent := true)
    case Slow(_) => w.(slowSent := true)
    case Success(_, _, _) => Done
    case Failure(_, _) => Done
  }

  /** The number of events a worker may still send. */
  function Owed(w: Worker): nat {
    match w
    case Idle => 3
    case Busy(t, s) => 1 + (if t then 0 else 1) + (if s then 0 else 1)
    case Done => 0
  }

  /** The automaton accepts `sent` from `w` and ends in `Done`. */
  predicate Accepts(w: Worker, sent: seq<Event>)
    decreases sent
  {
    if sent == [] then w == Done
    else MaySend(w, sent[0]) && Accepts(AfterSend(w, sent[0]), sent[1..])
  }

  /** The protocol: one terminal event, which is last, and at most one event of each other kind. */
  ghost predicate Protocol(sent: seq<Event>) {
    && sent != []
    && (forall k | 0 <= k < |sent| :: sent[k].Terminal() <==> k == |sent| - 1)
    && (forall j, k | 0 <= j < k < |sent| :: !(sent[j].TryNext? && sent[k].TryNext?))
    && (forall j, k | 0 <= j < k < |sent| :: !(sent[j].Slow? && sent[k].Slow?))
  }

  ghost predicate ProtocolFrom(w: Worker, sent: seq<Event>) {
    && w.Busy?
    && Protocol(sent)
    && (w.tryNextSent ==> forall k | 0 <= k < |sent| :: !sent[k].TryNext?)
    && (w.slowSent ==> forall k | 0 <= k < |sent| :: !sent[k].Slow?)
  }

  /** The automaton accepts exactly the event sequences that follow the protocol. */
  lemma {:induction false} AutomatonIsProtocol(w: Worker, sent: seq<Event>)
    requires w.Busy?
    ensures Accepts(w, sent) <==> ProtocolFrom(w, sent)
    decreases sent
  {
    if |sent| > 0 && MaySend(w, sent[0]) {
      var w', rest := AfterSend(w, sent[0]), sent[1..];
      assert forall k | 0 <= k < |rest| :: rest[k] == sent[k + 1];
      assert forall k | 0 < k < |sent| :: sent[k] == rest[k - 1];
      if sent[0].Terminal() {
        if rest == [] {
          assert ProtocolFrom(w, sent);
        } else {
          assert !sent[0].Terminal() || !Protocol(sent);
        }
      } else {
        AutomatonIsProtocol(w', rest);
      }
    }
  }

  /** The reply of a log, as the checks of `processHTTPResponse` see it, in their order. */
  datatype HttpResult =
    | TransportError(timeout: bool, message: string)
    | Reply(readable: bool, status: nat, body: Option<Response>, sct: Option<Sct>, fromTheFuture: bool, signed: bool)
  {
    predicate Accepted() {
      Reply? && readable && status == 200 && body.Some? && sct.Some? && !fromTheFuture && signed
    }
  }

  /** The backoff that the monitor is told about. */
  datatype Backoff = NoBackoff | TimedOut | BadResponse | Http5xx | Http4xx

  /** The outcome that the monitor counts. */
  datatype Recorded = Succeeded | Timeout | HttpError | BadReply | StatusClass(hundreds: nat) | Cancelled

  /** The counted outcome of a reply that was not cut off by the end of the context. */
  predicate RecordedAs(result: HttpResult, recorded: Recorded) {
    && (recorded == Succeeded <==> result.Accepted())
    && (recorded == Timeout <==> result.TransportError? && result.timeout)
    && (recorded == HttpError <==> result.TransportError? && !result.timeout)
    && (recorded.StatusClass? <==> result.Reply? && result.readable && result.status != 200)
    && (recorded.StatusClass? ==> recorded.hundreds == result.status / 100)
    && recorded != Cancelled
  }

  /** Exactly one event is sent, and it is a success only if every check passed. */
  method ProcessHTTPResponse(idx: nat, result: HttpResult) returns (e: Event, backoff: Backoff, recorded: Recorded)
    ensures e.idx == idx && e.Terminal()
    ensures e.Success? <==> result.Accepted()
    ensures e.Success? ==> && result.Reply? && result.readable && result.status == 200 && result.body.Some?
                           && result.sct.Some? && !result.fromTheFuture && result.signed
                           && e == Success(idx, result.body.value, result.sct.value)
    ensures backoff == NoBackoff <==> e.Success?
    ensures backoff == TimedOut <==> result.TransportError? && result.timeout
    ensures backoff == Http5xx <==> result.Reply? && result.readable && 500 <= result.status < 600
    ensures backoff == Http4xx <==> result.Reply? && result.readable && 400 <= result.status < 500
    ensures RecordedAs(result, recorded)
  {
    if result.TransportError? {
      if result.timeout {
        return Failure(idx, "Failed: timeout"), TimedOut, Timeout;
      }
      return Failure(idx, "Failed: HTTP error: " + result.message), BadResponse, HttpError;
    }
    if !result.readable {
      return Failure(idx, "Failed: could not read response body"), BadResponse, BadReply;
    }
    if result.status != 200 {
      backoff :=
        if 500 <= result.status < 600 then Http5xx
        else if 400 <= result.status < 500 then Http4xx
        else BadResponse;
      return Failure(idx, "Failed: HTTP status"), backoff, StatusClass(result.status / 100);
    }
    if result.body.None? {
      return Failure(idx, "Failed: invalid JSON response"), BadResponse, BadReply;
    }
    if result.sct.None? {
      return Failure(idx, "Failed: could not decode SCT"), BadResponse, BadReply;
    }
    if result.fromTheFuture {
      return Failure(idx, "Failed: SCT timestamp in the future"), BadResponse, BadReply;
    }
    if !result.signed {
      return Failure(idx, "Failed: SCT signature verification failed"), BadResponse, BadReply;
    }
    return Success(idx, result.body.value, result.sct.value), NoBackoff, Succeeded;
  }

  /** What a round of the select loop finds ready; a reply may come when the context is done already. */
  datatype Ready = TryNextTimer | SlowTimer | ReplyArrived(tooLate: bool) | ContextEnded
  {
    predicate Ends() { ReplyArrived? || ContextEnded? }

    predicate Cancels() { ContextEnded? || (ReplyArrived? && tooLate) }
  }

  /** The rounds of one worker: timers fire, in any order, until a reply or the end of the context. */
  predicate Rounds(ready: seq<Ready>) {
    ready != [] && forall k | 0 <= k < |ready| :: ready[k].Ends() <==> k == |ready| - 1
  }

  /** Before the terminal event: each timer that has fired was reported once, and nothing else was. */
  ghost predicate Reported(idx: nat, fired: seq<Ready>, sent: seq<Event>, tryNext: bool, slow: bool) {
    && (forall k | 0 <= k < |sent| :: (sent[k] == TryNext(idx) && tryNext) || (sent[k] == Slow(idx) && slow))
    && (forall j, k | 0 <= j < k < |sent| :: sent[j] != sent[k])
    && (tryNext ==> TryNext(idx) in sent) && (slow ==> Slow(idx) in sent)
    && (tryNext <==> TryNextTimer in fired) && (slow <==> SlowTimer in fired)
  }

  lemma ReportTryNext(idx: nat, fired: seq<Ready>, sent: seq<Event>, tryNext: bool, slow: bool)
    requires Reported(idx, fired, sent, tryNext, slow)
    ensures Reported(idx, fired + [TryNextTimer], if tryNext then sent else sent + [TryNext(idx)], true, slow)
  {
  }

  lemma ReportSlow(idx: nat, fired: seq<Ready>, sent: seq<Event>, tryNext: bool, slow: bool)
    requires Reported(idx, fired, sent, tryNext, slow)
    ensures Reported(idx, fired + [SlowTimer], if slow then sent else sent + [Slow(idx)], tryNext, true)
  {
  }

  lemma ReportLast(idx: nat, fired: seq<Ready>, sent: seq<Event>, tryNext: bool, slow: bool, e: Event)
    requires Reported(idx, fired, sent, tryNext, slow) && e.Terminal() && e.idx == idx
    ensures Accepts(Busy(false, false), sent + [e])
    ensures TryNext(idx) in sent + [e] <==> TryNextTimer in fired
    ensures Slow(idx) in sent + [e] <==> SlowTimer in fired
    ensures forall k | 0 <= k < |sent + [e]| :: (sent + [e])[k].idx == idx
  {
    assert Protocol(sent + [e]);
    AutomatonIsProtocol(Busy(false, false), sent + [e]);
  }

  /** The timer rounds of the select loop, up to the round that ends it. */
  method AwaitReply(idx: nat, ready: seq<Ready>) returns (sent: seq<Event>, ghost tryNext: bool, ghost slow: bool)
    requires Rounds(ready)
    ensures Reported(idx, ready[..|ready| - 1], sent, tryNext, slow)
  {
    sent := [];
    var tryNextSent, slowSent := false, false;
    var k := 0;
    while !ready[k].Ends()
      invariant k < |ready| && Reported(idx, ready[..k], sent, tryNextSent, slowSent)
      decreases |ready| - k
    {
      assert ready[..k + 1] == ready[..k] + [ready[k]];
      if ready[k].TryNextTimer? {
        ReportTryNext(idx, ready[..k], sent, tryNextSent, slowSent);
        if !tryNextSent {
          tryNextSent := true;
          sent := sent + [TryNext(idx)];
        }
      } else {
        ReportSlow(idx, ready[..k], sent, tryNextSent, slowSent);
        if !slowSent {
          slowSent := true;
          sent := sent + [Slow(idx)];
        }
      }
      k := k + 1;
    }
    tryNext, slow := tryNextSent, slowSent;
  }

  /**
    The whole worker. The environment decides what is ready in each round, and what the log answers. A reply
    that arrives in time is reported as it is, and each timer that fires is reported once.
   */
  method SubmitToLog(idx: nat, urlOk: bool, result: HttpResult, ready: seq<Ready>)
    returns (sent: seq<Event>, recorded: Option<Recorded>)
    requires urlOk ==> Rounds(ready)
    ensures Accepts(Busy(false, false), sent) && sent != []
    ensures forall k | 0 <= k < |sent| :: sent[k].idx == idx
    ensures var last := sent[|sent| - 1];
            && (last.Success? <==> urlOk && !ready[|ready| - 1].Cancels() && result.Accepted())
            && (last.Success? ==> last == Success(idx, result.body.value, result.sct.value))
            && (urlOk && ready[|ready| - 1].Cancels() ==> last == Failure(idx, "Cancelled"))
    ensures TryNext(idx) in sent <==> urlOk && TryNextTimer in ready
    ensures Slow(idx) in sent <==> urlOk && SlowTimer in ready
    ensures recorded == None <==> !urlOk
    ensures recorded == Some(Cancelled) <==> urlOk && ready[|ready| - 1].Cancels()
    ensures urlOk && !ready[|ready| - 1].Cancels() ==> recorded.Some? && RecordedAs(result, recorded.value)
  {
    if !urlOk {
      return [Failure(idx, "Failed: could not construct submission URL")], None;
    }
    ghost var tryNext, slow;
    sent, tryNext, slow := AwaitReply(idx, ready);
    var end := ready[|ready| - 1];
    assert ready == ready[..|ready| - 1] + [end];
    var e;
    if end.Cancels() {
      e, recorded := Failure(idx, "Cancelled"), Some(Cancelled);
    } else {
      var reply, _, r := ProcessHTTPResponse(idx, result);
      e, recorded := reply, Some(r);
    }
    ReportLast(idx, ready[..|ready| - 1], sent, tryNext, slow, e);
    sent := sent + [e];
  }
}
