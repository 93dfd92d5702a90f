/** The recovery client itself: one request structure that every routine updates in place. */
module DfciRequest {
  import opened Bytes
  import opened DfciBounds
  import opened DfciEffects
  import opened DfciHttp
  import opened DfciLogic
  import opened DfciSafety
  import opened DfciSources
  import opened Wrappers

  /** DFCI_NETWORK_REQUEST together with what it has cost and left in the variable store. */
  class NetworkRequest {
    var httpStatus: nat
    var body: Option<Body>
    var headers: Option<Headers>
    var returnCode: Option<seq<byte>>
    var message: Option<seq<byte>>
    var logicState: LogicState
    var mailboxes: map<Mailbox, seq<byte>>
    var sent: nat
    var configured: nat
    var built: nat
    var sets: nat
    var waits: seq<nat>
    ghost var log: Log

    ghost function View(): Net
      reads this
    {
      Net(httpStatus, body, headers, returnCode, message, logicState, mailboxes,
          sent, configured, built, sets, waits, log)
    }

    /** The response zone of CleanupNetworkRequest. */
    method CleanupResponse()
      modifies this`body, this`headers
      ensures View() == ResponseCleaned(old(View()))
      ensures body == None && headers == None
    {
      body, headers := None, None;
    }

    /** The status zone of CleanupNetworkRequest. */
    method CleanupStatus()
      modifies this`httpStatus, this`returnCode, this`message
      ensures View() == StatusCleaned(old(View()))
      ensures httpStatus == 0 && returnCode == None && message == None
    {
      httpStatus, returnCode, message := 0, None, None;
    }

    method ProcessHttpRequest(script: Script, q: Request) returns (status: EfiStatus)
      requires PlausibleScript(script)
      modifies this
      ensures (View(), status) == Requested(old(View()), script, q)
    {
      var number := sent;
      assert Plausible(script.server(number));
      match script.server(number) {
        case NotSent(s) =>
          status := s;
        case NoResponse(s) =>
          status := s;
        case ResponseTimedOut(s, code) =>
          httpStatus := code;
          status := s;
        case Reply(code, fields, contentLength, bufferAvailable, chunks) =>
          httpStatus, headers := code, Some(fields);
          if contentLength == 0 {
            status := Success;
          } else if !bufferAvailable {
            status := OutOfResources;
          } else {
            AssembledLength([], contentLength, chunks);
            var packet;
            status, packet := ReadBody(contentLength, chunks);
            if !EfiError(status) {
              body := Some(Body(packet[..], number));
            }
          }
      }
      sent := number + 1;
      log := Then(log, Attempt(q, number, script.server(number)));
    }

    method ProcessHttpRequestInternal(script: Script, q: Request, retryOn202: bool) returns (status: EfiStatus)
      requires PlausibleScript(script)
      modifies this
      ensures (View(), status) == HttpDone(old(View()), script, q, retryOn202)
      ensures 1 <= sent - old(sent) <= 6 && |waits| - |old(waits)| <= 5 && Sum(waits) - Sum(old(waits)) <= 120
      ensures waits == old(waits) + Pauses(script, old(sent), 0, sent - 1 - old(sent))
    {
      RetryBound(View(), script, q, retryOn202);
      RequestPauses(View(), script, q, retryOn202);
      RetryLoop(StatusCleaned(View()), script, q, retryOn202, 6);
      status := RunAttempts(script, q, retryOn202);
    }

    /** EventWait always ends in a timeout, which the next attempt overwrites; then the response and status
        zones are cleaned. */
    method WaitAndClean(delay: nat) returns (status: EfiStatus)
      modifies this
      ensures View() == ResponseCleaned(StatusCleaned(old(View()).(waits := old(waits) + [delay])))
      ensures status == Timeout
    {
      waits := waits + [delay];
      CleanupStatus();
      CleanupResponse();
      status := Timeout;
    }

    /** The do-loop */
    method RunAttempts(script: Script, q: Request, retryOn202: bool) returns (status: EfiStatus)
      requires PlausibleScript(script)
      modifies this
      ensures (View(), status) == HttpDone(old(View()), script, q, retryOn202)
    {
      var retryCount := 6;
      CleanupStatus();
      var retry := true;
      status := Success;
      while retry && retryCount > 0
        invariant 0 <= retryCount <= 6
        invariant (if retry && retryCount > 0 then Retried(View(), script, q, retryOn202, retryCount)
                   else (View(), status)) == HttpDone(old(View()), script, q, retryOn202)
        decreases retryCount
      {
        retryCount := retryCount - 1;
        retry := false;
        status := ProcessHttpRequest(script, q);
        if !EfiError(status) {
          var delay;
          retry, delay := PlanRetry(retryCount, retryOn202);
          if retry && retryCount > 0 {
            status := WaitAndClean(delay);
          }
        }
      }
    }

    /** Whether the answer asks for a repeat, and the pause before it: the table's, or for a 429 the
        server's, within limits. */
    method PlanRetry(retryCount: nat, retryOn202: bool) returns (retry: bool, delay: nat)
      requires retryCount < 6
      ensures retry == WantsRetry(View(), retryOn202)
      ensures retry ==> delay == Delay(View(), retryCount)
    {
      retry := false;
      delay := DelayTable[retryCount];
      if retryOn202 && httpStatus == HTTP_STATUS_202_ACCEPTED {
        retry := true;
      }
      if httpStatus == HTTP_STATUS_429_TOO_MANY_REQUESTS {
        if headers.Some? && headers.value.retryAfter.Some? {
          delay := headers.value.retryAfter.value;
        }
        if delay < MIN_DELAY_BEFORE_RETRY {
          delay := MIN_DELAY_BEFORE_RETRY;
        } else if delay > MAX_DELAY_BEFORE_RETRY {
          delay := MAX_DELAY_BEFORE_RETRY;
        }
        retry := true;
      }
    }

    method ProcessHttpRequestWithRetries(w: World, q: Request, retryOn202: bool) returns (status: EfiStatus)
      requires PlausibleScript(w.script)
      modifies this
      ensures (View(), status) == WithRetries(old(View()), w, q, retryOn202)
    {
      status := w.script.configure(configured);
      configured := configured + 1;
      if !EfiError(status) {
        status := ProcessHttpRequestInternal(w.script, q, retryOn202);
      }
    }

    /** done is the caller's DoneProcessing, which this routine only ever sets. */
    method ProcessAsyncRequest(w: World, stage: Stage, url: Url, doneBefore: bool)
      returns (status: EfiStatus, done: bool)
      requires PlausibleScript(w.script)
      modifies this
      ensures var (r, s, d) := AsyncDone(old(View()), w, stage, url);
              View() == r && status == s && done == (doneBefore || d)
    {
      done := doneBefore;
      status := ProcessHttpRequestWithRetries(w, Request(stage, Post, url), false);
      if EfiError(status) {
        return;
      }
      if httpStatus != HTTP_STATUS_202_ACCEPTED {
        status := ProtocolError;
        return;
      }
      done := true;
      var location := if headers.Some? then headers.value.location else None;
      if location.None? {
        status := ProtocolError;
        return;
      }
      status := ProcessHttpRequestWithRetries(w, Request(stage, Get, location.value), true);
      if EfiError(status) {
        return;
      }
      if httpStatus != HTTP_STATUS_200_OK || body.None? {
        status := ProtocolError;
      }
    }

    /** The action of ProcessFunction on one table entry. */
    method Act(w: World, stage: Stage, action: Action, value: seq<byte>) returns (status: EfiStatus)
      modifies this
      ensures (View(), status) == ActionDone(old(View()), w, stage, action, value)
    {
      match action {
        case SetVariable(mailbox) =>
          if w.mailboxSignature(mailbox) != w.signatureOf(value) {
            return InvalidParameter;
          }
          status := w.setVariable(sets);
          sets := sets + 1;
          if EfiError(status) {
            return;
          }
          mailboxes := mailboxes[mailbox := value];
          log := Then(log, Applied(stage, mailbox, body));
          status := MediaChanged;
        case SetReturnCode =>
          returnCode := Some(value + [0]);
          status := Success;
        case SetHttpMessage =>
          message := Some(value + [0]);
          status := Success;
      }
    }

    method ProcessFunction(w: World, stage: Stage, e: Element) returns (status: EfiStatus)
      modifies this
      ensures (View(), status) == ElementDone(old(View()), w, stage, e)
      ensures e.field == Some("ResultMessage") && e.value.Some? ==>
        message == Some(e.value.value + [0]) && returnCode == old(returnCode) && mailboxes == old(mailboxes)
      ensures e.field == Some("ResultCode") && e.value.Some? ==>
        returnCode == Some(e.value.value + [0]) && message == old(message) && mailboxes == old(mailboxes)
    {
      if e.field.Some? && e.value.Some? {
        ElementIs(View(), w, stage, e.field.value, e.value.value);
      }
      if e.field.None? || e.value.None? {
        return InvalidParameter;
      }
      var table := Table(stage);
      var j := 0;
      while j < |table| && table[j].fieldName != e.field.value
        invariant 0 <= j <= |table|
        invariant Lookup(table, e.field.value, j) == Lookup(table, e.field.value, 0)
        decreases |table| - j
      {
        j := j + 1;
      }
      if j == |table| {
        return InvalidParameter;
      }
      var value := e.value.value;
      if table[j].decodeBase64 {
        match w.decode(value) {
          case NotSizable =>
            return InvalidParameter;
          case NoMemory =>
            return OutOfResources;
          case DecodeFailed(s) =>
            return s;
          case DecodedBytes(bytes) =>
            value := bytes;
        }
      }
      status := Act(w, stage, table[j].action, value);
    }

    /** The parser's walk over the elements of a response. */
    method ApplyElements(w: World, stage: Stage, es: seq<Element>) returns (status: EfiStatus)
      modifies this
      ensures (View(), status) == ElementsDone(old(View()), w, stage, es)
      decreases |es|
    {
      if es == [] {
        return Success;
      }
      status := ProcessFunction(w, stage, es[0]);
      if Continues(status) {
        var rest := ApplyElements(w, stage, es[1..]);
        if rest != Success {
          status := rest;
        }
      }
    }

    method DfciUpdateFromJson(w: World, stage: Stage) returns (status: EfiStatus)
      requires body.Some?
      modifies this
      ensures (View(), status) == Updated(old(View()), w, stage)
    {
      match w.parse(body.value.bytes) {
        case None =>
          status := InvalidParameter;
        case Some(es) =>
          if es == [] {
            status := NotFound;
          } else {
            status := ApplyElements(w, stage, es);
          }
      }
    }

    /** The lines of DfciMainLogic that both stages share. */
    method RunStage(w: World, stage: Stage, url: Url, doneBefore: bool) returns (status: EfiStatus, done: bool)
      requires PlausibleScript(w.script)
      modifies this
      ensures var (r, s, d) := StageDone(old(View()), w, stage, url);
              View() == r && status == s && done == (doneBefore || d)
    {
      status, done := ProcessAsyncRequest(w, stage, url, doneBefore);
      if !EfiError(status) {
        logicState := if stage.BootstrapStage? then Bootstrap else Recovery;
        if body.None? {
          status := ProtocolError;
        } else {
          status := DfciUpdateFromJson(w, stage);
        }
      }
    }

    /** The second half of DfciMainLogic. */
    method RunRecovery(w: World, doneBefore: bool) returns (status: EfiStatus, done: bool)
      requires PlausibleScript(w.script)
      modifies this
      ensures (View(), status, done) == RecoveryDone(old(View()), w, doneBefore)
    {
      done := doneBefore;
      status := w.build(built);
      built := built + 1;
      if EfiError(status) {
        return;
      }
      status, done := RunStage(w, RecoveryStage, w.url, done);
      status := EndRecovery(status);
    }

    /** The second switch of DfciMainLogic. */
    method EndRecovery(merged: EfiStatus) returns (status: EfiStatus)
      modifies this`log, this`logicState
      ensures View() == RecoveryEnded(old(View()), merged)
      ensures status == if NoUpdates(merged) then Success else merged
    {
      log := Then(log, Merged(RecoveryStage, merged));
      status := merged;
      if status == Success || status == NotFound {
        status := Success;
        logicState := NoRecoveryAvailable;
      } else if status == MediaChanged {
        logicState := RecoveryComplete;
      }
    }

    method DfciMainLogic(w: World) returns (status: EfiStatus, done: bool)
      requires PlausibleScript(w.script)
      modifies this
      ensures (View(), status, done) == MainDone(old(View()), w)
    {
      done := false;
      logicState := PreBootstrap;
      status := w.build(built);
      built := built + 1;
      if EfiError(status) {
        return;
      }
      status, done := RunStage(w, BootstrapStage, w.bootstrapUrl, done);
      log := Then(log, Merged(BootstrapStage, status));
      if status == Success || status == NotFound {
        logicState := PreRecovery;
      } else if status == MediaChanged {
        logicState := BootstrapComplete;
        return;
      } else {
        return;
      }
      status, done := RunRecovery(w, done);
    }

    method TryEachNICThenProcessRequest(w: World) returns (status: EfiStatus)
      requires PlausibleScript(w.script)
      modifies this
      ensures (View(), status) == AllNicsDone(old(View()), w)
      ensures old(log) == Nothing ==> Safe(log)
      ensures old(log) == Nothing && old(body) == None ==> SourcesKnown(log, w.script)
      ensures Costs(old(View()), View(), 12 * |w.nics| + 12, 240 * |w.nics| + 240)
    {
      ghost var before := View();
      status := TryEachNic(w);
      RunBound(before, w);
      if before.log == Nothing {
        ProtocolSafety(before, w);
        if before.body == None {
          MailboxSources(before, w);
        }
      }
    }

    method TryEachNic(w: World) returns (status: EfiStatus)
      requires PlausibleScript(w.script)
      modifies this
      ensures (View(), status) == AllNicsDone(old(View()), w)
    {
      status := w.locateStatus;
      if EfiError(status) || |w.nics| == 0 {
        return NotFound;
      }
      var done := false;
      var nicIndex := 0;
      while nicIndex < |w.nics| && !done
        invariant 0 <= nicIndex <= |w.nics|
        invariant NicsDone(View(), w, nicIndex, done, status) == AllNicsDone(old(View()), w)
        decreases |w.nics| - nicIndex
      {
        status, done := TryNic(w, nicIndex);
        nicIndex := nicIndex + 1;
      }
    }

    method TryNic(w: World, i: nat) returns (status: EfiStatus, done: bool)
      requires PlausibleScript(w.script) && i < |w.nics|
      modifies this
      ensures (View(), status, done) == NicDone(old(View()), w, i)
    {
      done := false;
      log := Then(log, NicStarted(i));
      status := w.nics[i].handleStatus;
      if EfiError(status) {
        return;
      }
      if !w.nics[i].mediaPresent {
        status := NoMedia;
        return;
      }
      status, done := DfciMainLogic(w);
    }
  }
}
