/** HTTP exchanges of the recovery client: what one request does to the request structure, how a body
    is put together, and the retry loop. Server and network are scripts of outcomes. */
module DfciHttp {
  import opened Bytes
  import opened Wrappers

  const HTTP_STATUS_200_OK := 200
  const HTTP_STATUS_202_ACCEPTED := 202
  // RFC 6585, section 4
  const HTTP_STATUS_429_TOO_MANY_REQUESTS := 429
  const MAX_DELAY_BEFORE_RETRY := 24
  const MIN_DELAY_BEFORE_RETRY := 1

  datatype EfiStatus =
    | Success
    | Warning(code: nat)
    | NotFound
    | MediaChanged
    | BufferTooSmall
    | Timeout
    | ProtocolError
    | InvalidParameter
    | OutOfResources
    | NoMedia
    | OtherError(code: nat)

  /** EFI_ERROR */
  predicate EfiError(s: EfiStatus) {
    !s.Success? && !s.Warning?
  }

  /** What a service reports when it does not do what was asked. */
  type Failure = s: EfiStatus | EfiError(s) witness Timeout

  type Url = string

  datatype Method = Post | Get

  /** The two headers the client looks up; Retry-After is RFC 7231, section 7.1.3, as seconds. */
  datatype Headers = Headers(location: Option<Url>, retryAfter: Option<nat>)

  datatype Chunk = Chunk(bytes: seq<byte>) | ChunkFailed(status: Failure)

  /** Everything the network does during one ProcessHttpRequest. */
  datatype Exchange =
    | NotSent(status: Failure)                     // the request could not be built, sent or completed
    | NoResponse(status: Failure)                  // no response could be asked for
    | ResponseTimedOut(status: Failure, code: nat) // waiting failed; the status code field is copied all the same
    | Reply(code: nat, headers: Headers, contentLength: nat, bufferAvailable: bool, chunks: seq<Chunk>)

  /** The network hands over no more body than was asked for. */
  predicate Plausible(x: Exchange) {
    x.Reply? ==> ChunksFit(x.contentLength, x.chunks)
  }

  predicate ChunksFit(room: nat, chunks: seq<Chunk>) {
    chunks == [] ||
    match chunks[0]
    case ChunkFailed(_) => true
    case Chunk(bytes) => |bytes| <= room && ChunksFit(room - |bytes|, chunks[1..])
  }

  // ---- reassembly ----

  datatype Assembly = Assembled(bytes: seq<byte>) | AssemblyFailed(status: Failure)

  /** The body collected from chunks until it is complete; a script that stops short times out. */
  function Assemble(done: seq<byte>, length: nat, chunks: seq<Chunk>): Assembly
    decreases |chunks|
  {
    if |done| >= length then Assembled(done)
    else if chunks == [] then AssemblyFailed(Timeout)
    else
      match chunks[0]
      case ChunkFailed(s) => AssemblyFailed(s)
      case Chunk(bytes) => Assemble(done + bytes, length, chunks[1..])
  }

  /** The bytes of a script of successful chunks. */
  function Joined(chunks: seq<Chunk>): seq<byte> {
    if chunks == [] || chunks[0].ChunkFailed? then [] else chunks[0].bytes + Joined(chunks[1..])
  }

  predicate AllChunks(chunks: seq<Chunk>) {
    forall i :: 0 <= i < |chunks| ==> chunks[i].Chunk?
  }

  /** However a body is split into chunks, the assembled body is their concatenation. */
  lemma {:induction false} AssemblyIgnoresChunking(done: seq<byte>, length: nat, chunks: seq<Chunk>)
    requires AllChunks(chunks) && |done| + |Joined(chunks)| == length
    ensures Assemble(done, length, chunks) == Assembled(done + Joined(chunks))
    decreases |chunks|
  {
    if |done| >= length {
      assert Joined(chunks) == [];
      assert done + [] == done;
    } else {
      var first := chunks[0].bytes;
      Associative(done, first, Joined(chunks[1..]));
      AssemblyIgnoresChunking(done + first, length, chunks[1..]);
    }
  }

  /** And nothing else is ever delivered: a completed body has exactly the announced length and is what
      the chunks brought, in order. */
  lemma {:induction false} AssembledLength(done: seq<byte>, length: nat, chunks: seq<Chunk>)
    requires |done| <= length && ChunksFit(length - |done|, chunks)
    ensures match Assemble(done, length, chunks)
            case Assembled(bytes) => |bytes| == length && done <= bytes && bytes <= done + Joined(chunks)
            case AssemblyFailed(_) => true
    decreases |chunks|
  {
    if |done| >= length {
      assert done <= done + Joined(chunks);
    } else if chunks != [] && chunks[0].Chunk? {
      var first := chunks[0].bytes;
      AssembledLength(done + first, length, chunks[1..]);
      Associative(done, first, Joined(chunks[1..]));
    }
  }

  predicate NonEmptyChunks(chunks: seq<Chunk>, n: nat) {
    n <= |chunks| && forall i :: 0 <= i < n ==> chunks[i].Chunk? && chunks[i].bytes != []
  }

  /** Each non-empty chunk shortens what remains, so at most as many as remaining bytes are asked for. */
  lemma {:induction false} RemainingLengthBounds(done: seq<byte>, length: nat, chunks: seq<Chunk>)
    requires |done| <= length && ChunksFit(length - |done|, chunks)
    requires NonEmptyChunks(chunks, length - |done|)
    ensures Assemble(done, length, chunks).Assembled?
    ensures Assemble(done, length, chunks) == Assemble(done, length, chunks[..length - |done|])
    decreases length - |done|
  {
    if |done| < length {
      var next := done + chunks[0].bytes;
      assert chunks[..length - |done|][1..] == chunks[1..][..length - |done| - 1];
      RemainingLengthBounds(next, length, chunks[1..]);
      AssembleFromPrefix(next, length, chunks[1..], length - |next|, length - |done| - 1);
    }
  }

  /** Chunks behind those that complete the body make no difference. */
  lemma {:induction false} AssembleFromPrefix(done: seq<byte>, length: nat, chunks: seq<Chunk>, k: nat, n: nat)
    requires k <= n <= |chunks| && Assemble(done, length, chunks[..k]).Assembled?
    ensures Assemble(done, length, chunks[..n]) == Assemble(done, length, chunks[..k])
    decreases n
  {
    if |done| < length {
      assert k > 0;
      if chunks[0].Chunk? {
        assert chunks[..k][1..] == chunks[1..][..k - 1] && chunks[..n][1..] == chunks[1..][..n - 1];
        AssembleFromPrefix(done + chunks[0].bytes, length, chunks[1..], k - 1, n - 1);
      }
    }
  }

  predicate FirstFailure(chunks: seq<Chunk>, k: nat, s: Failure) {
    k < |chunks| && chunks[k] == ChunkFailed(s) && AllChunks(chunks[..k])
  }

  /** A body that is not completed fails with the status of the first chunk that fails, or for want of chunks
      with a timeout. */
  lemma {:induction false} AssemblyFailsWith(done: seq<byte>, length: nat, chunks: seq<Chunk>)
    requires Assemble(done, length, chunks).AssemblyFailed?
    ensures var s := Assemble(done, length, chunks).status;
            if AllChunks(chunks) then s == Timeout
            else exists k: nat :: FirstFailure(chunks, k, s)
    decreases |chunks|
  {
    if chunks != [] {
      if chunks[0].ChunkFailed? {
        assert FirstFailure(chunks, 0, chunks[0].status);
      } else {
        var next := done + chunks[0].bytes;
        AssemblyFailsWith(next, length, chunks[1..]);
        var s := Assemble(done, length, chunks).status;
        assert AllChunks(chunks) <==> AllChunks(chunks[1..]);
        if !AllChunks(chunks) {
          var k: nat :| FirstFailure(chunks[1..], k, s);
          var head, rest := chunks[..k + 1], chunks[1..][..k];
          forall i | 0 <= i < |head|
            ensures head[i].Chunk?
          {
            assert i > 0 ==> head[i] == rest[i - 1];
          }
          assert FirstFailure(chunks, k + 1, s);
        }
      }
    }
  }

  /** The body loop of ProcessHttpRequest: chunks land one behind the other in a buffer of the announced
      length and a terminator. */
  method ReadBody(contentLength: nat, chunks: seq<Chunk>) returns (status: EfiStatus, packet: array<byte>)
    requires contentLength > 0 && ChunksFit(contentLength, chunks)
    ensures fresh(packet)
    ensures match Assemble([], contentLength, chunks)
            case Assembled(bytes) => status == Success && packet[..] == bytes + [0]
            case AssemblyFailed(s) => status == s
  {
    packet := new byte[contentLength + 1](_ => 0);
    var currentLength: nat := 0;
    var left := chunks;
    assert packet[..0] == [];
    while currentLength < contentLength
      invariant currentLength <= contentLength < packet.Length == contentLength + 1
      invariant ChunksFit(contentLength - currentLength, left)
      invariant Assemble(packet[..currentLength], contentLength, left) == Assemble([], contentLength, chunks)
      decreases |left|
    {
      if left == [] {
        return Timeout, packet;
      }
      if left[0].ChunkFailed? {
        return left[0].status, packet;
      }
      var bytes := left[0].bytes;
      ghost var before := packet[..currentLength];
      forall k | 0 <= k < |bytes| {
        packet[currentLength + k] := bytes[k];
      }
      assert packet[..currentLength + |bytes|] == before + bytes;
      currentLength := currentLength + |bytes|;
      left := left[1..];
    }
    packet[contentLength] := 0;
    assert packet[..] == packet[..contentLength] + [0];
    status := Success;
  }

  // ---- the request structure ----

  datatype LogicState =
    | PreBootstrap
    | Bootstrap
    | BootstrapComplete
    | PreRecovery
    | Recovery
    | RecoveryComplete
    | NoRecoveryAvailable

  /** A received body; origin is the number of the exchange that brought it. */
  datatype Body = Body(bytes: seq<byte>, origin: nat)

  datatype Stage = BootstrapStage | RecoveryStage

  datatype Mailbox = Identity | Identity2 | Permissions | Permissions2 | Settings | Settings2

  /** A request: the stage it belongs to, its method and its target. */
  datatype Request = Request(stage: Stage, verb: Method, url: Url)

  /** What can be seen from outside: cards being started, the exchanges on the network with what came
      back, the end of a stage, and a mailbox being written, with the body the value was taken from. */
  datatype Event =
    | NicStarted(index: nat)
    | Exchanged(number: nat, request: Request, ok: bool, code: nat, location: Option<Url>)
    | Merged(stage: Stage, status: EfiStatus)
    | Applied(stage: Stage, mailbox: Mailbox, source: Option<Body>)

  /** What happened, latest last. */
  datatype Log = Nothing | Then(before: Log, event: Event)

  /** DFCI_NETWORK_REQUEST, with the counters and histories the scripts are indexed by. */
  datatype Net = Net(
    httpStatus: nat,
    body: Option<Body>,
    headers: Option<Headers>,
    returnCode: Option<seq<byte>>,
    message: Option<seq<byte>>,
    logicState: LogicState,
    mailboxes: map<Mailbox, seq<byte>>,
    sent: nat,
    configured: nat,
    built: nat,
    sets: nat,
    waits: seq<nat>,
    log: Log)

  /** What the network does at each step, by number. */
  datatype Script = Script(server: nat -> Exchange, configure: nat -> EfiStatus)

  ghost predicate PlausibleScript(script: Script) {
    forall i :: Plausible(script.server(i))
  }

  /** The code an exchange leaves in the status field, from a cleaned one. */
  function CodeOf(x: Exchange): nat {
    match x
    case NotSent(_) => 0
    case NoResponse(_) => 0
    case ResponseTimedOut(_, code) => code
    case Reply(code, _, _, _, _) => code
  }

  /** The status an exchange returns. */
  function StatusOf(x: Exchange): EfiStatus {
    match x
    case NotSent(s) => s
    case NoResponse(s) => s
    case ResponseTimedOut(s, _) => s
    case Reply(_, _, length, bufferAvailable, chunks) =>
      if length == 0 then Success
      else if !bufferAvailable then OutOfResources
      else
        match Assemble([], length, chunks)
        case AssemblyFailed(s) => s
        case Assembled(_) => Success
  }

  /** Where a reply points. */
  function LocationOf(x: Exchange): Option<Url> {
    if x.Reply? then x.headers.location else None
  }

  /** An exchange as it is seen on the network; ok says that it ended without an error. */
  function Attempt(q: Request, number: nat, x: Exchange): Event {
    Exchanged(number, q, !EfiError(StatusOf(x)), CodeOf(x), LocationOf(x))
  }

  /** What one exchange does to the response and status zones, and the status it returns. */
  function Answered(n: Net, x: Exchange): (Net, EfiStatus) {
    match x
    case NotSent(s) => (n, s)
    case NoResponse(s) => (n, s)
    case ResponseTimedOut(s, code) => (n.(httpStatus := code), s)
    case Reply(code, headers, length, bufferAvailable, chunks) =>
      var r := n.(httpStatus := code, headers := Some(headers));
      if length == 0 then (r, Success)
      else if !bufferAvailable then (r, OutOfResources)
      else
        match Assemble([], length, chunks)
        case AssemblyFailed(s) => (r, s)
        case Assembled(bytes) => (r.(body := Some(Body(bytes + [0], n.sent))), Success)
  }

  /** ProcessHttpRequest as the n.sent-th exchange of the script. */
  function Requested(n: Net, script: Script, q: Request): (Net, EfiStatus) {
    var (r, s) := Answered(n, script.server(n.sent));
    (r.(sent := n.sent + 1, log := Then(n.log, Attempt(q, n.sent, script.server(n.sent)))), s)
  }

  // ---- retries ----

  const DelayTable: seq<nat> := [0, 16, 8, 4, 2, 1]

  predicate WantsRetry(n: Net, retryOn202: bool) {
    || (retryOn202 && n.httpStatus == HTTP_STATUS_202_ACCEPTED)
    || n.httpStatus == HTTP_STATUS_429_TOO_MANY_REQUESTS
  }

  function Clamped(delay: nat): nat {
    if delay < MIN_DELAY_BEFORE_RETRY then MIN_DELAY_BEFORE_RETRY
    else if delay > MAX_DELAY_BEFORE_RETRY then MAX_DELAY_BEFORE_RETRY
    else delay
  }

  /** The pause before the next attempt when retryCount attempts are left. */
  function Delay(n: Net, retryCount: nat): nat
    requires retryCount < 6
  {
    if n.httpStatus == HTTP_STATUS_429_TOO_MANY_REQUESTS then
      match n.headers
      case Some(Headers(_, Some(seconds))) => Clamped(seconds)
      case _ => Clamped(DelayTable[retryCount])
    else DelayTable[retryCount]
  }

  function StatusCleaned(n: Net): Net {
    n.(httpStatus := 0, returnCode := None, message := None)
  }

  function ResponseCleaned(n: Net): Net {
    n.(body := None, headers := None)
  }

  /** The do-loop of ProcessHttpRequestInternal entered with RetryCount == attempts. */
  function Retried(n: Net, script: Script, q: Request, retryOn202: bool, attempts: nat): (Net, EfiStatus)
    requires 1 <= attempts <= 6
    decreases attempts, n.sent
  {
    var (r, s) := Requested(n, script, q);
    if !EfiError(s) && WantsRetry(r, retryOn202) && attempts > 1 then
      var next := ResponseCleaned(StatusCleaned(r.(waits := r.waits + [Delay(r, attempts - 1)])));
      Retried(next, script, q, retryOn202, attempts - 1)
    else (r, s)
  }

  function HttpDone(n: Net, script: Script, q: Request, retryOn202: bool): (Net, EfiStatus) {
    Retried(StatusCleaned(n), script, q, retryOn202, 6)
  }

  function Sum(s: seq<nat>): nat {
    if s == [] then 0 else Sum(s[..|s| - 1]) + s[|s| - 1]
  }

  lemma {:induction false} SumAppend(a: seq<nat>, b: seq<nat>)
    ensures Sum(a + b) == Sum(a) + Sum(b)
  {
    if b == [] {
      assert a + b == a;
    } else {
      assert (a + b)[..|a + b| - 1] == a + b[..|b| - 1];
      SumAppend(a, b[..|b| - 1]);
    }
  }

  /** Exchange i asks to be repeated. */
  predicate Repeats(x: Exchange, retryOn202: bool) {
    && !EfiError(StatusOf(x))
    && (CodeOf(x) == HTTP_STATUS_429_TOO_MANY_REQUESTS || (retryOn202 && CodeOf(x) == HTTP_STATUS_202_ACCEPTED))
  }

  /** The pause in seconds that follows attempt i of a request, counted from 0, when it is repeated: what the
      server asks for with a 429, but at least 1 and at most 24, and otherwise 1, 2, 4, 8 and 16. */
  function Pause(x: Exchange, i: nat): nat
    requires i < 5
  {
    if x.Reply? && x.code == 429 && x.headers.retryAfter.Some? then
      if x.headers.retryAfter.value == 0 then 1
      else if x.headers.retryAfter.value > 24 then 24
      else x.headers.retryAfter.value
    else [1, 2, 4, 8, 16][i]
  }

  /** What a request leaves alone. */
  predicate SameElsewhere(n: Net, r: Net) {
    && r.mailboxes == n.mailboxes && r.logicState == n.logicState
    && r.configured == n.configured && r.built == n.built && r.sets == n.sets
  }

  /** One turn of the retry loop from a cleaned status: it ends with this exchange's answer, or pauses
      and goes on from a cleaned request. */
  lemma RetryTurn(n: Net, script: Script, q: Request, retryOn202: bool, attempts: nat)
    returns (next: Net, d: nat)
    requires 1 <= attempts <= 6 && n.httpStatus == 0
    ensures var x := script.server(n.sent);
            var (r, s) := Retried(n, script, q, retryOn202, attempts);
            if Repeats(x, retryOn202) && attempts > 1 then
              && (r, s) == Retried(next, script, q, retryOn202, attempts - 1)
              && next.sent == n.sent + 1 && next.httpStatus == 0 && next.body.None?
              && next.waits == n.waits + [d] && d == Pause(x, 6 - attempts)
              && next.log == Then(n.log, Attempt(q, n.sent, x))
              && SameElsewhere(n, next)
            else
              && s == StatusOf(x) && r.httpStatus == CodeOf(x)
              && r.sent == n.sent + 1 && r.waits == n.waits
              && r.log == Then(n.log, Attempt(q, n.sent, x))
              && SameElsewhere(n, r)
              && r.body == BodyAfter(n.body, x, n.sent)
              && (x.Reply? ==> r.headers == Some(x.headers))
  {
    var (r, s) := Requested(n, script, q);
    d := 1;
    next := n;
    if Repeats(script.server(n.sent), retryOn202) && attempts > 1 {
      d := Delay(r, attempts - 1);
      next := ResponseCleaned(StatusCleaned(r.(waits := r.waits + [d])));
      DelayIs(r, script.server(n.sent), attempts - 1);
    }
  }

  /** What a turn does to the pauses. */
  lemma WaitTurn(n: Net, script: Script, q: Request, retryOn202: bool, attempts: nat) returns (next: Net, d: nat)
    requires 1 <= attempts <= 6 && n.httpStatus == 0
    ensures var waits := Retried(n, script, q, retryOn202, attempts).0.waits;
            if Repeats(script.server(n.sent), retryOn202) && attempts > 1 then
              && waits == Retried(next, script, q, retryOn202, attempts - 1).0.waits
              && next.sent == n.sent + 1 && next.httpStatus == 0
              && next.waits == n.waits + [d] && d == Pause(script.server(n.sent), 6 - attempts)
            else waits == n.waits
  {
    hide Retried, Repeats, Pause, BodyAfter, SameElsewhere;
    next, d := RetryTurn(n, script, q, retryOn202, attempts);
  }

  /** The exchange brings content and it arrives in full. */
  predicate BringsBody(x: Exchange) {
    x.Reply? && x.contentLength > 0 && x.bufferAvailable && Assemble([], x.contentLength, x.chunks).Assembled?
  }

  /** An exchange ends without an error exactly when a reply comes and its announced content, if any,
      finds a buffer and arrives. */
  lemma EndsWell(x: Exchange)
    ensures !EfiError(StatusOf(x)) <==> x.Reply? && (x.contentLength == 0 || BringsBody(x))
    ensures !EfiError(StatusOf(x)) ==> StatusOf(x) == Success
    ensures x.NotSent? || x.NoResponse? || x.ResponseTimedOut? ==> StatusOf(x) == x.status
    ensures x.Reply? && x.contentLength > 0 && !x.bufferAvailable ==> StatusOf(x) == OutOfResources
    ensures CodeOf(x) == if x.Reply? || x.ResponseTimedOut? then x.code else 0
  {
    match x
    case NotSent(s) => assert EfiError(s);
    case NoResponse(s) => assert EfiError(s);
    case ResponseTimedOut(s, _) => assert EfiError(s);
    case Reply(_, _, length, _, chunks) =>
      match Assemble([], length, chunks)
      case AssemblyFailed(s) => assert EfiError(s);
      case Assembled(_) =>
  }

  /** The body field after an exchange: replaced by content that arrives, left alone otherwise. */
  function BodyAfter(body: Option<Body>, x: Exchange, origin: nat): Option<Body> {
    if BringsBody(x) then Some(Body(Assemble([], x.contentLength, x.chunks).bytes + [0], origin)) else body
  }

  lemma DelayIs(n: Net, x: Exchange, retryCount: nat)
    requires 1 <= retryCount <= 5 && x.Reply? && n.httpStatus == x.code && n.headers == Some(x.headers)
    ensures Delay(n, retryCount) == Pause(x, 5 - retryCount)
  {
    assert DelayTable[5] == 1 && DelayTable[4] == 2 && DelayTable[3] == 4 && DelayTable[2] == 8 && DelayTable[1] == 16;
  }

  lemma PauseRange(x: Exchange, i: nat)
    requires i < 5
    ensures 1 <= Pause(x, i) <= 24
  {
  }

  /** The number of the last exchange of a loop that starts at exchange from. */
  function LastAttempt(script: Script, from: nat, retryOn202: bool, attempts: nat): (last: nat)
    requires 1 <= attempts <= 6
    ensures from <= last < from + attempts
    decreases attempts, from
  {
    if Repeats(script.server(from), retryOn202) && attempts > 1 then
      LastAttempt(script, from + 1, retryOn202, attempts - 1)
    else from
  }

  predicate AllRepeat(script: Script, from: nat, last: nat, retryOn202: bool) {
    forall i :: from <= i < last ==> Repeats(script.server(i), retryOn202)
  }

  /** Which answers ask for a repeat: a 429 always, a 202 if the request is one that waits for an answer, and
      neither if its content is lost. */
  lemma RepeatsIff(x: Exchange, retryOn202: bool)
    ensures Repeats(x, retryOn202) <==>
            && x.Reply? && (x.code == 429 || (retryOn202 && x.code == 202))
            && (x.contentLength == 0 || BringsBody(x))
  {
    EndsWell(x);
  }

  /** The loop stops at the first answer that does not ask for a repeat, or when attempts run out. */
  lemma {:induction false} AttemptsStop(script: Script, from: nat, retryOn202: bool, attempts: nat)
    requires 1 <= attempts <= 6
    ensures var last := LastAttempt(script, from, retryOn202, attempts);
            && AllRepeat(script, from, last, retryOn202)
            && (last < from + attempts - 1 ==> !Repeats(script.server(last), retryOn202))
    decreases attempts
  {
    if Repeats(script.server(from), retryOn202) && attempts > 1 {
      AttemptsStop(script, from + 1, retryOn202, attempts - 1);
    }
  }

  /** The log after exchanges from to last of one request. */
  function Logged(log: Log, script: Script, q: Request, from: nat, last: nat): Log
    requires from <= last
    decreases last - from
  {
    var next := Then(log, Attempt(q, from, script.server(from)));
    if from == last then next else Logged(next, script, q, from + 1, last)
  }

  /** The retry loop, for every server: both the status it returns and the HTTP status it leaves are the
      last request's, and it pauses once between any two requests. */
  lemma {:induction false} RetryLoop(n: Net, script: Script, q: Request, retryOn202: bool, attempts: nat)
    requires 1 <= attempts <= 6 && n.httpStatus == 0
    ensures var (r, s) := Retried(n, script, q, retryOn202, attempts);
            var last := LastAttempt(script, n.sent, retryOn202, attempts);
            && r.sent == last + 1
            && s == StatusOf(script.server(last))
            && r.httpStatus == CodeOf(script.server(last))
            && |r.waits| == |n.waits| + last - n.sent
    decreases attempts
  {
    hide Retried, Repeats;
    var next, _ := RetryTurn(n, script, q, retryOn202, attempts);
    if Repeats(script.server(n.sent), retryOn202) && attempts > 1 {
      RetryLoop(next, script, q, retryOn202, attempts - 1);
    }
  }

  /** And it logs its exchanges one by one. */
  lemma {:induction false} RetryLog(n: Net, script: Script, q: Request, retryOn202: bool, attempts: nat)
    requires 1 <= attempts <= 6 && n.httpStatus == 0
    ensures Retried(n, script, q, retryOn202, attempts).0.log
            == Logged(n.log, script, q, n.sent, LastAttempt(script, n.sent, retryOn202, attempts))
    decreases attempts
  {
    hide Retried, Repeats;
    var next, _ := RetryTurn(n, script, q, retryOn202, attempts);
    if Repeats(script.server(n.sent), retryOn202) && attempts > 1 {
      RetryLog(next, script, q, retryOn202, attempts - 1);
    }
  }

  /** The pauses after attempts i to i + k - 1 of a request that starts at exchange from. */
  function Pauses(script: Script, from: nat, i: nat, k: nat): (r: seq<nat>)
    requires i + k <= 5
    ensures |r| == k
    ensures forall j :: 0 <= j < k ==> r[j] == Pause(script.server(from + i + j), i + j)
    decreases k
  {
    if k == 0 then [] else [Pause(script.server(from + i), i)] + Pauses(script, from, i + 1, k - 1)
  }

  lemma {:induction false} LoopPauses(n: Net, script: Script, q: Request, retryOn202: bool, attempts: nat, from: nat)
    requires 1 <= attempts <= 6 && n.httpStatus == 0 && n.sent == from + 6 - attempts
    ensures var last := LastAttempt(script, n.sent, retryOn202, attempts);
            Retried(n, script, q, retryOn202, attempts).0.waits
            == n.waits + Pauses(script, from, 6 - attempts, last - n.sent)
    decreases attempts
  {
    hide Retried, Repeats, Pause, Pauses;
    var next, d := WaitTurn(n, script, q, retryOn202, attempts);
    if Repeats(script.server(n.sent), retryOn202) && attempts > 1 {
      LoopPauses(next, script, q, retryOn202, attempts - 1, from);
      PausesNext(n.waits, d, script, from, 6 - attempts, LastAttempt(script, next.sent, retryOn202, attempts - 1));
    } else {
      NoPauses(n.waits, script, from, 6 - attempts);
    }
  }

  lemma NoPauses(waits: seq<nat>, script: Script, from: nat, i: nat)
    requires i <= 5
    ensures waits + Pauses(script, from, i, 0) == waits
  {
  }

  lemma PausesNext(waits: seq<nat>, d: nat, script: Script, from: nat, i: nat, last: nat)
    requires i < 5 && d == Pause(script.server(from + i), i) && from + i < last <= from + 5
    ensures waits + [d] + Pauses(script, from, i + 1, last - from - i - 1)
         == waits + Pauses(script, from, i, last - from - i)
  {
  }

  /** All pauses of a request, for every server: one between any two exchanges, as long as the exchange before
      it and the attempt number say. */
  lemma RequestPauses(n: Net, script: Script, q: Request, retryOn202: bool)
    ensures var last := LastAttempt(script, n.sent, retryOn202, 6);
            HttpDone(n, script, q, retryOn202).0.waits == n.waits + Pauses(script, n.sent, 0, last - n.sent)
  {
    LoopPauses(StatusCleaned(n), script, q, retryOn202, 6, n.sent);
  }

  /** Every pause is between 1 and 24 seconds. */
  lemma {:induction false} PauseBounds(n: Net, script: Script, q: Request, retryOn202: bool, attempts: nat)
    requires 1 <= attempts <= 6 && n.httpStatus == 0
    ensures var waits := Retried(n, script, q, retryOn202, attempts).0.waits;
            && n.waits <= waits
            && (forall i :: |n.waits| <= i < |waits| ==> 1 <= waits[i] <= 24)
            && Sum(waits) <= Sum(n.waits) + 24 * (attempts - 1)
    decreases attempts
  {
    hide Retried, Repeats, Pause;
    var next, d := WaitTurn(n, script, q, retryOn202, attempts);
    if Repeats(script.server(n.sent), retryOn202) && attempts > 1 {
      PauseRange(script.server(n.sent), 6 - attempts);
      assert next.waits[..|n.waits|] == n.waits;
      PauseBounds(next, script, q, retryOn202, attempts - 1);
    }
  }

  /** The pauses from a point of the table on: 1, 2, 4, 8, 16. */
  function TableFrom(attempts: nat): seq<nat>
    requires 1 <= attempts <= 6
  {
    if attempts == 1 then [] else [DelayTable[attempts - 1]] + TableFrom(attempts - 1)
  }

  lemma TableStep(waits: seq<nat>, d: nat, attempts: nat)
    requires 2 <= attempts <= 6 && d == DelayTable[attempts - 1]
    ensures (waits + [d]) + TableFrom(attempts - 1) == waits + TableFrom(attempts)
  {
  }

  predicate NoRefusal(script: Script, from: nat, end: nat) {
    forall i :: from <= i < end ==> CodeOf(script.server(i)) != HTTP_STATUS_429_TOO_MANY_REQUESTS
  }

  /** Without a 429 the pauses are an initial part of the table. */
  lemma {:induction false} TablePauses(
    n: Net, script: Script, q: Request, retryOn202: bool, attempts: nat, end: nat)
    requires 1 <= attempts <= 6 && n.httpStatus == 0 && n.sent + attempts <= end
    requires NoRefusal(script, n.sent, end)
    ensures Retried(n, script, q, retryOn202, attempts).0.waits <= n.waits + TableFrom(attempts)
    decreases attempts
  {
    hide Retried, Repeats;
    var next, d := WaitTurn(n, script, q, retryOn202, attempts);
    if Repeats(script.server(n.sent), retryOn202) && attempts > 1 {
      assert CodeOf(script.server(n.sent)) != HTTP_STATUS_429_TOO_MANY_REQUESTS;
      assert d == [1, 2, 4, 8, 16][6 - attempts];
      TablePauses(next, script, q, retryOn202, attempts - 1, end);
      TableStep(n.waits, d, attempts);
    }
  }

  /** The bound for one ProcessHttpRequestInternal, for every server: at most 6 requests and 5 pauses,
      at most 120 seconds of sleep, 31 if no request is refused with 429. */
  lemma RetryBound(n: Net, script: Script, q: Request, retryOn202: bool)
    ensures var r := HttpDone(n, script, q, retryOn202).0;
            && 1 <= r.sent - n.sent <= 6
            && n.waits <= r.waits && |r.waits| - |n.waits| <= 5
            && Sum(r.waits) - Sum(n.waits) <= 120
            && (NoRefusal(script, n.sent, n.sent + 6) ==> Sum(r.waits) - Sum(n.waits) <= 31)
  {
    var c := StatusCleaned(n);
    var waits := HttpDone(n, script, q, retryOn202).0.waits;
    RetryLoop(c, script, q, retryOn202, 6);
    PauseBounds(c, script, q, retryOn202, 6);
    if NoRefusal(script, n.sent, n.sent + 6) {
      TablePauses(c, script, q, retryOn202, 6, n.sent + 6);
      FewPauses(n.waits, waits);
    }
  }

  lemma FewPauses(before: seq<nat>, waits: seq<nat>)
    requires before <= waits <= before + TableFrom(6)
    ensures Sum(waits) - Sum(before) <= 31
  {
    var pauses := waits[|before|..];
    assert waits == before + pauses;
    SumAppend(before, pauses);
    TableIs();
    assert pauses <= [1, 2, 4, 8, 16];
    PrefixSum(pauses);
  }

  lemma TableIs()
    ensures TableFrom(6) == [1, 2, 4, 8, 16]
  {
    assert TableFrom(1) == [];
    assert TableFrom(2) == [16];
    assert TableFrom(3) == [8, 16];
    assert TableFrom(4) == [4, 8, 16];
    assert TableFrom(5) == [2, 4, 8, 16];
  }

  lemma {:induction false} SumOfPrefix(s: seq<nat>, k: nat)
    requires k <= |s|
    ensures Sum(s[..k]) <= Sum(s)
  {
    assert s == s[..k] + s[k..];
    SumAppend(s[..k], s[k..]);
  }

  lemma PrefixSum(s: seq<nat>)
    requires s <= [1, 2, 4, 8, 16]
    ensures Sum(s) <= 31
  {
    var t: seq<nat> := [1, 2, 4, 8, 16];
    assert t[..4] == [1, 2, 4, 8] && t[..4][..3] == [1, 2, 4] && t[..4][..3][..2] == [1, 2];
    assert Sum([1]) == 1 by { assert [1][..0] == []; }
    assert [1, 2][..1] == [1];
    assert Sum([1, 2]) == 3;
    assert Sum([1, 2, 4]) == 7;
    assert Sum([1, 2, 4, 8]) == 15;
    assert Sum(t) == 31;
    SumOfPrefix(t, |s|);
    assert t[..|s|] == s;
  }

  // ---- what the loop leaves behind ----

  /** A repeated request starts over without a body, so what the loop leaves is the last exchange's body
      if it brought one, and otherwise the body from before only if there was no repeat. */
  lemma {:induction false} LoopBody(n: Net, script: Script, q: Request, retryOn202: bool, attempts: nat)
    requires 1 <= attempts <= 6 && n.httpStatus == 0
    ensures var r := Retried(n, script, q, retryOn202, attempts).0;
            var last := LastAttempt(script, n.sent, retryOn202, attempts);
            && r.body == BodyAfter(if last == n.sent then n.body else None, script.server(last), last)
            && (script.server(last).Reply? ==> r.headers == Some(script.server(last).headers))
            && SameElsewhere(n, r)
    decreases attempts
  {
    hide Retried, Repeats, BodyAfter;
    var next, _ := RetryTurn(n, script, q, retryOn202, attempts);
    if Repeats(script.server(n.sent), retryOn202) && attempts > 1 {
      LoopBody(next, script, q, retryOn202, attempts - 1);
    }
  }
}
