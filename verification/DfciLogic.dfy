/** The two-stage recovery protocol: asynchronous requests, the response tables, the stages and the
    walk over the network cards, as functions of a script of outcomes. */
module DfciLogic {
  import opened Bytes
  import opened DfciHttp
  import opened Wrappers

  /** An element of a response; a missing name or value stands for a NULL pointer. */
  datatype Element = Element(field: Option<string>, value: Option<seq<byte>>)

  /** Sizing, allocating and decoding a base64 value. */
  datatype Decoded =
    | NotSizable
    | NoMemory
    | DecodeFailed(status: Failure)
    | DecodedBytes(bytes: seq<byte>)

  datatype Nic = Nic(handleStatus: EfiStatus, mediaPresent: bool)

  /** Everything outside the client. Parsing, decoding and packet headers belong to libraries that are
      not part of this model, so any functions may stand for them. */
  datatype World = World(
    script: Script,
    locateStatus: EfiStatus,
    nics: seq<Nic>,
    bootstrapUrl: Url,
    url: Url,
    build: nat -> EfiStatus,
    setVariable: nat -> EfiStatus,
    parse: seq<byte> -> Option<seq<Element>>,
    decode: seq<byte> -> Decoded,
    signatureOf: seq<byte> -> nat,
    mailboxSignature: Mailbox -> nat)

  // ---- response tables ----

  datatype Action = SetVariable(mailbox: Mailbox) | SetReturnCode | SetHttpMessage

  datatype TableEntry = TableEntry(fieldName: string, action: Action, decodeBase64: bool)

  const RecoveryBootstrapResponse: seq<TableEntry> := [
    TableEntry("TransitionPacket1", SetVariable(Identity), true),
    TableEntry("TransitionPacket2", SetVariable(Identity2), true),
    TableEntry("SettingsPacket", SetVariable(Settings), true),
    TableEntry("ResultMessage", SetHttpMessage, false),
    TableEntry("ResultCode", SetReturnCode, false)
  ]

  const RecoveryResponse: seq<TableEntry> := [
    TableEntry("ProvisioningPacket", SetVariable(Identity), true),
    TableEntry("PermissionsPacket", SetVariable(Permissions), true),
    TableEntry("SettingsPacket", SetVariable(Settings), true),
    TableEntry("ResultMessage", SetHttpMessage, false),
    TableEntry("ResultCode", SetReturnCode, false)
  ]

  function Table(stage: Stage): seq<TableEntry> {
    if stage.BootstrapStage? then RecoveryBootstrapResponse else RecoveryResponse
  }

  /** The mailboxes a stage may write: only recovery touches permissions, only bootstrap the second
      identity. */
  function Allowed(stage: Stage): set<Mailbox> {
    if stage.BootstrapStage? then {Identity, Identity2, Settings} else {Identity, Permissions, Settings}
  }

  lemma TableStaysAllowed(stage: Stage, i: nat)
    requires i < |Table(stage)|
    ensures Table(stage)[i].action.SetVariable? ==>
      Table(stage)[i].action.mailbox in Allowed(stage) && Table(stage)[i].decodeBase64
    ensures Table(stage)[i].action.SetVariable? ==>
      var field, mailbox := Table(stage)[i].fieldName, Table(stage)[i].action.mailbox;
      || (mailbox == Identity && field == if stage.BootstrapStage? then "TransitionPacket1" else "ProvisioningPacket")
      || (mailbox == Identity2 && field == "TransitionPacket2")
      || (mailbox == Permissions && field == "PermissionsPacket")
      || (mailbox == Settings && field == "SettingsPacket")
  {
  }

  /** The first entry with the field's name, or the length of the table. */
  function Lookup(table: seq<TableEntry>, field: string, from: nat): (i: nat)
    requires from <= |table|
    ensures from <= i <= |table|
    ensures i < |table| ==> table[i].fieldName == field
    ensures forall j :: from <= j < i ==> table[j].fieldName != field
    decreases |table| - from
  {
    if from == |table| || table[from].fieldName == field then from else Lookup(table, field, from + 1)
  }

  // ---- one element ----

  /** ProcessFunction on an entry of the table, with the value as the table wants it. */
  function ActionDone(n: Net, w: World, stage: Stage, action: Action, value: seq<byte>): (Net, EfiStatus) {
    match action
    case SetVariable(mailbox) =>
      if w.mailboxSignature(mailbox) != w.signatureOf(value) then (n, InvalidParameter)
      else
        var s := w.setVariable(n.sets);
        var tried := n.(sets := n.sets + 1);
        if EfiError(s) then (tried, s)
        else (tried.(mailboxes := n.mailboxes[mailbox := value], log := Then(n.log, Applied(stage, mailbox, n.body))),
              MediaChanged)
    case SetReturnCode => (n.(returnCode := Some(value + [0])), Success)
    case SetHttpMessage => (n.(message := Some(value + [0])), Success)
  }

  /** ProcessFunction */
  function ElementDone(n: Net, w: World, stage: Stage, e: Element): (Net, EfiStatus) {
    if e.field.None? || e.value.None? then (n, InvalidParameter)
    else
      var i := Lookup(Table(stage), e.field.value, 0);
      if i == |Table(stage)| then (n, InvalidParameter)
      else if !Table(stage)[i].decodeBase64 then ActionDone(n, w, stage, Table(stage)[i].action, e.value.value)
      else
        match w.decode(e.value.value)
        case NotSizable => (n, InvalidParameter)
        case NoMemory => (n, OutOfResources)
        case DecodeFailed(s) => (n, s)
        case DecodedBytes(bytes) => ActionDone(n, w, stage, Table(stage)[i].action, bytes)
  }

  /** r is n, or n with one mailbox write of the stage logged, as far as bodies, requests and pauses go. */
  predicate AtMostOneApplied(n: Net, r: Net, stage: Stage) {
    && r.body == n.body && r.sent == n.sent && r.waits == n.waits
    && (r.log == n.log
        || (r.log.Then? && r.log.before == n.log && r.log.event.Applied? && r.log.event.source == n.body
            && r.log.event.stage == stage))
  }

  lemma ElementKeeps(n: Net, w: World, stage: Stage, e: Element)
    ensures AtMostOneApplied(n, ElementDone(n, w, stage, e).0, stage)
  {
  }

  predicate Continues(s: EfiStatus) {
    s == Success || s == MediaChanged
  }

  /** The elements in order, up to the first that fails; a change anywhere is reported as one. */
  function ElementsDone(n: Net, w: World, stage: Stage, es: seq<Element>): (Net, EfiStatus)
    decreases |es|
  {
    if es == [] then (n, Success)
    else
      var (n1, s1) := ElementDone(n, w, stage, es[0]);
      if !Continues(s1) then (n1, s1)
      else
        var (n2, s2) := ElementsDone(n1, w, stage, es[1..]);
        (n2, if s2 == Success then s1 else s2)
  }

  /** DfciUpdateFromJson */
  function Updated(n: Net, w: World, stage: Stage): (Net, EfiStatus)
    requires n.body.Some?
  {
    match w.parse(n.body.value.bytes)
    case None => (n, InvalidParameter)
    case Some(es) => if es == [] then (n, NotFound) else ElementsDone(n, w, stage, es)
  }

  // ---- one stage ----

  /** ProcessHttpRequestWithRetries */
  function WithRetries(n: Net, w: World, q: Request, retryOn202: bool): (Net, EfiStatus) {
    var s := w.script.configure(n.configured);
    var c := n.(configured := n.configured + 1);
    if EfiError(s) then (c, s) else HttpDone(c, w.script, q, retryOn202)
  }

  /** A request whose first answer does not ask for a repeat is one exchange. */
  lemma OneExchange(n: Net, w: World, q: Request, retryOn202: bool)
    requires !EfiError(w.script.configure(n.configured)) && !Repeats(w.script.server(n.sent), retryOn202)
    ensures WithRetries(n, w, q, retryOn202)
         == Requested(StatusCleaned(n.(configured := n.configured + 1)), w.script, q)
  {
  }

  /** A request that could be configured, for every server: its status, its HTTP status and its answer
      are those of its last exchange, its body is that exchange's content or the one from before if
      nothing was repeated, and nothing else of the structure changes. */
  lemma RequestIs(n: Net, w: World, q: Request, retryOn202: bool)
    requires !EfiError(w.script.configure(n.configured))
    ensures var (r, s) := WithRetries(n, w, q, retryOn202);
            var last := LastAttempt(w.script, n.sent, retryOn202, 6);
            var x := w.script.server(last);
            && s == StatusOf(x) && r.httpStatus == CodeOf(x) && r.sent == last + 1
            && (x.Reply? ==> r.headers == Some(x.headers))
            && r.body == BodyAfter(if last == n.sent then n.body else None, x, last)
            && r.log == Logged(n.log, w.script, q, n.sent, last)
            && SameElsewhere(n.(configured := n.configured + 1), r)
  {
    var c := StatusCleaned(n.(configured := n.configured + 1));
    RetryLoop(c, w.script, q, retryOn202, 6);
    RetryLog(c, w.script, q, retryOn202, 6);
    LoopBody(c, w.script, q, retryOn202, 6);
  }

  /** The second half of ProcessAsyncRequest: the answer is fetched from where the 202 pointed. */
  function Fetched(n: Net, w: World, stage: Stage, location: Url): (Net, EfiStatus) {
    var (r, s) := WithRetries(n, w, Request(stage, Get, location), true);
    if EfiError(s) then (r, s)
    else if r.httpStatus != HTTP_STATUS_200_OK then (r, ProtocolError)
    else if r.body.None? then (r, ProtocolError)
    else (r, s)
  }

  /** ProcessAsyncRequest; the last component says whether it set DoneProcessing. */
  function AsyncDone(n: Net, w: World, stage: Stage, url: Url): (Net, EfiStatus, bool) {
    var (n1, s1) := WithRetries(n, w, Request(stage, Post, url), false);
    if EfiError(s1) then (n1, s1, false)
    else if n1.httpStatus != HTTP_STATUS_202_ACCEPTED then (n1, ProtocolError, false)
    else
      var location := if n1.headers.Some? then n1.headers.value.location else None;
      if location.None? then (n1, ProtocolError, true)
      else
        var (n2, s2) := Fetched(n1, w, stage, location.value);
        (n2, s2, true)
  }

  /** One stage of DfciMainLogic: the request, the update, and the status the switch sees. */
  function StageDone(n: Net, w: World, stage: Stage, url: Url): (Net, EfiStatus, bool) {
    var (n1, s1, done) := AsyncDone(n, w, stage, url);
    if EfiError(s1) then (n1, s1, done)
    else
      var n2 := n1.(logicState := if stage.BootstrapStage? then Bootstrap else Recovery);
      if n2.body.None? then (n2, ProtocolError, done)
      else
        var (n3, s3) := Updated(n2, w, stage);
        (n3, s3, done)
  }

  /** A stage that changed nothing; the switch of DfciMainLogic looks at one status for both the
      transport and the update. */
  predicate NoUpdates(s: EfiStatus) {
    s == Success || s == NotFound
  }

  /** The first switch of DfciMainLogic. */
  function BootstrapEnded(n: Net, s: EfiStatus): Net {
    n.(log := Then(n.log, Merged(BootstrapStage, s)),
       logicState := if NoUpdates(s) then PreRecovery
                     else if s == MediaChanged then BootstrapComplete
                     else n.logicState)
  }

  /** The second switch of DfciMainLogic. */
  function RecoveryEnded(n: Net, s: EfiStatus): Net {
    n.(log := Then(n.log, Merged(RecoveryStage, s)),
       logicState := if NoUpdates(s) then NoRecoveryAvailable
                     else if s == MediaChanged then RecoveryComplete
                     else n.logicState)
  }

  /** DfciMainLogic */
  function MainDone(n: Net, w: World): (Net, EfiStatus, bool) {
    var n0 := n.(logicState := PreBootstrap, built := n.built + 1);
    var b := w.build(n.built);
    if EfiError(b) then (n0, b, false)
    else
      var (n1, s1, done1) := StageDone(n0, w, BootstrapStage, w.bootstrapUrl);
      AfterBootstrap(n1, w, s1, done1)
  }

  function AfterBootstrap(n: Net, w: World, s: EfiStatus, done: bool): (Net, EfiStatus, bool) {
    var m := BootstrapEnded(n, s);
    if NoUpdates(s) then RecoveryDone(m, w, done) else (m, s, done)
  }

  function RecoveryDone(n: Net, w: World, done1: bool): (Net, EfiStatus, bool) {
    var n0 := n.(built := n.built + 1);
    var b := w.build(n.built);
    if EfiError(b) then (n0, b, done1)
    else
      var (n1, s1, done2) := StageDone(n0, w, RecoveryStage, w.url);
      (RecoveryEnded(n1, s1), if NoUpdates(s1) then Success else s1, done1 || done2)
  }

  /** One turn of the loop of TryEachNICThenProcessRequest. */
  function NicDone(n: Net, w: World, i: nat): (Net, EfiStatus, bool)
    requires i < |w.nics|
  {
    var n1 := n.(log := Then(n.log, NicStarted(i)));
    if EfiError(w.nics[i].handleStatus) then (n1, w.nics[i].handleStatus, false)
    else if !w.nics[i].mediaPresent then (n1, NoMedia, false)
    else MainDone(n1, w)
  }

  /** The loop of TryEachNICThenProcessRequest from card i on. */
  function NicsDone(n: Net, w: World, i: nat, done: bool, status: EfiStatus): (Net, EfiStatus)
    requires i <= |w.nics|
    decreases |w.nics| - i
  {
    if i == |w.nics| || done then (n, status)
    else
      var (n1, s, d) := NicDone(n, w, i);
      NicsDone(n1, w, i + 1, d, s)
  }

  /** TryEachNICThenProcessRequest */
  function AllNicsDone(n: Net, w: World): (Net, EfiStatus) {
    if EfiError(w.locateStatus) || w.nics == [] then (n, NotFound)
    else NicsDone(n, w, 0, false, w.locateStatus)
  }

  /** With two cards, a first one that does not end the run is followed by the second. */
  lemma TwoCards(n: Net, w: World)
    requires !EfiError(w.locateStatus) && |w.nics| == 2 && !NicDone(n, w, 0).2
    ensures var second := NicDone(NicDone(n, w, 0).0, w, 1);
            AllNicsDone(n, w) == (second.0, second.1)
  {
    var (n1, s1, d1) := NicDone(n, w, 0);
    var (n2, s2, d2) := NicDone(n1, w, 1);
    assert NicsDone(n2, w, 2, d2, s2) == (n2, s2);
    assert NicsDone(n1, w, 1, d1, s1) == (n2, s2);
  }
}
