/** What the steps of a recovery do, in terms of the server, the cards and the services alone: where each
    field of a response goes, which element decides, which status each stage, card and run ends with. */
module DfciEffects {
  import opened Bytes
  import opened DfciBody
  import opened DfciHttp
  import opened DfciLogic
  import opened Wrappers

  // ---- one element ----

  datatype Target = ToMailbox(mailbox: Mailbox) | ToMessage | ToReturnCode | Nowhere

  /** Where the protocol wants a field of a stage's response to go. */
  function TargetOf(stage: Stage, field: string): Target {
    match stage
    case BootstrapStage =>
      if field == "TransitionPacket1" then ToMailbox(Identity)
      else if field == "TransitionPacket2" then ToMailbox(Identity2)
      else if field == "SettingsPacket" then ToMailbox(Settings)
      else if field == "ResultMessage" then ToMessage
      else if field == "ResultCode" then ToReturnCode
      else Nowhere
    case RecoveryStage =>
      if field == "ProvisioningPacket" then ToMailbox(Identity)
      else if field == "PermissionsPacket" then ToMailbox(Permissions)
      else if field == "SettingsPacket" then ToMailbox(Settings)
      else if field == "ResultMessage" then ToMessage
      else if field == "ResultCode" then ToReturnCode
      else Nowhere
  }

  /** A table entry does what its target says. */
  predicate Leads(entry: TableEntry, target: Target) {
    match target
    case ToMailbox(m) => entry.action == SetVariable(m) && entry.decodeBase64
    case ToMessage => entry.action == SetHttpMessage && !entry.decodeBase64
    case ToReturnCode => entry.action == SetReturnCode && !entry.decodeBase64
    case Nowhere => false
  }

  lemma TargetFound(stage: Stage, field: string)
    ensures var i := Lookup(Table(stage), field, 0);
            if i == |Table(stage)| then TargetOf(stage, field) == Nowhere
            else Leads(Table(stage)[i], TargetOf(stage, field))
  {
    var table := Table(stage);
    var i := Lookup(table, field, 0);
    assert i == |table| ==>
             field != table[0].fieldName && field != table[1].fieldName && field != table[2].fieldName
             && field != table[3].fieldName && field != table[4].fieldName;
  }

  /** Storing bytes in a mailbox: the mailbox's own signature, then one call of SetVariable. */
  function Stored(n: Net, w: World, stage: Stage, mailbox: Mailbox, bytes: seq<byte>): (Net, EfiStatus) {
    if w.signatureOf(bytes) != w.mailboxSignature(mailbox) then (n, InvalidParameter)
    else
      var s := w.setVariable(n.sets);
      var called := n.(sets := n.sets + 1);
      if s.Success? || s.Warning? then
        (called.(mailboxes := n.mailboxes[mailbox := bytes], log := Then(n.log, Applied(stage, mailbox, n.body))),
         MediaChanged)
      else (called, s)
  }

  /** What an element does, for all services and values: its field's mailbox, and no other, gets exactly the
      decoded bytes, or the message or return code gets the text with a terminator; anything that goes wrong
      leaves all of them alone. */
  lemma ElementIs(n: Net, w: World, stage: Stage, field: string, value: seq<byte>)
    ensures ElementDone(n, w, stage, Element(Some(field), Some(value))) ==
            match TargetOf(stage, field)
            case ToMailbox(m) =>
              (match w.decode(value)
               case NotSizable => (n, InvalidParameter)
               case NoMemory => (n, OutOfResources)
               case DecodeFailed(s) => (n, s)
               case DecodedBytes(bytes) => Stored(n, w, stage, m, bytes))
            case ToMessage => (n.(message := Some(value + [0])), Success)
            case ToReturnCode => (n.(returnCode := Some(value + [0])), Success)
            case Nowhere => (n, InvalidParameter)
  {
    hide Table, Lookup, TargetOf;
    TargetFound(stage, field);
  }

  /** An element without a name or without a value is refused. */
  lemma ElementIncomplete(n: Net, w: World, stage: Stage, e: Element)
    requires e.field.None? || e.value.None?
    ensures ElementDone(n, w, stage, e) == (n, InvalidParameter)
  {
  }

  // ---- a response ----

  /** The request structure after the first k elements, each applied to what the one before left. */
  function After(n: Net, w: World, stage: Stage, es: seq<Element>, k: nat): Net
    requires k <= |es|
  {
    if k == 0 then n else ElementDone(After(n, w, stage, es, k - 1), w, stage, es[k - 1]).0
  }

  function StatusAt(n: Net, w: World, stage: Stage, es: seq<Element>, k: nat): EfiStatus
    requires k < |es|
  {
    ElementDone(After(n, w, stage, es, k), w, stage, es[k]).1
  }

  /** The first k elements go through. */
  predicate GoThrough(n: Net, w: World, stage: Stage, es: seq<Element>, k: nat)
    requires k <= |es|
  {
    forall i :: 0 <= i < k ==> StatusAt(n, w, stage, es, i) in {Success, MediaChanged}
  }

  predicate SomeChange(n: Net, w: World, stage: Stage, es: seq<Element>) {
    exists i :: 0 <= i < |es| && StatusAt(n, w, stage, es, i) == MediaChanged
  }

  lemma {:induction false} AfterTail(n: Net, w: World, stage: Stage, es: seq<Element>, k: nat)
    requires 0 < k <= |es|
    ensures After(n, w, stage, es, k) == After(ElementDone(n, w, stage, es[0]).0, w, stage, es[1..], k - 1)
  {
    hide ElementDone;
    if k == 1 {
      assert After(n, w, stage, es, 0) == n;
    } else {
      AfterTail(n, w, stage, es, k - 1);
    }
  }

  lemma StatusTail(n: Net, w: World, stage: Stage, es: seq<Element>, i: nat)
    requires 0 < i < |es|
    ensures StatusAt(n, w, stage, es, i) == StatusAt(ElementDone(n, w, stage, es[0]).0, w, stage, es[1..], i - 1)
  {
    hide ElementDone;
    AfterTail(n, w, stage, es, i);
  }

  /** A response is applied element by element up to the first that fails, whose status it gets; without one
      it gets MEDIA_CHANGED if any element did and SUCCESS otherwise. */
  lemma {:induction false} ElementsAre(n: Net, w: World, stage: Stage, es: seq<Element>) returns (k: nat)
    ensures k <= |es| && GoThrough(n, w, stage, es, k)
    ensures ElementsDone(n, w, stage, es) ==
            if k < |es| then (After(n, w, stage, es, k + 1), StatusAt(n, w, stage, es, k))
            else (After(n, w, stage, es, k), if SomeChange(n, w, stage, es) then MediaChanged else Success)
    ensures k < |es| ==> StatusAt(n, w, stage, es, k) !in {Success, MediaChanged}
    decreases |es|
  {
    hide ElementDone;
    if es == [] {
      k := 0;
    } else {
      var (n1, s1) := ElementDone(n, w, stage, es[0]);
      assert After(n, w, stage, es, 0) == n && After(n, w, stage, es, 1) == n1;
      assert StatusAt(n, w, stage, es, 0) == s1;
      if !Continues(s1) {
        k := 0;
      } else {
        var more := ElementsAre(n1, w, stage, es[1..]);
        k := more + 1;
        ElementsStep(n, w, stage, es, more);
      }
    }
  }

  lemma ElementsStep(n: Net, w: World, stage: Stage, es: seq<Element>, k: nat)
    requires es != [] && k < |es| && Continues(ElementDone(n, w, stage, es[0]).1)
    ensures var n1 := ElementDone(n, w, stage, es[0]).0;
            && After(n, w, stage, es, k + 1) == After(n1, w, stage, es[1..], k)
            && (k + 1 < |es| ==>
                  && After(n, w, stage, es, k + 2) == After(n1, w, stage, es[1..], k + 1)
                  && StatusAt(n, w, stage, es, k + 1) == StatusAt(n1, w, stage, es[1..], k))
            && (GoThrough(n1, w, stage, es[1..], k) ==> GoThrough(n, w, stage, es, k + 1))
            && (SomeChange(n, w, stage, es) <==>
                  ElementDone(n, w, stage, es[0]).1 == MediaChanged || SomeChange(n1, w, stage, es[1..]))
  {
    hide ElementDone;
    var (n1, s1) := ElementDone(n, w, stage, es[0]);
    assert After(n, w, stage, es, 0) == n && StatusAt(n, w, stage, es, 0) == s1;
    AfterTail(n, w, stage, es, k + 1);
    if k + 1 < |es| {
      AfterTail(n, w, stage, es, k + 2);
      StatusTail(n, w, stage, es, k + 1);
    }
    forall i | 0 < i < |es|
      ensures StatusAt(n, w, stage, es, i) == StatusAt(n1, w, stage, es[1..], i - 1)
    {
      StatusTail(n, w, stage, es, i);
    }
    if SomeChange(n1, w, stage, es[1..]) {
      var i :| 0 <= i < |es[1..]| && StatusAt(n1, w, stage, es[1..], i) == MediaChanged;
      assert StatusAt(n, w, stage, es, i + 1) == MediaChanged;
    }
  }

  // ---- a stage's request ----

  /** The status and DoneProcessing of a stage's request, from the script: the first thing that goes wrong
      decides, and DoneProcessing is set by the 202 and nothing after it. */
  lemma AsyncStatusIs(n: Net, w: World, stage: Stage, url: Url)
    ensures var (r, s, done) := AsyncDone(n, w, stage, url);
            var post := w.script.server(PostLast(n, w));
            if EfiError(w.script.configure(n.configured)) then s == w.script.configure(n.configured) && !done
            else if EfiError(StatusOf(post)) then s == StatusOf(post) && !done
            else if CodeOf(post) != 202 then s == ProtocolError && !done
            else if LocationOf(post).None? then s == ProtocolError && done
            else
              var m := Posted(n, w, stage, url);
              var get := w.script.server(GetLast(m, w));
              && done && m.sent == PostLast(n, w) + 1
              && s == if EfiError(w.script.configure(n.configured + 1)) then w.script.configure(n.configured + 1)
                      else if EfiError(StatusOf(get)) then StatusOf(get)
                      else if CodeOf(get) != 200 || r.body.None? then ProtocolError
                      else Success
  {
    hide WithRetries;
    if !EfiError(w.script.configure(n.configured)) {
      RequestIs(n, w, Request(stage, Post, url), false);
      var post := w.script.server(PostLast(n, w));
      EndsWell(post);
      if !EfiError(StatusOf(post)) && CodeOf(post) == 202 && LocationOf(post).Some? {
        GetStatusIs(Posted(n, w, stage, url), w, stage, LocationOf(post).value);
      }
    } else {
      NotConfigured(n, w, Request(stage, Post, url), false);
    }
  }

  lemma NotConfigured(n: Net, w: World, q: Request, retryOn202: bool)
    requires EfiError(w.script.configure(n.configured))
    ensures WithRetries(n, w, q, retryOn202) == (n.(configured := n.configured + 1), w.script.configure(n.configured))
  {
  }

  lemma GetStatusIs(n: Net, w: World, stage: Stage, location: Url)
    ensures var (r, s) := Fetched(n, w, stage, location);
            var get := w.script.server(GetLast(n, w));
            s == if EfiError(w.script.configure(n.configured)) then w.script.configure(n.configured)
                 else if EfiError(StatusOf(get)) then StatusOf(get)
                 else if CodeOf(get) != 200 || r.body.None? then ProtocolError
                 else Success
  {
    hide WithRetries;
    if !EfiError(w.script.configure(n.configured)) {
      RequestIs(n, w, Request(stage, Get, location), true);
      EndsWell(w.script.server(GetLast(n, w)));
    } else {
      NotConfigured(n, w, Request(stage, Get, location), true);
    }
  }

  /** A request forgets the message and the return code of earlier ones. */
  lemma RequestForgets(n: Net, w: World, q: Request, retryOn202: bool)
    requires !EfiError(w.script.configure(n.configured))
    ensures var r := WithRetries(n, w, q, retryOn202).0;
            r.message.None? && r.returnCode.None?
  {
    LoopForgets(StatusCleaned(n.(configured := n.configured + 1)), w.script, q, retryOn202, 6);
  }

  lemma {:induction false} LoopForgets(n: Net, script: Script, q: Request, retryOn202: bool, attempts: nat)
    requires 1 <= attempts <= 6 && n.message.None? && n.returnCode.None?
    ensures var r := Retried(n, script, q, retryOn202, attempts).0;
            r.message.None? && r.returnCode.None?
    decreases attempts
  {
    hide Assemble;
    var (r, s) := Requested(n, script, q);
    if !EfiError(s) && WantsRetry(r, retryOn202) && attempts > 1 {
      var next := ResponseCleaned(StatusCleaned(r.(waits := r.waits + [Delay(r, attempts - 1)])));
      LoopForgets(next, script, q, retryOn202, attempts - 1);
    }
  }

  // ---- a response and its stage ----

  /** What a stage makes of its answer: a text that does not parse, a response without elements, or the status
      of its elements. */
  lemma StageStatusIs(n: Net, w: World, stage: Stage, url: Url)
    ensures var (m, s1, done) := AsyncDone(n, w, stage, url);
            var processing := m.(logicState := if stage.BootstrapStage? then Bootstrap else Recovery);
            StageDone(n, w, stage, url) ==
            if EfiError(s1) then (m, s1, done)
            else if m.body.None? then (processing, ProtocolError, done)
            else
              match w.parse(m.body.value.bytes)
              case None => (processing, InvalidParameter, done)
              case Some(es) =>
                if es == [] then (processing, NotFound, done)
                else (ElementsDone(processing, w, stage, es).0, ElementsDone(processing, w, stage, es).1, done)
  {
  }

  // ---- a card and a run ----

  /** How the recovery stage ends a card: status, final state and DoneProcessing. */
  lemma RecoveryStageEnds(n: Net, w: World, done1: bool)
    ensures var (r, status, done) := RecoveryDone(n, w, done1);
            var b := w.build(n.built);
            if EfiError(b) then r == n.(built := n.built + 1) && status == b && done == done1
            else
              var (m, s, d) := StageDone(n.(built := n.built + 1), w, RecoveryStage, w.url);
              && done == (done1 || d)
              && status == (if s == NotFound then Success else s)
              && r.logicState == (if s in {Success, NotFound} then NoRecoveryAvailable
                                  else if s == MediaChanged then RecoveryComplete
                                  else m.logicState)
              && r == m.(logicState := r.logicState, log := Then(m.log, Merged(RecoveryStage, s)))
  {
    hide StageDone;
  }

  /** How the bootstrap stage ends a card or leads to the recovery stage. */
  lemma BootstrapStageEnds(n: Net, w: World)
    ensures var (r, status, done) := MainDone(n, w);
            var n0 := n.(logicState := PreBootstrap, built := n.built + 1);
            var b := w.build(n.built);
            if EfiError(b) then r == n0 && status == b && !done
            else
              var (m, s, d) := StageDone(n0, w, BootstrapStage, w.bootstrapUrl);
              var ended := m.(log := Then(m.log, Merged(BootstrapStage, s)));
              if s in {Success, NotFound} then
                (r, status, done) == RecoveryDone(ended.(logicState := PreRecovery), w, d)
              else
                && status == s && done == d
                && r == if s == MediaChanged then ended.(logicState := BootstrapComplete) else ended
  {
    hide StageDone, RecoveryDone;
  }

  /** A card whose handle fails or that has no medium is passed over: nothing is sent or written. */
  lemma CardPassedOver(n: Net, w: World, i: nat)
    requires i < |w.nics| && (EfiError(w.nics[i].handleStatus) || !w.nics[i].mediaPresent)
    ensures NicDone(n, w, i) ==
            (n.(log := Then(n.log, NicStarted(i))),
             if EfiError(w.nics[i].handleStatus) then w.nics[i].handleStatus else NoMedia, false)
  {
  }

  /** Without cards a run ends in NOT_FOUND; otherwise with what the last card it tried makes of it, which is
      one that was taken up or the last of all. */
  lemma LastCardDecides(n: Net, w: World) returns (m: Net, i: nat)
    ensures EfiError(w.locateStatus) || w.nics == [] ==> AllNicsDone(n, w) == (n, NotFound)
    ensures !EfiError(w.locateStatus) && w.nics != [] ==>
              && i < |w.nics| && (NicDone(m, w, i).2 || i == |w.nics| - 1)
              && AllNicsDone(n, w) == (NicDone(m, w, i).0, NicDone(m, w, i).1)
  {
    m, i := n, 0;
    if !EfiError(w.locateStatus) && w.nics != [] {
      m, i := LastCardFrom(n, w, 0, w.locateStatus);
    }
  }

  lemma {:induction false} LastCardFrom(n: Net, w: World, k: nat, status: EfiStatus) returns (m: Net, i: nat)
    requires k < |w.nics|
    ensures i < |w.nics| && (NicDone(m, w, i).2 || i == |w.nics| - 1)
    ensures NicsDone(n, w, k, false, status) == (NicDone(m, w, i).0, NicDone(m, w, i).1)
    decreases |w.nics| - k
  {
    hide NicDone;
    var (r, s, done) := NicDone(n, w, k);
    if done || k == |w.nics| - 1 {
      m, i := n, k;
      assert NicsDone(r, w, k + 1, done, s) == (r, s);
    } else {
      m, i := LastCardFrom(r, w, k + 1, s);
    }
  }
}
