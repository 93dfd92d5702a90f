/** What the result of a run says about the mailboxes: SUCCESS is shown to the user as "no updates are
    available", MEDIA_CHANGED as "updates have been accepted". */
module DfciOutcome {
  import opened Bytes
  import opened DfciHttp
  import opened DfciLogic
  import opened Wrappers

  /** The mailbox writes of a log. */
  function Writes(log: Log): nat {
    match log
    case Nothing => 0
    case Then(before, e) => Writes(before) + if e.Applied? then 1 else 0
  }

  /** The network never fails with MEDIA_CHANGED, which the client could not tell from a result; failing
      with NOT_FOUND is allowed. */
  ghost predicate PlainNetwork(w: World) {
    && PlausibleScript(w.script)
    && (forall i :: StatusOf(w.script.server(i)) != MediaChanged)
    && (forall i :: w.script.configure(i) != MediaChanged)
    && (forall i :: w.build(i) != MediaChanged)
    && (forall i :: 0 <= i < |w.nics| ==> w.nics[i].handleStatus != MediaChanged)
  }

  /** Nor do variable services and decoding. */
  ghost predicate PlainServices(w: World) {
    && (forall i :: w.setVariable(i) != MediaChanged)
    && (forall v :: w.decode(v) != DecodeFailed(MediaChanged))
  }

  // ---- when a write can go unnoticed: a condition on the services alone ----

  /** An element that gets as far as a variable being set. */
  predicate Storable(w: World, stage: Stage, e: Element) {
    e.field.Some? && e.value.Some? &&
    var i := Lookup(Table(stage), e.field.value, 0);
    && i < |Table(stage)| && Table(stage)[i].action.SetVariable?
    && match w.decode(e.value.value)
       case DecodedBytes(bytes) => w.signatureOf(bytes) == w.mailboxSignature(Table(stage)[i].action.mailbox)
       case _ => false
  }

  /** An element whose decoding fails with NOT_FOUND. */
  predicate Undecodable(w: World, stage: Stage, e: Element) {
    e.field.Some? && e.value.Some? &&
    var i := Lookup(Table(stage), e.field.value, 0);
    && i < |Table(stage)| && Table(stage)[i].decodeBase64
    && w.decode(e.value.value) == DecodeFailed(NotFound)
  }

  ghost predicate CanStore(w: World, stage: Stage) {
    exists e :: Storable(w, stage, e)
  }

  ghost predicate CanFailToDecode(w: World, stage: Stage) {
    exists e :: Undecodable(w, stage, e)
  }

  /** Calls from to from + k of SetVariable succeed. */
  predicate Succeed(w: World, from: nat, k: nat) {
    forall i :: from <= i < from + k ==> !EfiError(w.setVariable(i))
  }

  /** SetVariable succeeds at least once from call from on and then fails with NOT_FOUND. */
  ghost predicate FailsAfterSuccess(w: World, from: nat) {
    exists k: nat :: FailsAt(w, from, k)
  }

  predicate FailsAt(w: World, from: nat, k: nat) {
    k > 0 && Succeed(w, from, k) && w.setVariable(from + k) == NotFound
  }

  /** With SetVariable at call from, a response to the stage can write a mailbox and then meet a service
      that fails with NOT_FOUND. */
  ghost predicate CanHide(w: World, stage: Stage, from: nat) {
    && CanStore(w, stage) && !EfiError(w.setVariable(from))
    && (CanFailToDecode(w, stage) || FailsAfterSuccess(w, from))
  }

  /** The same for a whole run; a bootstrap response can use up one call that fails with NOT_FOUND. */
  ghost predicate RunCanHide(w: World, from: nat) {
    || CanHide(w, BootstrapStage, from)
    || CanHide(w, RecoveryStage, from)
    || (CanStore(w, BootstrapStage) && w.setVariable(from) == NotFound && CanHide(w, RecoveryStage, from + 1))
  }

  // ---- one response ----

  /** r is n with no mailbox written. */
  predicate Untouched(n: Net, r: Net) {
    r.mailboxes == n.mailboxes && Writes(r.log) == Writes(n.log)
  }

  /** One step from n to r with status s, in which SetVariable was called or not. */
  predicate Step(n: Net, w: World, r: Net, s: EfiStatus, called: bool) {
    && r.logicState == n.logicState && r.sent == n.sent && r.configured == n.configured && r.built == n.built
    && r.sets == n.sets + (if called then 1 else 0)
    && (s == MediaChanged <==> called && !EfiError(w.setVariable(n.sets)))
    && Writes(r.log) == Writes(n.log) + (if s == MediaChanged then 1 else 0)
    && (s != MediaChanged ==> r.mailboxes == n.mailboxes)
    && (called && EfiError(w.setVariable(n.sets)) ==> s == w.setVariable(n.sets))
  }

  lemma ActionTells(n: Net, w: World, stage: Stage, action: Action, value: seq<byte>)
    requires PlainServices(w)
    ensures var (r, s) := ActionDone(n, w, stage, action, value);
            var called := action.SetVariable? && w.signatureOf(value) == w.mailboxSignature(action.mailbox);
            Step(n, w, r, s, called) && (!called ==> s != NotFound)
  {
    assert w.setVariable(n.sets) != MediaChanged;
  }

  lemma ElementTells(n: Net, w: World, stage: Stage, e: Element)
    requires PlainServices(w)
    ensures var (r, s) := ElementDone(n, w, stage, e);
            && Step(n, w, r, s, Storable(w, stage, e))
            && (!Storable(w, stage, e) ==> (s == NotFound <==> Undecodable(w, stage, e)))
  {
    if e.field.Some? && e.value.Some? {
      var i := Lookup(Table(stage), e.field.value, 0);
      if i < |Table(stage)| {
        var action, value := Table(stage)[i].action, e.value.value;
        TableStaysAllowed(stage, i);
        if !Table(stage)[i].decodeBase64 {
          ActionTells(n, w, stage, action, value);
        } else if w.decode(value).DecodedBytes? {
          ActionTells(n, w, stage, action, w.decode(value).bytes);
        }
      }
    }
  }

  /** What an applied response says: SUCCESS that no element wrote a mailbox, MEDIA_CHANGED that one did,
      NOT_FOUND that a service failed with it after as many successful calls as there were writes. */
  predicate Tells(n: Net, w: World, r: Net, s: EfiStatus) {
    var k := Writes(r.log) - Writes(n.log);
    && k >= 0 && Succeed(w, n.sets, k)
    && (k == 0 ==> r.mailboxes == n.mailboxes)
    && (s == Success ==> k == 0)
    && (s == MediaChanged ==> k > 0)
  }

  lemma {:induction false} ElementsTell(n: Net, w: World, stage: Stage, es: seq<Element>)
    requires PlainServices(w)
    ensures var (r, s) := ElementsDone(n, w, stage, es);
            && Tells(n, w, r, s)
            && r.logicState == n.logicState && r.sent == n.sent && r.configured == n.configured && r.built == n.built
    decreases |es|
  {
    hide ElementDone, Storable, Undecodable;
    if es != [] {
      ElementTells(n, w, stage, es[0]);
      var (n1, s1) := ElementDone(n, w, stage, es[0]);
      if Continues(s1) {
        ElementsTell(n1, w, stage, es[1..]);
      }
    }
  }

  /** No call of SetVariable, or one that failed with NOT_FOUND. */
  ghost predicate SameCalls(n: Net, w: World, stage: Stage, r: Net) {
    || r.sets == n.sets
    || (r.sets == n.sets + 1 && w.setVariable(n.sets) == NotFound && CanStore(w, stage))
  }

  /** What NOT_FOUND comes from. */
  lemma {:induction false} ElementsNotFound(n: Net, w: World, stage: Stage, es: seq<Element>)
    requires PlainServices(w)
    ensures var (r, s) := ElementsDone(n, w, stage, es);
            var k := Writes(r.log) - Writes(n.log);
            k >= 0 && (s == NotFound ==> CanFailToDecode(w, stage) || w.setVariable(n.sets + k) == NotFound)
    decreases |es|
  {
    hide ElementDone, Storable, Undecodable;
    if es != [] {
      ElementTells(n, w, stage, es[0]);
      var (n1, s1) := ElementDone(n, w, stage, es[0]);
      if Continues(s1) {
        ElementsNotFound(n1, w, stage, es[1..]);
      } else if s1 == NotFound && !Storable(w, stage, es[0]) {
        assert Undecodable(w, stage, es[0]);
      }
    }
  }

  /** What a write comes from. */
  lemma {:induction false} ElementsWrite(n: Net, w: World, stage: Stage, es: seq<Element>)
    requires PlainServices(w)
    ensures Writes(ElementsDone(n, w, stage, es).0.log) != Writes(n.log) ==>
            CanStore(w, stage) && !EfiError(w.setVariable(n.sets))
    decreases |es|
  {
    hide ElementDone, Storable, Undecodable;
    if es != [] {
      ElementTells(n, w, stage, es[0]);
      var (n1, s1) := ElementDone(n, w, stage, es[0]);
      if Continues(s1) {
        ElementsWrite(n1, w, stage, es[1..]);
      }
    }
  }

  /** A response without a write uses up a call of SetVariable only if that call fails. */
  lemma {:induction false} ElementsCall(n: Net, w: World, stage: Stage, es: seq<Element>)
    requires PlainServices(w)
    ensures var (r, s) := ElementsDone(n, w, stage, es);
            NoUpdates(s) && Writes(r.log) == Writes(n.log) ==> SameCalls(n, w, stage, r)
    decreases |es|
  {
    hide ElementDone, Storable, Undecodable;
    if es != [] {
      ElementTells(n, w, stage, es[0]);
      var (n1, s1) := ElementDone(n, w, stage, es[0]);
      if Continues(s1) {
        ElementsTell(n1, w, stage, es[1..]);
        ElementsCall(n1, w, stage, es[1..]);
      }
    }
  }

  /** A response that is taken to have changed nothing has changed nothing, unless the services can hide
      a write. */
  lemma NothingHidden(n: Net, w: World, stage: Stage, es: seq<Element>)
    requires PlainServices(w)
    ensures var (r, s) := ElementsDone(n, w, stage, es);
            NoUpdates(s) ==> Untouched(n, r) || CanHide(w, stage, n.sets)
  {
    hide ElementsDone;
    ElementsTell(n, w, stage, es);
    ElementsNotFound(n, w, stage, es);
    ElementsWrite(n, w, stage, es);
    var (r, s) := ElementsDone(n, w, stage, es);
    var k := Writes(r.log) - Writes(n.log);
    if s == NotFound && k > 0 && !CanFailToDecode(w, stage) {
      assert FailsAt(w, n.sets, k);
    }
  }

  // ---- and it can be hidden ----

  function Copies(e: Element, k: nat): (es: seq<Element>)
    ensures |es| == k
  {
    if k == 0 then [] else [e] + Copies(e, k - 1)
  }

  lemma {:induction false} CopiesWrite(n: Net, w: World, stage: Stage, e: Element, k: nat, last: Element)
    requires PlainServices(w) && Storable(w, stage, e) && Succeed(w, n.sets, k)
    requires if Storable(w, stage, last) then w.setVariable(n.sets + k) == NotFound else Undecodable(w, stage, last)
    ensures var (r, s) := ElementsDone(n, w, stage, Copies(e, k) + [last]);
            s == NotFound && Writes(r.log) == Writes(n.log) + k
    decreases k
  {
    hide ElementDone, Storable, Undecodable;
    var es := Copies(e, k) + [last];
    if k == 0 {
      assert es == [last];
      ElementTells(n, w, stage, last);
    } else {
      assert es[0] == e && es[1..] == Copies(e, k - 1) + [last];
      ElementTells(n, w, stage, e);
      var (n1, s1) := ElementDone(n, w, stage, e);
      CopiesWrite(n1, w, stage, e, k - 1, last);
    }
  }

  /** A response that hides a write, from whatever state SetVariable is at that call. */
  ghost predicate Hides(w: World, stage: Stage, from: nat, es: seq<Element>) {
    forall n: Net :: n.sets == from ==>
      var (r, s) := ElementsDone(n, w, stage, es);
      s == NotFound && Writes(r.log) > Writes(n.log)
  }

  lemma HidingResponse(w: World, stage: Stage, from: nat) returns (es: seq<Element>)
    requires PlainServices(w) && CanHide(w, stage, from)
    ensures es != [] && Hides(w, stage, from, es)
  {
    hide ElementsDone;
    var e :| Storable(w, stage, e);
    var last := e;
    var k: nat := 1;
    if CanFailToDecode(w, stage) {
      last :| Undecodable(w, stage, last);
    } else {
      k :| FailsAt(w, from, k);
    }
    es := Copies(e, k) + [last];
    forall n: Net | n.sets == from
      ensures var (r, s) := ElementsDone(n, w, stage, es);
              s == NotFound && Writes(r.log) > Writes(n.log)
    {
      CopiesWrite(n, w, stage, e, k, last);
    }
  }

  /** Whatever the response, NOT_FOUND and SUCCESS mean that no mailbox was written. */
  ghost predicate Truthful(n: Net, w: World, stage: Stage) {
    forall es :: NoUpdates(ElementsDone(n, w, stage, es).1) ==> Untouched(n, ElementsDone(n, w, stage, es).0)
  }

  /** For given services every response is reported truthfully if and only if they cannot fail with
      NOT_FOUND after a write. */
  lemma TruthfulIff(n: Net, w: World, stage: Stage)
    requires PlainServices(w)
    ensures Truthful(n, w, stage) <==> !CanHide(w, stage, n.sets)
  {
    if CanHide(w, stage, n.sets) {
      var es := HidingResponse(w, stage, n.sets);
      assert !Untouched(n, ElementsDone(n, w, stage, es).0);
    } else {
      forall es | NoUpdates(ElementsDone(n, w, stage, es).1)
        ensures Untouched(n, ElementsDone(n, w, stage, es).0)
      {
        NothingHidden(n, w, stage, es);
      }
    }
  }

  // ---- requests and stages ----

  lemma {:induction false} LoggedWrites(log: Log, script: Script, q: Request, from: nat, last: nat)
    requires from <= last
    ensures Writes(Logged(log, script, q, from, last)) == Writes(log)
    decreases last - from
  {
    if from < last {
      LoggedWrites(Then(log, Attempt(q, from, script.server(from))), script, q, from + 1, last);
    }
  }

  lemma RequestUntouched(n: Net, w: World, q: Request, retryOn202: bool)
    requires PlainNetwork(w)
    ensures var (r, s) := WithRetries(n, w, q, retryOn202);
            Untouched(n, r) && s != MediaChanged && r.logicState == n.logicState && r.sets == n.sets
  {
    if !EfiError(w.script.configure(n.configured)) {
      var last := LastAttempt(w.script, n.sent, retryOn202, 6);
      RequestIs(n, w, q, retryOn202);
      LoggedWrites(n.log, w.script, q, n.sent, last);
      assert StatusOf(w.script.server(last)) != MediaChanged;
    }
  }

  lemma AsyncUntouched(n: Net, w: World, stage: Stage, url: Url)
    requires PlainNetwork(w)
    ensures var (r, s, done) := AsyncDone(n, w, stage, url);
            && Untouched(n, r) && s != MediaChanged && (!done ==> EfiError(s))
            && r.logicState == n.logicState && r.sets == n.sets
  {
    RequestUntouched(n, w, Request(stage, Post, url), false);
    var (n1, s1) := WithRetries(n, w, Request(stage, Post, url), false);
    if !EfiError(s1) && n1.httpStatus == HTTP_STATUS_202_ACCEPTED {
      var location := if n1.headers.Some? then n1.headers.value.location else None;
      if location.Some? {
        RequestUntouched(n1, w, Request(stage, Get, location.value), true);
      }
    }
  }

  /** What status s and DoneProcessing say about the way from n to r; hidden says that the services can
      hide a write. */
  predicate Reports(n: Net, r: Net, s: EfiStatus, done: bool, hidden: bool) {
    && Writes(n.log) <= Writes(r.log)
    && (NoUpdates(s) ==> Untouched(n, r) || hidden)
    && (s == MediaChanged ==> Writes(n.log) < Writes(r.log))
    && (!done ==> Untouched(n, r) && r.sets == n.sets)
  }

  function Processing(stage: Stage): LogicState {
    if stage.BootstrapStage? then Bootstrap else Recovery
  }

  lemma UpdatedTells(n: Net, w: World, stage: Stage)
    requires PlainServices(w) && n.body.Some?
    ensures var (r, s) := Updated(n, w, stage);
            && Reports(n, r, s, true, CanHide(w, stage, n.sets)) && r.logicState == n.logicState
            && (NoUpdates(s) && Untouched(n, r) ==> SameCalls(n, w, stage, r))
  {
    match w.parse(n.body.value.bytes)
    case None =>
    case Some(es) =>
      ElementsTell(n, w, stage, es);
      NothingHidden(n, w, stage, es);
      ElementsCall(n, w, stage, es);
  }

  lemma StageTells(n: Net, w: World, stage: Stage, url: Url)
    requires PlainNetwork(w) && PlainServices(w)
    ensures var (r, s, done) := StageDone(n, w, stage, url);
            && Reports(n, r, s, done, CanHide(w, stage, n.sets))
            && (r.logicState == n.logicState || r.logicState == Processing(stage))
            && (NoUpdates(s) && Untouched(n, r) ==> SameCalls(n, w, stage, r))
  {
    AsyncUntouched(n, w, stage, url);
    var (n1, s1, done) := AsyncDone(n, w, stage, url);
    if !EfiError(s1) && n1.body.Some? {
      UpdatedTells(n1.(logicState := Processing(stage)), w, stage);
    }
  }

  // ---- a card, and a run ----

  /** The final state that goes with a status. */
  predicate StateTells(state: LogicState, s: EfiStatus) {
    && (s == Success ==> state == NoRecoveryAvailable)
    && (s == MediaChanged ==> state == BootstrapComplete || state == RecoveryComplete)
  }

  lemma RecoveryEndTells(n: Net, n1: Net, s1: EfiStatus, done2: bool, hidden: bool)
    requires Reports(n, n1, s1, done2, hidden)
    ensures var r, s := RecoveryEnded(n1, s1), if NoUpdates(s1) then Success else s1;
            Reports(n, r, s, done2, hidden) && StateTells(r.logicState, s)
  {
  }

  lemma RecoveryTells(n: Net, w: World, done1: bool)
    requires PlainNetwork(w) && PlainServices(w)
    ensures var (r, s, done) := RecoveryDone(n, w, done1);
            Reports(n, r, s, done, CanHide(w, RecoveryStage, n.sets)) && StateTells(r.logicState, s)
  {
    hide StageDone, CanHide;
    var n0 := n.(built := n.built + 1);
    if EfiError(w.build(n.built)) {
      assert w.build(n.built) != MediaChanged;
    } else {
      StageTells(n0, w, RecoveryStage, w.url);
      var (n1, s1, done2) := StageDone(n0, w, RecoveryStage, w.url);
      RecoveryEndTells(n, n1, s1, done2, CanHide(w, RecoveryStage, n.sets));
    }
  }

  lemma StagesTell(n: Net, w: World, m: Net, s1: EfiStatus, done1: bool, r: Net, s: EfiStatus, done: bool)
    requires Reports(n, m, s1, done1, CanHide(w, BootstrapStage, n.sets)) && NoUpdates(s1)
    requires Untouched(n, m) ==> SameCalls(n, w, BootstrapStage, m)
    requires Reports(m, r, s, done, CanHide(w, RecoveryStage, m.sets)) && (done1 ==> done)
    ensures Reports(n, r, s, done, RunCanHide(w, n.sets))
  {
  }

  lemma MainTells(n: Net, w: World)
    requires PlainNetwork(w) && PlainServices(w)
    ensures var (r, s, done) := MainDone(n, w);
            Reports(n, r, s, done, RunCanHide(w, n.sets)) && StateTells(r.logicState, s)
  {
    hide StageDone, RunCanHide, CanHide;
    var n0 := n.(logicState := PreBootstrap, built := n.built + 1);
    if EfiError(w.build(n.built)) {
      assert w.build(n.built) != MediaChanged;
    } else {
      StageTells(n0, w, BootstrapStage, w.bootstrapUrl);
      var (n1, s1, done1) := StageDone(n0, w, BootstrapStage, w.bootstrapUrl);
      var m1 := BootstrapEnded(n1, s1);
      if NoUpdates(s1) {
        RecoveryTells(m1, w, done1);
        var (r, s, done) := RecoveryDone(m1, w, done1);
        StagesTell(n0, w, m1, s1, done1, r, s, done);
        assert MainDone(n, w) == (r, s, done);
      } else {
        assert MainDone(n, w) == (m1, s1, done1);
      }
    }
  }

  lemma NicTells(n: Net, w: World, i: nat)
    requires PlainNetwork(w) && PlainServices(w) && i < |w.nics|
    ensures var (r, s, done) := NicDone(n, w, i);
            Reports(n, r, s, done, RunCanHide(w, n.sets)) && StateTells(r.logicState, s)
  {
    hide MainDone, RunCanHide;
    var n1 := n.(log := Then(n.log, NicStarted(i)));
    if !EfiError(w.nics[i].handleStatus) && w.nics[i].mediaPresent {
      MainTells(n1, w);
    }
  }

  lemma {:induction false} NicsTell(n: Net, w: World, i: nat, status: EfiStatus)
    requires PlainNetwork(w) && PlainServices(w) && i < |w.nics|
    ensures var (r, s) := NicsDone(n, w, i, false, status);
            Reports(n, r, s, true, RunCanHide(w, n.sets)) && StateTells(r.logicState, s)
    decreases |w.nics| - i
  {
    hide NicDone, RunCanHide;
    NicTells(n, w, i);
    var (n1, s1, done) := NicDone(n, w, i);
    if !done && i + 1 < |w.nics| {
      NicsTell(n1, w, i + 1, s1);
    }
  }

  /** A whole run, for every server and card: if it reports SUCCESS it has found no recovery available,
      and has changed no mailbox unless the services can hide a write; if it reports MEDIA_CHANGED it has
      written at least one, and a stage is complete. */
  lemma RunTells(n: Net, w: World)
    requires PlainNetwork(w) && PlainServices(w)
    ensures var (r, s) := AllNicsDone(n, w);
            && (s == Success ==>
                  r.logicState == NoRecoveryAvailable && (Untouched(n, r) || RunCanHide(w, n.sets)))
            && (s == MediaChanged ==>
                  Writes(r.log) > Writes(n.log) && r.logicState in {BootstrapComplete, RecoveryComplete})
  {
    if !EfiError(w.locateStatus) && w.nics != [] {
      NicsTell(n, w, 0, w.locateStatus);
    }
  }
}
