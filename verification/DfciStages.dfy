/** Which stage a run writes in and where its requests go. */
module DfciStages {
  import opened DfciHttp
  import opened DfciLogic
  import opened DfciOutcome
  import opened Wrappers

  /** The mailbox writes of a stage. */
  function StageWrites(log: Log, stage: Stage): nat {
    match log
    case Nothing => 0
    case Then(before, e) => StageWrites(before, stage) + if e.Applied? && e.stage == stage then 1 else 0
  }

  /** The bootstrap request goes to the bootstrap URL, the recovery request to the other one. */
  predicate Addressed(log: Log, w: World) {
    match log
    case Nothing => true
    case Then(before, e) =>
      && Addressed(before, w)
      && (e.Exchanged? && e.request.verb.Post? ==>
            e.request.url == if e.request.stage.BootstrapStage? then w.bootstrapUrl else w.url)
  }

  function UrlOf(w: World, stage: Stage): Url {
    if stage.BootstrapStage? then w.bootstrapUrl else w.url
  }

  predicate MayGoTo(w: World, q: Request) {
    q.verb.Post? ==> q.url == UrlOf(w, q.stage)
  }

  /** From n to r nothing is written. */
  predicate Kept(n: Net, r: Net, w: World) {
    && (Addressed(n.log, w) ==> Addressed(r.log, w))
    && StageWrites(r.log, BootstrapStage) == StageWrites(n.log, BootstrapStage)
    && StageWrites(r.log, RecoveryStage) == StageWrites(n.log, RecoveryStage)
    && Writes(r.log) == Writes(n.log)
  }

  /** From n to r writes are the stage's. */
  predicate WrittenIn(n: Net, r: Net, w: World, stage: Stage) {
    && (Addressed(n.log, w) ==> Addressed(r.log, w))
    && StageWrites(r.log, stage) - StageWrites(n.log, stage) == Writes(r.log) - Writes(n.log) >= 0
    && forall other: Stage :: other != stage ==> StageWrites(r.log, other) == StageWrites(n.log, other)
  }

  /** From n to r no stage loses a write. */
  predicate Grown(n: Net, r: Net, w: World) {
    && (Addressed(n.log, w) ==> Addressed(r.log, w))
    && forall stage: Stage :: StageWrites(r.log, stage) >= StageWrites(n.log, stage)
  }

  lemma {:induction false} LoggedKept(log: Log, w: World, q: Request, from: nat, last: nat)
    requires from <= last && MayGoTo(w, q)
    ensures var r := Logged(log, w.script, q, from, last);
            && (Addressed(log, w) ==> Addressed(r, w))
            && StageWrites(r, BootstrapStage) == StageWrites(log, BootstrapStage)
            && StageWrites(r, RecoveryStage) == StageWrites(log, RecoveryStage) && Writes(r) == Writes(log)
    decreases last - from
  {
    if from < last {
      LoggedKept(Then(log, Attempt(q, from, w.script.server(from))), w, q, from + 1, last);
    }
  }

  lemma RequestKept(n: Net, w: World, q: Request, retryOn202: bool)
    requires MayGoTo(w, q)
    ensures Kept(n, WithRetries(n, w, q, retryOn202).0, w)
  {
    if !EfiError(w.script.configure(n.configured)) {
      RequestIs(n, w, q, retryOn202);
      LoggedKept(n.log, w, q, n.sent, LastAttempt(w.script, n.sent, retryOn202, 6));
    }
  }

  lemma AsyncKept(n: Net, w: World, stage: Stage)
    ensures Kept(n, AsyncDone(n, w, stage, UrlOf(w, stage)).0, w)
  {
    hide WithRetries, Addressed;
    var q := Request(stage, Post, UrlOf(w, stage));
    RequestKept(n, w, q, false);
    var (n1, s1) := WithRetries(n, w, q, false);
    if !EfiError(s1) && n1.httpStatus == HTTP_STATUS_202_ACCEPTED {
      var location := if n1.headers.Some? then n1.headers.value.location else None;
      if location.Some? {
        RequestKept(n1, w, Request(stage, Get, location.value), true);
      }
    }
  }

  lemma {:induction false} ElementsWritten(n: Net, w: World, stage: Stage, es: seq<Element>)
    ensures WrittenIn(n, ElementsDone(n, w, stage, es).0, w, stage)
    decreases |es|
  {
    hide ElementDone;
    if es != [] {
      ElementKeeps(n, w, stage, es[0]);
      var (n1, s1) := ElementDone(n, w, stage, es[0]);
      if Continues(s1) {
        ElementsWritten(n1, w, stage, es[1..]);
      }
    }
  }

  lemma StageWritten(n: Net, w: World, stage: Stage)
    ensures WrittenIn(n, StageDone(n, w, stage, UrlOf(w, stage)).0, w, stage)
  {
    hide AsyncDone, ElementsDone;
    AsyncKept(n, w, stage);
    var (n1, s1, done) := AsyncDone(n, w, stage, UrlOf(w, stage));
    if !EfiError(s1) && n1.body.Some? {
      var n2 := n1.(logicState := Processing(stage));
      match w.parse(n2.body.value.bytes)
      case None =>
      case Some(es) => ElementsWritten(n2, w, stage, es);
    }
  }

  // ---- a card, and a run ----

  lemma RecoveryGrown(n: Net, w: World, done1: bool)
    ensures Grown(n, RecoveryDone(n, w, done1).0, w)
  {
    hide StageDone;
    if !EfiError(w.build(n.built)) {
      StageWritten(n.(built := n.built + 1), w, RecoveryStage);
    }
  }

  lemma MainGrown(n: Net, w: World)
    ensures Grown(n, MainDone(n, w).0, w)
  {
    hide StageDone, RecoveryDone;
    var n0 := n.(logicState := PreBootstrap, built := n.built + 1);
    if !EfiError(w.build(n.built)) {
      StageWritten(n0, w, BootstrapStage);
      var (n1, s1, done1) := StageDone(n0, w, BootstrapStage, w.bootstrapUrl);
      if NoUpdates(s1) {
        RecoveryGrown(BootstrapEnded(n1, s1), w, done1);
      }
    }
  }

  lemma NicGrown(n: Net, w: World, i: nat)
    requires i < |w.nics|
    ensures Grown(n, NicDone(n, w, i).0, w)
  {
    hide MainDone;
    if !EfiError(w.nics[i].handleStatus) && w.nics[i].mediaPresent {
      MainGrown(n.(log := Then(n.log, NicStarted(i))), w);
    }
  }

  lemma {:induction false} NicsGrown(n: Net, w: World, i: nat, done: bool, status: EfiStatus)
    requires i <= |w.nics|
    ensures Grown(n, NicsDone(n, w, i, done, status).0, w)
    decreases |w.nics| - i
  {
    hide NicDone;
    if i < |w.nics| && !done {
      NicGrown(n, w, i);
      var (n1, s, d) := NicDone(n, w, i);
      NicsGrown(n1, w, i + 1, d, s);
    }
  }

  /** Every POST of a run goes to its stage's URL. */
  lemma RunAddressed(n: Net, w: World)
    requires n.log == Nothing
    ensures Addressed(AllNicsDone(n, w).0.log, w)
  {
    hide NicsDone;
    if !EfiError(w.locateStatus) && w.nics != [] {
      NicsGrown(n, w, 0, false, w.locateStatus);
    }
  }

  // ---- accepted updates ----

  /** MEDIA_CHANGED and the final state name a stage that has written. */
  predicate Announces(n: Net, r: Net, s: EfiStatus) {
    s == MediaChanged ==>
      || (r.logicState == BootstrapComplete && StageWrites(r.log, BootstrapStage) > StageWrites(n.log, BootstrapStage))
      || (r.logicState == RecoveryComplete && StageWrites(r.log, RecoveryStage) > StageWrites(n.log, RecoveryStage))
  }

  lemma RecoveryAnnounces(n: Net, w: World, done1: bool)
    requires PlainNetwork(w) && PlainServices(w)
    ensures var (r, s, _) := RecoveryDone(n, w, done1);
            Announces(n, r, s)
  {
    hide StageDone, CanHide;
    var n0 := n.(built := n.built + 1);
    if EfiError(w.build(n.built)) {
      assert w.build(n.built) != MediaChanged;
    } else {
      StageTells(n0, w, RecoveryStage, w.url);
      StageWritten(n0, w, RecoveryStage);
    }
  }

  lemma MainAnnounces(n: Net, w: World)
    requires PlainNetwork(w) && PlainServices(w)
    ensures var (r, s, _) := MainDone(n, w);
            Announces(n, r, s)
  {
    hide StageDone, RecoveryDone, CanHide, SameCalls;
    var n0 := n.(logicState := PreBootstrap, built := n.built + 1);
    if EfiError(w.build(n.built)) {
      assert w.build(n.built) != MediaChanged;
    } else {
      StageTells(n0, w, BootstrapStage, w.bootstrapUrl);
      StageWritten(n0, w, BootstrapStage);
      var (n1, s1, done1) := StageDone(n0, w, BootstrapStage, w.bootstrapUrl);
      if NoUpdates(s1) {
        RecoveryAnnounces(BootstrapEnded(n1, s1), w, done1);
      }
    }
  }

  lemma NicAnnounces(n: Net, w: World, i: nat)
    requires PlainNetwork(w) && PlainServices(w) && i < |w.nics|
    ensures var (r, s, _) := NicDone(n, w, i);
            Announces(n, r, s)
  {
    hide MainDone;
    if !EfiError(w.nics[i].handleStatus) && w.nics[i].mediaPresent {
      MainAnnounces(n.(log := Then(n.log, NicStarted(i))), w);
    }
  }

  lemma {:induction false} NicsAnnounce(n: Net, w: World, i: nat, status: EfiStatus)
    requires PlainNetwork(w) && PlainServices(w) && i < |w.nics|
    ensures var (r, s) := NicsDone(n, w, i, false, status);
            Announces(n, r, s)
    decreases |w.nics| - i
  {
    hide NicDone;
    NicAnnounces(n, w, i);
    NicGrown(n, w, i);
    var (n1, s1, done) := NicDone(n, w, i);
    if !done && i + 1 < |w.nics| {
      NicsAnnounce(n1, w, i + 1, s1);
    }
  }

  /** A whole run that reports MEDIA_CHANGED ends in the state of the stage that wrote. */
  lemma RunAnnounces(n: Net, w: World)
    requires PlainNetwork(w) && PlainServices(w)
    ensures var (r, s) := AllNicsDone(n, w);
            Announces(n, r, s)
  {
    hide NicsDone;
    if !EfiError(w.locateStatus) && w.nics != [] {
      NicsAnnounce(n, w, 0, w.locateStatus);
    }
  }
}
