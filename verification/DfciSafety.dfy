/** Safety of the recovery protocol over every server and every set of network cards. */
module DfciSafety {
  import opened DfciHttp
  import opened DfciLogic
  import opened Wrappers

  // ---- a watcher that sees the cards, the network and the mailboxes, and nothing of the client ----

  datatype Watch = Watch(
    tried: nat,               // network cards started so far
    running: bool,            // a stage may go on
    accepted: bool,           // a POST was answered 202 in full
    stage: Stage,
    offered: bool,            // and so was one of this stage
    location: Option<Url>,    // where that answer pointed
    delivered: bool,          // the last GET of this stage was answered 200
    mayRecover: bool)         // the bootstrap stage ended in SUCCESS or NOT_FOUND

  const START := Watch(0, false, false, BootstrapStage, false, None, false, false)

  predicate Is202(ok: bool, code: nat) {
    ok && code == HTTP_STATUS_202_ACCEPTED
  }

  /** The rules. None is a violation. */
  function Rule(m: Watch, e: Event): Option<Watch> {
    match e
    case NicStarted(i) =>
      // cards are tried in order, and none after a POST that was answered 202 in full
      if m.accepted || i != m.tried then None else Some(START.(tried := i + 1, running := true))
    case Exchanged(_, Request(stage, Post, _), ok, code, location) =>
      // a recovery POST needs a bootstrap stage that ended well; nothing is posted after a 202
      if !m.running || stage != m.stage || m.offered || (stage.RecoveryStage? && !m.mayRecover) then None
      else if Is202(ok, code) then Some(m.(accepted := true, offered := true, location := location))
      else Some(m)
    case Exchanged(_, Request(stage, Get, url), ok, code, _) =>
      // a GET goes where the 202 of this stage pointed, and not again after a 200
      if stage != m.stage || !m.offered || m.location != Some(url) || m.delivered then None
      else Some(m.(delivered := ok && code == HTTP_STATUS_200_OK))
    case Applied(stage, mailbox, source) =>
      // a mailbox is written only after 202 and then 200 on this card in this stage, from a body
      if stage != m.stage || !m.delivered || mailbox !in Allowed(stage) || source.None? then None else Some(m)
    case Merged(stage, status) =>
      if stage != m.stage then None
      else if stage.RecoveryStage? then Some(m.(running := false))
      else
        Some(m.(stage := RecoveryStage, offered := false, location := None, delivered := false,
                mayRecover := NoUpdates(status)))
  }

  function Watched(log: Log): Option<Watch> {
    match log
    case Nothing => Some(START)
    case Then(before, e) =>
      match Watched(before)
      case None => None
      case Some(m) => Rule(m, e)
  }

  // ---- requests ----

  predicate MayPost(m: Watch, stage: Stage) {
    m.running && m.stage == stage && !m.offered && (stage.RecoveryStage? ==> m.mayRecover)
  }

  predicate MayGet(m: Watch, q: Request) {
    m.stage == q.stage && m.offered && m.location == Some(q.url) && !m.delivered
  }

  predicate Answers(x: Exchange, code: nat) {
    !EfiError(StatusOf(x)) && CodeOf(x) == code
  }

  /** The watcher after a POST whose last exchange was x. */
  function PostSeen(m: Watch, x: Exchange): Watch {
    if Answers(x, HTTP_STATUS_202_ACCEPTED) then m.(accepted := true, offered := true, location := LocationOf(x))
    else m
  }

  lemma {:induction false} PostsAllowed(log: Log, script: Script, q: Request, from: nat, last: nat, m: Watch)
    requires from <= last && q.verb.Post?
    requires Watched(log) == Some(m) && MayPost(m, q.stage)
    requires AllRepeat(script, from, last, false)
    ensures Watched(Logged(log, script, q, from, last)) == Some(PostSeen(m, script.server(last)))
    decreases last - from
  {
    var x := script.server(from);
    assert Rule(m, Attempt(q, from, x)) == Some(PostSeen(m, x));
    if from < last {
      assert Repeats(x, false);
      PostsAllowed(Then(log, Attempt(q, from, x)), script, q, from + 1, last, m);
    }
  }

  lemma {:induction false} GetsAllowed(log: Log, script: Script, q: Request, from: nat, last: nat, m: Watch)
    requires from <= last && q.verb.Get?
    requires Watched(log) == Some(m) && MayGet(m, q)
    requires AllRepeat(script, from, last, true)
    ensures Watched(Logged(log, script, q, from, last)) ==
            Some(m.(delivered := Answers(script.server(last), HTTP_STATUS_200_OK)))
    decreases last - from
  {
    var x := script.server(from);
    var after := m.(delivered := Answers(x, HTTP_STATUS_200_OK));
    assert Rule(m, Attempt(q, from, x)) == Some(after);
    if from < last {
      assert Repeats(x, true);
      GetsAllowed(Then(log, Attempt(q, from, x)), script, q, from + 1, last, after);
    }
  }

  /** What the watcher makes of a POST is what the client makes of it: it is offered an answer exactly
      when the client finds 202, at the place the client finds. */
  lemma PostRequestAllowed(n: Net, w: World, q: Request, m: Watch)
    requires q.verb.Post? && Watched(n.log) == Some(m) && MayPost(m, q.stage)
    ensures var (r, s) := WithRetries(n, w, q, false);
            match Watched(r.log)
            case None => false
            case Some(after) =>
              if !EfiError(s) && r.httpStatus == HTTP_STATUS_202_ACCEPTED then
                && r.headers.Some?
                && after == m.(accepted := true, offered := true, location := r.headers.value.location)
              else after == m
  {
    if !EfiError(w.script.configure(n.configured)) {
      RequestIs(n, w, q, false);
      AttemptsStop(w.script, n.sent, false, 6);
      PostsAllowed(n.log, w.script, q, n.sent, LastAttempt(w.script, n.sent, false, 6), m);
    }
  }

  lemma GetRequestAllowed(n: Net, w: World, q: Request, m: Watch)
    requires q.verb.Get? && Watched(n.log) == Some(m) && MayGet(m, q)
    ensures var (r, s) := WithRetries(n, w, q, true);
            match Watched(r.log)
            case None => false
            case Some(after) =>
              && m.(delivered := after.delivered) == after
              && (!EfiError(s) ==> after.delivered == (r.httpStatus == HTTP_STATUS_200_OK))
  {
    if !EfiError(w.script.configure(n.configured)) {
      RequestIs(n, w, q, true);
      AttemptsStop(w.script, n.sent, true, 6);
      GetsAllowed(n.log, w.script, q, n.sent, LastAttempt(w.script, n.sent, true, 6), m);
    }
  }

  /** What stays the same for the watcher during a stage, except that a POST may be accepted. */
  predicate StageSeen(m: Watch, after: Watch, accepted: bool) {
    && after.tried == m.tried && after.running && after.mayRecover == m.mayRecover
    && after.accepted == (m.accepted || accepted)
  }

  /** A stage's request keeps the rules. It sets DoneProcessing exactly when the network answers one of
      its POSTs 202 and that exchange ends without an error, and succeeds only once the watcher has seen
      the 200. */
  lemma AsyncAllowed(n: Net, w: World, stage: Stage, url: Url, m: Watch)
    requires Watched(n.log) == Some(m) && MayPost(m, stage) && !m.delivered
    ensures var (r, s, done) := AsyncDone(n, w, stage, url);
            match Watched(r.log)
            case None => false
            case Some(after) =>
              && StageSeen(m, after, done) && after.stage == stage && after.offered == done
              && (!EfiError(s) ==> after.delivered && r.body.Some?)
  {
    var q := Request(stage, Post, url);
    var (n1, s1) := WithRetries(n, w, q, false);
    PostRequestAllowed(n, w, q, m);
    if !EfiError(s1) && n1.httpStatus == HTTP_STATUS_202_ACCEPTED {
      var location := n1.headers.value.location;
      if location.Some? {
        GetRequestAllowed(n1, w, Request(stage, Get, location.value), Watched(n1.log).value);
      }
    }
  }

  // ---- applying a response ----

  lemma ElementAllowed(n: Net, w: World, stage: Stage, e: Element, m: Watch)
    requires Watched(n.log) == Some(m) && m.stage == stage && m.delivered && n.body.Some?
    ensures Watched(ElementDone(n, w, stage, e).0.log) == Some(m)
    ensures ElementDone(n, w, stage, e).0.body == n.body
  {
    if e.field.Some? && e.value.Some? {
      var i := Lookup(Table(stage), e.field.value, 0);
      if i < |Table(stage)| {
        TableStaysAllowed(stage, i);
      }
    }
  }

  /** Applying a response keeps the rules, whatever its elements. */
  lemma {:induction false} ElementsAllowed(n: Net, w: World, stage: Stage, es: seq<Element>, m: Watch)
    requires Watched(n.log) == Some(m) && m.stage == stage && m.delivered && n.body.Some?
    ensures Watched(ElementsDone(n, w, stage, es).0.log) == Some(m)
    decreases |es|
  {
    hide ElementDone;
    if es != [] {
      ElementAllowed(n, w, stage, es[0], m);
      var (n1, s1) := ElementDone(n, w, stage, es[0]);
      if Continues(s1) {
        ElementsAllowed(n1, w, stage, es[1..], m);
      }
    }
  }

  lemma StageAllowed(n: Net, w: World, stage: Stage, url: Url, m: Watch)
    requires Watched(n.log) == Some(m) && MayPost(m, stage) && !m.delivered
    ensures var (r, s, done) := StageDone(n, w, stage, url);
            match Watched(r.log)
            case None => false
            case Some(after) => StageSeen(m, after, done) && after.stage == stage
  {
    AsyncAllowed(n, w, stage, url, m);
    var (n1, s1, done) := AsyncDone(n, w, stage, url);
    if !EfiError(s1) {
      var n2 := n1.(logicState := if stage.BootstrapStage? then Bootstrap else Recovery);
      match w.parse(n2.body.value.bytes)
      case None =>
      case Some(es) => ElementsAllowed(n2, w, stage, es, Watched(n1.log).value);
    }
  }

  lemma RecoveryAllowed(n: Net, w: World, done1: bool, m: Watch)
    requires Watched(n.log) == Some(m) && MayPost(m, RecoveryStage) && !m.delivered && m.accepted == done1
    ensures var (r, s, done) := RecoveryDone(n, w, done1);
            match Watched(r.log)
            case None => false
            case Some(after) => after.accepted == done && after.tried == m.tried
  {
    hide StageDone;
    if !EfiError(w.build(n.built)) {
      StageAllowed(n.(built := n.built + 1), w, RecoveryStage, w.url, m);
    }
  }

  lemma MainAllowed(n: Net, w: World, tried: nat)
    requires Watched(n.log) == Some(START.(tried := tried, running := true))
    ensures var (r, s, done) := MainDone(n, w);
            match Watched(r.log)
            case None => false
            case Some(after) => after.accepted == done && after.tried == tried
  {
    hide StageDone, RecoveryDone;
    var n0 := n.(logicState := PreBootstrap, built := n.built + 1);
    if !EfiError(w.build(n.built)) {
      StageAllowed(n0, w, BootstrapStage, w.bootstrapUrl, START.(tried := tried, running := true));
      var (n1, s1, done1) := StageDone(n0, w, BootstrapStage, w.bootstrapUrl);
      var m1 := BootstrapEnded(n1, s1);
      if NoUpdates(s1) {
        RecoveryAllowed(m1, w, done1, Watched(m1.log).value);
      }
    }
  }

  lemma NicAllowed(n: Net, w: World, i: nat)
    requires i < |w.nics|
    requires Watched(n.log).Some? && !Watched(n.log).value.accepted && Watched(n.log).value.tried == i
    ensures var (r, s, done) := NicDone(n, w, i);
            match Watched(r.log)
            case None => false
            case Some(after) => after.accepted == done && after.tried == i + 1
  {
    hide MainDone;
    var n1 := n.(log := Then(n.log, NicStarted(i)));
    if !EfiError(w.nics[i].handleStatus) && w.nics[i].mediaPresent {
      MainAllowed(n1, w, i + 1);
    }
  }

  /** The cards are tried up to one whose POST was answered 202 in full, or to the last. */
  lemma {:induction false} NicsAllowed(n: Net, w: World, i: nat, done: bool, status: EfiStatus)
    requires i <= |w.nics| && Watched(n.log).Some?
    requires Watched(n.log).value.accepted == done && Watched(n.log).value.tried == i
    ensures match Watched(NicsDone(n, w, i, done, status).0.log)
            case None => false
            case Some(after) => i <= after.tried <= |w.nics| && (after.accepted || after.tried == |w.nics|)
    ensures !done && i < |w.nics| ==> i < Watched(NicsDone(n, w, i, done, status).0.log).value.tried
    decreases |w.nics| - i
  {
    hide NicDone;
    if i < |w.nics| && !done {
      NicAllowed(n, w, i);
      var (n1, s, d) := NicDone(n, w, i);
      NicsAllowed(n1, w, i + 1, d, s);
    }
  }

  // ---- what the rules amount to ----

  predicate Happened(log: Log, e: Event) {
    match log
    case Nothing => false
    case Then(before, last) => last == e || Happened(before, e)
  }

  /** e happened since the last network card was started. */
  predicate OnThisCard(log: Log, e: Event) {
    match log
    case Nothing => false
    case Then(before, last) => last == e || (!last.NicStarted? && OnThisCard(before, e))
  }

  /** A POST that the network answered 202 without an error, pointing to location. */
  predicate Taken(e: Event, stage: Stage, location: Option<Url>) {
    e.Exchanged? && e.request.stage == stage && e.request.verb.Post? && Is202(e.ok, e.code) && e.location == location
  }

  predicate TakenOnThisCard(log: Log, stage: Stage, location: Option<Url>) {
    match log
    case Nothing => false
    case Then(before, last) =>
      Taken(last, stage, location) || (!last.NicStarted? && TakenOnThisCard(before, stage, location))
  }

  /** A GET that was answered 200 without an error. */
  predicate Fetch(e: Event, stage: Stage, location: Url) {
    e.Exchanged? && e.request == Request(stage, Get, location) && e.ok && e.code == HTTP_STATUS_200_OK
  }

  /** This card got 202, was pointed to a place, and after that got 200 from there. */
  predicate AnsweredOnThisCard(log: Log, stage: Stage, location: Url) {
    match log
    case Nothing => false
    case Then(before, last) =>
      || (Fetch(last, stage, location) && TakenOnThisCard(before, stage, Some(location)))
      || (!last.NicStarted? && AnsweredOnThisCard(before, stage, location))
  }

  predicate AnyTaken(e: Event) {
    e.Exchanged? && e.request.verb.Post? && Is202(e.ok, e.code)
  }

  /** No POST has been answered 202 without an error. */
  predicate NeverTaken(log: Log) {
    match log
    case Nothing => true
    case Then(before, last) => !AnyTaken(last) && NeverTaken(before)
  }

  predicate NothingToBootstrap(log: Log) {
    OnThisCard(log, Merged(BootstrapStage, Success)) || OnThisCard(log, Merged(BootstrapStage, NotFound))
  }

  /** What must have happened before an event. */
  ghost predicate Obeys(before: Log, e: Event) {
    match e
    case Applied(stage, mailbox, source) =>
      && mailbox in Allowed(stage) && source.Some?
      && exists location :: AnsweredOnThisCard(before, stage, location)
    case Exchanged(_, Request(stage, Post, _), _, _, _) => stage.RecoveryStage? ==> NothingToBootstrap(before)
    case NicStarted(i) => NeverTaken(before) && forall j: nat :: Happened(before, NicStarted(j)) <==> j < i
    case _ => true
  }

  ghost predicate Safe(log: Log) {
    match log
    case Nothing => true
    case Then(before, e) => Safe(before) && Obeys(before, e)
  }

  /** What the watcher remembers has happened. */
  ghost predicate Remembers(log: Log, m: Watch) {
    && (m.offered ==> TakenOnThisCard(log, m.stage, m.location))
    && (m.delivered ==> m.offered && m.location.Some? && AnsweredOnThisCard(log, m.stage, m.location.value))
    && (m.mayRecover ==> NothingToBootstrap(log))
    && (m.accepted <==> !NeverTaken(log))
    && (forall j: nat :: Happened(log, NicStarted(j)) <==> j < m.tried)
  }

  lemma RememberNext(before: Log, m: Watch, e: Event)
    requires Remembers(before, m) && Rule(m, e).Some?
    ensures Remembers(Then(before, e), Rule(m, e).value)
  {
  }

  /** A log the watcher accepts is safe at every step. */
  lemma {:induction false} WatchedIsSafe(log: Log)
    requires Watched(log).Some?
    ensures Safe(log) && Remembers(log, Watched(log).value)
  {
    match log
    case Nothing =>
    case Then(before, e) =>
      WatchedIsSafe(before);
      RememberNext(before, Watched(before).value, e);
  }

  /** Whatever the server, the network cards and the variable services do: a mailbox is written only
      from a body, after this card got 202 and then 200 in the same stage; the recovery request is posted
      only after a bootstrap stage that ended in SUCCESS or NOT_FOUND; cards are tried in order, and none
      after a POST whose 202 arrived in full. */
  lemma ProtocolSafety(n: Net, w: World)
    requires n.log == Nothing
    ensures Safe(AllNicsDone(n, w).0.log)
  {
    if !EfiError(w.locateStatus) && w.nics != [] {
      NicsAllowed(n, w, 0, false, w.locateStatus);
    }
    WatchedIsSafe(AllNicsDone(n, w).0.log);
  }

  // ---- when the next card is tried ----

  /** The card in use. */
  function Card(log: Log): Option<nat> {
    match log
    case Nothing => None
    case Then(before, e) => if e.NicStarted? then Some(e.index) else Card(before)
  }

  /** A POST made on card i was answered 202, and the exchange ended without an error. */
  predicate TakenOnCard(log: Log, i: nat) {
    match log
    case Nothing => false
    case Then(before, e) => (AnyTaken(e) && Card(before) == Some(i)) || TakenOnCard(before, i)
  }

  lemma {:induction false} TakenWhere(log: Log)
    requires Watched(log).Some?
    ensures var m := Watched(log).value;
            && (m.running ==> m.tried > 0)
            && Card(log) == (if m.tried == 0 then None else Some(m.tried - 1))
            && forall i: nat :: TakenOnCard(log, i) <==> m.accepted && m.tried == i + 1
  {
    match log
    case Nothing =>
    case Then(before, e) => TakenWhere(before);
  }

  /** No card before card i had a POST answered 202 in an exchange that ended without an error. */
  predicate NoneTakenBefore(log: Log, i: nat) {
    forall j: nat :: j < i ==> !TakenOnCard(log, j)
  }

  /** Card i is tried if and only if no card before it had a POST answered 202 in an exchange that ended
      without an error. A 202 whose exchange failed does not count: the client returns before it sets
      DoneProcessing. */
  lemma NextCardIff(n: Net, w: World, i: nat)
    requires n.log == Nothing && !EfiError(w.locateStatus) && i < |w.nics|
    ensures var log := AllNicsDone(n, w).0.log;
            Happened(log, NicStarted(i)) <==> NoneTakenBefore(log, i)
  {
    var log := AllNicsDone(n, w).0.log;
    NicsAllowed(n, w, 0, false, w.locateStatus);
    WatchedIsSafe(log);
    TakenWhere(log);
    var tried := Watched(log).value.tried;
    if tried <= i {
      var last: nat := tried - 1;
      assert last < i && TakenOnCard(log, last);
    } else {
      assert NoneTakenBefore(log, i);
    }
  }

  /** Every POST made on card i and answered 202 ended in an error. */
  predicate Every202Failed(log: Log, i: nat) {
    match log
    case Nothing => true
    case Then(before, e) =>
      && Every202Failed(before, i)
      && (e.Exchanged? && e.request.verb.Post? && e.code == 202 && Card(before) == Some(i) ==> !e.ok)
  }

  lemma {:induction false} Every202FailedIs(log: Log, i: nat)
    ensures Every202Failed(log, i) <==> !TakenOnCard(log, i)
  {
    match log
    case Nothing =>
    case Then(before, e) => Every202FailedIs(before, i);
  }

  /** So after a card whose POSTs were answered 202 the next card is tried if and only if all those
      exchanges failed. */
  lemma CardAfter202Iff(n: Net, w: World, i: nat)
    requires n.log == Nothing && !EfiError(w.locateStatus) && i + 1 < |w.nics|
    requires Happened(AllNicsDone(n, w).0.log, NicStarted(i))
    ensures var log := AllNicsDone(n, w).0.log;
            Happened(log, NicStarted(i + 1)) <==> Every202Failed(log, i)
  {
    var log := AllNicsDone(n, w).0.log;
    NextCardIff(n, w, i);
    NextCardIff(n, w, i + 1);
    Every202FailedIs(log, i);
    if !TakenOnCard(log, i) {
      assert NoneTakenBefore(log, i + 1);
    }
  }

  /** Two cards and a server that announces content with its 202 and never sends it. */
  function LostTransfer(): World {
    World(
      Script(_ => Reply(HTTP_STATUS_202_ACCEPTED, Headers(Some("loc"), None), 5, true, [ChunkFailed(Timeout)]),
             _ => Success),
      Success, [Nic(Success, true), Nic(Success, false)], "boot", "url",
      _ => Success, _ => Success, _ => None, _ => NotSizable, _ => 0, _ => 0)
  }

  /** Then the second card is tried although the first POST was answered 202. */
  lemma NextCardAfter202(n: Net)
    requires n.log == Nothing && n.sent == 0
    ensures PlausibleScript(LostTransfer().script)
    ensures var log := AllNicsDone(n, LostTransfer()).0.log;
            && Happened(log, Exchanged(0, Request(BootstrapStage, Post, "boot"), false, 202, Some("loc")))
            && Happened(log, NicStarted(1))
  {
    var w := LostTransfer();
    var q := Request(BootstrapStage, Post, "boot");
    var x := w.script.server(0);
    assert Assemble([], 5, x.chunks) == AssemblyFailed(Timeout);
    assert ChunksFit(5, x.chunks);
    var n0 := n.(log := Then(n.log, NicStarted(0)), logicState := PreBootstrap, built := n.built + 1);
    OneExchange(n0, w, q, false);
    var (n1, s, done) := NicDone(n, w, 0);
    assert s == Timeout && !done;
    assert AllNicsDone(n, w).0 == n1.(log := Then(n1.log, NicStarted(1)));
  }
}
