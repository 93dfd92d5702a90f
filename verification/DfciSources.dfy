/** Where the bodies come from that a run applies: which exchange of which card brought the content of
    every mailbox that is written. */
module DfciSources {
  import opened DfciHttp
  import opened DfciLogic
  import opened DfciSafety
  import opened Wrappers

  /** The body exchange k brings. */
  function ContentOf(script: Script, k: nat): Body
    requires BringsBody(script.server(k))
  {
    Body(Assemble([], script.server(k).contentLength, script.server(k).chunks).bytes + [0], k)
  }

  /** The next exchange of q would be a repeat. */
  predicate Again(log: Log, q: Request) {
    log.Then? && log.event.Exchanged? && log.event.request == q
  }

  /** The body a client holds that keeps content until it gets other content or repeats a request, read
      off the network alone. */
  function Held(log: Log, script: Script): Option<Body> {
    match log
    case Nothing => None
    case Then(before, Exchanged(k, q, _, _, _)) =>
      if BringsBody(script.server(k)) then Some(ContentOf(script, k))
      else if Again(before, q) then None
      else Held(before, script)
    case Then(before, _) => Held(before, script)
  }

  /** Exchanges from first to next are there, one by one and in order. */
  predicate Ordered(log: Log, first: nat, next: nat) {
    match log
    case Nothing => first == next
    case Then(before, Exchanged(k, _, _, _, _)) => k + 1 == next && Ordered(before, first, k)
    case Then(before, _) => Ordered(before, first, next)
  }

  /** The log shows what the network did. */
  predicate Genuine(log: Log, script: Script) {
    match log
    case Nothing => true
    case Then(before, e) =>
      Genuine(before, script) && (e.Exchanged? ==> e == Attempt(e.request, e.number, script.server(e.number)))
  }

  /** Every mailbox was written from the body held at that moment. */
  predicate FromHeld(log: Log, script: Script) {
    match log
    case Nothing => true
    case Then(before, e) =>
      FromHeld(before, script) && (e.Applied? ==> e.source.Some? && e.source == Held(before, script))
  }

  predicate GoodLog(log: Log, script: Script, first: nat, next: nat) {
    Ordered(log, first, next) && Genuine(log, script) && FromHeld(log, script)
  }

  /** The request structure holds the body its log says. */
  predicate Tracks(n: Net, script: Script, first: nat) {
    n.body == Held(n.log, script) && GoodLog(n.log, script, first, n.sent)
  }

  // ---- the client holds what its log says ----

  lemma {:induction false} LoggedHolds(log: Log, script: Script, q: Request, from: nat, last: nat, first: nat)
    requires from <= last && GoodLog(log, script, first, from)
    ensures var after := Logged(log, script, q, from, last);
            var start := if from == last && !Again(log, q) then Held(log, script) else None;
            && Held(after, script) == BodyAfter(start, script.server(last), last)
            && GoodLog(after, script, first, last + 1)
            && after.Then? && after.event == Attempt(q, last, script.server(last))
    decreases last - from
  {
    if from < last {
      LoggedHolds(Then(log, Attempt(q, from, script.server(from))), script, q, from + 1, last, first);
    }
  }

  lemma RequestTracks(n: Net, w: World, q: Request, retryOn202: bool, first: nat)
    requires Tracks(n, w.script, first) && !Again(n.log, q)
    ensures var (r, s) := WithRetries(n, w, q, retryOn202);
            && Tracks(r, w.script, first)
            && (EfiError(s) || (r.log.Then? && r.log.event.Exchanged? && r.log.event.request == q))
  {
    if !EfiError(w.script.configure(n.configured)) {
      RequestIs(n, w, q, retryOn202);
      LoggedHolds(n.log, w.script, q, n.sent, LastAttempt(w.script, n.sent, retryOn202, 6), first);
    }
  }

  lemma AsyncTracks(n: Net, w: World, stage: Stage, url: Url, first: nat)
    requires Tracks(n, w.script, first) && !Again(n.log, Request(stage, Post, url))
    ensures Tracks(AsyncDone(n, w, stage, url).0, w.script, first)
  {
    RequestTracks(n, w, Request(stage, Post, url), false, first);
    var (n1, s1) := WithRetries(n, w, Request(stage, Post, url), false);
    if !EfiError(s1) && n1.httpStatus == HTTP_STATUS_202_ACCEPTED {
      var location := if n1.headers.Some? then n1.headers.value.location else None;
      if location.Some? {
        RequestTracks(n1, w, Request(stage, Get, location.value), true, first);
      }
    }
  }

  lemma ElementTracks(n: Net, w: World, stage: Stage, e: Element, first: nat)
    requires Tracks(n, w.script, first) && n.body.Some?
    ensures var r := ElementDone(n, w, stage, e).0;
            Tracks(r, w.script, first) && r.body == n.body
  {
    hide ElementDone;
    ElementKeeps(n, w, stage, e);
  }

  lemma {:induction false} ElementsTrack(n: Net, w: World, stage: Stage, es: seq<Element>, first: nat)
    requires Tracks(n, w.script, first) && n.body.Some?
    ensures Tracks(ElementsDone(n, w, stage, es).0, w.script, first)
    decreases |es|
  {
    hide ElementDone;
    if es != [] {
      ElementTracks(n, w, stage, es[0], first);
      var (n1, s1) := ElementDone(n, w, stage, es[0]);
      if Continues(s1) {
        ElementsTrack(n1, w, stage, es[1..], first);
      }
    }
  }

  lemma StageTracks(n: Net, w: World, stage: Stage, url: Url, first: nat)
    requires Tracks(n, w.script, first) && !Again(n.log, Request(stage, Post, url))
    ensures Tracks(StageDone(n, w, stage, url).0, w.script, first)
  {
    AsyncTracks(n, w, stage, url, first);
    var (n1, s1, done) := AsyncDone(n, w, stage, url);
    if !EfiError(s1) && n1.body.Some? {
      var n2 := n1.(logicState := if stage.BootstrapStage? then Bootstrap else Recovery);
      match w.parse(n2.body.value.bytes)
      case None =>
      case Some(es) => ElementsTrack(n2, w, stage, es, first);
    }
  }

  lemma EndTracks(n: Net, s: EfiStatus, script: Script, first: nat)
    requires Tracks(n, script, first)
    ensures Tracks(BootstrapEnded(n, s), script, first) && Tracks(RecoveryEnded(n, s), script, first)
  {
  }

  lemma RecoveryTracks(n: Net, w: World, done1: bool, first: nat)
    requires Tracks(n, w.script, first) && !Again(n.log, Request(RecoveryStage, Post, w.url))
    ensures Tracks(RecoveryDone(n, w, done1).0, w.script, first)
  {
    var n0 := n.(built := n.built + 1);
    if EfiError(w.build(n.built)) {
      assert RecoveryDone(n, w, done1).0 == n0;
    } else {
      StageTracks(n0, w, RecoveryStage, w.url, first);
      var (n1, s1, _) := StageDone(n0, w, RecoveryStage, w.url);
      EndTracks(n1, s1, w.script, first);
      assert RecoveryDone(n, w, done1).0 == RecoveryEnded(n1, s1);
    }
  }

  lemma BootstrapTracks(n: Net, w: World, first: nat)
    requires Tracks(n, w.script, first) && !Again(n.log, Request(BootstrapStage, Post, w.bootstrapUrl))
    ensures var (r, s, _) := StageDone(n, w, BootstrapStage, w.bootstrapUrl);
            Tracks(BootstrapEnded(r, s), w.script, first)
  {
    StageTracks(n, w, BootstrapStage, w.bootstrapUrl, first);
    var (n1, s1, _) := StageDone(n, w, BootstrapStage, w.bootstrapUrl);
    EndTracks(n1, s1, w.script, first);
  }

  lemma MainTracks(n: Net, w: World, first: nat)
    requires Tracks(n, w.script, first) && n.log.Then? && n.log.event.NicStarted?
    ensures Tracks(MainDone(n, w).0, w.script, first)
  {
    var n0 := n.(logicState := PreBootstrap, built := n.built + 1);
    if !EfiError(w.build(n.built)) {
      BootstrapTracks(n0, w, first);
      var (n1, s1, done1) := StageDone(n0, w, BootstrapStage, w.bootstrapUrl);
      var m1 := BootstrapEnded(n1, s1);
      if NoUpdates(s1) {
        RecoveryTracks(m1, w, done1, first);
        assert MainDone(n, w) == RecoveryDone(m1, w, done1);
      } else {
        assert MainDone(n, w) == (m1, s1, done1);
      }
    }
  }

  lemma {:induction false} NicsTrack(n: Net, w: World, i: nat, done: bool, status: EfiStatus, first: nat)
    requires i <= |w.nics| && Tracks(n, w.script, first)
    ensures Tracks(NicsDone(n, w, i, done, status).0, w.script, first)
    decreases |w.nics| - i
  {
    if i < |w.nics| && !done {
      NicTracks(n, w, i, first);
      var (n1, s, d) := NicDone(n, w, i);
      NicsTrack(n1, w, i + 1, d, s, first);
    }
  }

  lemma NicTracks(n: Net, w: World, i: nat, first: nat)
    requires i < |w.nics| && Tracks(n, w.script, first)
    ensures Tracks(NicDone(n, w, i).0, w.script, first)
  {
    if !EfiError(w.nics[i].handleStatus) && w.nics[i].mediaPresent {
      MainTracks(n.(log := Then(n.log, NicStarted(i))), w, first);
    }
  }

  // ---- what that says about a mailbox ----

  function LastExchange(log: Log): Option<nat> {
    match log
    case Nothing => None
    case Then(before, e) => if e.Exchanged? then Some(e.number) else LastExchange(before)
  }

  /** The last exchange is a GET of this stage that was answered 200. */
  predicate EndsInAnswer(log: Log, stage: Stage) {
    match log
    case Nothing => false
    case Then(before, e) =>
      if e.Exchanged? then Fetch(e, stage, e.request.url)
      else EndsInAnswer(before, stage)
  }

  /** Some exchange of this card brought content. */
  predicate BroughtOnThisCard(log: Log, script: Script) {
    match log
    case Nothing => false
    case Then(before, e) =>
      || (e.Exchanged? && BringsBody(script.server(e.number)))
      || (!e.NicStarted? && BroughtOnThisCard(before, script))
  }

  /** Exchange k was made on this card. */
  predicate MadeOnThisCard(log: Log, k: nat) {
    match log
    case Nothing => false
    case Then(before, e) => (e.Exchanged? && e.number == k) || (!e.NicStarted? && MadeOnThisCard(before, k))
  }

  /** Which exchange the body of a write came from: it is the body held, the content of exchange origin.
      That is the answer itself if and only if the answer brought content, and an exchange of another
      card if and only if none on this card brought any. */
  ghost predicate KnownSource(before: Log, stage: Stage, source: Option<Body>, script: Script) {
    && EndsInAnswer(before, stage) && LastExchange(before).Some?
    && source.Some? && source == Held(before, script)
    && var answer, body := LastExchange(before).value, source.value;
    && body.origin <= answer && BringsBody(script.server(body.origin)) && body == ContentOf(script, body.origin)
    && (body.origin == answer <==> BringsBody(script.server(answer)))
    && (MadeOnThisCard(before, body.origin) <==> BroughtOnThisCard(before, script))
  }

  ghost predicate SourcesKnown(log: Log, script: Script) {
    match log
    case Nothing => true
    case Then(before, e) =>
      SourcesKnown(before, script) && (e.Applied? ==> KnownSource(before, e.stage, e.source, script))
  }

  lemma {:induction false} HeldIs(log: Log, script: Script, next: nat, first: nat)
    requires Ordered(log, first, next) && Held(log, script).Some?
    ensures var body := Held(log, script).value;
            && body.origin < next && BringsBody(script.server(body.origin)) && body == ContentOf(script, body.origin)
            && LastExchange(log).Some? && body.origin <= LastExchange(log).value < next
            && (body.origin == LastExchange(log).value <==> BringsBody(script.server(LastExchange(log).value)))
  {
    match log
    case Then(before, Exchanged(k, q, _, _, _)) =>
      if !BringsBody(script.server(k)) {
        HeldIs(before, script, k, first);
      }
    case Then(before, _) => HeldIs(before, script, next, first);
  }

  lemma {:induction false} HeldFromThisCard(log: Log, script: Script, next: nat, first: nat)
    requires Ordered(log, first, next) && Held(log, script).Some?
    ensures MadeOnThisCard(log, Held(log, script).value.origin) <==> BroughtOnThisCard(log, script)
  {
    match log
    case Then(before, Exchanged(k, q, _, _, _)) =>
      if !BringsBody(script.server(k)) {
        HeldIs(before, script, k, first);
        HeldFromThisCard(before, script, k, first);
      }
    case Then(before, e) => HeldFromThisCard(before, script, next, first);
  }

  lemma {:induction false} DeliveredEnds(log: Log)
    requires Watched(log).Some? && Watched(log).value.delivered
    ensures EndsInAnswer(log, Watched(log).value.stage)
  {
    match log
    case Then(before, e) =>
      WatchedIsSafe(before);
      if !e.Exchanged? {
        DeliveredEnds(before);
      }
  }

  lemma {:induction false} SourcesOf(log: Log, script: Script, next: nat, first: nat)
    requires Watched(log).Some? && GoodLog(log, script, first, next)
    ensures SourcesKnown(log, script)
  {
    match log
    case Nothing =>
    case Then(before, e) =>
      SourcesOf(before, script, if e.Exchanged? then e.number else next, first);
      if e.Applied? {
        DeliveredEnds(before);
        HeldIs(before, script, next, first);
        HeldFromThisCard(before, script, next, first);
      }
  }

  /** The source of every mailbox a run writes, for every server, card and variable service; the log shows
      every exchange of the run, once and as it went. */
  lemma MailboxSources(n: Net, w: World)
    requires n.log == Nothing && n.body.None?
    ensures var r := AllNicsDone(n, w).0;
            && SourcesKnown(r.log, w.script)
            && Genuine(r.log, w.script) && Ordered(r.log, n.sent, r.sent)
  {
    if !EfiError(w.locateStatus) && w.nics != [] {
      NicsAllowed(n, w, 0, false, w.locateStatus);
      NicsTrack(n, w, 0, false, w.locateStatus, n.sent);
    }
    var r := AllNicsDone(n, w).0;
    SourcesOf(r.log, w.script, r.sent, n.sent);
  }

  // ---- a body of another card ----

  /** Card 0 meets a server that answers 500 with content; card 1 gets 202 and 200, both empty. That content
      is the only text that parses as a response. */
  function ErrorPage(): World {
    World(
      Script(i => if i == 0 then Reply(500, Headers(None, None), 1, true, [Chunk([65])])
                  else if i == 1 then Reply(HTTP_STATUS_202_ACCEPTED, Headers(Some("loc"), None), 0, true, [])
                  else Reply(HTTP_STATUS_200_OK, Headers(None, None), 0, true, []),
             _ => Success),
      Success, [Nic(Success, true), Nic(Success, true)], "boot", "url", _ => Success, _ => Success,
      v => if v == [65, 0] then Some([Element(Some("TransitionPacket1"), Some([1]))]) else None,
      v => DecodedBytes(v), _ => 0, _ => 0)
  }

  ghost predicate Works(w: World) {
    && w.locateStatus == Success && w.nics == [Nic(Success, true), Nic(Success, true)] && w.bootstrapUrl == "boot"
    && (forall i :: w.build(i) == Success && w.setVariable(i) == Success && w.script.configure(i) == Success)
    && (forall v :: w.decode(v) == DecodedBytes(v) && w.signatureOf(v) == 0)
    && (forall m :: w.mailboxSignature(m) == 0)
    && (forall v :: w.parse(v) == if v == [65, 0] then Some([Element(Some("TransitionPacket1"), Some([1]))]) else None)
  }

  ghost predicate ServesErrorPage(script: Script) {
    && script.server(0) == Reply(500, Headers(None, None), 1, true, [Chunk([65])])
    && script.server(1) == Reply(HTTP_STATUS_202_ACCEPTED, Headers(Some("loc"), None), 0, true, [])
    && script.server(2) == Reply(HTTP_STATUS_200_OK, Headers(None, None), 0, true, [])
  }

  lemma ErrorPageBody(script: Script)
    requires ServesErrorPage(script)
    ensures Assemble([], 1, script.server(0).chunks) == Assembled([65])
    ensures BringsBody(script.server(0)) && ContentOf(script, 0) == Body([65, 0], 0)
  {
    var chunks := script.server(0).chunks;
    assert Assemble([65], 1, chunks[1..]) == Assembled([65]);
    assert [] + [65] == [65];
    assert [65] + [0] == [65, 0];
  }

  /** The first card ends in PROTOCOL_ERROR and leaves the error page behind. */
  lemma FirstCard(n: Net, w: World)
    requires Works(w) && ServesErrorPage(w.script)
    requires n.log == Nothing && n.sent == 0
    ensures var (r, s, done) := NicDone(n, w, 0);
            && !done && r.sent == 1 && r.mailboxes == n.mailboxes && r.body == Some(Body([65, 0], 0))
            && Happened(r.log, Exchanged(0, Request(BootstrapStage, Post, "boot"), true, 500, None))
  {
    ErrorPageBody(w.script);
    var q := Request(BootstrapStage, Post, "boot");
    var n0 := n.(log := Then(n.log, NicStarted(0)), logicState := PreBootstrap, built := n.built + 1);
    OneExchange(n0, w, q, false);
  }

  /** The second card's POST and GET, both without content, leave the body that is there. */
  lemma SecondAnswer(n: Net, w: World)
    requires Works(w) && ServesErrorPage(w.script) && n.sent == 1 && n.body.Some?
    ensures var (r, s, done) := AsyncDone(n, w, BootstrapStage, "boot");
            && s == Success && done && r.body == n.body && r.mailboxes == n.mailboxes
            && r.log == Then(Then(n.log, Attempt(Request(BootstrapStage, Post, "boot"), 1, w.script.server(1))),
                             Attempt(Request(BootstrapStage, Get, "loc"), 2, w.script.server(2)))
  {
    hide WithRetries;
    OneExchange(n, w, Request(BootstrapStage, Post, "boot"), false);
    var n1 := WithRetries(n, w, Request(BootstrapStage, Post, "boot"), false).0;
    OneExchange(n1, w, Request(BootstrapStage, Get, "loc"), true);
  }

  lemma SecondUpdate(n: Net, w: World)
    requires Works(w) && n.body.Some? && n.body.value.bytes == [65, 0]
    ensures var (r, s) := Updated(n, w, BootstrapStage);
            && s == MediaChanged && r.mailboxes == n.mailboxes[Identity := [1]]
            && r.log == Then(n.log, Applied(BootstrapStage, Identity, n.body))
  {
    var e := Element(Some("TransitionPacket1"), Some([1]));
    assert Lookup(Table(BootstrapStage), "TransitionPacket1", 0) == 0;
    assert [e][1..] == [];
    assert ElementsDone(n, w, BootstrapStage, [e]) == ElementDone(n, w, BootstrapStage, e);
  }

  lemma FourLater(log: Log, a: Event, b: Event, c: Event, d: Event, e: Event)
    requires Happened(log, e)
    ensures var after := Then(Then(Then(Then(log, a), b), c), d);
            Happened(after, e) && Happened(after, c)
  {
    assert Happened(Then(Then(log, a), b), e);
  }

  lemma StageIs(n: Net, w: World, n1: Net)
    requires AsyncDone(n, w, BootstrapStage, "boot") == (n1, Success, true) && n1.body.Some?
    ensures var (r, s) := Updated(n1.(logicState := Bootstrap), w, BootstrapStage);
            StageDone(n, w, BootstrapStage, "boot") == (r, s, true)
  {
    hide AsyncDone, Updated;
  }

  lemma CardIs(n: Net, w: World, r: Net)
    requires |w.nics| == 2 && w.nics[1] == Nic(Success, true) && w.build(n.built) == Success
    requires w.bootstrapUrl == "boot"
    requires var n0 := n.(log := Then(n.log, NicStarted(1)), logicState := PreBootstrap, built := n.built + 1);
             StageDone(n0, w, BootstrapStage, "boot") == (r, MediaChanged, true)
    ensures NicDone(n, w, 1) == (BootstrapEnded(r, MediaChanged), MediaChanged, true)
  {
    hide StageDone;
  }

  /** So it takes that body for its bootstrap answer and writes a mailbox from it. */
  lemma SecondCard(n: Net, w: World)
    requires Works(w) && ServesErrorPage(w.script) && n.sent == 1
    requires n.body.Some? && n.body.value.bytes == [65, 0]
    ensures var (r, s, done) := NicDone(n, w, 1);
            && s == MediaChanged && r.mailboxes == n.mailboxes[Identity := [1]]
            && r.log == Then(Then(Then(Then(Then(n.log, NicStarted(1)),
                                            Attempt(Request(BootstrapStage, Post, "boot"), 1, w.script.server(1))),
                                       Attempt(Request(BootstrapStage, Get, "loc"), 2, w.script.server(2))),
                                  Applied(BootstrapStage, Identity, n.body)),
                             Merged(BootstrapStage, MediaChanged))
  {
    var n0 := n.(log := Then(n.log, NicStarted(1)), logicState := PreBootstrap, built := n.built + 1);
    SecondAnswer(n0, w);
    var (n1, s1, d1) := AsyncDone(n0, w, BootstrapStage, "boot");
    var n2 := n1.(logicState := Bootstrap);
    SecondUpdate(n2, w);
    var (n3, s3) := Updated(n2, w, BootstrapStage);
    StageIs(n0, w, n1);
    CardIs(n, w, n3);
  }

  /** A run that keeps every rule can write a mailbox from what another card received: here from the
      parsable text that card 0 got with its 500. */
  lemma OtherCardsBodyApplied(n: Net, w: World)
    requires Works(w) && ServesErrorPage(w.script) && n.log == Nothing && n.sent == 0
    ensures var (r, s) := AllNicsDone(n, w);
            && s == MediaChanged && r.mailboxes == n.mailboxes[Identity := [1]] && Safe(r.log)
            && Happened(r.log, Exchanged(0, Request(BootstrapStage, Post, "boot"), true, 500, None))
            && Happened(r.log, NicStarted(1))
            && Happened(r.log, Applied(BootstrapStage, Identity, Some(Body([65, 0], 0))))
  {
    FirstCard(n, w);
    var (n1, s1, d1) := NicDone(n, w, 0);
    var e0 := Exchanged(0, Request(BootstrapStage, Post, "boot"), true, 500, None);
    SecondCard(n1, w);
    var a1 := Attempt(Request(BootstrapStage, Post, "boot"), 1, w.script.server(1));
    var a2 := Attempt(Request(BootstrapStage, Get, "loc"), 2, w.script.server(2));
    var applied, merged := Applied(BootstrapStage, Identity, n1.body), Merged(BootstrapStage, MediaChanged);
    FourLater(Then(n1.log, NicStarted(1)), a1, a2, applied, merged, e0);
    FourLater(Then(n1.log, NicStarted(1)), a1, a2, applied, merged, NicStarted(1));
    TwoCards(n, w);
    ProtocolSafety(n, w);
  }

  /** Such a world exists, and its server is a plausible one. */
  lemma ErrorPageServed()
    ensures Works(ErrorPage()) && ServesErrorPage(ErrorPage().script) && PlausibleScript(ErrorPage().script)
  {
  }
}
