/** For which variable services and decoders a run that reports "no updates are available" tells the
    truth, whatever the server sends. */
module DfciTruth {
  import opened Bytes
  import opened DfciHttp
  import opened DfciLogic
  import opened DfciOutcome
  import opened Wrappers

  ghost predicate SameServices(w: World, v: World) {
    && v.setVariable == w.setVariable && v.decode == w.decode
    && v.signatureOf == w.signatureOf && v.mailboxSignature == w.mailboxSignature
  }

  /** With the services of w, whatever the rest of the world does, a run that reports SUCCESS has changed
      no mailbox. */
  ghost predicate RunsTruthful(n: Net, w: World) {
    forall v: World :: SameServices(w, v) && PlainNetwork(v) && AllNicsDone(n, v).1 == Success ==>
      Untouched(n, AllNicsDone(n, v).0)
  }

  // ---- a server that gets two responses through ----

  /** Exchange k answers 202, and the next one brings a body that parses into es. */
  ghost predicate Serves(v: World, k: nat, b: byte, es: seq<Element>) {
    && v.script.server(k) == Reply(HTTP_STATUS_202_ACCEPTED, Headers(Some("loc"), None), 0, true, [])
    && v.script.server(k + 1) == Reply(HTTP_STATUS_200_OK, Headers(None, None), 1, true, [Chunk([b])])
    && v.parse([b, 0]) == Some(es)
  }

  /** One card, and nothing fails but the services. */
  ghost predicate NoTrouble(v: World) {
    && v.locateStatus == Success && v.nics == [Nic(Success, true)]
    && (forall i :: v.build(i) == Success && v.script.configure(i) == Success)
  }

  /** A run from n on a card that gets es1 for its bootstrap and es2 for its recovery response. */
  function Serving(n: Net, w: World, es1: seq<Element>, es2: seq<Element>): World {
    World(
      Script(i => if i == n.sent || i == n.sent + 2 then
                    Reply(HTTP_STATUS_202_ACCEPTED, Headers(Some("loc"), None), 0, true, [])
                  else
                    Reply(HTTP_STATUS_200_OK, Headers(None, None), 1, true,
                          [Chunk([if i == n.sent + 1 then 1 else 2])]),
             _ => Success),
      Success, [Nic(Success, true)], "boot", "url", _ => Success, w.setVariable,
      b => if b == [1, 0] then Some(es1) else Some(es2), w.decode, w.signatureOf, w.mailboxSignature)
  }

  lemma OneByte(x: Exchange, b: byte)
    requires x == Reply(HTTP_STATUS_200_OK, Headers(None, None), 1, true, [Chunk([b])])
    ensures Assemble([], 1, x.chunks) == Assembled([b]) && BringsBody(x) && StatusOf(x) == Success && Plausible(x)
  {
    assert [] + [b] == [b];
    assert Assemble([b], 1, x.chunks[1..]) == Assembled([b]);
    assert ChunksFit(0, x.chunks[1..]);
  }

  lemma ServingServes(n: Net, w: World, es1: seq<Element>, es2: seq<Element>)
    requires PlainServices(w)
    ensures var v := Serving(n, w, es1, es2);
            && SameServices(w, v) && PlainServices(v) && NoTrouble(v) && PlainNetwork(v)
            && Serves(v, n.sent, 1, es1) && Serves(v, n.sent + 2, 2, es2)
  {
    var v := Serving(n, w, es1, es2);
    forall i ensures StatusOf(v.script.server(i)) == Success && Plausible(v.script.server(i)) {
      if i != n.sent && i != n.sent + 2 {
        OneByte(v.script.server(i), if i == n.sent + 1 then 1 else 2);
      }
    }
  }

  lemma AnswerServed(n: Net, v: World, stage: Stage, url: Url, b: byte, es: seq<Element>)
    requires NoTrouble(v) && Serves(v, n.sent, b, es)
    ensures var (r, s, done) := AsyncDone(n, v, stage, url);
            && s == Success && done && r.body.Some? && r.body.value.bytes == [b, 0] && r.sent == n.sent + 2
            && r.sets == n.sets && r.mailboxes == n.mailboxes && Writes(r.log) == Writes(n.log)
  {
    hide WithRetries;
    OneExchange(n, v, Request(stage, Post, url), false);
    var n1 := WithRetries(n, v, Request(stage, Post, url), false).0;
    OneByte(v.script.server(n.sent + 1), b);
    OneExchange(n1, v, Request(stage, Get, "loc"), true);
    assert [b] + [0] == [b, 0];
  }

  /** A stage that is served ends like its response. */
  lemma StageServed(n: Net, v: World, stage: Stage, url: Url, b: byte, es: seq<Element>) returns (m: Net)
    requires NoTrouble(v) && Serves(v, n.sent, b, es)
    ensures m.sets == n.sets && m.sent == n.sent + 2 && Writes(m.log) == Writes(n.log)
    ensures es == [] ==> StageDone(n, v, stage, url) == (m, NotFound, true)
    ensures es != [] ==>
      StageDone(n, v, stage, url) == (ElementsDone(m, v, stage, es).0, ElementsDone(m, v, stage, es).1, true)
  {
    AnswerServed(n, v, stage, url, b, es);
    m := AsyncDone(n, v, stage, url).0.(logicState := Processing(stage));
  }

  lemma {:induction false} SentKept(n: Net, v: World, stage: Stage, es: seq<Element>)
    ensures ElementsDone(n, v, stage, es).0.sent == n.sent
    decreases |es|
  {
    hide ElementDone;
    if es != [] {
      ElementKeeps(n, v, stage, es[0]);
      var (n1, s1) := ElementDone(n, v, stage, es[0]);
      if Continues(s1) {
        SentKept(n1, v, stage, es[1..]);
      }
    }
  }

  /** A stage from n that ends in r with NOT_FOUND. */
  predicate EndsIn(n: Net, v: World, stage: Stage, url: Url, r: Net) {
    StageDone(n, v, stage, url) == (r, NotFound, true) && r.sent == n.sent + 2
  }

  lemma StageHides(n: Net, v: World, stage: Stage, url: Url, b: byte, es: seq<Element>) returns (r: Net)
    requires NoTrouble(v) && Serves(v, n.sent, b, es) && es != [] && Hides(v, stage, n.sets, es)
    ensures EndsIn(n, v, stage, url, r) && Writes(r.log) > Writes(n.log)
  {
    var m := StageServed(n, v, stage, url, b, es);
    SentKept(m, v, stage, es);
    r := ElementsDone(m, v, stage, es).0;
  }

  lemma StageEmpty(n: Net, v: World, stage: Stage, url: Url, b: byte) returns (r: Net)
    requires NoTrouble(v) && Serves(v, n.sent, b, [])
    ensures EndsIn(n, v, stage, url, r) && Writes(r.log) == Writes(n.log) && r.sets == n.sets
  {
    r := StageServed(n, v, stage, url, b, []);
  }

  lemma StageCallFails(n: Net, v: World, url: Url, b: byte, e: Element) returns (r: Net)
    requires NoTrouble(v) && PlainServices(v) && Serves(v, n.sent, b, [e])
    requires Storable(v, BootstrapStage, e) && v.setVariable(n.sets) == NotFound
    ensures EndsIn(n, v, BootstrapStage, url, r) && Writes(r.log) == Writes(n.log) && r.sets == n.sets + 1
  {
    var m := StageServed(n, v, BootstrapStage, url, b, [e]);
    ElementTells(m, v, BootstrapStage, e);
    assert ElementsDone(m, v, BootstrapStage, [e]) == ElementDone(m, v, BootstrapStage, e);
    r := ElementsDone(m, v, BootstrapStage, [e]).0;
  }

  /** The state the bootstrap stage of the only card starts from, and the recovery stage after r. */
  function Start(n: Net): Net {
    n.(log := Then(n.log, NicStarted(0)), logicState := PreBootstrap, built := n.built + 1)
  }

  function Later(r: Net): Net {
    var m := BootstrapEnded(r, NotFound);
    m.(built := m.built + 1)
  }

  lemma OneCard(n: Net, v: World)
    requires v.locateStatus == Success && v.nics == [Nic(Success, true)]
    ensures var (r, s, _) := MainDone(n.(log := Then(n.log, NicStarted(0))), v);
            AllNicsDone(n, v) == (r, s)
  {
    var (r, s, d) := NicDone(n, v, 0);
    assert NicsDone(r, v, 1, d, s) == (r, s);
  }

  lemma MainSplits(n: Net, v: World)
    requires v.build(n.built) == Success
    ensures var t := StageDone(n.(logicState := PreBootstrap, built := n.built + 1), v, BootstrapStage, v.bootstrapUrl);
            MainDone(n, v) == AfterBootstrap(t.0, v, t.1, t.2)
  {
    hide StageDone, RecoveryDone;
  }

  lemma MainIs(n: Net, v: World, r: Net)
    requires v.build(n.built) == Success && EndsIn(Start(n), v, BootstrapStage, v.bootstrapUrl, r)
    ensures MainDone(n.(log := Then(n.log, NicStarted(0))), v) == RecoveryDone(BootstrapEnded(r, NotFound), v, true)
  {
    hide StageDone, RecoveryDone;
    MainSplits(n.(log := Then(n.log, NicStarted(0))), v);
  }

  lemma RecoveryIs(m: Net, v: World, r: Net)
    requires v.build(m.built) == Success && EndsIn(Later(m), v, RecoveryStage, v.url, r)
    ensures RecoveryDone(BootstrapEnded(m, NotFound), v, true) == (RecoveryEnded(r, NotFound), Success, true)
  {
    hide StageDone;
  }

  lemma RunEnds(n: Net, v: World, r1: Net, r2: Net)
    requires NoTrouble(v)
    requires EndsIn(Start(n), v, BootstrapStage, v.bootstrapUrl, r1)
    requires EndsIn(Later(r1), v, RecoveryStage, v.url, r2)
    ensures AllNicsDone(n, v) == (RecoveryEnded(r2, NotFound), Success)
  {
    OneCard(n, v);
    MainIs(n, v, r1);
    RecoveryIs(r1, v, r2);
  }

  // ---- the condition ----

  lemma SameElement(n: Net, w: World, v: World, stage: Stage, e: Element)
    requires SameServices(w, v)
    ensures ElementDone(n, w, stage, e) == ElementDone(n, v, stage, e)
  {
  }

  lemma {:induction false} SameElements(n: Net, w: World, v: World, stage: Stage, es: seq<Element>)
    requires SameServices(w, v)
    ensures ElementsDone(n, w, stage, es) == ElementsDone(n, v, stage, es)
    decreases |es|
  {
    hide ElementDone;
    if es != [] {
      SameElement(n, w, v, stage, es[0]);
      var (n1, s1) := ElementDone(n, w, stage, es[0]);
      if Continues(s1) {
        SameElements(n1, w, v, stage, es[1..]);
      }
    }
  }

  lemma SameHides(w: World, v: World, stage: Stage, from: nat, es: seq<Element>)
    requires SameServices(w, v) && Hides(w, stage, from, es)
    ensures Hides(v, stage, from, es)
  {
    hide SameServices, ElementsDone;
    forall n: Net | n.sets == from
      ensures var (r, s) := ElementsDone(n, v, stage, es);
              s == NotFound && Writes(r.log) > Writes(n.log)
    {
      SameElements(n, w, v, stage, es);
    }
  }

  /** Both stages end in NOT_FOUND, and a mailbox is written on the way. */
  predicate BothHide(n: Net, v: World, r1: Net, r2: Net) {
    && EndsIn(Start(n), v, BootstrapStage, v.bootstrapUrl, r1)
    && EndsIn(Later(r1), v, RecoveryStage, v.url, r2)
    && Writes(r2.log) > Writes(n.log)
  }

  lemma BootstrapHides(n: Net, v: World, es: seq<Element>) returns (r: Net)
    requires NoTrouble(v) && es != [] && Hides(v, BootstrapStage, n.sets, es) && Serves(v, n.sent, 1, es)
    ensures EndsIn(Start(n), v, BootstrapStage, v.bootstrapUrl, r)
    ensures Writes(r.log) > Writes(n.log) && r.sent == n.sent + 2
  {
    hide StageDone, Hides;
    var m := Start(n);
    assert m.sets == n.sets && m.sent == n.sent && Writes(m.log) == Writes(n.log);
    r := StageHides(m, v, BootstrapStage, v.bootstrapUrl, 1, es);
  }

  lemma BootstrapEmpty(n: Net, v: World) returns (r: Net)
    requires NoTrouble(v) && Serves(v, n.sent, 1, [])
    ensures EndsIn(Start(n), v, BootstrapStage, v.bootstrapUrl, r)
    ensures Writes(r.log) == Writes(n.log) && r.sent == n.sent + 2 && r.sets == n.sets
  {
    r := StageEmpty(Start(n), v, BootstrapStage, v.bootstrapUrl, 1);
  }

  lemma BootstrapCallFails(n: Net, v: World, e: Element) returns (r: Net)
    requires NoTrouble(v) && PlainServices(v) && Serves(v, n.sent, 1, [e])
    requires Storable(v, BootstrapStage, e) && v.setVariable(n.sets) == NotFound
    ensures EndsIn(Start(n), v, BootstrapStage, v.bootstrapUrl, r)
    ensures Writes(r.log) == Writes(n.log) && r.sent == n.sent + 2 && r.sets == n.sets + 1
  {
    r := StageCallFails(Start(n), v, v.bootstrapUrl, 1, e);
  }

  lemma RecoveryEmpty(m: Net, v: World) returns (r: Net)
    requires NoTrouble(v) && Serves(v, m.sent, 2, [])
    ensures EndsIn(Later(m), v, RecoveryStage, v.url, r) && Writes(r.log) == Writes(m.log)
  {
    r := StageEmpty(Later(m), v, RecoveryStage, v.url, 2);
  }

  lemma RecoveryHides(m: Net, v: World, es: seq<Element>) returns (r: Net)
    requires NoTrouble(v) && es != [] && Hides(v, RecoveryStage, m.sets, es) && Serves(v, m.sent, 2, es)
    ensures EndsIn(Later(m), v, RecoveryStage, v.url, r) && Writes(r.log) > Writes(m.log)
  {
    hide StageDone, Hides;
    r := StageHides(Later(m), v, RecoveryStage, v.url, 2, es);
  }

  /** A write hidden by the bootstrap response; the recovery response is empty. */
  lemma HiddenByBootstrap(n: Net, v: World, es: seq<Element>) returns (r1: Net, r2: Net)
    requires NoTrouble(v) && es != [] && Hides(v, BootstrapStage, n.sets, es)
    requires Serves(v, n.sent, 1, es) && Serves(v, n.sent + 2, 2, [])
    ensures BothHide(n, v, r1, r2)
  {
    r1 := BootstrapHides(n, v, es);
    r2 := RecoveryEmpty(r1, v);
  }

  /** A write hidden by the recovery response after an empty bootstrap response. */
  lemma HiddenByRecovery(n: Net, v: World, es: seq<Element>) returns (r1: Net, r2: Net)
    requires NoTrouble(v) && es != [] && Hides(v, RecoveryStage, n.sets, es)
    requires Serves(v, n.sent, 1, []) && Serves(v, n.sent + 2, 2, es)
    ensures BothHide(n, v, r1, r2)
  {
    r1 := BootstrapEmpty(n, v);
    r2 := RecoveryHides(r1, v, es);
  }

  /** The same after a bootstrap response whose one element fails with NOT_FOUND. */
  lemma HiddenByRecoveryLater(n: Net, v: World, e: Element, es: seq<Element>) returns (r1: Net, r2: Net)
    requires NoTrouble(v) && PlainServices(v) && es != [] && Hides(v, RecoveryStage, n.sets + 1, es)
    requires Storable(v, BootstrapStage, e) && v.setVariable(n.sets) == NotFound
    requires Serves(v, n.sent, 1, [e]) && Serves(v, n.sent + 2, 2, es)
    ensures BothHide(n, v, r1, r2)
  {
    r1 := BootstrapCallFails(n, v, e);
    r2 := RecoveryHides(r1, v, es);
  }

  lemma ServeBootstrap(n: Net, w: World, es: seq<Element>) returns (v: World, r1: Net, r2: Net)
    requires PlainServices(w) && es != [] && Hides(w, BootstrapStage, n.sets, es)
    ensures SameServices(w, v) && PlainNetwork(v) && NoTrouble(v) && BothHide(n, v, r1, r2)
  {
    hide Serving, Serves, Hides, BothHide, NoTrouble;
    v := Serving(n, w, es, []);
    ServingServes(n, w, es, []);
    SameHides(w, v, BootstrapStage, n.sets, es);
    r1, r2 := HiddenByBootstrap(n, v, es);
  }

  lemma ServeRecovery(n: Net, w: World, es: seq<Element>) returns (v: World, r1: Net, r2: Net)
    requires PlainServices(w) && es != [] && Hides(w, RecoveryStage, n.sets, es)
    ensures SameServices(w, v) && PlainNetwork(v) && NoTrouble(v) && BothHide(n, v, r1, r2)
  {
    hide Serving, Serves, Hides, BothHide, NoTrouble;
    v := Serving(n, w, [], es);
    ServingServes(n, w, [], es);
    SameHides(w, v, RecoveryStage, n.sets, es);
    r1, r2 := HiddenByRecovery(n, v, es);
  }

  lemma SameStorable(w: World, v: World, stage: Stage, e: Element)
    requires SameServices(w, v)
    ensures Storable(v, stage, e) <==> Storable(w, stage, e)
  {
  }

  lemma ServeRecoveryLater(n: Net, w: World, e: Element, es: seq<Element>) returns (v: World, r1: Net, r2: Net)
    requires PlainServices(w) && es != [] && Hides(w, RecoveryStage, n.sets + 1, es)
    requires Storable(w, BootstrapStage, e) && w.setVariable(n.sets) == NotFound
    ensures SameServices(w, v) && PlainNetwork(v) && NoTrouble(v) && BothHide(n, v, r1, r2)
  {
    hide Serving, Serves, Hides, BothHide, NoTrouble, Storable;
    v := Serving(n, w, [e], es);
    ServingServes(n, w, [e], es);
    SameHides(w, v, RecoveryStage, n.sets + 1, es);
    SameStorable(w, v, BootstrapStage, e);
    r1, r2 := HiddenByRecoveryLater(n, v, e, es);
  }

  lemma HiddenStages(n: Net, w: World) returns (v: World, r1: Net, r2: Net)
    requires PlainServices(w) && RunCanHide(w, n.sets)
    ensures SameServices(w, v) && PlainNetwork(v) && NoTrouble(v) && BothHide(n, v, r1, r2)
  {
    hide Hides, BothHide, NoTrouble, Storable, SameServices;
    if CanHide(w, BootstrapStage, n.sets) {
      var es := HidingResponse(w, BootstrapStage, n.sets);
      v, r1, r2 := ServeBootstrap(n, w, es);
    } else if CanHide(w, RecoveryStage, n.sets) {
      var es := HidingResponse(w, RecoveryStage, n.sets);
      v, r1, r2 := ServeRecovery(n, w, es);
    } else {
      var e :| Storable(w, BootstrapStage, e);
      var es := HidingResponse(w, RecoveryStage, n.sets + 1);
      v, r1, r2 := ServeRecoveryLater(n, w, e, es);
    }
  }

  /** If the services can hide a write, some server makes a run report "no updates" after one. */
  lemma HiddenRun(n: Net, w: World) returns (v: World)
    requires PlainServices(w) && RunCanHide(w, n.sets)
    ensures SameServices(w, v) && PlainNetwork(v)
    ensures var (r, s) := AllNicsDone(n, v);
            s == Success && r.logicState == NoRecoveryAvailable && Writes(r.log) > Writes(n.log)
  {
    var r1, r2;
    v, r1, r2 := HiddenStages(n, w);
    RunEnds(n, v, r1, r2);
  }

  lemma SameCanHide(w: World, v: World, stage: Stage, from: nat)
    requires SameServices(w, v)
    ensures CanStore(v, stage) ==> CanStore(w, stage)
    ensures CanHide(v, stage, from) ==> CanHide(w, stage, from)
  {
    if CanStore(v, stage) {
      var e :| Storable(v, stage, e);
      assert Storable(w, stage, e);
    }
    if CanFailToDecode(v, stage) {
      var e :| Undecodable(v, stage, e);
      assert Undecodable(w, stage, e);
    }
    if FailsAfterSuccess(v, from) {
      var k: nat :| FailsAt(v, from, k);
      assert FailsAt(w, from, k);
    }
  }

  lemma SameCondition(w: World, v: World, from: nat)
    requires SameServices(w, v) && RunCanHide(v, from)
    ensures RunCanHide(w, from)
  {
    SameCanHide(w, v, BootstrapStage, from);
    SameCanHide(w, v, RecoveryStage, from);
    SameCanHide(w, v, RecoveryStage, from + 1);
  }

  /** For given variable services and decoder, every run that reports "no updates" has changed nothing,
      whatever the server and the cards do, if and only if those services cannot fail with NOT_FOUND
      after a write. */
  lemma RunsTruthfulIff(n: Net, w: World)
    requires PlainServices(w)
    ensures RunsTruthful(n, w) <==> !RunCanHide(w, n.sets)
  {
    if RunCanHide(w, n.sets) {
      var v := HiddenRun(n, w);
    } else {
      forall v: World | SameServices(w, v) && PlainNetwork(v) && AllNicsDone(n, v).1 == Success
        ensures Untouched(n, AllNicsDone(n, v).0)
      {
        RunTells(n, v);
        if RunCanHide(v, n.sets) {
          SameCondition(w, v, n.sets);
        }
      }
    }
  }

  // ---- services that can hide a write ----

  /** SetVariable succeeds once and then fails with NOT_FOUND; every packet has the right signature. */
  function OneWrite(): World {
    World(Script(_ => NotSent(Timeout), _ => Success), Success, [], "", "", _ => Success,
          i => if i == 0 then Success else NotFound, _ => None, v => DecodedBytes(v), _ => 0, _ => 0)
  }

  lemma OneWriteCanHide()
    ensures PlainServices(OneWrite()) && RunCanHide(OneWrite(), 0)
  {
    var w := OneWrite();
    assert Lookup(Table(BootstrapStage), "TransitionPacket1", 0) == 0;
    assert Storable(w, BootstrapStage, Element(Some("TransitionPacket1"), Some([1])));
    assert FailsAt(w, 0, 1);
  }

  /** So a run can end with "no recovery available" after it wrote a mailbox. */
  lemma HiddenWrite(n: Net) returns (v: World)
    requires n.sets == 0
    ensures PlainNetwork(v) && SameServices(OneWrite(), v)
    ensures var (r, s) := AllNicsDone(n, v);
            s == Success && r.logicState == NoRecoveryAvailable && Writes(r.log) > Writes(n.log)
  {
    OneWriteCanHide();
    v := HiddenRun(n, OneWrite());
  }
}
