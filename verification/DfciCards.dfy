/** Which servers can make a run try another network card after a POST was answered 202. */
module DfciCards {
  import opened DfciHttp
  import opened DfciLogic
  import opened DfciSafety
  import opened DfciSources
  import opened Wrappers

  /** A POST was answered 202, whether or not the exchange ended in an error. */
  predicate Posted202(log: Log) {
    match log
    case Nothing => false
    case Then(before, e) =>
      (e.Exchanged? && e.request.verb.Post? && e.code == HTTP_STATUS_202_ACCEPTED) || Posted202(before)
  }

  /** No card is started after such a POST. */
  predicate NoCardAfter202(log: Log) {
    match log
    case Nothing => true
    case Then(before, e) => NoCardAfter202(before) && (e.NicStarted? ==> !Posted202(before))
  }

  // ---- the condition on the server ----

  predicate Clean202(server: nat -> Exchange, i: nat) {
    CodeOf(server(i)) == HTTP_STATUS_202_ACCEPTED && !EfiError(StatusOf(server(i)))
  }

  predicate Failed202(server: nat -> Exchange, i: nat) {
    CodeOf(server(i)) == HTTP_STATUS_202_ACCEPTED && EfiError(StatusOf(server(i)))
  }

  predicate NoneClean(server: nat -> Exchange, from: nat, to: nat) {
    forall j :: from <= j < to ==> !Clean202(server, j)
  }

  /** An answer with code 202 that gets lost comes only after one that arrives. */
  ghost predicate LostOnlyLater(server: nat -> Exchange, first: nat) {
    forall i :: first <= i && Failed202(server, i) ==> !NoneClean(server, first, i)
  }

  // ---- it suffices ----

  predicate OnlyPosts(log: Log) {
    match log
    case Nothing => true
    case Then(before, e) => OnlyPosts(before) && (e.Exchanged? ==> e.request.verb.Post?)
  }

  /** Nothing is fetched before a POST is answered 202 without an error. */
  lemma {:induction false} PostsFirst(log: Log)
    requires Watched(log).Some?
    ensures var m := Watched(log).value;
            (m.offered ==> m.accepted) && (!m.accepted ==> OnlyPosts(log))
  {
    match log
    case Nothing =>
    case Then(before, e) => PostsFirst(before);
  }

  lemma {:induction false} NoneTaken(log: Log, script: Script, first: nat, next: nat)
    requires Ordered(log, first, next) && Genuine(log, script) && OnlyPosts(log) && NeverTaken(log)
    ensures first <= next && NoneClean(script.server, first, next)
  {
    match log
    case Nothing =>
    case Then(before, e) => NoneTaken(before, script, first, if e.Exchanged? then e.number else next);
  }

  lemma {:induction false} NonePosted(log: Log, script: Script, first: nat, next: nat)
    requires Ordered(log, first, next) && Genuine(log, script) && OnlyPosts(log) && NeverTaken(log)
    requires LostOnlyLater(script.server, first)
    ensures !Posted202(log)
  {
    match log
    case Nothing =>
    case Then(before, e) =>
      var k := if e.Exchanged? then e.number else next;
      NonePosted(before, script, first, k);
      NoneTaken(before, script, first, k);
      if e.Exchanged? {
        assert !Clean202(script.server, k) && !Failed202(script.server, k);
      }
  }

  lemma {:induction false} NoCardFollows(log: Log, script: Script, first: nat, next: nat)
    requires Watched(log).Some? && Ordered(log, first, next) && Genuine(log, script)
    requires LostOnlyLater(script.server, first)
    ensures NoCardAfter202(log)
  {
    match log
    case Nothing =>
    case Then(before, e) =>
      var k := if e.Exchanged? then e.number else next;
      NoCardFollows(before, script, first, k);
      if e.NicStarted? {
        WatchedIsSafe(before);
        PostsFirst(before);
        NonePosted(before, script, first, k);
      }
  }

  lemma RunNotFollowed(n: Net, w: World)
    requires n.log == Nothing && n.body.None? && LostOnlyLater(w.script.server, n.sent)
    ensures NoCardAfter202(AllNicsDone(n, w).0.log)
  {
    var r := AllNicsDone(n, w).0;
    MailboxSources(n, w);
    if !EfiError(w.locateStatus) && w.nics != [] {
      NicsAllowed(n, w, 0, false, w.locateStatus);
    }
    NoCardFollows(r.log, w.script, n.sent, r.sent);
  }

  // ---- and is needed ----

  /** The status a card's bootstrap request ends with when exchange last is its last and was not accepted. */
  function PostStatus(script: Script, last: nat): EfiStatus {
    var s := StatusOf(script.server(last));
    if EfiError(s) then s else ProtocolError
  }

  function LastPost(script: Script, from: nat): (last: nat)
    ensures from <= last
  {
    LastAttempt(script, from, false, 6)
  }

  /** How many cards it takes to get from exchange from to exchange i. */
  function CardsTo(script: Script, from: nat, i: nat): (k: nat)
    ensures k > 0
    decreases i + 1 - from
  {
    if LastPost(script, from) >= i then 1 else 1 + CardsTo(script, LastPost(script, from) + 1, i)
  }

  /** The requests that must not be built on the way: the recovery requests that follow NOT_FOUND. */
  function NotBuilt(script: Script, from: nat, i: nat, built: nat): set<nat>
    decreases i + 1 - from
  {
    var last := LastPost(script, from);
    if PostStatus(script, last) == NotFound then
      {built + 1} + if last >= i then {} else NotBuilt(script, last + 1, i, built + 2)
    else if last >= i then {} else NotBuilt(script, last + 1, i, built + 1)
  }

  lemma {:induction false} NotBuiltAbove(script: Script, from: nat, i: nat, built: nat, k: nat)
    requires k in NotBuilt(script, from, i, built)
    ensures k > built
    decreases i + 1 - from
  {
    var last := LastPost(script, from);
    var next := if PostStatus(script, last) == NotFound then built + 2 else built + 1;
    if last < i && k in NotBuilt(script, last + 1, i, next) {
      NotBuiltAbove(script, last + 1, i, next, k);
    }
  }

  /** Requests are built and configured, except for those recovery requests. */
  ghost predicate BuildsBut(n: Net, w: World, except: set<nat>) {
    && (forall k :: w.script.configure(k) == Success)
    && (forall k :: k >= n.built ==> (EfiError(w.build(k)) <==> k in except))
  }

  lemma {:induction false} LoggedEnds(log: Log, script: Script, q: Request, from: nat, last: nat)
    requires from <= last
    ensures Logged(log, script, q, from, last).Then?
    ensures Logged(log, script, q, from, last).event == Attempt(q, last, script.server(last))
    decreases last - from
  {
    if from < last {
      LoggedEnds(Then(log, Attempt(q, from, script.server(from))), script, q, from + 1, last);
    }
  }

  /** A stage whose POST is not accepted is over with it. */
  lemma StageRefused(n: Net, w: World, url: Url)
    requires !EfiError(w.script.configure(n.configured)) && !Clean202(w.script.server, LastPost(w.script, n.sent))
    ensures var last := LastPost(w.script, n.sent);
            var (r, s, done) := StageDone(n, w, BootstrapStage, url);
            && s == PostStatus(w.script, last) && !done && r.sent == last + 1 && r.built == n.built
            && (CodeOf(w.script.server(last)) == HTTP_STATUS_202_ACCEPTED ==> Posted202(r.log))
  {
    var q := Request(BootstrapStage, Post, url);
    RequestIs(n, w, q, false);
    LoggedEnds(n.log, w.script, q, n.sent, LastPost(w.script, n.sent));
  }

  /** And so is the card, if no recovery request is built. */
  lemma CardRefused(n: Net, w: World, i: nat)
    requires i < |w.nics| && w.nics[i] == Nic(Success, true) && !EfiError(w.build(n.built))
    requires !EfiError(w.script.configure(n.configured)) && !Clean202(w.script.server, LastPost(w.script, n.sent))
    requires PostStatus(w.script, LastPost(w.script, n.sent)) == NotFound ==> EfiError(w.build(n.built + 1))
    ensures var last := LastPost(w.script, n.sent);
            var (r, s, done) := NicDone(n, w, i);
            && !done && r.sent == last + 1
            && r.built == n.built + (if PostStatus(w.script, last) == NotFound then 2 else 1)
            && (CodeOf(w.script.server(last)) == HTTP_STATUS_202_ACCEPTED ==> Posted202(r.log))
  {
    hide StageDone;
    var n0 := n.(log := Then(n.log, NicStarted(i)), logicState := PreBootstrap, built := n.built + 1);
    StageRefused(n0, w, w.bootstrapUrl);
  }

  predicate GoodCards(w: World, from: nat) {
    && |w.nics| > from && w.nics[|w.nics| - 1] == Nic(Success, false)
    && forall k :: from <= k < |w.nics| - 1 ==> w.nics[k] == Nic(Success, true)
  }

  lemma LastIsNotBehind(script: Script, from: nat, i: nat)
    requires from <= i && Failed202(script.server, i)
    ensures LastPost(script, from) <= i
  {
    AttemptsStop(script, from, false, 6);
    assert i < LastPost(script, from) ==> Repeats(script.server(i), false);
  }

  lemma LastCard(n: Net, w: World, card: nat, status: EfiStatus)
    requires |w.nics| == card + 1 && w.nics[card] == Nic(Success, false) && Posted202(n.log)
    ensures !NoCardAfter202(NicsDone(n, w, card, false, status).0.log)
  {
    var (r, s, d) := NicDone(n, w, card);
    assert r.log == Then(n.log, NicStarted(card));
    assert NicsDone(r, w, card + 1, d, s) == (r, s);
  }

  /** What the services do on the first card of the way. */
  lemma BuildsNext(n: Net, w: World, i: nat)
    requires n.sent <= i && BuildsBut(n, w, NotBuilt(w.script, n.sent, i, n.built))
    ensures !EfiError(w.build(n.built))
    ensures PostStatus(w.script, LastPost(w.script, n.sent)) == NotFound ==> EfiError(w.build(n.built + 1))
  {
    if n.built in NotBuilt(w.script, n.sent, i, n.built) {
      NotBuiltAbove(w.script, n.sent, i, n.built, n.built);
    }
  }

  lemma BuildsAfter(n: Net, w: World, i: nat, r: Net)
    requires n.sent <= i && BuildsBut(n, w, NotBuilt(w.script, n.sent, i, n.built))
    requires LastPost(w.script, n.sent) < i && r.sent == LastPost(w.script, n.sent) + 1
    requires r.built == n.built + (if PostStatus(w.script, r.sent - 1) == NotFound then 2 else 1)
    ensures BuildsBut(r, w, NotBuilt(w.script, r.sent, i, r.built))
  {
  }

  /** With enough cards, the run gets to the lost answer and starts one more card. */
  lemma {:induction false} CardFollowsLost(n: Net, w: World, card: nat, status: EfiStatus, i: nat)
    requires n.sent <= i && Failed202(w.script.server, i) && NoneClean(w.script.server, n.sent, i)
    requires GoodCards(w, card) && |w.nics| == card + CardsTo(w.script, n.sent, i) + 1
    requires BuildsBut(n, w, NotBuilt(w.script, n.sent, i, n.built))
    ensures !NoCardAfter202(NicsDone(n, w, card, false, status).0.log)
    decreases i - n.sent
  {
    hide NicDone, LastPost, NotBuilt, PostStatus;
    var last := LastPost(w.script, n.sent);
    LastIsNotBehind(w.script, n.sent, i);
    BuildsNext(n, w, i);
    CardRefused(n, w, card);
    var (r, s, done) := NicDone(n, w, card);
    if last == i {
      LastCard(r, w, card + 1, s);
    } else {
      BuildsAfter(n, w, i, r);
      CardFollowsLost(r, w, card + 1, s, i);
    }
  }

  /** A run on enough cards whose services fail only where they must. */
  function Unlucky(server: nat -> Exchange, first: nat, i: nat): World {
    var script := Script(server, _ => Success);
    World(script, Success, seq(CardsTo(script, first, i), _ => Nic(Success, true)) + [Nic(Success, false)],
          "boot", "url", k => if k in NotBuilt(script, first, i, 0) then Timeout else Success,
          _ => Success, _ => None, _ => NotSizable, _ => 0, _ => 0)
  }

  function Fresh(first: nat): Net {
    Net(0, None, None, None, None, PreBootstrap, map[], first, 0, 0, 0, [], Nothing)
  }

  lemma UnluckyRun(server: nat -> Exchange, first: nat, i: nat)
    requires first <= i && Failed202(server, i) && NoneClean(server, first, i)
    ensures !NoCardAfter202(AllNicsDone(Fresh(first), Unlucky(server, first, i)).0.log)
  {
    var w := Unlucky(server, first, i);
    assert GoodCards(w, 0);
    CardFollowsLost(Fresh(first), w, 0, Success, i);
  }

  // ---- the server alone decides ----

  /** Whatever the cards and the services are, no run that starts at exchange first, with an empty body
      field as every run does, tries a card after a POST that was answered 202. */
  ghost predicate NeverFollowed(server: nat -> Exchange, first: nat) {
    forall n: Net, w: World ::
      w.script.server == server && n.log == Nothing && n.body.None? && n.sent == first ==>
        NoCardAfter202(AllNicsDone(n, w).0.log)
  }

  /** That holds of exactly the servers whose lost 202 answers all come after one that arrives. */
  lemma NeverFollowedIff(server: nat -> Exchange, first: nat)
    ensures NeverFollowed(server, first) <==> LostOnlyLater(server, first)
  {
    if LostOnlyLater(server, first) {
      forall n: Net, w: World | w.script.server == server && n.log == Nothing && n.body.None? && n.sent == first
        ensures NoCardAfter202(AllNicsDone(n, w).0.log)
      {
        RunNotFollowed(n, w);
      }
    } else {
      var i :| first <= i && Failed202(server, i) && NoneClean(server, first, i);
      UnluckyRun(server, first, i);
      assert Unlucky(server, first, i).script.server == server;
    }
  }
}
