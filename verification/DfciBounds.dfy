/** How many requests a run makes and how long it sleeps, for every server and every set of cards. */
module DfciBounds {
  import opened DfciHttp
  import opened DfciLogic
  import opened Wrappers

  /** From n to r at most so many requests and so many seconds of sleep. */
  predicate Costs(n: Net, r: Net, requests: nat, seconds: nat) {
    n.sent <= r.sent <= n.sent + requests && Sum(r.waits) <= Sum(n.waits) + seconds
  }

  /** A stage, or a card of two stages, that is taken up costs twice as much as one that is not. */
  predicate CostsUpTo(n: Net, r: Net, stages: nat, done: bool) {
    if done then Costs(n, r, 12 * stages, 240 * stages) else Costs(n, r, 6 * stages, 120 * stages)
  }

  lemma RequestCosts(n: Net, w: World, q: Request, retryOn202: bool)
    ensures Costs(n, WithRetries(n, w, q, retryOn202).0, 6, 120)
  {
    if !EfiError(w.script.configure(n.configured)) {
      RetryBound(n.(configured := n.configured + 1), w.script, q, retryOn202);
    }
  }

  lemma AsyncCosts(n: Net, w: World, stage: Stage, url: Url)
    ensures var (r, _, done) := AsyncDone(n, w, stage, url);
            CostsUpTo(n, r, 1, done)
  {
    RequestCosts(n, w, Request(stage, Post, url), false);
    var (n1, s1) := WithRetries(n, w, Request(stage, Post, url), false);
    if !EfiError(s1) && n1.httpStatus == HTTP_STATUS_202_ACCEPTED {
      var location := if n1.headers.Some? then n1.headers.value.location else None;
      if location.Some? {
        RequestCosts(n1, w, Request(stage, Get, location.value), true);
      }
    }
  }

  lemma {:induction false} ElementsCostNothing(n: Net, w: World, stage: Stage, es: seq<Element>)
    ensures var r := ElementsDone(n, w, stage, es).0;
            r.sent == n.sent && r.waits == n.waits
    decreases |es|
  {
    hide ElementDone;
    if es != [] {
      ElementKeeps(n, w, stage, es[0]);
      var (n1, s1) := ElementDone(n, w, stage, es[0]);
      if Continues(s1) {
        ElementsCostNothing(n1, w, stage, es[1..]);
      }
    }
  }

  lemma StageCosts(n: Net, w: World, stage: Stage, url: Url)
    ensures var (r, _, done) := StageDone(n, w, stage, url);
            CostsUpTo(n, r, 1, done)
  {
    AsyncCosts(n, w, stage, url);
    var (n1, s1, done) := AsyncDone(n, w, stage, url);
    if !EfiError(s1) && n1.body.Some? {
      var n2 := n1.(logicState := if stage.BootstrapStage? then Bootstrap else Recovery);
      match w.parse(n2.body.value.bytes)
      case None =>
      case Some(es) => ElementsCostNothing(n2, w, stage, es);
    }
  }

  lemma RecoveryCosts(n: Net, w: World, done1: bool)
    ensures var (r, _, done) := RecoveryDone(n, w, done1);
            && (done1 ==> done && Costs(n, r, 12, 240))
            && (!done1 ==> CostsUpTo(n, r, 1, done))
  {
    if !EfiError(w.build(n.built)) {
      StageCosts(n.(built := n.built + 1), w, RecoveryStage, w.url);
    }
  }

  lemma MainCosts(n: Net, w: World)
    ensures var (r, _, done) := MainDone(n, w);
            CostsUpTo(n, r, 2, done)
  {
    var n0 := n.(logicState := PreBootstrap, built := n.built + 1);
    if !EfiError(w.build(n.built)) {
      StageCosts(n0, w, BootstrapStage, w.bootstrapUrl);
      var (n1, s1, done1) := StageDone(n0, w, BootstrapStage, w.bootstrapUrl);
      var m1 := BootstrapEnded(n1, s1);
      if NoUpdates(s1) {
        RecoveryCosts(m1, w, done1);
        assert MainDone(n, w) == RecoveryDone(m1, w, done1);
      }
    }
  }

  lemma NicCosts(n: Net, w: World, i: nat)
    requires i < |w.nics|
    ensures var (r, _, done) := NicDone(n, w, i);
            CostsUpTo(n, r, 2, done)
  {
    if !EfiError(w.nics[i].handleStatus) && w.nics[i].mediaPresent {
      MainCosts(n.(log := Then(n.log, NicStarted(i))), w);
    }
  }

  lemma {:induction false} NicsCost(n: Net, w: World, i: nat, done: bool, status: EfiStatus)
    requires i <= |w.nics|
    ensures var r := NicsDone(n, w, i, done, status).0;
            if done then r == n else Costs(n, r, 12 * (|w.nics| - i) + 12, 240 * (|w.nics| - i) + 240)
    decreases |w.nics| - i
  {
    if i < |w.nics| && !done {
      NicCosts(n, w, i);
      var (n1, s, d) := NicDone(n, w, i);
      NicsCost(n1, w, i + 1, d, s);
    }
  }

  /** A whole run makes at most 12 requests and sleeps at most 240 seconds per card, and once more as
      much on the card that is taken up. */
  lemma RunBound(n: Net, w: World)
    ensures Costs(n, AllNicsDone(n, w).0, 12 * |w.nics| + 12, 240 * |w.nics| + 240)
  {
    if !EfiError(w.locateStatus) && w.nics != [] {
      NicsCost(n, w, 0, false, w.locateStatus);
    }
  }
}
