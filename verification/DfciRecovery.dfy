/** A network recovery from the menu: certificates, request and message together. */
module DfciRecovery {
  import opened Bytes
  import opened DfciCertificates
  import opened DfciHttp
  import opened DfciLogic
  import opened DfciOutcome
  import opened DfciRequest
  import opened DfciSafety
  import opened DfciSources
  import opened DfciStages
  import opened Wrappers

  datatype Message = ErrorOccurred | NoUpdateNeeded | MoreUpdatesNeeded | RecoveryIsComplete

  /** The message format the user sees. */
  function MessageFor(status: EfiStatus, state: LogicState): Message {
    if status == Success && state == NoRecoveryAvailable then NoUpdateNeeded
    else if status == MediaChanged && state == BootstrapComplete then MoreUpdatesNeeded
    else if status == MediaChanged && state == RecoveryComplete then RecoveryIsComplete
    else ErrorOccurred
  }

  /** What the user is told is true, for every server and card: "no updates are available" means that
      no mailbox has changed, unless the variable services can hide a write, and a message about accepted
      updates that one has been written, by the bootstrap stage if more updates are announced and by the
      recovery stage if recovery is said to be complete. */
  lemma MessageTellsTheTruth(n: Net, w: World)
    requires PlainNetwork(w) && PlainServices(w)
    ensures var (r, s) := AllNicsDone(n, w);
            match MessageFor(s, r.logicState)
            case NoUpdateNeeded => s == Success && (r.mailboxes == n.mailboxes || RunCanHide(w, n.sets))
            case MoreUpdatesNeeded =>
              s == MediaChanged && StageWrites(r.log, BootstrapStage) > StageWrites(n.log, BootstrapStage)
            case RecoveryIsComplete =>
              s == MediaChanged && StageWrites(r.log, RecoveryStage) > StageWrites(n.log, RecoveryStage)
            case ErrorOccurred => s != Success && s != MediaChanged
  {
    hide AllNicsDone, RunCanHide;
    RunTells(n, w);
    RunAnnounces(n, w);
  }

  /** A request structure with its zones zeroed; the logic state belongs to no zone. */
  function Cleared(n: Net): Net {
    StatusCleaned(ResponseCleaned(n))
  }

  /** The middle of ProcessDfciNetworkRequest: the cards are tried and the message is chosen. */
  method RequestUpdates(request: NetworkRequest, w: World) returns (status: EfiStatus, message: Option<Message>)
    requires PlausibleScript(w.script)
    modifies request
    ensures (request.View(), status) == AllNicsDone(old(request.View()), w)
    ensures message == Some(MessageFor(status, request.logicState))
    ensures old(request.log) == Nothing ==> Safe(request.log)
    ensures old(request.log) == Nothing && old(request.body) == None ==> SourcesKnown(request.log, w.script)
  {
    status := request.TryEachNICThenProcessRequest(w);
    message := Some(MessageFor(status, request.logicState));
  }

  /** ProcessDfciNetworkRequest. initialized is the status of reading the settings. */
  method ProcessDfciNetworkRequest(
    keeper: CertificateKeeper, f: Faults, request: NetworkRequest, w: World, initialized: EfiStatus,
    packaged: seq<byte>)
    returns (status: EfiStatus, message: Option<Message>)
    requires PlausibleScript(w.script)
    modifies keeper, request
    ensures keeper.View() == Processed(old(keeper.View()), f, initialized, packaged)
    ensures var started := Cleared(old(request.View()));
            if EfiError(initialized) then
              status == initialized && message == None && request.View() == started
            else if EfiError(Enabled(old(keeper.View()), f, packaged).1) then
              status == Enabled(old(keeper.View()), f, packaged).1 && message == None && request.View() == started
            else
              var (r, s) := AllNicsDone(started, w);
              && status == s && message == Some(MessageFor(s, r.logicState))
              && request.View() == Cleared(r)
    ensures old(request.log) == Nothing ==> Safe(request.log) && SourcesKnown(request.log, w.script)
  {
    hide Enabled, Restored, AllNicsDone;
    message := None;
    request.CleanupStatus();
    request.CleanupResponse();
    status := initialized;
    if !EfiError(status) {
      status := keeper.EnableDfciCertificate(f, packaged);
      if !EfiError(status) {
        status, message := RequestUpdates(request, w);
      }
    }
    keeper.RestoreCertificates(f);
    request.CleanupResponse();
    request.CleanupStatus();
  }
}
