/** Which body a stage takes for its answer. The client wants a response with the final 200 and only
    looks at whether its body field is set; that field survives a request that is not repeated. */
module DfciBody {
  import opened DfciHttp
  import opened DfciLogic
  import opened Wrappers

  /** The last exchange of the request for an answer that starts at n. */
  function GetLast(n: Net, w: World): (last: nat)
    ensures n.sent <= last
  {
    LastAttempt(w.script, n.sent, true, 6)
  }

  /** The final answer to the request is 200. */
  predicate Served(n: Net, w: World) {
    && !EfiError(w.script.configure(n.configured))
    && !EfiError(StatusOf(w.script.server(GetLast(n, w))))
    && CodeOf(w.script.server(GetLast(n, w))) == HTTP_STATUS_200_OK
  }

  /** What is taken for the answer, for every server: the content of the final 200 if it has any. If it
      has none, a body left from before the request, provided the first attempt was answered 200. */
  lemma AnswerTaken(n: Net, w: World, stage: Stage, location: Url)
    ensures var (r, s) := Fetched(n, w, stage, location);
            var last := GetLast(n, w);
            var x := w.script.server(last);
            if !Served(n, w) then EfiError(s)
            else if BringsBody(x) then
              s == Success && r.body == Some(Body(Assemble([], x.contentLength, x.chunks).bytes + [0], last))
            else if last == n.sent && n.body.Some? then s == Success && r.body == n.body
            else s == ProtocolError
  {
    if !EfiError(w.script.configure(n.configured)) {
      RequestIs(n, w, Request(stage, Get, location), true);
      EndsWell(w.script.server(GetLast(n, w)));
    }
  }

  /** Whatever the server does, an answer that is taken came with the request's own final reply. */
  ghost predicate AnswersAreOwn(n: Net, stage: Stage, location: Url) {
    forall w: World :: !EfiError(Fetched(n, w, stage, location).1) ==>
      BringsBody(w.script.server(GetLast(n, w)))
  }

  /** A network that answers every request 200 and sends no content. */
  function EmptyAnswers(): World {
    World(
      Script(_ => Reply(HTTP_STATUS_200_OK, Headers(None, None), 0, true, []), _ => Success),
      Success, [], "", "", _ => Success, _ => Success, _ => None, _ => NotSizable, _ => 0, _ => 0)
  }

  /** "A response is required" holds exactly when no body is left over when the request is made. */
  lemma AnswersAreOwnIff(n: Net, stage: Stage, location: Url)
    ensures AnswersAreOwn(n, stage, location) <==> n.body.None?
    ensures PlausibleScript(EmptyAnswers().script)
  {
    if n.body.None? {
      forall w: World | !EfiError(Fetched(n, w, stage, location).1)
        ensures BringsBody(w.script.server(GetLast(n, w)))
      {
        AnswerTaken(n, w, stage, location);
      }
    } else {
      var w := EmptyAnswers();
      assert !Repeats(w.script.server(n.sent), true);
      AnswerTaken(n, w, stage, location);
      assert !BringsBody(w.script.server(GetLast(n, w)));
    }
  }

  // ---- what the POST leaves over ----

  function PostLast(n: Net, w: World): (last: nat)
    ensures n.sent <= last
  {
    LastAttempt(w.script, n.sent, false, 6)
  }

  /** The POST is accepted and points somewhere. */
  predicate PointedOn(n: Net, w: World) {
    var x := w.script.server(PostLast(n, w));
    && !EfiError(w.script.configure(n.configured)) && !EfiError(StatusOf(x))
    && x.Reply? && x.code == HTTP_STATUS_202_ACCEPTED && x.headers.location.Some?
  }

  /** The request structure when the POST has been accepted. */
  function Posted(n: Net, w: World, stage: Stage, url: Url): Net {
    WithRetries(n, w, Request(stage, Post, url), false).0
  }

  /** The 202 leaves its own content; without content it leaves the body that was there, unless an
      attempt before it was refused. */
  lemma PostLeaves(n: Net, w: World, stage: Stage, url: Url)
    requires PointedOn(n, w)
    ensures var x := w.script.server(PostLast(n, w));
            var r := Posted(n, w, stage, url);
            && r.body == BodyAfter(if PostLast(n, w) == n.sent then n.body else None, x, PostLast(n, w))
            && r.sent == PostLast(n, w) + 1 && r.configured == n.configured + 1
            && r.mailboxes == n.mailboxes
            && AsyncDone(n, w, stage, url) ==
               (Fetched(r, w, stage, x.headers.location.value).0,
                Fetched(r, w, stage, x.headers.location.value).1, true)
  {
    RequestIs(n, w, Request(stage, Post, url), false);
  }

  /** Both stages of a request: the body applied is the final 200's own unless the 200 came empty and at
      once after a 202 with content, or after a first 202 without content in a request that already held
      a body. */
  lemma StageAnswer(n: Net, w: World, stage: Stage, url: Url)
    requires PointedOn(n, w)
    ensures var post := w.script.server(PostLast(n, w));
            var m := Posted(n, w, stage, url);
            var get := w.script.server(GetLast(m, w));
            var (r, s, done) := AsyncDone(n, w, stage, url);
            done &&
            (Served(m, w) && !BringsBody(get) ==>
              (!EfiError(s) <==>
                 GetLast(m, w) == m.sent && (BringsBody(post) || (PostLast(n, w) == n.sent && n.body.Some?))))
  {
    PostLeaves(n, w, stage, url);
    var m := Posted(n, w, stage, url);
    AnswerTaken(m, w, stage, w.script.server(PostLast(n, w)).headers.location.value);
  }

  /** A recovery request that is answered with two empty replies is taken to be answered by what the
      bootstrap stage received. */
  lemma BootstrapAnswerReused(n: Net, w: World, url: Url)
    requires PointedOn(n, w) && n.body.Some?
    requires PostLast(n, w) == n.sent && !BringsBody(w.script.server(n.sent))
    requires w.script.server(n.sent + 1) == Reply(HTTP_STATUS_200_OK, Headers(None, None), 0, true, [])
    requires !EfiError(w.script.configure(n.configured + 1))
    ensures var (r, s, _) := AsyncDone(n, w, RecoveryStage, url);
            s == Success && r.body == n.body
  {
    PostLeaves(n, w, RecoveryStage, url);
    var m := Posted(n, w, RecoveryStage, url);
    assert !Repeats(w.script.server(m.sent), true);
    AnswerTaken(m, w, RecoveryStage, w.script.server(n.sent).headers.location.value);
  }
}
