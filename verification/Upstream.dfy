/** The relay's upstream half, cmd/terva-mcp-bridge/upstream.go: do, doWithReauth
    and call on one call's view of the remote. What the remote answers is a
    parameter; Sse reads the frame out of a response. */
module Upstream {
  import opened Text
  import opened Credential

  /** The frame in a response, once it is read and parsed. */
  datatype Body = NoBody | Unreadable | NotRpc | RpcError(code: int) | RpcResult(text: string)

  datatype Response = Unreached | Response(status: nat, session: string, body: Body)

  /** One POST: the world its header meets, and the response. */
  datatype Exchange = Exchange(world: World, response: Response)

  datatype Problem = NoHeader(why: Failure) | NotSent | HttpStatus(status: nat) | ReadFailed | Rejected(cause: Option<Failure>)

  /** What do gives back: a status, a body, and the error if any. */
  datatype Sent = Sent(status: nat, body: Body, err: Option<Problem>)

  const UNAUTHORIZED := 401
  const ACCEPTED := 202

  datatype CallError = Failed(why: Problem) | StillUnauthorized | UnparseableReply | ErrorReply(code: int)

  /** A POST that reached the remote. */
  predicate Posted(auth: Relay.Auth, t: Stored, e: Exchange) {
    (!auth.OAuth? || Headed(t, e.world).1.Ok?) && e.response.Response?
  }

  /** A POST that gives no error, short of a 401. */
  predicate Lands(auth: Relay.Auth, t: Stored, e: Exchange) {
    Posted(auth, t, e) && e.response.status < 400 && (e.response.status == ACCEPTED || !e.response.body.Unreadable?)
  }

  /** A POST whose response carries a result. */
  predicate Answers(auth: Relay.Auth, t: Stored, e: Exchange) {
    Posted(auth, t, e) && e.response.status < 400 && e.response.status != ACCEPTED && e.response.body.RpcResult?
  }

  /** The tokens after the header of a POST. */
  function AfterHeader(auth: Relay.Auth, t: Stored, w: World): Stored {
    if auth.OAuth? then Headed(t, w).0 else t
  }

  predicate Rejects(auth: Relay.Auth, t: Stored, e: Exchange) {
    Posted(auth, t, e) && e.response.status == UNAUTHORIZED
  }

  /** Whether a 401 can be followed by a second POST. */
  predicate Renewable(auth: Relay.Auth, t: Stored, w: World) {
    auth.OAuth? && Renewed(t, w.answer, w.saved, w.now).1.None?
  }

  /** The exchange that decides a call, and the tokens it starts from: the
      second only after a 401 and a renewed credential. */
  function Deciding(auth: Relay.Auth, t: Stored, first: Exchange, w: World, second: Exchange): (Stored, Exchange) {
    var held := AfterHeader(auth, t, first.world);
    if Rejects(auth, t, first) && Renewable(auth, held, w)
    then (Renewed(held, w.answer, w.saved, w.now).0, second)
    else (t, first)
  }

  class Upstream {
    const auth: Relay.Auth
    const source: OAuthSource
    var sessionID: string
    var posts: nat
    var reauths: nat

    constructor (auth: Relay.Auth, source: OAuthSource)
      ensures this.auth == auth && this.source == source && sessionID == "" && posts == 0 && reauths == 0
    {
      this.auth, this.source, sessionID, posts, reauths := auth, source, "", 0, 0;
    }

    /** do: one POST. The session the remote names is kept, whatever the status. */
    method Do(e: Exchange) returns (r: Sent)
      modifies this, source
      ensures reauths == old(reauths)
      ensures source.toks == AfterHeader(auth, old(source.toks), e.world)
      ensures var posted := Posted(auth, old(source.toks), e);
        posts <= old(posts) + 1 && (posted ==> posts == old(posts) + 1) &&
        (posts == old(posts) ==> r.err.Some? && r.err.value.NoHeader?) &&
        (sessionID == if posted && e.response.session != "" then e.response.session else old(sessionID)) &&
        (r.status == UNAUTHORIZED <==> Rejects(auth, old(source.toks), e)) &&
        (r.status == UNAUTHORIZED ==> r.err.None?) &&
        (r.err.None? && r.status != UNAUTHORIZED <==> Lands(auth, old(source.toks), e)) &&
        (r.err.None? ==> r.status == e.response.status) &&
        (r.err.None? && r.status != UNAUTHORIZED ==> r.body == if r.status == ACCEPTED then NoBody else e.response.body)
    {
      if auth.OAuth? {
        var header := source.Header(e.world);
        if header.Err? {
          return Sent(0, NoBody, Some(NoHeader(header.error)));
        }
      }
      posts := posts + 1;
      if e.response.Unreached? {
        return Sent(0, NoBody, Some(NotSent));
      }
      if e.response.session != "" {
        sessionID := e.response.session;
      }
      var status := e.response.status;
      if status == UNAUTHORIZED {
        return Sent(status, NoBody, None);
      }
      if status >= 400 {
        return Sent(status, NoBody, Some(HttpStatus(status)));
      }
      if status == ACCEPTED {
        return Sent(status, NoBody, None);
      }
      return Sent(status, e.response.body, if e.response.body.Unreadable? then Some(ReadFailed) else None);
    }

    /** doWithReauth: after a 401 the credential is renewed once and the frame
        sent once more. The final status is reported. */
    method DoWithReauth(first: Exchange, w: World, second: Exchange) returns (r: Sent)
      modifies this, source
      ensures posts <= old(posts) + 2 && reauths <= old(reauths) + 1 && posts - old(posts) <= reauths - old(reauths) + 1
      ensures reauths == old(reauths) + 1 <==> Rejects(auth, old(source.toks), first)
      ensures var (t, e) := Deciding(auth, old(source.toks), first, w, second);
        (r.err.None? && r.status == UNAUTHORIZED ==> Rejects(auth, t, e)) &&
        (r.status != UNAUTHORIZED ==> !Rejects(auth, t, e)) &&
        (r.err.None? && r.status != UNAUTHORIZED <==> Lands(auth, t, e)) &&
        (r.err.None? && r.status != UNAUTHORIZED ==>
          r.status == e.response.status && (r.body == if r.status == ACCEPTED then NoBody else e.response.body))
    {
      r := Do(first);
      if r.status != UNAUTHORIZED {
        return;
      }
      reauths := reauths + 1;
      if !auth.OAuth? {
        return r.(err := Some(Rejected(None)));
      }
      var err := source.Reauth(w);
      if err.Some? {
        return r.(err := Some(Rejected(err)));
      }
      r := Do(second);
    }

    /** call: a result is what the deciding POST was answered with, which was
        not a 401, and every failure is told apart. */
    method Call(first: Exchange, w: World, second: Exchange) returns (r: Result<string, CallError>)
      modifies this, source
      ensures posts <= old(posts) + 2 && reauths <= old(reauths) + 1
      ensures var (t, e) := Deciding(auth, old(source.toks), first, w, second);
        (r.Ok? <==> Answers(auth, t, e)) &&
        (r.Ok? ==> r.value == e.response.body.text) &&
        (r == Err(StillUnauthorized) ==> Rejects(auth, t, e) && reauths == old(reauths) + 1) &&
        (Rejects(auth, t, e) ==> r.Err? && (r.error.StillUnauthorized? || r.error.Failed?))
    {
      var sent := DoWithReauth(first, w, second);
      if sent.err.Some? {
        return Err(Failed(sent.err.value));
      }
      if sent.status == UNAUTHORIZED {
        return Err(StillUnauthorized);
      }
      match sent.body
      case RpcResult(text) => return Ok(text);
      case RpcError(code) => return Err(ErrorReply(code));
      case _ => return Err(UnparseableReply);
    }
  }
}
