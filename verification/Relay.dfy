/** The MCP relay as a system of steps: serve, handle and write of
    cmd/terva-mcp-bridge/stdioserver.go, call and doWithReauth of upstream.go,
    and header, reauth and refreshLocked of auth.go with refreshTokens of
    oauth.go. Every request has a handler of its own. The handlers share the
    output and the credential, each behind a lock, and their steps interleave
    in any order. What the remote, the token endpoint, the clock and the token
    file answer is left open. */
module Relay {
  import opened Text

  // What goes over the wire

  datatype Verb = Initialize | Ping | Tools | OtherVerb

  /** A line of input: an empty one, one that is no frame, a frame without an
      id, and a request. */
  datatype InFrame = EmptyLine | NotRpc | Notification | Request(id: string, verb: Verb)

  datatype Reply = Result(body: string) | Error(code: int)

  /** How a reply is written, less its newline. */
  datatype Wire = Wire(encode: (string, Reply) -> string)

  /** JSON is written without line breaks. */
  ghost predicate OneLine(w: Wire) {
    forall id, r :: '\n' !in w.encode(id, r)
  }

  // The credential

  datatype Client = Client(id: string, secret: string, tokenEndpoint: string, resource: string)

  datatype Tokens = Tokens(access: string, refresh: string, client: Client)

  /** No credential, a fixed one, or stored OAuth tokens. */
  datatype Auth = NoAuth | Static | OAuth

  // A handler

  /** What the remote answered to the last POST of a call. */
  datatype Answer = NotSent | Unauthorized | Answered(body: string) | Failed

  /** Where a handler stands. again tells the second POST of a call from the
      first, and renew a reauth from the header of a POST. sent is what the
      credential held when the refresh was asked for. */
  datatype Phase =
    | Begin
    | WantAuth(again: bool, renew: bool)
    | HoldsAuth(again: bool, renew: bool)
    | Refreshing(again: bool, renew: bool, sent: Tokens)
    | Saving(again: bool, renew: bool)
    | Sending(again: bool)
    | Replying(reply: Reply)
    | Writing(reply: Reply, rest: string)
    | Finished(reply: Reply)

  datatype Handler = Handler(id: string, verb: Verb, phase: Phase, posts: nat, reauths: nat, last: Answer)

  predicate InAuth(p: Phase) {
    p.HoldsAuth? || p.Refreshing? || p.Saving?
  }

  predicate Started(p: Phase) {
    p.Writing? || p.Finished?
  }

  // The system

  /** What the handlers share. issued lists the refresh tokens the server has
      issued, and order the handlers whose reply has been started. */
  datatype Shared = Shared(
    authLock: Option<nat>, toks: Tokens, issued: seq<string>,
    outLock: Option<nat>, out: string, order: seq<nat>)

  datatype Reader = Reading | Waiting | Returned

  datatype State = State(input: seq<InFrame>, pos: nat, reader: Reader, handlers: seq<Handler>, shared: Shared)

  datatype Config = Config(wire: Wire, welcome: string, auth: Auth, initial: Tokens)

  ghost predicate Init(c: Config, s: State) {
    s.pos == 0 && s.reader.Reading? && s.handlers == [] &&
    s.shared == Shared(None, c.initial, [], None, "", [])
  }

  function Start(f: InFrame): Handler
    requires f.Request?
  {
    Handler(f.id, f.verb, Begin, 0, 0, NotSent)
  }

  /** The loop of serve: it takes the next line, or ends and waits. */
  predicate ReaderStep(s: State, t: State) {
    match s.reader
    case Reading =>
      if s.pos < |s.input| then
        t == s.(pos := s.pos + 1,
                handlers := if s.input[s.pos].Request? then s.handlers + [Start(s.input[s.pos])] else s.handlers)
      else t == s.(reader := Waiting)
    case Waiting =>
      (forall i | 0 <= i < |s.handlers| :: s.handlers[i].phase.Finished?) && t == s.(reader := Returned)
    case Returned => false
  }

  // One step of a handler: from h to g, with the shared state from a to b

  predicate BeginStep(c: Config, h: Handler, a: Shared, g: Handler, b: Shared) {
    h.phase.Begin? && b == a &&
    match h.verb
    case Tools => g == h.(phase := WantAuth(false, false))
    case OtherVerb => g == h.(phase := Replying(Error(-32601)))
    case Initialize => g == h.(phase := Replying(Result(c.welcome)))
    case Ping => g == h.(phase := Replying(Result("{}")))
  }

  /** A credential with no lock: the header is fixed, and a 401 is final. */
  predicate FixedAuthStep(c: Config, h: Handler, a: Shared, g: Handler, b: Shared) {
    h.phase.WantAuth? && !c.auth.OAuth? && b == a &&
    g == h.(phase := if h.phase.renew then Replying(Error(-32000)) else Sending(h.phase.again))
  }

  predicate LockAuthStep(c: Config, i: nat, h: Handler, a: Shared, g: Handler, b: Shared) {
    h.phase.WantAuth? && c.auth.OAuth? && a.authLock.None? &&
    b == a.(authLock := Some(i)) && g == h.(phase := HoldsAuth(h.phase.again, h.phase.renew))
  }

  /** The token is live: the header is sent, unless there is no token. */
  predicate HeaderStep(c: Config, h: Handler, a: Shared, g: Handler, b: Shared) {
    h.phase.HoldsAuth? && !h.phase.renew && b == a.(authLock := None) &&
    g == h.(phase := if a.toks.access == "" then Replying(Error(-32000)) else Sending(h.phase.again))
  }

  /** The token is renewed, because it expired or was rejected. */
  predicate RefreshStep(c: Config, h: Handler, a: Shared, g: Handler, b: Shared) {
    h.phase.HoldsAuth? &&
    if a.toks.refresh == "" then b == a.(authLock := None) && g == h.(phase := Replying(Error(-32000)))
    else b == a && g == h.(phase := Refreshing(h.phase.again, h.phase.renew, a.toks))
  }

  /** The token endpoint refuses, or its answer cannot be used. */
  predicate RefusedStep(c: Config, h: Handler, a: Shared, g: Handler, b: Shared) {
    h.phase.Refreshing? && b == a.(authLock := None) && g == h.(phase := Replying(Error(-32000)))
  }

  /** The tokens that an answer of the token endpoint leaves: a refresh token
      the server did not rotate carries forward. */
  function Renewed(sent: Tokens, access: string, refresh: string): Tokens {
    Tokens(access, if refresh == "" then sent.refresh else refresh, sent.client)
  }

  predicate IssuedStep(c: Config, h: Handler, a: Shared, g: Handler, b: Shared, access: string, refresh: string) {
    h.phase.Refreshing? && access != "" &&
    b == a.(toks := Renewed(h.phase.sent, access, refresh), issued := if refresh == "" then a.issued else a.issued + [refresh]) &&
    g == h.(phase := Saving(h.phase.again, h.phase.renew))
  }

  predicate SaveStep(c: Config, h: Handler, a: Shared, g: Handler, b: Shared, saved: bool) {
    h.phase.Saving? && b == a.(authLock := None) &&
    g == h.(phase := if !saved then Replying(Error(-32000))
                     else if h.phase.renew then WantAuth(true, false)
                     else Sending(h.phase.again))
  }

  /** One POST. The first 401 of a call renews the credential, the second ends it. */
  predicate PostStep(c: Config, h: Handler, a: Shared, g: Handler, b: Shared, answer: Answer) {
    h.phase.Sending? && !answer.NotSent? && b == a &&
    var sent := h.(posts := h.posts + 1, last := answer);
    match answer
    case Unauthorized =>
      g == if h.phase.again then sent.(phase := Replying(Error(-32000)))
           else sent.(reauths := h.reauths + 1, phase := WantAuth(false, true))
    case Answered(body) => g == sent.(phase := Replying(Result(body)))
    case _ => g == sent.(phase := Replying(Error(-32000)))
  }

  predicate LockOutStep(c: Config, i: nat, h: Handler, a: Shared, g: Handler, b: Shared) {
    h.phase.Replying? && a.outLock.None? &&
    b == a.(outLock := Some(i), order := a.order + [i]) &&
    g == h.(phase := Writing(h.phase.reply, c.wire.encode(h.id, h.phase.reply) + "\n"))
  }

  /** Some more of the frame reaches the output. */
  predicate WriteStep(c: Config, h: Handler, a: Shared, g: Handler, b: Shared, k: nat) {
    h.phase.Writing? && 0 < k <= |h.phase.rest| &&
    b == a.(out := a.out + h.phase.rest[..k]) &&
    g == h.(phase := Writing(h.phase.reply, h.phase.rest[k..]))
  }

  predicate UnlockOutStep(c: Config, h: Handler, a: Shared, g: Handler, b: Shared) {
    h.phase.Writing? && h.phase.rest == "" &&
    b == a.(outLock := None) && g == h.(phase := Finished(h.phase.reply))
  }

  /** What the environment decides in a step. */
  datatype Choice =
    | Local | FixedAuth | TakeAuth | Header | Refresh | Refused
    | Issued(access: string, refresh: string) | Save(ok: bool) | Post(answer: Answer)
    | TakeOut | Write(k: nat) | EndWrite

  predicate Act(c: Config, i: nat, h: Handler, a: Shared, g: Handler, b: Shared, choice: Choice) {
    match choice
    case Local => BeginStep(c, h, a, g, b)
    case FixedAuth => FixedAuthStep(c, h, a, g, b)
    case TakeAuth => LockAuthStep(c, i, h, a, g, b)
    case Header => HeaderStep(c, h, a, g, b)
    case Refresh => RefreshStep(c, h, a, g, b)
    case Refused => RefusedStep(c, h, a, g, b)
    case Issued(access, refresh) => IssuedStep(c, h, a, g, b, access, refresh)
    case Save(ok) => SaveStep(c, h, a, g, b, ok)
    case Post(answer) => PostStep(c, h, a, g, b, answer)
    case TakeOut => LockOutStep(c, i, h, a, g, b)
    case Write(k) => WriteStep(c, h, a, g, b, k)
    case EndWrite => UnlockOutStep(c, h, a, g, b)
  }

  predicate HandlerStep(c: Config, s: State, t: State, i: nat, choice: Choice) {
    i < |s.handlers| && |t.handlers| == |s.handlers| &&
    t == s.(handlers := s.handlers[i := t.handlers[i]], shared := t.shared) &&
    Act(c, i, s.handlers[i], s.shared, t.handlers[i], t.shared, choice)
  }

  ghost predicate Next(c: Config, s: State, t: State) {
    ReaderStep(s, t) || exists i, choice :: HandlerStep(c, s, t, i, choice)
  }

  ghost predicate IsRun(c: Config, run: seq<State>) {
    run != [] && Init(c, run[0]) && forall k | 0 <= k < |run| - 1 :: Next(c, run[k], run[k + 1])
  }
}
