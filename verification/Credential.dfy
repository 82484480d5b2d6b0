/** The relay's stored credential: oauthSource of cmd/terva-mcp-bridge/auth.go,
    with refreshTokens and postToken of oauth.go. The answers of the token
    endpoint, the clock and the outcome of saving are parameters. */
module Credential {
  import opened Text
  import Relay

  datatype Stored = Stored(access: string, refresh: string, kind: string, expiry: Option<int>, client: Relay.Client)

  // The token endpoint

  /** The fields of a token response. */
  datatype Fields = Fields(access: string, refresh: string, kind: string, expiresIn: int)

  /** What a POST to the token endpoint gives: a status and a body, which may
      not parse. */
  datatype Answer = Unreachable | Answered(status: nat, body: Option<Fields>)

  datatype Failure = NoRefreshToken | NoAccessToken | NotReached | BadStatus(status: nat) | Unparseable | NotIssued | NotSaved


  /** postToken, past the POST. */
  function PostToken(answer: Answer, client: Relay.Client, now: int): (r: Result<Stored, Failure>)
    ensures r.Ok? <==>
      answer.Answered? && 200 <= answer.status <= 299 && answer.body.Some? && answer.body.value.access != ""
    ensures r.Ok? ==> r.value.access != "" && r.value.client == client
  {
    if answer.Unreachable? then Err(NotReached)
    else if answer.status / 100 != 2 then Err(BadStatus(answer.status))
    else if answer.body.None? then Err(Unparseable)
    else
      var fields := answer.body.value;
      if fields.access == "" then Err(NotIssued)
      else
        var expiry := if fields.expiresIn > 0 then Some(now + fields.expiresIn) else None;
        Ok(Stored(fields.access, fields.refresh, fields.kind, expiry, client))
  }

  /** refreshTokens: a refresh token that was not rotated carries forward. */
  function RefreshTokens(answer: Answer, client: Relay.Client, refresh: string, now: int): Result<Stored, Failure> {
    match PostToken(answer, client, now)
    case Err(e) => Err(e)
    case Ok(t) => Ok(if t.refresh == "" then t.(refresh := refresh) else t)
  }

  const SKEW := 30

  /** expired: at or past its expiry, less the skew. No expiry is never past. */
  predicate Expired(t: Stored, now: int) {
    t.expiry.Some? && now + SKEW >= t.expiry.value
  }

  /** What one refresh leaves: the tokens, and the failure if any. */
  function Renewed(t: Stored, answer: Answer, saved: bool, now: int): (Stored, Option<Failure>) {
    if t.refresh == "" then (t, Some(NoRefreshToken))
    else
      match RefreshTokens(answer, t.client, t.refresh, now)
      case Err(e) => (t, Some(e))
      case Ok(t') => (t', if saved then None else Some(NotSaved))
  }

  /** What the outside does during one call. */
  datatype World = World(answer: Answer, saved: bool, now: int)

  function Bearer(access: string): Result<string, Failure> {
    if access == "" then Err(NoAccessToken) else Ok("Bearer " + access)
  }

  /** What asking for a header leaves, and the header. */
  function Headed(t: Stored, w: World): (Stored, Result<string, Failure>) {
    if Expired(t, w.now) then
      var (after, err) := Renewed(t, w.answer, w.saved, w.now);
      (after, if err.Some? then Err(err.value) else Bearer(after.access))
    else (t, Bearer(t.access))
  }

  class OAuthSource {
    var toks: Stored

    constructor (toks: Stored)
      ensures this.toks == toks
    {
      this.toks := toks;
    }

    /** refreshLocked */
    method RefreshLocked(w: World) returns (err: Option<Failure>)
      modifies this
      ensures (toks, err) == Renewed(old(toks), w.answer, w.saved, w.now)
    {
      if toks.refresh == "" {
        return Some(NoRefreshToken);
      }
      var t := RefreshTokens(w.answer, toks.client, toks.refresh, w.now);
      if t.Err? {
        return Some(t.error);
      }
      toks := t.value;
      err := if w.saved then None else Some(NotSaved);
    }

    /** header: it refreshes a token that is about to expire first. */
    method Header(w: World) returns (header: Result<string, Failure>)
      modifies this
      ensures (toks, header) == Headed(old(toks), w)
    {
      if Expired(toks, w.now) {
        var err := RefreshLocked(w);
        if err.Some? {
          return Err(err.value);
        }
      }
      if toks.access == "" {
        return Err(NoAccessToken);
      }
      return Ok("Bearer " + toks.access);
    }

    /** reauth */
    method Reauth(w: World) returns (err: Option<Failure>)
      modifies this
      ensures (toks, err) == Renewed(old(toks), w.answer, w.saved, w.now)
    {
      err := RefreshLocked(w);
    }
  }

  // What a refresh keeps

  /** The client stays, a refresh token is never lost, and the tokens change
      only when the server issued new ones. */
  lemma RenewedKeeps(t: Stored, answer: Answer, saved: bool, now: int)
    ensures var (after, err) := Renewed(t, answer, saved, now);
      after.client == t.client &&
      (t.refresh != "" ==> after.refresh != "") &&
      (after.refresh != t.refresh ==> answer.Answered? && answer.body.Some? && after.refresh == answer.body.value.refresh) &&
      (err.None? ==> after.access != "" && answer.Answered? && answer.body.Some? && after.access == answer.body.value.access) &&
      (after != t ==> answer.Answered? && 200 <= answer.status <= 299)
  {
  }

  /** A header carries a token that has thirty seconds left at the least, unless
      the server issued it just now, and asks for no other while the one it has
      is good. */
  lemma HeaderIsLive(t: Stored, w: World)
    ensures var (after, header) := Headed(t, w);
      (header.Ok? ==> header.value == "Bearer " + after.access && after.access != "") &&
      (after != t ==> t.expiry.Some? && t.expiry.value - w.now <= 30) &&
      (header.Ok? && after.expiry.Some? ==>
        after.expiry.value - w.now > 30 ||
        (w.answer.Answered? && w.answer.body.Some? && after.access == w.answer.body.value.access &&
          after.expiry.value == w.now + w.answer.body.value.expiresIn))
  {
  }

  // The steps of the relay

  function View(t: Stored): Relay.Tokens {
    Relay.Tokens(t.access, t.refresh, t.client)
  }

  /** How a handler that holds the credential leaves it. */
  function Outcome(again: bool, renew: bool, failed: bool): Relay.Phase {
    if failed then Relay.Replying(Relay.Error(-32000))
    else if renew then Relay.WantAuth(true, false)
    else Relay.Sending(again)
  }

  /** A refresh of the class is a run of the relay's steps between taking the
      lock and letting it go, with the same tokens at the end. */
  lemma RenewedIsSteps(c: Relay.Config, i: nat, h: Relay.Handler, a: Relay.Shared, t: Stored, w: World)
      returns (g: Relay.Handler, b: Relay.Shared)
    requires h.phase.HoldsAuth? && a.authLock == Some(i) && a.toks == View(t)
    ensures var (after, err) := Renewed(t, w.answer, w.saved, w.now);
      b.toks == View(after) && b.authLock.None? &&
      g == h.(phase := Outcome(h.phase.again, h.phase.renew, err.Some?))
    ensures exists steps :: Steps(c, i, h, a, steps, g, b)
  {
    var failed := h.(phase := Relay.Replying(Relay.Error(-32000)));
    var free := a.(authLock := None);
    if t.refresh == "" {
      g, b := failed, free;
      assert Steps(c, i, h, a, [Relay.Refresh], g, b) by {
        OneStep(c, i, h, a, Relay.Refresh, g, b);
      }
    } else {
      var asked := h.(phase := Relay.Refreshing(h.phase.again, h.phase.renew, a.toks));
      var r := PostToken(w.answer, t.client, w.now);
      if r.Err? {
        g, b := failed, free;
        OneStep(c, i, asked, a, Relay.Refused, g, b);
        FirstStep(c, i, h, a, Relay.Refresh, asked, a, [Relay.Refused], g, b);
      } else {
        var issue, save := Relay.Issued(r.value.access, r.value.refresh), Relay.Save(w.saved);
        var saving := h.(phase := Relay.Saving(h.phase.again, h.phase.renew));
        var renewed := a.(
          toks := Relay.Renewed(a.toks, r.value.access, r.value.refresh),
          issued := if r.value.refresh == "" then a.issued else a.issued + [r.value.refresh]);
        g, b := h.(phase := Outcome(h.phase.again, h.phase.renew, !w.saved)), renewed.(authLock := None);
        OneStep(c, i, saving, renewed, save, g, b);
        FirstStep(c, i, asked, a, issue, saving, renewed, [save], g, b);
        assert [issue] + [save] == [issue, save];
        FirstStep(c, i, h, a, Relay.Refresh, asked, a, [issue, save], g, b);
      }
    }
  }

  /** So is a header, with or without a refresh. */
  lemma HeadedIsSteps(c: Relay.Config, i: nat, h: Relay.Handler, a: Relay.Shared, t: Stored, w: World)
      returns (g: Relay.Handler, b: Relay.Shared)
    requires h.phase.HoldsAuth? && !h.phase.renew && a.authLock == Some(i) && a.toks == View(t)
    ensures var (after, header) := Headed(t, w);
      b.toks == View(after) && b.authLock.None? &&
      g == h.(phase := Outcome(h.phase.again, false, header.Err?))
    ensures exists steps :: Steps(c, i, h, a, steps, g, b)
  {
    if Expired(t, w.now) {
      RenewedKeeps(t, w.answer, w.saved, w.now);
      g, b := RenewedIsSteps(c, i, h, a, t, w);
    } else {
      g, b := h.(phase := Outcome(h.phase.again, false, t.access == "")), a.(authLock := None);
      OneStep(c, i, h, a, Relay.Header, g, b);
    }
  }

  /** The steps, one after the other, lead from the first state to the last. */
  ghost predicate Steps(c: Relay.Config, i: nat, h: Relay.Handler, a: Relay.Shared, steps: seq<Relay.Choice>, g: Relay.Handler, b: Relay.Shared)
    decreases |steps|
  {
    if steps == [] then g == h && b == a
    else exists m, d :: Relay.Act(c, i, h, a, m, d, steps[0]) && Steps(c, i, m, d, steps[1..], g, b)
  }

  lemma FirstStep(c: Relay.Config, i: nat, h: Relay.Handler, a: Relay.Shared, step: Relay.Choice,
      m: Relay.Handler, d: Relay.Shared, steps: seq<Relay.Choice>, g: Relay.Handler, b: Relay.Shared)
    requires Relay.Act(c, i, h, a, m, d, step) && Steps(c, i, m, d, steps, g, b)
    ensures Steps(c, i, h, a, [step] + steps, g, b)
  {
    assert ([step] + steps)[1..] == steps;
  }

  lemma OneStep(c: Relay.Config, i: nat, h: Relay.Handler, a: Relay.Shared, step: Relay.Choice, g: Relay.Handler, b: Relay.Shared)
    requires Relay.Act(c, i, h, a, g, b, step)
    ensures Steps(c, i, h, a, [step], g, b)
  {
    assert Steps(c, i, g, b, [], g, b);
    FirstStep(c, i, h, a, step, g, b, [], g, b);
    assert [step] + [] == [step];
  }
}
