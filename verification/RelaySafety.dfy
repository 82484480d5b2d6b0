/** What every reachable state of the relay keeps, whatever the interleaving. */
module RelaySafety {
  import opened Text
  import opened Sorting
  import opened Relay

  // Whose phase is whose

  /** The refresh token now in use: the last one the server issued. */
  function Newest(first: string, issued: seq<string>): string {
    if issued == [] then first else issued[|issued| - 1]
  }

  /** The retry protocol: a call makes at most two POSTs and one reauth, and
      gives a result only when its last POST was answered. */
  predicate Budget(c: Config, h: Handler) {
    match h.phase
    case Begin => h.posts == 0 && h.reauths == 0 && h.last.NotSent?
    case WantAuth(again, renew) => Asking(h, again, renew)
    case HoldsAuth(again, renew) => Asking(h, again, renew)
    case Refreshing(again, renew, _) => Asking(h, again, renew)
    case Saving(again, renew) => Asking(h, again, renew)
    case Sending(again) => Asking(h, again, false)
    case Replying(reply) => Answering(c, h, reply)
    case Writing(reply, _) => Answering(c, h, reply)
    case Finished(reply) => Answering(c, h, reply)
  }

  predicate Asking(h: Handler, again: bool, renew: bool) {
    h.verb.Tools? && !(again && renew) &&
    h.posts == (if again || renew then 1 else 0) && h.reauths == h.posts &&
    h.last == if again || renew then Unauthorized else NotSent
  }

  predicate Answering(c: Config, h: Handler, reply: Reply) {
    h.posts <= 2 && h.reauths <= 1 && h.posts <= h.reauths + 1 &&
    match h.verb
    case Initialize => reply == Result(c.welcome) && h.posts == 0
    case Ping => reply == Result("{}") && h.posts == 0
    case Tools => reply == (if h.last.Answered? then Result(h.last.body) else Error(-32000)) && (h.last.NotSent? <==> h.posts == 0)
    case OtherVerb => reply == Error(-32601) && h.posts == 0
  }

  ghost predicate HandlerOk(c: Config, a: Shared, i: nat, h: Handler) {
    Budget(c, h) &&
    (InAuth(h.phase) <==> a.authLock == Some(i)) &&
    (h.phase.Writing? <==> a.outLock == Some(i)) &&
    (Started(h.phase) <==> i in a.order) &&
    (h.phase.Refreshing? ==> h.phase.sent == a.toks && a.toks.refresh != "")
  }

  ghost predicate TokensOk(c: Config, a: Shared) {
    a.toks.client == c.initial.client &&
    a.toks.refresh == Newest(c.initial.refresh, a.issued) &&
    "" !in a.issued &&
    (a.toks.access == "" ==> a.toks == c.initial)
  }

  lemma OwnKept(c: Config, i: nat, h: Handler, a: Shared, g: Handler, b: Shared, choice: Choice)
    requires HandlerOk(c, a, i, h) && TokensOk(c, a) && Act(c, i, h, a, g, b, choice)
    ensures HandlerOk(c, b, i, g) && g.id == h.id && g.verb == h.verb
  {
  }

  lemma OthersKept(c: Config, i: nat, h: Handler, a: Shared, g: Handler, b: Shared, choice: Choice, j: nat, other: Handler)
    requires HandlerOk(c, a, i, h) && Act(c, i, h, a, g, b, choice)
    requires j != i && HandlerOk(c, a, j, other)
    ensures HandlerOk(c, b, j, other)
  {
  }

  lemma TokensKept(c: Config, i: nat, h: Handler, a: Shared, g: Handler, b: Shared, choice: Choice)
    requires HandlerOk(c, a, i, h) && TokensOk(c, a) && Act(c, i, h, a, g, b, choice)
    ensures TokensOk(c, b)
    ensures (b.toks == a.toks && b.issued == a.issued) || a.authLock == Some(i)
  {
  }

  // The output

  function ReplyOf(h: Handler): Reply
    requires Started(h.phase)
  {
    h.phase.reply
  }

  function Line(w: Wire, h: Handler): string
    requires Started(h.phase)
  {
    w.encode(h.id, ReplyOf(h)) + "\n"
  }

  ghost predicate AllStarted(hs: seq<Handler>, order: seq<nat>) {
    forall k | 0 <= k < |order| :: order[k] < |hs| && Started(hs[order[k]].phase)
  }

  /** The lines of the handlers named, one after the other. */
  ghost function Lines(w: Wire, hs: seq<Handler>, order: seq<nat>): string
    requires AllStarted(hs, order)
  {
    if order == [] then "" else Lines(w, hs, order[..|order| - 1]) + Line(w, hs[order[|order| - 1]])
  }

  lemma {:induction false} LinesKept(w: Wire, hs: seq<Handler>, i: nat, g: Handler, order: seq<nat>)
    requires AllStarted(hs, order) && i < |hs|
    requires Started(hs[i].phase) ==> Started(g.phase) && ReplyOf(g) == ReplyOf(hs[i]) && g.id == hs[i].id
    ensures AllStarted(hs[i := g], order) && Lines(w, hs[i := g], order) == Lines(w, hs, order)
  {
    assert AllStarted(hs[i := g], order);
    if order != [] {
      LinesKept(w, hs, i, g, order[..|order| - 1]);
    }
  }

  lemma {:induction false} LinesAlongside(w: Wire, hs: seq<Handler>, more: seq<Handler>, order: seq<nat>)
    requires AllStarted(hs, order)
    ensures AllStarted(hs + more, order) && Lines(w, hs + more, order) == Lines(w, hs, order)
  {
    assert AllStarted(hs + more, order);
    if order != [] {
      LinesAlongside(w, hs, more, order[..|order| - 1]);
    }
  }

  /** What the writer that holds the output has still to write. */
  function Unwritten(hs: seq<Handler>, a: Shared): string {
    if a.outLock.Some? && a.outLock.value < |hs| && hs[a.outLock.value].phase.Writing?
    then hs[a.outLock.value].phase.rest else ""
  }

  /** The output, with what its writer still holds, is whole lines. */
  ghost predicate OutputOk(c: Config, hs: seq<Handler>, a: Shared) {
    NoDuplicates(a.order) && AllStarted(hs, a.order) &&
    (a.outLock.Some? ==> a.outLock.value < |hs|) &&
    a.out + Unwritten(hs, a) == Lines(c.wire, hs, a.order)
  }

  lemma OutputStarts(c: Config, i: nat, hs: seq<Handler>, a: Shared, g: Handler, b: Shared)
    requires i < |hs| && HandlerOk(c, a, i, hs[i]) && OutputOk(c, hs, a)
    requires LockOutStep(c, i, hs[i], a, g, b)
    ensures OutputOk(c, hs[i := g], b)
  {
    var hs' := hs[i := g];
    LinesKept(c.wire, hs, i, g, a.order);
    SnocNoDuplicates(a.order, i);
    assert AllStarted(hs', b.order);
    assert b.order[..|b.order| - 1] == a.order;
    assert a.out == Lines(c.wire, hs, a.order);
    assert Lines(c.wire, hs', b.order) == Lines(c.wire, hs', a.order) + Line(c.wire, g);
  }

  lemma OutputWrites(c: Config, i: nat, hs: seq<Handler>, a: Shared, g: Handler, b: Shared, k: nat)
    requires i < |hs| && HandlerOk(c, a, i, hs[i]) && OutputOk(c, hs, a)
    requires WriteStep(c, hs[i], a, g, b, k)
    ensures OutputOk(c, hs[i := g], b)
  {
    LinesKept(c.wire, hs, i, g, a.order);
    PartWritten(a.out, hs[i].phase.rest, k);
  }

  lemma PartWritten<T>(out: seq<T>, rest: seq<T>, k: nat)
    requires k <= |rest|
    ensures out + rest == (out + rest[..k]) + rest[k..]
  {
  }

  lemma OutputKept(c: Config, i: nat, hs: seq<Handler>, a: Shared, g: Handler, b: Shared, choice: Choice)
    requires i < |hs| && HandlerOk(c, a, i, hs[i]) && OutputOk(c, hs, a) && Act(c, i, hs[i], a, g, b, choice)
    ensures OutputOk(c, hs[i := g], b)
  {
    if choice.TakeOut? {
      OutputStarts(c, i, hs, a, g, b);
    } else if choice.Write? {
      OutputWrites(c, i, hs, a, g, b, choice.k);
    } else {
      LinesKept(c.wire, hs, i, g, a.order);
    }
  }

  // The handlers of the requests read

  function Requests(input: seq<InFrame>): seq<InFrame> {
    if input == [] then []
    else
      var f := input[|input| - 1];
      Requests(input[..|input| - 1]) + if f.Request? then [f] else []
  }

  /** One handler for each request read, in order, and none for anything else. */
  ghost predicate HandlersMatch(requests: seq<InFrame>, hs: seq<Handler>) {
    |hs| == |requests| &&
    forall i | 0 <= i < |hs| :: requests[i].Request? && hs[i].id == requests[i].id && hs[i].verb == requests[i].verb
  }

  // The invariant

  ghost predicate ReaderOk(s: State) {
    s.pos <= |s.input| &&
    (!s.reader.Reading? ==> s.pos == |s.input|) &&
    (s.reader.Returned? ==> forall i | 0 <= i < |s.handlers| :: s.handlers[i].phase.Finished?)
  }

  ghost predicate AllOk(c: Config, s: State) {
    (s.shared.authLock.Some? ==> s.shared.authLock.value < |s.handlers|) &&
    forall i | 0 <= i < |s.handlers| :: HandlerOk(c, s.shared, i, s.handlers[i])
  }

  ghost predicate Inv(c: Config, s: State) {
    ReaderOk(s) && AllOk(c, s) && TokensOk(c, s.shared) && OutputOk(c, s.handlers, s.shared) &&
    HandlersMatch(Requests(s.input[..s.pos]), s.handlers)
  }

  lemma InitHolds(c: Config, s: State)
    requires Init(c, s)
    ensures Inv(c, s)
  {
  }

  lemma HandlerStepKeeps(c: Config, s: State, t: State, i: nat, choice: Choice)
    requires Inv(c, s) && HandlerStep(c, s, t, i, choice)
    ensures Inv(c, t)
  {
    var h, g := s.handlers[i], t.handlers[i];
    OwnKept(c, i, h, s.shared, g, t.shared, choice);
    TokensKept(c, i, h, s.shared, g, t.shared, choice);
    OutputKept(c, i, s.handlers, s.shared, g, t.shared, choice);
    forall j: nat | j < |t.handlers| ensures HandlerOk(c, t.shared, j, t.handlers[j]) {
      if j != i {
        OthersKept(c, i, h, s.shared, g, t.shared, choice, j, s.handlers[j]);
      }
    }
    assert !h.phase.Finished?;
  }

  lemma RequestsMore(input: seq<InFrame>, n: nat)
    requires n < |input|
    ensures Requests(input[..n + 1]) == Requests(input[..n]) + if input[n].Request? then [input[n]] else []
  {
    assert input[..n + 1][..n] == input[..n] && input[..n + 1][n] == input[n];
  }

  /** A handler starts for a request that was read. */
  lemma HandlerStarts(c: Config, s: State, f: InFrame)
    requires Inv(c, s) && f.Request? && s.reader.Reading?
    ensures var t := s.(handlers := s.handlers + [Start(f)]);
      AllOk(c, t) && OutputOk(c, t.handlers, t.shared) && HandlersMatch(Requests(s.input[..s.pos]) + [f], t.handlers)
  {
    var n := |s.handlers|;
    var t := s.(handlers := s.handlers + [Start(f)]);
    assert n !in s.shared.order;
    LinesAlongside(c.wire, s.handlers, [Start(f)], s.shared.order);
    assert HandlerOk(c, t.shared, n, t.handlers[n]);
    forall i | 0 <= i < n ensures HandlerOk(c, t.shared, i, t.handlers[i]) {
      assert t.handlers[i] == s.handlers[i];
    }
  }

  lemma RequestRead(c: Config, s: State, t: State)
    requires Inv(c, s) && s.reader.Reading? && s.pos < |s.input| && ReaderStep(s, t)
    ensures Inv(c, t)
  {
    var f := s.input[s.pos];
    RequestsMore(s.input, s.pos);
    if f.Request? {
      HandlerStarts(c, s, f);
    }
  }

  lemma StepKeeps(c: Config, s: State, t: State)
    requires Inv(c, s) && Next(c, s, t)
    ensures Inv(c, t) && t.input == s.input
  {
    if ReaderStep(s, t) {
      if s.reader.Reading? && s.pos < |s.input| {
        RequestRead(c, s, t);
      }
    } else {
      var i: nat, choice :| HandlerStep(c, s, t, i, choice);
      HandlerStepKeeps(c, s, t, i, choice);
    }
  }

  lemma {:induction false} RunKeeps(c: Config, run: seq<State>, k: nat)
    requires IsRun(c, run) && k < |run|
    ensures Inv(c, run[k]) && run[k].input == run[0].input
  {
    if k == 0 {
      InitHolds(c, run[0]);
    } else {
      RunKeeps(c, run, k - 1);
      StepKeeps(c, run[k - 1], run[k]);
    }
  }
}
