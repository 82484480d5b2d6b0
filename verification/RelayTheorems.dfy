/** What the relay promises over whole runs: one reply a request, a bounded
    retry, a credential that is never lost, and no deadlock. */
module RelayTheorems {
  import opened Text
  import opened Sorting
  import opened Relay
  import opened RelaySafety

  // A list in another order

  function Picked<T>(xs: seq<T>, order: seq<nat>): seq<T>
    requires forall k | 0 <= k < |order| :: order[k] < |xs|
  {
    if order == [] then [] else Picked(xs, order[..|order| - 1]) + [xs[order[|order| - 1]]]
  }

  lemma {:induction false} PickedConcat<T>(xs: seq<T>, a: seq<nat>, b: seq<nat>)
    requires forall k | 0 <= k < |a + b| :: (a + b)[k] < |xs|
    ensures (forall k | 0 <= k < |a| :: a[k] < |xs|) && (forall k | 0 <= k < |b| :: b[k] < |xs|)
    ensures Picked(xs, a + b) == Picked(xs, a) + Picked(xs, b)
  {
    assert forall k | 0 <= k < |a| :: a[k] < |xs| by {
      forall k | 0 <= k < |a| ensures a[k] < |xs| {
        assert (a + b)[k] == a[k];
      }
    }
    assert forall k | 0 <= k < |b| :: b[k] < |xs| by {
      forall k | 0 <= k < |b| ensures b[k] < |xs| {
        assert (a + b)[|a| + k] == b[k];
      }
    }
    if b == [] {
      assert a + b == a;
    } else {
      var init := b[..|b| - 1];
      assert (a + b)[..|a + b| - 1] == a + init;
      PickedConcat(xs, a, init);
    }
  }

  lemma {:induction false} PickedPrefix<T>(xs: seq<T>, n: nat, order: seq<nat>)
    requires n <= |xs| && forall k | 0 <= k < |order| :: order[k] < n
    ensures Picked(xs[..n], order) == Picked(xs, order)
  {
    if order != [] {
      PickedPrefix(xs, n, order[..|order| - 1]);
    }
  }

  lemma PickedApart<T>(xs: seq<T>, a: seq<nat>, i: nat, b: seq<nat>)
    requires forall k | 0 <= k < |a + ([i] + b)| :: (a + ([i] + b))[k] < |xs|
    requires forall k | 0 <= k < |a + b| :: (a + b)[k] < |xs|
    ensures i < |xs|
    ensures multiset(Picked(xs, a + ([i] + b))) == multiset(Picked(xs, a + b)) + multiset{xs[i]}
  {
    PickedConcat(xs, a, [i] + b);
    PickedConcat(xs, [i], b);
    PickedConcat(xs, a, b);
    assert Picked(xs, [i]) == [xs[i]];
  }

  lemma NoDuplicatesWithout<T>(a: seq<T>, x: T, b: seq<T>)
    requires NoDuplicates(a + ([x] + b))
    ensures NoDuplicates(a + b) && x !in a + b
  {
    var whole := a + ([x] + b);
    assert forall k | 0 <= k < |a| :: whole[k] == a[k];
    assert forall k | 0 <= k < |b| :: whole[|a| + 1 + k] == b[k];
    assert whole[|a|] == x;
  }

  lemma OthersRemain<T>(a: seq<T>, x: T, b: seq<T>, y: T)
    ensures y in a + ([x] + b) <==> y == x || y in a + b
  {
  }

  lemma LastPlace(order: seq<nat>, n: nat) returns (a: seq<nat>, b: seq<nat>)
    requires NoDuplicates(order) && forall k | 0 <= k < |order| :: order[k] <= n
    requires forall i: nat | i <= n :: i in order
    ensures order == a + ([n] + b) && NoDuplicates(a + b)
    ensures forall k | 0 <= k < |a + b| :: (a + b)[k] < n
    ensures forall i: nat | i < n :: i in a + b
  {
    a, b := SplitAtElement(order, n);
    NoDuplicatesWithout(a, n, b);
    forall i: nat ensures i in order <==> i == n || i in a + b {
      OthersRemain(a, n, b, i);
    }
    AllBelow(order, n, a + b);
  }

  lemma AllBelow(order: seq<nat>, n: nat, rest: seq<nat>)
    requires forall k | 0 <= k < |order| :: order[k] <= n
    requires n !in rest && forall i: nat | i in rest :: i in order
    ensures forall k | 0 <= k < |rest| :: rest[k] < n
  {
    forall k | 0 <= k < |rest| ensures rest[k] < n {
      assert rest[k] in rest;
    }
  }

  lemma PickedLast<T>(xs: seq<T>, n: nat, a: seq<nat>, b: seq<nat>)
    requires |xs| == n + 1 && forall k | 0 <= k < |a + ([n] + b)| :: (a + ([n] + b))[k] < |xs|
    requires forall k | 0 <= k < |a + b| :: (a + b)[k] < n
    ensures multiset(Picked(xs, a + ([n] + b))) == multiset(Picked(xs[..n], a + b)) + multiset{xs[n]}
  {
    PickedApart(xs, a, n, b);
    PickedPrefix(xs, n, a + b);
  }

  /** The order without its last place, and what it picks. */
  lemma PickedWithout<T>(xs: seq<T>, n: nat, order: seq<nat>) returns (rest: seq<nat>)
    requires |xs| == n + 1 && NoDuplicates(order) && forall k | 0 <= k < |order| :: order[k] <= n
    requires forall i: nat | i <= n :: i in order
    ensures NoDuplicates(rest) && (forall k | 0 <= k < |rest| :: rest[k] < n) && forall i: nat | i < n :: i in rest
    ensures multiset(Picked(xs, order)) == multiset(Picked(xs[..n], rest)) + multiset{xs[n]}
  {
    var a, b := LastPlace(order, n);
    PickedLast(xs, n, a, b);
    rest := a + b;
  }

  /** An order that names every place once picks the same elements. */
  lemma {:induction false} PickedAll<T>(xs: seq<T>, order: seq<nat>)
    requires NoDuplicates(order) && forall k | 0 <= k < |order| :: order[k] < |xs|
    requires forall i: nat | i < |xs| :: i in order
    ensures multiset(Picked(xs, order)) == multiset(xs)
  {
    if |xs| > 0 {
      var n := |xs| - 1;
      var rest := PickedWithout(xs, n, order);
      PickedAll(xs[..n], rest);
      assert xs == xs[..n] + [xs[n]];
    } else {
      assert xs == [] && Picked(xs, order) == [];
    }
  }

  // One reply a request

  datatype Written = Written(id: string, reply: Reply)

  function Ids(requests: seq<InFrame>): seq<string>
    requires forall i | 0 <= i < |requests| :: requests[i].Request?
  {
    seq(|requests|, i requires 0 <= i < |requests| => requests[i].id)
  }

  lemma {:induction false} RequestsAre(input: seq<InFrame>)
    ensures forall i | 0 <= i < |Requests(input)| :: Requests(input)[i].Request?
  {
    if input != [] {
      RequestsAre(input[..|input| - 1]);
    }
  }

  function RequestIds(input: seq<InFrame>): seq<string> {
    RequestsAre(input);
    Ids(Requests(input))
  }

  function WrittenIds(written: seq<Written>): seq<string> {
    seq(|written|, i requires 0 <= i < |written| => written[i].id)
  }

  /** The frames of a list of replies, a line each. */
  function Frames(w: Wire, written: seq<Written>): seq<string> {
    seq(|written|, i requires 0 <= i < |written| => w.encode(written[i].id, written[i].reply))
  }

  ghost function Replies(hs: seq<Handler>, order: seq<nat>): seq<Written>
    requires AllStarted(hs, order)
  {
    seq(|order|, k requires 0 <= k < |order| => Written(hs[order[k]].id, ReplyOf(hs[order[k]])))
  }

  lemma {:induction false} LinesAreFrames(w: Wire, hs: seq<Handler>, order: seq<nat>)
    requires AllStarted(hs, order)
    ensures Lines(w, hs, order) == Terminated(Frames(w, Replies(hs, order)))
  {
    if order != [] {
      var init := order[..|order| - 1];
      LinesAreFrames(w, hs, init);
      var frames := Frames(w, Replies(hs, order));
      assert frames[..|frames| - 1] == Frames(w, Replies(hs, init));
      var h := hs[order[|order| - 1]];
      assert frames[|frames| - 1] + "\n" == Line(w, h);
    }
  }

  lemma {:induction false} RepliesIds(hs: seq<Handler>, ids: seq<string>, order: seq<nat>)
    requires AllStarted(hs, order) && |ids| == |hs| && forall i | 0 <= i < |hs| :: hs[i].id == ids[i]
    ensures WrittenIds(Replies(hs, order)) == Picked(ids, order)
  {
    if order != [] {
      var init := order[..|order| - 1];
      RepliesIds(hs, ids, init);
      assert WrittenIds(Replies(hs, order)) == WrittenIds(Replies(hs, init)) + [ids[order[|order| - 1]]];
    }
  }

  lemma LockHoldersAct(c: Config, s: State)
    requires Inv(c, s)
    ensures s.shared.outLock.Some? ==> s.handlers[s.shared.outLock.value].phase.Writing?
    ensures s.shared.authLock.Some? ==> InAuth(s.handlers[s.shared.authLock.value].phase)
  {
    if s.shared.outLock.Some? {
      assert HandlerOk(c, s.shared, s.shared.outLock.value, s.handlers[s.shared.outLock.value]);
    }
    if s.shared.authLock.Some? {
      assert HandlerOk(c, s.shared, s.shared.authLock.value, s.handlers[s.shared.authLock.value]);
    }
  }

  /** When serve has returned, the output read line by line is one frame for
      each request, and none for anything else that was read. */
  lemma OneReplyEach(c: Config, run: seq<State>, k: nat) returns (written: seq<Written>)
    requires IsRun(c, run) && k < |run| && run[k].reader.Returned? && OneLine(c.wire)
    ensures Split(run[k].shared.out, '\n') == Frames(c.wire, written) + [""]
    ensures multiset(WrittenIds(written)) == multiset(RequestIds(run[0].input))
  {
    RunKeeps(c, run, k);
    var s := run[k];
    var hs, order := s.handlers, s.shared.order;
    assert s.input[..s.pos] == s.input;
    LockHoldersAct(c, s);
    written := Replies(hs, order);
    LinesAreFrames(c.wire, hs, order);
    assert s.shared.out == Terminated(Frames(c.wire, written)) + "";
    TerminatedSplits(Frames(c.wire, written), "");
    RepliesIds(hs, RequestIds(s.input), order);
    forall i: nat | i < |hs| ensures i in order {
      assert HandlerOk(c, s.shared, i, hs[i]);
    }
    PickedAll(RequestIds(s.input), order);
  }

  // The retry protocol

  lemma {:induction false} RequestsGrow(input: seq<InFrame>, n: nat)
    requires n <= |input|
    ensures Requests(input[..n]) <= Requests(input)
  {
    if n < |input| {
      var init := input[..|input| - 1];
      assert init[..n] == input[..n];
      RequestsGrow(init, n);
    } else {
      assert input[..n] == input;
    }
  }

  /** Each call makes at most two POSTs and renews the credential at most once,
      and only after a 401. Its reply is what the last POST was answered with, or
      an error when no POST was answered; the other requests are answered without
      any. */
  lemma CallsRetryOnce(c: Config, run: seq<State>, k: nat, i: nat)
    requires IsRun(c, run) && k < |run| && i < |run[k].handlers|
    ensures var h := run[k].handlers[i];
      h.posts <= 2 && h.reauths <= 1 && (h.posts == 2 ==> h.reauths == 1) &&
      if h.verb.Tools? then h.posts == 0 <==> h.last.NotSent? else h.posts == 0
    ensures var h := run[k].handlers[i];
      Started(h.phase) ==>
        h.phase.reply == match h.verb
          case Tools => if h.last.Answered? then Result(h.last.body) else Error(-32000)
          case Initialize => Result(c.welcome)
          case Ping => Result("{}")
          case OtherVerb => Error(-32601)
    ensures var h := run[k].handlers[i];
      i < |Requests(run[k].input)| && Requests(run[k].input)[i] == Request(h.id, h.verb)
  {
    RunKeeps(c, run, k);
    assert HandlerOk(c, run[k].shared, i, run[k].handlers[i]);
    var input, pos := run[k].input, run[k].pos;
    RequestsGrow(input, pos);
  }

  // The credential

  /** In every reachable state the client is the registered one, the refresh
      token is the newest that was issued, and at most one handler is renewing. */
  lemma CredentialKept(c: Config, run: seq<State>, k: nat)
    requires IsRun(c, run) && k < |run|
    ensures var a := run[k].shared;
      a.toks.client == c.initial.client &&
      a.toks.refresh == Newest(c.initial.refresh, a.issued) &&
      (c.initial.refresh != "" ==> a.toks.refresh != "") &&
      (c.initial.access != "" ==> a.toks.access != "")
    ensures forall i, j | 0 <= i < |run[k].handlers| && 0 <= j < |run[k].handlers| &&
      InAuth(run[k].handlers[i].phase) && InAuth(run[k].handlers[j].phase) :: i == j
  {
    RunKeeps(c, run, k);
    var s := run[k];
    forall i: nat, j: nat | i < |s.handlers| && j < |s.handlers| && InAuth(s.handlers[i].phase) && InAuth(s.handlers[j].phase)
      ensures i == j
    {
      assert HandlerOk(c, s.shared, i, s.handlers[i]) && HandlerOk(c, s.shared, j, s.handlers[j]);
    }
  }

  // Progress

  lemma CanStep(c: Config, s: State, i: nat, g: Handler, b: Shared, choice: Choice)
    requires i < |s.handlers| && Act(c, i, s.handlers[i], s.shared, g, b, choice)
    ensures exists t :: Next(c, s, t)
  {
    var t := s.(handlers := s.handlers[i := g], shared := b);
    assert HandlerStep(c, s, t, i, choice);
    assert Next(c, s, t);
  }

  lemma HolderCanStep(c: Config, s: State, i: nat)
    requires i < |s.handlers| && InAuth(s.handlers[i].phase)
    ensures exists t :: Next(c, s, t)
  {
    var h, a := s.handlers[i], s.shared;
    var free := a.(authLock := None);
    match h.phase
    case HoldsAuth(again, renew) =>
      if a.toks.refresh == "" {
        CanStep(c, s, i, h.(phase := Replying(Error(-32000))), free, Refresh);
      } else {
        CanStep(c, s, i, h.(phase := Refreshing(again, renew, a.toks)), a, Refresh);
      }
    case Refreshing(again, renew, sent) =>
      CanStep(c, s, i, h.(phase := Replying(Error(-32000))), free, Refused);
    case Saving(again, renew) =>
      CanStep(c, s, i, h.(phase := Replying(Error(-32000))), free, Save(false));
  }

  lemma WriterCanStep(c: Config, s: State, i: nat)
    requires i < |s.handlers| && s.handlers[i].phase.Writing?
    ensures exists t :: Next(c, s, t)
  {
    var h, a := s.handlers[i], s.shared;
    if h.phase.rest == "" {
      CanStep(c, s, i, h.(phase := Finished(h.phase.reply)), a.(outLock := None), EndWrite);
    } else {
      var rest := h.phase.rest;
      CanStep(c, s, i, h.(phase := Writing(h.phase.reply, rest[1..])), a.(out := a.out + rest[..1]), Write(1));
    }
  }

  lemma UnfinishedCanStep(c: Config, s: State, i: nat)
    requires Inv(c, s) && i < |s.handlers| && !s.handlers[i].phase.Finished?
    ensures exists t :: Next(c, s, t)
  {
    var h, a := s.handlers[i], s.shared;
    match h.phase
    case Begin =>
      var phase := match h.verb
        case Initialize => Replying(Result(c.welcome))
        case Ping => Replying(Result("{}"))
        case Tools => WantAuth(false, false)
        case OtherVerb => Replying(Error(-32601));
      CanStep(c, s, i, h.(phase := phase), a, Local);
    case WantAuth(again, renew) =>
      if !c.auth.OAuth? {
        CanStep(c, s, i, h.(phase := if renew then Replying(Error(-32000)) else Sending(again)), a, FixedAuth);
      } else if a.authLock.None? {
        CanStep(c, s, i, h.(phase := HoldsAuth(again, renew)), a.(authLock := Some(i)), TakeAuth);
      } else {
        LockHoldersAct(c, s);
        HolderCanStep(c, s, a.authLock.value);
      }
    case Sending(again) =>
      CanStep(c, s, i, h.(posts := h.posts + 1, last := Failed, phase := Replying(Error(-32000))), a, Post(Failed));
    case Replying(reply) =>
      if a.outLock.None? {
        var line := c.wire.encode(h.id, reply) + "\n";
        CanStep(c, s, i, h.(phase := Writing(reply, line)), a.(outLock := Some(i), order := a.order + [i]), TakeOut);
      } else {
        LockHoldersAct(c, s);
        WriterCanStep(c, s, a.outLock.value);
      }
    case Writing(_, _) => WriterCanStep(c, s, i);
    case _ => HolderCanStep(c, s, i);
  }

  /** The relay never deadlocks: until serve returns, some step is open. */
  lemma NoDeadlock(c: Config, run: seq<State>, k: nat)
    requires IsRun(c, run) && k < |run| && !run[k].reader.Returned?
    ensures exists t :: Next(c, run[k], t)
  {
    RunKeeps(c, run, k);
    var s := run[k];
    if i: nat :| i < |s.handlers| && !s.handlers[i].phase.Finished? {
      UnfinishedCanStep(c, s, i);
    } else {
      var t := if s.reader.Waiting? then s.(reader := Returned)
        else if s.pos == |s.input| then s.(reader := Waiting)
        else s.(pos := s.pos + 1,
                handlers := if s.input[s.pos].Request? then s.handlers + [Start(s.input[s.pos])] else s.handlers);
      assert ReaderStep(s, t);
      assert Next(c, s, t);
    }
  }
}
