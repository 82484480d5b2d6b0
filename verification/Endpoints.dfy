/** Renaming endpoints to their canonical ids: ValidateAndRepairConfig and
    moveEndpointCredential of packages/agent/modelsync.go. The map of endpoints
    is changed while it is ranged over, in any order. */
module Endpoints {
  import opened Sorting

  /** The canonical form of an id. */
  datatype Canon = Canon(of: string -> string)

  ghost predicate Idempotent(c: Canon) {
    forall id :: c.of(c.of(id)) == c.of(id)
  }

  type Store<V> = map<string, V>

  datatype Move = Move(source: string, target: string)

  /** The config, and what the rename has done to it so far. */
  datatype Renaming<V> = Renaming(endpoints: Store<V>, pin: string, moves: seq<Move>, collided: seq<string>)

  /** A key takes another name. */
  function Renamed<V>(m: Store<V>, source: string, target: string): Store<V>
    requires source in m
  {
    m[target := m[source]] - {source}
  }

  /** One visit of the range. A key that was deleted is not visited. */
  function Visit<V>(c: Canon, s: Renaming<V>, id: string): Renaming<V> {
    var canon := c.of(id);
    if id !in s.endpoints || canon == id then s
    else if canon in s.endpoints then s.(collided := s.collided + [id])
    else
      Renaming(Renamed(s.endpoints, id, canon), if s.pin == id then canon else s.pin,
        s.moves + [Move(id, canon)], s.collided)
  }

  function VisitAll<V>(c: Canon, s: Renaming<V>, order: seq<string>): Renaming<V> {
    if order == [] then s else Visit(c, VisitAll(c, s, order[..|order| - 1]), order[|order| - 1])
  }

  /** The order visits every key there was. Keys the rename adds may be visited
      too, or not. */
  ghost predicate VisitsAll<V>(m: Store<V>, order: seq<string>) {
    forall id | id in m :: id in order
  }

  /** The credential of an endpoint goes along, unless the new name is taken. */
  function MoveCredential<V>(creds: Store<V>, m: Move): Store<V> {
    if m.source in creds && m.target !in creds then Renamed(creds, m.source, m.target) else creds
  }

  /** saved says, of each move, whether the store could be written. */
  function MoveCredentials<V>(creds: Store<V>, moves: seq<Move>, saved: Move -> bool): Store<V> {
    if moves == [] then creds
    else
      var before, m := MoveCredentials(creds, moves[..|moves| - 1], saved), moves[|moves| - 1];
      if saved(m) then MoveCredential(before, m) else before
  }

  /** A config file and a credential store, as the repair leaves them. */
  class Repair<V, K> {
    const canon: Canon
    var endpoints: Store<V>
    var pin: string
    var creds: Store<K>

    constructor (canon: Canon, endpoints: Store<V>, pin: string, creds: Store<K>)
      ensures this.canon == canon && this.endpoints == endpoints && this.pin == pin && this.creds == creds
    {
      this.canon, this.endpoints, this.pin, this.creds := canon, endpoints, pin, creds;
    }

    /** The function that MutateConfig runs. Go may or may not range over the
        keys it adds. */
    method RenameEndpoints() returns (moves: seq<Move>, collided: seq<string>, ghost order: seq<string>)
      requires Idempotent(canon)
      modifies this`endpoints, this`pin
      ensures VisitsAll(old(endpoints), order)
      ensures Renaming(endpoints, pin, moves, collided) == VisitAll(canon, Renaming(old(endpoints), old(pin), [], []), order)
    {
      moves, collided, order := [], [], [];
      var left, added := endpoints.Keys, {};
      ghost var first := Renaming(endpoints, pin, [], []);
      while left + added != {}
        invariant Renaming(endpoints, pin, moves, collided) == VisitAll(canon, first, order)
        invariant forall id | id in first.endpoints :: id in left || id in order
        invariant forall id | id in added :: canon.of(id) == id
        decreases left, added
      {
        var id :| id in left + added;
        left, added := left - {id}, added - {id};
        order := order + [id];
        assert order[..|order| - 1] + [id] == order;
        var to := canon.of(id);
        if id !in endpoints || to == id {
          continue;
        }
        if to in endpoints {
          collided := collided + [id];
          continue;
        }
        endpoints := endpoints[to := endpoints[id]];
        endpoints := endpoints - {id};
        if pin == id {
          pin := to;
        }
        moves := moves + [Move(id, to)];
        if * {
          added := added + {to};
        }
      }
    }

    /** moveEndpointCredential, when the store can be written. */
    method MoveEndpointCredential(m: Move) returns (stranded: bool)
      requires m.source != m.target
      modifies this`creds
      ensures creds == MoveCredential(old(creds), m)
      ensures stranded <==> m.source in old(creds) && m.target in old(creds)
    {
      if m.source !in creds {
        return false;
      }
      if m.target in creds {
        return true;
      }
      creds := creds[m.target := creds[m.source]];
      creds := creds - {m.source};
      return false;
    }

    /** The rename, then the credentials: the config file is left as it was when
        it cannot be written, and the credentials are moved all the same. */
    method NormalizeIds(written: bool, saved: Move -> bool) returns (moves: seq<Move>, collided: seq<string>, ghost order: seq<string>)
      requires Idempotent(canon)
      modifies this
      ensures VisitsAll(old(endpoints), order)
      ensures var s := VisitAll(canon, Renaming(old(endpoints), old(pin), [], []), order);
        moves == s.moves && collided == s.collided &&
        (endpoints, pin) == (if written then (s.endpoints, s.pin) else (old(endpoints), old(pin))) &&
        creds == MoveCredentials(old(creds), moves, saved)
    {
      var endpointsBefore, pinBefore := endpoints, pin;
      moves, collided, order := RenameEndpoints();
      if !written {
        endpoints, pin := endpointsBefore, pinBefore;
      }
      MovesChange(canon, Renaming(old(endpoints), old(pin), [], []), order);
      for i := 0 to |moves|
        invariant endpoints == (if written then VisitAll(canon, Renaming(old(endpoints), old(pin), [], []), order).endpoints else old(endpoints))
        invariant pin == (if written then VisitAll(canon, Renaming(old(endpoints), old(pin), [], []), order).pin else old(pin))
        invariant creds == MoveCredentials(old(creds), moves[..i], saved)
      {
        assert moves[..i + 1][..i] == moves[..i];
        if saved(moves[i]) {
          var stranded := MoveEndpointCredential(moves[i]);
        }
      }
      assert moves[..|moves|] == moves;
    }
  }

  lemma {:induction false} MovesChange<V>(c: Canon, first: Renaming<V>, order: seq<string>)
    requires first.moves == []
    ensures forall i | 0 <= i < |VisitAll(c, first, order).moves| ::
      var m := VisitAll(c, first, order).moves[i];
      m.source != m.target && m.target == c.of(m.source)
  {
    if order != [] {
      MovesChange(c, first, order[..|order| - 1]);
    }
  }

  // Where each key went

  /** at gives each key's new name: its value is there, no two keys share a name,
      and there is no other key. */
  ghost predicate Relocates<V>(first: Store<V>, now: Store<V>, at: map<string, string>) {
    at.Keys == first.Keys &&
    (forall id | id in at :: at[id] in now && now[at[id]] == first[id]) &&
    (forall a, b | a in at && b in at && at[a] == at[b] :: a == b) &&
    forall k | k in now :: k in at.Values
  }

  lemma RelocateOne<V>(first: Store<V>, now: Store<V>, at: map<string, string>, id: string, target: string)
    requires Relocates(first, now, at) && id in at && target !in now
    ensures Relocates(first, Renamed(now, at[id], target), at[id := target])
  {
    var next, after := Renamed(now, at[id], target), at[id := target];
    forall k | k in next ensures k in after.Values {
      if k != target {
        var a :| a in at && at[a] == k;
        assert after[a] == k;
      } else {
        assert after[id] == k;
      }
    }
    forall a | a in after ensures after[a] in next && next[after[a]] == first[a] {
      assert a != id ==> at[a] != at[id];
    }
  }

  /** The values of a map at some keys. */
  function ValuesAt<V>(m: Store<V>, order: seq<string>): seq<V>
    requires forall id | id in order :: id in m
  {
    seq(|order|, i requires 0 <= i < |order| => assert order[i] in order; m[order[i]])
  }

  ghost predicate Lists<V>(order: seq<string>, m: Store<V>) {
    NoDuplicates(order) && forall id :: id in order <==> id in m
  }

  /** The two hold the same values, each as often. */
  ghost predicate SameValues<V>(a: Store<V>, b: Store<V>) {
    exists p, q :: Lists(p, a) && Lists(q, b) && ValuesAt(a, p) == ValuesAt(b, q)
  }

  lemma NewNames(at: map<string, string>, p: seq<string>, q: seq<string>)
    requires NoDuplicates(p) && (forall id :: id in p <==> id in at)
    requires forall a, b | a in at && b in at && at[a] == at[b] :: a == b
    requires |q| == |p| && forall i | 0 <= i < |p| :: p[i] in at && q[i] == at[p[i]]
    ensures NoDuplicates(q) && forall k :: k in q <==> k in at.Values
  {
    forall k ensures k in q <==> k in at.Values {
      if k in q {
        var i :| 0 <= i < |q| && q[i] == k;
        assert at[p[i]] == k;
      }
      if k in at.Values {
        var a :| a in at && at[a] == k;
        assert a in p;
        var i :| 0 <= i < |p| && p[i] == a;
        assert q[i] == k;
      }
    }
  }

  lemma KeysOfRelocated<V>(first: Store<V>, now: Store<V>, at: map<string, string>, k: string)
    requires Relocates(first, now, at)
    ensures k in at.Values <==> k in now
  {
    if k in at.Values {
      var a :| a in at && at[a] == k;
    }
  }

  lemma SameValuesAt<V>(first: Store<V>, now: Store<V>, at: map<string, string>, p: seq<string>, q: seq<string>)
    requires Relocates(first, now, at) && |q| == |p| && forall i | 0 <= i < |p| :: p[i] in at && q[i] == at[p[i]]
    requires (forall id | id in p :: id in first) && forall id | id in q :: id in now
    ensures ValuesAt(first, p) == ValuesAt(now, q)
  {
  }

  lemma SameValuesWhenRelocated<V>(first: Store<V>, now: Store<V>, at: map<string, string>)
    requires Relocates(first, now, at)
    ensures SameValues(first, now)
  {
    var p := SortedSet(first.Keys);
    forall i | 0 <= i < |p| ensures p[i] in at {
      assert p[i] in p;
    }
    var q := seq(|p|, i requires 0 <= i < |p| => at[p[i]]);
    NewNames(at, p, q);
    forall k ensures k in q <==> k in now {
      KeysOfRelocated(first, now, at, k);
    }
    assert Lists(p, first) && Lists(q, now);
    SameValuesAt(first, now, at, p, q);
  }

  // The endpoints

  predicate IsMoved(moves: seq<Move>, id: string) {
    exists i :: 0 <= i < |moves| && moves[i].source == id
  }

  /** The id an endpoint has after some moves. */
  function NewId(c: Canon, moves: seq<Move>, id: string): string {
    if IsMoved(moves, id) then c.of(id) else id
  }

  ghost function NewIds<V>(c: Canon, first: Store<V>, moves: seq<Move>): map<string, string> {
    map id | id in first :: NewId(c, moves, id)
  }

  lemma MovedMore(moves: seq<Move>, m: Move, id: string)
    ensures IsMoved(moves + [m], id) <==> IsMoved(moves, id) || m.source == id
  {
    if IsMoved(moves, id) {
      var i :| 0 <= i < |moves| && moves[i].source == id;
      assert (moves + [m])[i] == moves[i];
    }
    assert (moves + [m])[|moves|] == m;
  }

  /** What holds after the visits of an order. */
  ghost predicate Visited<V>(c: Canon, first: Renaming<V>, s: Renaming<V>, order: seq<string>) {
    Relocates(first.endpoints, s.endpoints, NewIds(c, first.endpoints, s.moves)) &&
    Sources(c, first, s) && Pinned(c, first, s) && Settled(c, s, order)
  }

  /** Only ids that were not canonical are moved, and they are gone. */
  ghost predicate Sources<V>(c: Canon, first: Renaming<V>, s: Renaming<V>) {
    (forall id | id in s.endpoints && c.of(id) != id :: id in first.endpoints && !IsMoved(s.moves, id)) &&
    forall id | IsMoved(s.moves, id) :: id in first.endpoints && id !in s.endpoints && c.of(id) != id
  }

  ghost predicate Pinned<V>(c: Canon, first: Renaming<V>, s: Renaming<V>) {
    s.pin == if first.pin in first.endpoints then NewId(c, s.moves, first.pin) else first.pin
  }

  ghost predicate Settled<V>(c: Canon, s: Renaming<V>, order: seq<string>) {
    (forall id | id in order && id in s.endpoints :: c.of(id) in s.endpoints) &&
    (forall id | id in s.collided :: id in s.endpoints && c.of(id) != id && c.of(id) in s.endpoints) &&
    forall id | id in order && id in s.endpoints && c.of(id) != id :: id in s.collided
  }

  lemma MoveIds<V>(c: Canon, first: Store<V>, moves: seq<Move>, id: string)
    requires id in first
    ensures NewIds(c, first, moves + [Move(id, c.of(id))]) == NewIds(c, first, moves)[id := c.of(id)]
  {
    forall a ensures IsMoved(moves + [Move(id, c.of(id))], a) <==> IsMoved(moves, a) || a == id {
      MovedMore(moves, Move(id, c.of(id)), a);
    }
  }

  lemma MoveRelocates<V>(c: Canon, first: Store<V>, now: Store<V>, moves: seq<Move>, id: string)
    requires Relocates(first, now, NewIds(c, first, moves))
    requires id in first && !IsMoved(moves, id) && c.of(id) !in now
    ensures id in now && Relocates(first, Renamed(now, id, c.of(id)), NewIds(c, first, moves + [Move(id, c.of(id))]))
  {
    var at := NewIds(c, first, moves);
    assert at[id] == id;
    MoveIds(c, first, moves, id);
    RelocateOne(first, now, at, id, c.of(id));
  }

  /** A visit that renames, from s to t. */
  ghost predicate Renames<V>(c: Canon, s: Renaming<V>, id: string, t: Renaming<V>) {
    id in s.endpoints && c.of(id) != id && c.of(id) !in s.endpoints && t == Visit(c, s, id)
  }

  lemma VisitMoves<V>(c: Canon, first: Renaming<V>, s: Renaming<V>, order: seq<string>, id: string, t: Renaming<V>)
    requires Idempotent(c) && Visited(c, first, s, order) && Renames(c, s, id, t)
    ensures Visited(c, first, t, order + [id])
  {
    MoveKeepsValues(c, first, s, id, t);
    MoveKeepsSources(c, first, s, id, t);
    MoveKeepsPin(c, first, s, id, t);
    MoveSettles(c, s, order, id, t);
  }

  lemma MoveKeepsValues<V>(c: Canon, first: Renaming<V>, s: Renaming<V>, id: string, t: Renaming<V>)
    requires Relocates(first.endpoints, s.endpoints, NewIds(c, first.endpoints, s.moves))
    requires Sources(c, first, s) && Renames(c, s, id, t)
    ensures Relocates(first.endpoints, t.endpoints, NewIds(c, first.endpoints, t.moves))
  {
    MoveRelocates(c, first.endpoints, s.endpoints, s.moves, id);
  }

  lemma MovedAlso(moves: seq<Move>, m: Move, more: seq<Move>)
    requires more == moves + [m]
    ensures forall a :: IsMoved(more, a) <==> IsMoved(moves, a) || a == m.source
  {
    forall a ensures IsMoved(more, a) <==> IsMoved(moves, a) || a == m.source {
      MovedMore(moves, m, a);
    }
  }

  lemma MoveKeepsSources<V>(c: Canon, first: Renaming<V>, s: Renaming<V>, id: string, t: Renaming<V>)
    requires Idempotent(c) && Sources(c, first, s)
    requires Renames(c, s, id, t)
    ensures Sources(c, first, t)
  {
    MovedAlso(s.moves, Move(id, c.of(id)), t.moves);
  }

  lemma MoveKeepsPin<V>(c: Canon, first: Renaming<V>, s: Renaming<V>, id: string, t: Renaming<V>)
    requires Pinned(c, first, s) && Sources(c, first, s)
    requires Relocates(first.endpoints, s.endpoints, NewIds(c, first.endpoints, s.moves))
    requires Renames(c, s, id, t)
    ensures Pinned(c, first, t)
  {
    MovedAlso(s.moves, Move(id, c.of(id)), t.moves);
    var at := NewIds(c, first.endpoints, s.moves);
    assert id in first.endpoints && at[id] == id;
    if first.pin in first.endpoints {
      assert at[first.pin] == s.pin;
    }
  }

  lemma MoveSettles<V>(c: Canon, s: Renaming<V>, order: seq<string>, id: string, t: Renaming<V>)
    requires Idempotent(c) && Settled(c, s, order)
    requires Renames(c, s, id, t)
    ensures Settled(c, t, order + [id])
  {
    forall a | a in s.endpoints && a in order ensures a != id {
      assert c.of(a) in s.endpoints;
    }
    forall a | a in s.collided ensures a != id && a in t.endpoints {
      assert a in s.endpoints;
    }
  }

  lemma {:induction false} VisitedAfter<V>(c: Canon, first: Renaming<V>, order: seq<string>)
    requires Idempotent(c) && first.moves == [] && first.collided == []
    ensures Visited(c, first, VisitAll(c, first, order), order)
  {
    if order == [] {
      assert NewIds(c, first.endpoints, []) == map id | id in first.endpoints :: id;
    } else {
      var init, id := order[..|order| - 1], order[|order| - 1];
      var s := VisitAll(c, first, init);
      VisitedAfter(c, first, init);
      assert order == init + [id];
      if id in s.endpoints && c.of(id) != id && c.of(id) !in s.endpoints {
        VisitMoves(c, first, s, init, id, VisitAll(c, first, order));
      }
    }
  }

  // The main results

  /** For any order, every endpoint is kept under one id of its own, the values
      are the same ones, and the pin moves with the endpoint it names. */
  lemma EndpointsAreKept<V>(c: Canon, endpoints: Store<V>, pin: string, order: seq<string>)
    requires Idempotent(c)
    ensures var s := VisitAll(c, Renaming(endpoints, pin, [], []), order);
      Relocates(endpoints, s.endpoints, NewIds(c, endpoints, s.moves)) && SameValues(endpoints, s.endpoints) &&
      (pin in endpoints ==> s.pin in s.endpoints && s.endpoints[s.pin] == endpoints[pin]) &&
      (pin !in endpoints ==> s.pin == pin)
  {
    var first := Renaming(endpoints, pin, [], []);
    var s := VisitAll(c, first, order);
    VisitedAfter(c, first, order);
    SameValuesWhenRelocated(endpoints, s.endpoints, NewIds(c, endpoints, s.moves));
    if pin in endpoints {
      assert NewIds(c, endpoints, s.moves)[pin] == s.pin;
    }
  }

  /** After a whole range, an id is left as it was exactly when it collides: its
      canonical form is taken. So every canonical form of an id is there. */
  lemma OnlyCollidingIdsRemain<V>(c: Canon, endpoints: Store<V>, pin: string, order: seq<string>)
    requires Idempotent(c) && VisitsAll(endpoints, order)
    ensures var s := VisitAll(c, Renaming(endpoints, pin, [], []), order);
      (forall id | id in s.endpoints && c.of(id) != id :: id in endpoints && c.of(id) in s.endpoints) &&
      (forall id | id in s.endpoints :: c.of(id) != id <==> id in s.collided) &&
      (forall id | id in endpoints :: c.of(id) in s.endpoints)
  {
    var s := VisitAll(c, Renaming(endpoints, pin, [], []), order);
    VisitedAfter(c, Renaming(endpoints, pin, [], []), order);
    forall id | id in endpoints ensures c.of(id) in s.endpoints {
      assert NewIds(c, endpoints, s.moves)[id] in s.endpoints;
    }
  }

  /** Whichever credentials could be written, none is lost and none overwritten. */
  lemma {:induction false} CredentialsAreKept<V>(creds: Store<V>, moves: seq<Move>, saved: Move -> bool) returns (at: map<string, string>)
    requires forall i | 0 <= i < |moves| :: moves[i].source != moves[i].target
    ensures Relocates(creds, MoveCredentials(creds, moves, saved), at)
    ensures SameValues(creds, MoveCredentials(creds, moves, saved))
  {
    if moves == [] {
      at := map id | id in creds :: id;
    } else {
      var m, before := moves[|moves| - 1], MoveCredentials(creds, moves[..|moves| - 1], saved);
      at := CredentialsAreKept(creds, moves[..|moves| - 1], saved);
      if saved(m) && m.source in before && m.target !in before {
        var id :| id in at && at[id] == m.source;
        RelocateOne(creds, before, at, id, m.target);
        at := at[id := m.target];
      }
    }
    SameValuesWhenRelocated(creds, MoveCredentials(creds, moves, saved), at);
  }

  // Keys and endpoints together

  /** No two moves share a source or a target, and no target is a source. */
  ghost predicate MovesApart(c: Canon, moves: seq<Move>) {
    (forall i | 0 <= i < |moves| :: moves[i].target == c.of(moves[i].source) != moves[i].source) &&
    (forall i, j | 0 <= i < j < |moves| :: moves[i].source != moves[j].source && moves[i].target != moves[j].target)
  }

  /** Each move's target has an endpoint. */
  ghost predicate TargetsAreKept<V>(s: Renaming<V>) {
    forall i | 0 <= i < |s.moves| :: s.moves[i].target in s.endpoints
  }

  lemma OneMoveApart<V>(c: Canon, s: Renaming<V>, id: string, t: Renaming<V>)
    requires Idempotent(c) && MovesApart(c, s.moves) && TargetsAreKept(s) && Renames(c, s, id, t) && !IsMoved(s.moves, id)
    ensures MovesApart(c, t.moves) && TargetsAreKept(t)
  {
    forall i | 0 <= i < |s.moves| ensures s.moves[i].target != id && s.moves[i].target != c.of(id) && s.moves[i].source != id {
      assert c.of(s.moves[i].target) == s.moves[i].target;
    }
  }

  lemma {:induction false} RenameMovesApart<V>(c: Canon, first: Renaming<V>, order: seq<string>)
    requires Idempotent(c) && first.moves == [] && first.collided == []
    ensures MovesApart(c, VisitAll(c, first, order).moves) && TargetsAreKept(VisitAll(c, first, order))
  {
    if order != [] {
      var init, id := order[..|order| - 1], order[|order| - 1];
      var s := VisitAll(c, first, init);
      RenameMovesApart(c, first, init);
      if id in s.endpoints && c.of(id) != id && c.of(id) !in s.endpoints {
        NotYetMoved(c, first, init, id);
        OneMoveApart(c, s, id, VisitAll(c, first, order));
      }
    }
  }

  lemma NotYetMoved<V>(c: Canon, first: Renaming<V>, order: seq<string>, id: string)
    requires Idempotent(c) && first.moves == [] && first.collided == [] && id in VisitAll(c, first, order).endpoints
    ensures !IsMoved(VisitAll(c, first, order).moves, id)
  {
    VisitedAfter(c, first, order);
  }

  lemma MoveApart<V>(creds: Store<V>, m: Move, other: Move)
    requires other.source != m.source && other.target != m.target && other.source != m.target && other.target != m.source
    ensures var after := MoveCredential(creds, other);
      (m.source in after <==> m.source in creds) && (m.source in creds ==> after[m.source] == creds[m.source]) &&
      (m.target in after <==> m.target in creds) && (m.target in creds ==> after[m.target] == creds[m.target])
  {
  }

  /** What the two names of a move hold after the first n moves. */
  lemma {:induction false} MoveDone<V>(c: Canon, creds: Store<V>, moves: seq<Move>, saved: Move -> bool, i: nat, n: nat)
    requires Idempotent(c) && MovesApart(c, moves) && i < |moves| && n <= |moves|
    requires moves[i].source in creds && moves[i].target !in creds && saved(moves[i])
    ensures var m, after := moves[i], MoveCredentials(creds, moves[..n], saved);
      if i < n then m.target in after && after[m.target] == creds[m.source] && m.source !in after
      else m.source in after && after[m.source] == creds[m.source] && m.target !in after
  {
    if n > 0 {
      var m, other, before := moves[i], moves[n - 1], MoveCredentials(creds, moves[..n - 1], saved);
      MoveDone(c, creds, moves, saved, i, n - 1);
      assert moves[..n][..n - 1] == moves[..n - 1];
      if n - 1 != i {
        assert c.of(m.target) == m.target && c.of(other.target) == other.target;
        MoveApart(before, m, other);
      }
    }
  }

  /** The key of a renamed endpoint is under the id that the config file gives
      the endpoint, if and only if the file was written: when it was not, the
      key is moved away from the id the endpoint keeps. */
  lemma KeyFollowsEndpoint<V, K>(c: Canon, endpoints: Store<V>, pin: string, order: seq<string>, creds: Store<K>,
      saved: Move -> bool, written: bool, i: nat)
    requires Idempotent(c)
    requires i < |VisitAll(c, Renaming(endpoints, pin, [], []), order).moves|
    requires var m := VisitAll(c, Renaming(endpoints, pin, [], []), order).moves[i];
      m.source in creds && m.target !in creds && saved(m)
    ensures var s := VisitAll(c, Renaming(endpoints, pin, [], []), order);
      var m, keys := s.moves[i], MoveCredentials(creds, s.moves, saved);
      var id := if written then m.target else m.source;
      (id in keys && keys[id] == creds[m.source]) <==> written
  {
    var s := VisitAll(c, Renaming(endpoints, pin, [], []), order);
    RenameMovesApart(c, Renaming(endpoints, pin, [], []), order);
    MoveDone(c, creds, s.moves, saved, i, |s.moves|);
    assert s.moves[..|s.moves|] == s.moves;
  }
}
