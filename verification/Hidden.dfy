/** throughHidden of cmd/terva-apidiff/main.go: a reference to an unexported
    type becomes the references of what that type shows a host, followed
    through every unexported type it leads to. */
module Hidden {
  import opened Api

  /** The unexported types of a package, each with the references of its
      exported members, and which names the package exports. */
  datatype Locals = Locals(shows: map<string, seq<Ref>>, exported: string -> bool)

  predicate IsHidden(l: Locals, r: Ref) {
    r.qual == "" && !l.exported(r.name) && r.name in l.shows
  }

  /** What a walk has visited, and the references it met on the way. */
  datatype Walk = Walk(seen: set<string>, out: seq<Ref>)

  function Follow(l: Locals, root: string, name: string, seen: set<string>): (w: Walk)
    requires name in l.shows
    ensures seen <= w.seen
    decreases l.shows.Keys - seen, 0
  {
    if name in seen then Walk(seen, [])
    else FollowAll(l, root, l.shows[name], seen + {name})
  }

  function FollowAll(l: Locals, root: string, refs: seq<Ref>, seen: set<string>): (w: Walk)
    ensures seen <= w.seen
    decreases l.shows.Keys - seen, |refs|
  {
    if refs == [] then Walk(seen, [])
    else
      var h := refs[0];
      var first := if IsHidden(l, h) then Follow(l, root, h.name, seen) else Walk(seen, [h.(via := root)]);
      var rest := FollowAll(l, root, refs[1..], first.seen);
      Walk(rest.seen, first.out + rest.out)
  }

  function Expand(l: Locals, r: Ref): seq<Ref> {
    if IsHidden(l, r) then Follow(l, r.name, r.name, {}).out else [r]
  }

  function ThroughHidden(l: Locals, refs: seq<Ref>): seq<Ref> {
    if refs == [] then [] else Expand(l, refs[0]) + ThroughHidden(l, refs[1..])
  }

  // Reachability

  /** b is named by what the hidden type a shows, and is hidden too. */
  ghost predicate Leads(l: Locals, a: string, b: string) {
    a in l.shows && exists r :: r in l.shows[a] && IsHidden(l, r) && r.name == b
  }

  ghost predicate IsRun(l: Locals, p: seq<string>) {
    p != [] && forall i | 0 <= i < |p| - 1 :: Leads(l, p[i], p[i + 1])
  }

  ghost predicate Reaches(l: Locals, a: string, b: string) {
    exists p :: IsRun(l, p) && p[0] == a && p[|p| - 1] == b
  }

  lemma ReachesItself(l: Locals, a: string)
    ensures Reaches(l, a, a)
  {
    assert IsRun(l, [a]);
  }

  lemma ReachesOn(l: Locals, a: string, b: string, c: string)
    requires Leads(l, a, b) && Reaches(l, b, c)
    ensures Reaches(l, a, c)
  {
    var p :| IsRun(l, p) && p[0] == b && p[|p| - 1] == c;
    var q := [a] + p;
    forall i | 0 <= i < |q| - 1 ensures Leads(l, q[i], q[i + 1]) {
      if i > 0 {
        assert q[i] == p[i - 1] && q[i + 1] == p[i];
      }
    }
    assert IsRun(l, q) && q[|q| - 1] == c;
  }

  /** Every hidden type that some type of s leads to is in s. */
  ghost predicate ClosedIn(l: Locals, ts: set<string>, s: set<string>) {
    forall a, b | a in ts && Leads(l, a, b) :: b in s
  }

  lemma {:induction false} ClosedHoldsRun(l: Locals, s: set<string>, p: seq<string>)
    requires ClosedIn(l, s, s) && IsRun(l, p) && p[0] in s
    ensures p[|p| - 1] in s
  {
    if |p| > 1 {
      var q := p[1..];
      assert Leads(l, p[0], p[0 + 1]);
      forall i | 0 <= i < |q| - 1 ensures Leads(l, q[i], q[i + 1]) {
        assert Leads(l, p[i + 1], p[i + 1 + 1]);
      }
      ClosedHoldsRun(l, s, q);
    }
  }

  // What a walk visits

  lemma {:induction false} FollowVisits(l: Locals, root: string, name: string, seen: set<string>)
    requires name in l.shows
    ensures var w := Follow(l, root, name, seen);
            name in w.seen && w.seen - seen <= l.shows.Keys && ClosedIn(l, w.seen - seen, w.seen) &&
            forall t | t in w.seen - seen :: Reaches(l, name, t)
    decreases l.shows.Keys - seen, 0
  {
    if name !in seen {
      var w := FollowAll(l, root, l.shows[name], seen + {name});
      FollowAllVisits(l, root, name, l.shows[name], seen + {name});
      assert w.seen - seen == w.seen - (seen + {name}) + {name};
      ReachesItself(l, name);
      forall b | Leads(l, name, b) ensures b in w.seen {
        var r :| r in l.shows[name] && IsHidden(l, r) && r.name == b;
      }
    }
  }

  lemma {:induction false} FollowAllVisits(l: Locals, root: string, from: string, refs: seq<Ref>, seen: set<string>)
    requires from in l.shows && forall r | r in refs :: r in l.shows[from]
    ensures var w := FollowAll(l, root, refs, seen);
            w.seen - seen <= l.shows.Keys && ClosedIn(l, w.seen - seen, w.seen) &&
            (forall r | r in refs && IsHidden(l, r) :: r.name in w.seen) &&
            forall t | t in w.seen - seen :: Reaches(l, from, t)
    decreases l.shows.Keys - seen, |refs|
  {
    if refs != [] {
      var h := refs[0];
      var first := if IsHidden(l, h) then Follow(l, root, h.name, seen) else Walk(seen, [h.(via := root)]);
      if IsHidden(l, h) {
        FollowVisits(l, root, h.name, seen);
        assert Leads(l, from, h.name);
        forall t | t in first.seen - seen ensures Reaches(l, from, t) {
          ReachesOn(l, from, h.name, t);
        }
      }
      FollowAllVisits(l, root, from, refs[1..], first.seen);
      var w := FollowAll(l, root, refs, seen);
      assert w.seen - seen == (w.seen - first.seen) + (first.seen - seen);
      assert refs == [refs[0]] + refs[1..];
    }
  }

  // What a walk collects

  /** The references of a list that are not hidden, reached through root. */
  function Visible(l: Locals, root: string, refs: seq<Ref>): multiset<Ref> {
    if refs == [] then multiset{}
    else (if IsHidden(l, refs[0]) then multiset{} else multiset{refs[0].(via := root)}) + Visible(l, root, refs[1..])
  }

  /** What the types ts show, each once. */
  ghost function ShownBy(l: Locals, root: string, ts: set<string>): multiset<Ref>
    requires ts <= l.shows.Keys
  {
    if ts == {} then multiset{}
    else
      var t :| t in ts;
      Visible(l, root, l.shows[t]) + ShownBy(l, root, ts - {t})
  }

  lemma {:induction false} ShownByAdd(l: Locals, root: string, ts: set<string>, t: string)
    requires ts <= l.shows.Keys && t in ts
    ensures ShownBy(l, root, ts) == Visible(l, root, l.shows[t]) + ShownBy(l, root, ts - {t})
  {
    var u :| u in ts && ShownBy(l, root, ts) == Visible(l, root, l.shows[u]) + ShownBy(l, root, ts - {u});
    if u != t {
      ShownByAdd(l, root, ts - {u}, t);
      ShownByAdd(l, root, ts - {t}, u);
      assert ts - {u} - {t} == ts - {t} - {u};
    }
  }

  lemma {:induction false} ShownByUnion(l: Locals, root: string, a: set<string>, b: set<string>)
    requires a <= l.shows.Keys && b <= l.shows.Keys && a !! b
    ensures ShownBy(l, root, a + b) == ShownBy(l, root, a) + ShownBy(l, root, b)
  {
    if a == {} {
      assert a + b == b;
    } else {
      var t :| t in a;
      ShownByAdd(l, root, a, t);
      ShownByAdd(l, root, a + b, t);
      ShownByUnion(l, root, a - {t}, b);
      assert a + b - {t} == (a - {t}) + b;
    }
  }

  lemma {:induction false} FollowCollects(l: Locals, root: string, name: string, seen: set<string>)
    requires name in l.shows
    ensures var w := Follow(l, root, name, seen);
            w.seen - seen <= l.shows.Keys && multiset(w.out) == ShownBy(l, root, w.seen - seen)
    decreases l.shows.Keys - seen, 0
  {
    FollowVisits(l, root, name, seen);
    var w := Follow(l, root, name, seen);
    if name in seen {
      assert w.seen - seen == {};
    } else {
      FollowAllCollects(l, root, name, l.shows[name], seen + {name});
      ShownByAdd(l, root, w.seen - seen, name);
      assert w.seen - seen - {name} == w.seen - (seen + {name});
    }
  }

  lemma {:induction false} FollowAllCollects(l: Locals, root: string, from: string, refs: seq<Ref>, seen: set<string>)
    requires from in l.shows && forall r | r in refs :: r in l.shows[from]
    ensures var w := FollowAll(l, root, refs, seen);
            w.seen - seen <= l.shows.Keys &&
            multiset(w.out) == Visible(l, root, refs) + ShownBy(l, root, w.seen - seen)
    decreases l.shows.Keys - seen, |refs| + 1
  {
    if refs == [] {
      assert seen - seen == {};
    } else {
      var h := refs[0];
      var first := if IsHidden(l, h) then Follow(l, root, h.name, seen) else Walk(seen, [h.(via := root)]);
      var rest := FollowAll(l, root, refs[1..], first.seen);
      FirstCollects(l, root, h, seen, first);
      FollowAllCollects(l, root, from, refs[1..], first.seen);
      JoinCollects(l, root, seen, first, rest, if IsHidden(l, h) then multiset{} else multiset{h.(via := root)},
                   Visible(l, root, refs[1..]));
    }
  }

  /** Two walks, one after the other, collect what both visited. */
  lemma JoinCollects(l: Locals, root: string, seen: set<string>, first: Walk, rest: Walk, a: multiset<Ref>, b: multiset<Ref>)
    requires seen <= first.seen <= rest.seen
    requires first.seen - seen <= l.shows.Keys && rest.seen - first.seen <= l.shows.Keys
    requires multiset(first.out) == a + ShownBy(l, root, first.seen - seen)
    requires multiset(rest.out) == b + ShownBy(l, root, rest.seen - first.seen)
    ensures rest.seen - seen <= l.shows.Keys
    ensures multiset(first.out + rest.out) == a + b + ShownBy(l, root, rest.seen - seen)
  {
    assert rest.seen - seen == (first.seen - seen) + (rest.seen - first.seen);
    ShownByUnion(l, root, first.seen - seen, rest.seen - first.seen);
  }

  lemma FirstCollects(l: Locals, root: string, h: Ref, seen: set<string>, first: Walk)
    requires first == if IsHidden(l, h) then Follow(l, root, h.name, seen) else Walk(seen, [h.(via := root)])
    ensures seen <= first.seen && first.seen - seen <= l.shows.Keys
    ensures multiset(first.out) ==
            (if IsHidden(l, h) then multiset{} else multiset{h.(via := root)}) + ShownBy(l, root, first.seen - seen)
    decreases l.shows.Keys - seen, 1
  {
    if IsHidden(l, h) {
      FollowCollects(l, root, h.name, seen);
    } else {
      assert first.seen - seen == {};
    }
  }

  // The main results

  ghost function Reachable(l: Locals, root: string): set<string> {
    set t | t in l.shows && Reaches(l, root, t)
  }

  /** A reference to a hidden type becomes exactly what the hidden types
      reachable from it show, each type once, whatever cycles they form. */
  lemma ExpandIsReachability(l: Locals, r: Ref)
    requires IsHidden(l, r)
    ensures multiset(Expand(l, r)) == ShownBy(l, r.name, Reachable(l, r.name))
  {
    var w := Follow(l, r.name, r.name, {});
    FollowVisits(l, r.name, r.name, {});
    FollowCollects(l, r.name, r.name, {});
    assert w.seen - {} == w.seen;
    forall t | t in Reachable(l, r.name) ensures t in w.seen {
      var p :| IsRun(l, p) && p[0] == r.name && p[|p| - 1] == t;
      ClosedHoldsRun(l, w.seen, p);
    }
    assert w.seen == Reachable(l, r.name);
  }

  lemma {:induction false} VisibleIn(l: Locals, root: string, refs: seq<Ref>, x: Ref)
    ensures x in Visible(l, root, refs) <==>
            exists r :: r in refs && !IsHidden(l, r) && x == r.(via := root)
  {
    if refs != [] {
      VisibleIn(l, root, refs[1..], x);
      assert refs == [refs[0]] + refs[1..];
    }
  }

  lemma {:induction false} ShownIn(l: Locals, root: string, ts: set<string>, x: Ref)
    requires ts <= l.shows.Keys
    ensures x in ShownBy(l, root, ts) <==> exists t :: t in ts && x in Visible(l, root, l.shows[t])
  {
    if ts != {} {
      var t :| t in ts;
      ShownByAdd(l, root, ts, t);
      ShownIn(l, root, ts - {t}, x);
    }
  }

  /** What a reference expands to: itself, or the visible references of the
      hidden types it reaches. */
  lemma ExpandMembers(l: Locals, r: Ref, x: Ref)
    ensures x in Expand(l, r) <==>
            if !IsHidden(l, r) then x == r
            else exists t, s :: t in l.shows && Reaches(l, r.name, t) && s in l.shows[t] && !IsHidden(l, s) && x == s.(via := r.name)
  {
    if IsHidden(l, r) {
      ExpandIsReachability(l, r);
      assert x in Expand(l, r) <==> x in multiset(Expand(l, r));
      ShownIn(l, r.name, Reachable(l, r.name), x);
      forall t | t in Reachable(l, r.name) ensures x in Visible(l, r.name, l.shows[t]) <==>
            exists s :: s in l.shows[t] && !IsHidden(l, s) && x == s.(via := r.name)
      {
        VisibleIn(l, r.name, l.shows[t], x);
      }
    }
  }

  lemma {:induction false} ThroughMembers(l: Locals, refs: seq<Ref>, x: Ref)
    ensures x in ThroughHidden(l, refs) <==> exists r :: r in refs && x in Expand(l, r)
  {
    if refs != [] {
      ThroughMembers(l, refs[1..], x);
      assert refs == [refs[0]] + refs[1..];
    }
  }

  /** No reference to a hidden type is left. */
  lemma NoneHiddenLeft(l: Locals, refs: seq<Ref>)
    ensures forall x | x in ThroughHidden(l, refs) :: !IsHidden(l, x)
  {
    forall x | x in ThroughHidden(l, refs) ensures !IsHidden(l, x) {
      ThroughMembers(l, refs, x);
      var r :| r in refs && x in Expand(l, r);
      ExpandMembers(l, r, x);
    }
  }

  lemma {:induction false} NothingToExpand(l: Locals, refs: seq<Ref>)
    requires forall x | x in refs :: !IsHidden(l, x)
    ensures ThroughHidden(l, refs) == refs
  {
    if refs != [] {
      NothingToExpand(l, refs[1..]);
    }
  }

  /** A second application is the identity. */
  lemma ThroughHiddenIdempotent(l: Locals, refs: seq<Ref>)
    ensures ThroughHidden(l, ThroughHidden(l, refs)) == ThroughHidden(l, refs)
  {
    NoneHiddenLeft(l, refs);
    NothingToExpand(l, ThroughHidden(l, refs));
  }

  // The loops of the tool

  method FollowInto(l: Locals, root: string, name: string, seen: set<string>, out: seq<Ref>)
    returns (seen': set<string>, out': seq<Ref>)
    requires name in l.shows
    ensures seen' == Follow(l, root, name, seen).seen && out' == out + Follow(l, root, name, seen).out
    decreases l.shows.Keys - seen
  {
    seen', out' := seen, out;
    if name in seen {
      return;
    }
    seen' := seen' + {name};
    var refs := l.shows[name];
    ghost var all := FollowAll(l, root, refs, seen');
    assert refs[0..] == refs;
    for i := 0 to |refs|
      invariant seen + {name} <= seen'
      invariant FollowAll(l, root, refs[i..], seen').seen == all.seen
      invariant out' + FollowAll(l, root, refs[i..], seen').out == out + all.out
    {
      var h := refs[i];
      assert refs[i..][0] == h && refs[i..][1..] == refs[i + 1..];
      if IsHidden(l, h) {
        seen', out' := FollowInto(l, root, h.name, seen', out');
      } else {
        out' := out' + [h.(via := root)];
      }
    }
  }

  lemma {:induction false} ThroughSnoc(l: Locals, refs: seq<Ref>, r: Ref)
    ensures ThroughHidden(l, refs + [r]) == ThroughHidden(l, refs) + Expand(l, r)
  {
    if refs == [] {
      assert [] + [r] == [r] && [r][1..] == [];
      assert Expand(l, r) + [] == Expand(l, r);
    } else {
      assert (refs + [r])[0] == refs[0] && (refs + [r])[1..] == refs[1..] + [r];
      ThroughSnoc(l, refs[1..], r);
      assert Expand(l, refs[0]) + (ThroughHidden(l, refs[1..]) + Expand(l, r)) ==
             Expand(l, refs[0]) + ThroughHidden(l, refs[1..]) + Expand(l, r);
    }
  }

  method ReplaceHidden(l: Locals, refs: seq<Ref>) returns (out: seq<Ref>)
    ensures out == ThroughHidden(l, refs)
  {
    out := [];
    for i := 0 to |refs|
      invariant out == ThroughHidden(l, refs[..i])
    {
      ThroughSnoc(l, refs[..i], refs[i]);
      assert refs[..i + 1] == refs[..i] + [refs[i]];
      if !IsHidden(l, refs[i]) {
        out := out + [refs[i]];
      } else {
        var _, grown := FollowInto(l, refs[i].name, refs[i].name, {}, out);
        out := grown;
      }
    }
    assert refs[..|refs|] == refs;
  }
}
