/** Where the links of the copy lead: paths are resolved lexically, and a link
    into the old directory leads to the same place in the new one. */
module MigrateLinks {
  import opened Text
  import opened Migrate

  // What resolving a path means

  predicate Plain(parts: Path) {
    forall i | 0 <= i < |parts| :: parts[i] != "" && parts[i] != "." && parts[i] != ".."
  }

  lemma {:induction false} ResolvedIsPlain(parts: Path)
    ensures Plain(ResolveDots(parts))
  {
    if parts != [] {
      ResolvedIsPlain(parts[..|parts| - 1]);
    }
  }

  lemma {:induction false} PlainResolves(parts: Path)
    requires Plain(parts)
    ensures ResolveDots(parts) == parts
  {
    if parts != [] {
      PlainResolves(parts[..|parts| - 1]);
    }
  }

  lemma OneName(parts: Path, name: string)
    ensures ResolveDots(parts + [name]) == Entered(ResolveDots(parts), name)
    ensures ClimbDots(parts + [name]) == Climbing(ClimbDots(parts), name)
  {
    assert (parts + [name])[..|parts|] == parts;
  }

  predicate IsPlain(name: string) {
    name != "" && name != "." && name != ".."
  }

  lemma PlainStays(parts: Path, rest: Path)
    requires Plain(rest)
    ensures ResolveDots(parts + rest) == ResolveDots(parts) + rest
    ensures ClimbDots(parts + rest) == ClimbDots(parts) + rest
  {
    forall a, x | IsPlain(x) ensures ResolveDots(a + [x]) == ResolveDots(a) + [x] && ClimbDots(a + [x]) == ClimbDots(a) + [x] {
      OneName(a, x);
    }
    GrowsBy(ResolveDots, IsPlain, parts, rest);
    GrowsBy(ClimbDots, IsPlain, parts, rest);
  }

  /** Paths that resolve alike do so with the same names after them. */
  lemma ResolveAfter(a: Path, b: Path, rest: Path)
    requires ResolveDots(a) == ResolveDots(b)
    ensures ResolveDots(a + rest) == ResolveDots(b + rest)
  {
    forall p, q, name: string | ResolveDots(p) == ResolveDots(q) ensures ResolveDots(p + [name]) == ResolveDots(q + [name]) {
      OneName(p, name);
      OneName(q, name);
    }
    SameOn(ResolveDots, a, b, rest);
  }

  /** What resolving is: empty names and dots say nothing, a name and the parent
      after it cancel, the root is its own parent, and plain paths stay. */
  lemma DotsResolve(a: Path, name: string, b: Path)
    ensures name == "" || name == "." ==> ResolveDots(a + [name] + b) == ResolveDots(a + b)
    ensures IsPlain(name) ==> ResolveDots(a + [name, ".."] + b) == ResolveDots(a + b)
    ensures ResolveDots([".."] + b) == ResolveDots(b)
    ensures Plain(a) ==> ResolveDots(a) == a
  {
    OneName(a, name);
    OneName(a + [name], "..");
    OneName([], "..");
    assert a + [name] + [".."] == a + [name, ".."] && [] + [".."] == [".."] && [] + b == b;
    if name == "" || name == "." {
      ResolveAfter(a + [name], a, b);
    }
    if IsPlain(name) {
      ResolveAfter(a + [name, ".."], a, b);
    }
    ResolveAfter([".."], [], b);
    if Plain(a) {
      PlainResolves(a);
    }
  }

  /** It climbs at its start alone, and holds nothing else to clean. */
  predicate Climbed(parts: Path) {
    forall i | 0 <= i < |parts| :: parts[i] != "" && parts[i] != "." && (parts[i] == ".." && i > 0 ==> parts[i - 1] == "..")
  }

  lemma {:induction false} ClimbedIs(parts: Path)
    ensures Climbed(ClimbDots(parts))
  {
    if parts != [] {
      ClimbedIs(parts[..|parts| - 1]);
    }
  }

  lemma {:induction false} ClimbedHolds(parts: Path)
    requires Climbed(parts)
    ensures ClimbDots(parts) == parts
  {
    if parts != [] {
      var init := parts[..|parts| - 1];
      assert Climbed(init);
      ClimbedHolds(init);
    }
  }

  lemma ClimbedStays(parts: Path)
    ensures ClimbDots(ClimbDots(parts)) == ClimbDots(parts)
  {
    ClimbedIs(parts);
    ClimbedHolds(ClimbDots(parts));
  }

  lemma ClimbAfter(a: Path, b: Path, rest: Path)
    requires ClimbDots(a) == ClimbDots(b)
    ensures ClimbDots(a + rest) == ClimbDots(b + rest)
  {
    forall p, q, name: string | ClimbDots(p) == ClimbDots(q) ensures ClimbDots(p + [name]) == ClimbDots(q + [name]) {
      OneName(p, name);
      OneName(q, name);
    }
    SameOn(ClimbDots, a, b, rest);
  }

  /** Cleaning a relative path does the same, but climbs above its start. */
  lemma DotsClean(a: Path, name: string, b: Path)
    ensures name == "" || name == "." ==> ClimbDots(a + [name] + b) == ClimbDots(a + b)
    ensures IsPlain(name) ==> ClimbDots(a + [name, ".."] + b) == ClimbDots(a + b)
    ensures Climbed(a) ==> ClimbDots(a) == a
  {
    OneName(a, name);
    OneName(a + [name], "..");
    assert a + [name] + [".."] == a + [name, ".."];
    if name == "" || name == "." {
      ClimbAfter(a + [name], a, b);
    }
    if IsPlain(name) {
      ClimbAfter(a + [name, ".."], a, b);
    }
    if Climbed(a) {
      ClimbedHolds(a);
    }
  }

  // Where the links lead

  /** A relative path, from the working directory. */
  function AbsoluteParts(cwd: Path, t: Target): Path {
    if t.Absolute? then t.parts else cwd + t.parts
  }

  /** A target lies in a directory, lexically. */
  predicate Under(dir: Path, target: Target) {
    target.Absolute? && ResolveDots(dir) <= ResolveDots(target.parts)
  }

  /** Neither directory contains the other. */
  predicate Disjoint(cwd: Path, d: Dirs) {
    var a, b := ResolveDots(AbsoluteParts(cwd, d.source)), ResolveDots(AbsoluteParts(cwd, d.target));
    !(a <= b) && !(b <= a)
  }

  /** The target lies in the old directory, at rest. */
  predicate LiesAt(d: Dirs, target: Target, rest: Path) {
    d.source.Absolute? && target.Absolute? && ResolveDots(target.parts) == ResolveDots(d.source.parts) + rest
  }

  /** The link leads to rest in the new directory. */
  predicate LeadsTo(d: Dirs, link: Target, rest: Path) {
    if d.target.Absolute? then link.Absolute? && ResolveDots(link.parts) == ResolveDots(d.target.parts) + rest
    else link.Relative? && ClimbDots(link.parts) == ClimbDots(d.target.parts) + rest
  }

  /** A link to rest in the old directory leads to rest in the new one, and any
      other is the same. */
  ghost predicate LeadsAlike(d: Dirs, target: Target, link: Target) {
    (forall rest | LiesAt(d, target, rest) :: LeadsTo(d, link, rest)) &&
    ((forall rest :: !LiesAt(d, target, rest)) ==> link == target)
  }

  lemma RedirectLeadsAlike(d: Dirs, target: Target)
    ensures LeadsAlike(d, target, Redirect(d, target))
  {
    if Inside(d, target) {
      var a, whole := ResolveDots(d.source.parts), ResolveDots(target.parts);
      var rest := whole[|a|..];
      assert whole == a + rest;
      ResolvedIsPlain(target.parts);
      JoinedLeads(d, rest);
      assert LiesAt(d, target, rest);
      assert forall other | LiesAt(d, target, other) :: other == whole[|a|..];
    } else {
      assert forall rest | LiesAt(d, target, rest) :: ResolveDots(d.source.parts) <= ResolveDots(target.parts);
    }
  }

  lemma JoinedLeads(d: Dirs, rest: Path)
    requires Plain(rest)
    ensures LeadsTo(d, Joined(d.target, rest), rest)
  {
    PlainStays(d.target.parts, rest);
    if d.target.Absolute? {
      ResolvedIsPlain(d.target.parts);
      PlainResolves(ResolveDots(d.target.parts) + rest);
    } else {
      ClimbedStays(d.target.parts + rest);
    }
  }

  /** A link that leads into the new directory is not in the old one. */
  lemma LedIsApart(d: Dirs, a: Path, b: Path, link: Target, rest: Path)
    requires a == ResolveDots(d.source.parts) && d.source.Absolute? && LeadsTo(d, link, rest)
    requires d.target.Absolute? ==> b == ResolveDots(d.target.parts) && !(a <= b) && !(b <= a)
    ensures !Under(d.source.parts, link)
  {
    if d.target.Absolute? && a <= b + rest {
      PrefixesNest(a, b, rest);
    }
  }

  lemma NotInsideIsApart(d: Dirs, target: Target)
    requires d.source.Absolute? && forall rest :: !LiesAt(d, target, rest)
    ensures !Under(d.source.parts, target)
  {
    if Under(d.source.parts, target) {
      var a, whole := ResolveDots(d.source.parts), ResolveDots(target.parts);
      assert whole == a + whole[|a|..];
      assert LiesAt(d, target, whole[|a|..]);
    }
  }

  lemma AlikeLeaves(cwd: Path, d: Dirs, target: Target, link: Target)
    requires Disjoint(cwd, d) && d.source.Absolute? && LeadsAlike(d, target, link)
    ensures !Under(AbsoluteParts(cwd, d.source), link)
  {
    if rest :| LiesAt(d, target, rest) {
      LedIsApart(d, ResolveDots(d.source.parts), ResolveDots(d.target.parts), link, rest);
    } else {
      NotInsideIsApart(d, target);
    }
  }

  lemma PrefixesNest(a: Path, b: Path, rest: Path)
    requires a <= b + rest
    ensures a <= b || b <= a
  {
    if |a| <= |b| {
      assert forall i | 0 <= i < |a| :: a[i] == (b + rest)[i];
    } else {
      assert forall i | 0 <= i < |b| :: a[i] == (b + rest)[i];
    }
  }

  /** No link the copy makes points into the old directory, exactly when that
      directory is given by an absolute path: a relative one redirects nothing. */
  lemma LinksLeaveTheOldTree(cwd: Path, d: Dirs)
    requires Disjoint(cwd, d)
    ensures (forall target, link | LeadsAlike(d, target, link) :: !Under(AbsoluteParts(cwd, d.source), link)) <==>
            d.source.Absolute?
  {
    if d.source.Absolute? {
      forall target, link | LeadsAlike(d, target, link) ensures !Under(AbsoluteParts(cwd, d.source), link) {
        AlikeLeaves(cwd, d, target, link);
      }
    } else {
      var target := Absolute(AbsoluteParts(cwd, d.source));
      assert LeadsAlike(d, target, target);
      assert Under(AbsoluteParts(cwd, d.source), target);
    }
  }
}
