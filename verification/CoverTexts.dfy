/** The names of covers, on their text: which texts are names, what each names,
    and which breaks it covers. */
module CoverTexts {
  import opened Text
  import opened Notes

  // Segments

  predicate NoEmptyPart(s: string, sep: char) {
    "" !in Split(s, sep)
  }

  /** A path that is no directory has an empty segment. */
  lemma {:induction false} EmptyPartShows(s: string, sep: char)
    ensures NoEmptyPart(s, sep) <==> s != "" && s[0] != sep && s[|s| - 1] != sep && !Contains(s, [sep, sep])
  {
    if s != "" && sep !in s {
      SplitWhole(s, sep);
      NoPair(s, sep);
      assert s[0] in s && s[|s| - 1] in s;
    } else if s != "" {
      var i := IndexOf(s, sep).value;
      var a, b := s[..i], s[i + 1..];
      assert s == a + [sep] + b;
      SplitAtSeparator(a, b, sep);
      EmptyPartShows(b, sep);
      PairAfter(a, b, sep);
      assert b != "" ==> s[|s| - 1] == b[|b| - 1];
      assert a != "" ==> s[0] == a[0] && a[0] in a;
    }
  }

  lemma {:induction false} NoPair(s: string, sep: char)
    requires sep !in s
    ensures !Contains(s, [sep, sep])
  {
    if s != "" {
      assert s[0] in s;
      NoPair(s[1..], sep);
    } else {
      assert !([sep, sep] <= s);
    }
  }

  lemma {:induction false} PairAfter(a: string, b: string, sep: char)
    requires sep !in a
    ensures Contains(a + [sep] + b, [sep, sep]) <==> (b != "" && b[0] == sep) || Contains(b, [sep, sep])
  {
    var s := a + [sep] + b;
    if a == "" {
      assert s[1..] == b && s[0] == sep;
      assert [sep, sep] <= s <==> b != "" && b[0] == sep;
    } else {
      assert s[0] == a[0] && a[0] in a;
      assert s[1..] == a[1..] + [sep] + b;
      PairAfter(a[1..], b, sep);
    }
  }

  lemma LastIs(s: string, c: char, k: nat)
    requires k < |s| && s[k] == c && forall j | k < j < |s| :: s[j] != c
    ensures LastIndexOf(s, c) == Some(k)
  {
    assert s[k] in s;
    var i := LastIndexOf(s, c);
    Later(s, c, if i.Some? then i.value + 1 else 0, k);
  }

  lemma Later<T>(s: seq<T>, c: T, i: nat, k: nat)
    requires k < |s| && s[k] == c
    ensures i <= k ==> c in s[i..]
  {
    assert i <= k ==> s[i..][k - i] == c;
  }

  lemma FirstIs(s: string, c: char, k: nat)
    requires k < |s| && s[k] == c && forall j | 0 <= j < k :: s[j] != c
    ensures IndexOf(s, c) == Some(k)
  {
    assert s[k] in s;
    forall m: nat | k < m < |s| ensures c in s[..m] {
      assert s[..m][k] == c;
    }
  }

  lemma TailWithout<T>(s: seq<T>, c: T, i: nat, j: nat)
    requires i <= j <= |s| && c !in s[i..]
    ensures c !in s[j..]
  {
    assert s[j..] == s[i..][j - i..];
  }

  // What a text names

  predicate HasBlank(s: string) {
    ' ' in s || '\t' in s
  }

  /** A package is a path without empty segments, the last of which has no dot. */
  predicate IsPackage(pkg: string) {
    NoEmptyPart(pkg, '/') && '.' !in pkg[LastSegmentAt(pkg)..]
  }

  /** A symbol is a name, or a type and a member, without empty parts. */
  predicate IsSymbol(symbol: string) {
    '/' !in symbol && NoEmptyPart(symbol, '.')
  }

  /** A package with all below it, a package, or a symbol of one. */
  predicate IsName(s: string, n: Name) {
    n.text == s && !HasBlank(s) && IsPackage(n.pkg) &&
    if n.tree then n.symbol == "" && s == n.pkg + "/..."
    else if n.symbol == "" then s == n.pkg
    else IsSymbol(n.symbol) && s == n.pkg + "." + n.symbol
  }

  lemma EndsWith(s: string, c: char)
    requires s != ""
    ensures HasPrefix(s, [c]) <==> s[0] == c
    ensures HasSuffix(s, [c]) <==> s[|s| - 1] == c
  {
    assert s[|s| - 1..] == [s[|s| - 1]];
  }

  lemma MalformedIs(pkg: string)
    ensures MalformedDirectory(pkg) <==> !NoEmptyPart(pkg, '/')
  {
    EmptyPartShows(pkg, '/');
    if pkg != "" {
      EndsWith(pkg, '/');
    }
  }

  lemma SymbolIs(name: string)
    ensures (name == "" || HasPrefix(name, ".") || HasSuffix(name, ".") || Contains(name, "..")) <==> !NoEmptyPart(name, '.')
  {
    EmptyPartShows(name, '.');
    if name != "" {
      EndsWith(name, '.');
    }
  }

  /** A segment cut at a dot is still the last one. */
  lemma SegmentCut(dir: string, dot: nat)
    requires LastSegmentAt(dir) + dot <= |dir|
    ensures var pkg := dir[..LastSegmentAt(dir) + dot];
      LastSegmentAt(pkg) == LastSegmentAt(dir) && pkg[LastSegmentAt(pkg)..] == dir[LastSegmentAt(dir)..][..dot]
  {
    var base := LastSegmentAt(dir);
    var pkg := dir[..base + dot];
    assert forall j | base <= j < |pkg| :: pkg[j] == dir[base..][j - base] && pkg[j] != '/';
    if base > 0 {
      LastIs(pkg, '/', base - 1);
    } else {
      assert forall j | 0 <= j < |pkg| :: pkg[j] != '/';
      assert '/' !in pkg;
    }
  }

  /** The same the other way round: text without a slash goes on with it. */
  lemma SegmentGrows(pkg: string, more: string)
    requires '/' !in more
    ensures LastSegmentAt(pkg + more) == LastSegmentAt(pkg)
    ensures (pkg + more)[LastSegmentAt(pkg)..] == pkg[LastSegmentAt(pkg)..] + more
  {
    var s, base := pkg + more, LastSegmentAt(pkg);
    forall j | base <= j < |s| ensures s[j] != '/' {
      if j < |pkg| {
        assert s[j] == pkg[base..][j - base];
      } else {
        assert s[j] == more[j - |pkg|] && more[j - |pkg|] in more;
      }
    }
    if base > 0 {
      LastIs(s, '/', base - 1);
    } else {
      assert '/' !in s;
    }
  }

  lemma SymbolRead(s: string, pkg: string, name: string, n: Name)
    ensures ParseSymbol(s, pkg, name) == Ok(n) <==>
            n == Name(s, pkg, name, false) && NoEmptyPart(name, '.') && NoEmptyPart(pkg, '/')
  {
    SymbolIs(name);
    MalformedIs(pkg);
  }

  /** What is read of a path that is no tree, or has lost its suffix. */
  predicate IsPath(s: string, path: string, tree: bool, n: Name) {
    n.text == s && n.tree == tree && IsPackage(n.pkg) &&
    if n.symbol == "" then path == n.pkg else !tree && IsSymbol(n.symbol) && path == n.pkg + "." + n.symbol
  }

  /** What stands before the dot is a package, and behind it there is no slash. */
  lemma CutIsPackage(path: string, base: nat, dot: nat, pkg: string, name: string)
    requires base == LastSegmentAt(path) && base + dot < |path| && path[base..][dot] == '.' && '.' !in path[base..][..dot]
    requires pkg == path[..base + dot] && name == path[base + dot + 1..] && NoEmptyPart(pkg, '/')
    ensures IsPackage(pkg) && '/' !in name && path == pkg + "." + name
  {
    SegmentCut(path, dot);
    TailWithout(path, '/', base, base + dot + 1);
    CutAtDot(path, base, dot);
  }

  lemma SymbolPath(s: string, path: string, pkg: string, name: string, n: Name)
    requires n == Name(s, pkg, name, false) && NoEmptyPart(name, '.') && IsPackage(pkg) && '/' !in name && path == pkg + "." + name
    ensures IsPath(s, path, false, n)
  {
    NotEmpty(name);
  }

  lemma PathIsAt(s: string, path: string, tree: bool, seg: string, dot: nat)
    requires seg == path[LastSegmentAt(path)..] && IndexOf(seg, '.') == Some(dot)
    ensures LastSegmentAt(path) + dot < |path| && ParsePath(s, path, tree) == ParseAt(s, path, tree, Some(dot))
  {
  }

  lemma TreeHasNoSymbol(s: string, path: string, dot: nat)
    requires LastSegmentAt(path) + dot < |path|
    ensures ParseAt(s, path, true, Some(dot)) == Err(TreeOfSymbol)
  {
  }

  lemma AtReads(s: string, path: string, end: nat, dot: nat, pkg: string, name: string)
    requires end == LastSegmentAt(path) + dot && end < |path| && pkg == path[..end] && name == path[end + 1..]
    ensures ParseAt(s, path, false, Some(dot)) == ParseSymbol(s, pkg, name)
  {
  }

  lemma DotlessReads(s: string, path: string, tree: bool, base: nat, seg: string)
    requires base == LastSegmentAt(path) && seg == path[base..] && '.' !in seg
    ensures ParsePath(s, path, tree) == if MalformedDirectory(path) then Err(MalformedPackage) else Ok(Name(s, path, "", tree))
  {
  }

  lemma DotlessPath(s: string, path: string, tree: bool, n: Name)
    requires '.' !in path[LastSegmentAt(path)..] && !MalformedDirectory(path) && n == Name(s, path, "", tree)
    ensures IsPath(s, path, tree, n)
  {
    MalformedIs(path);
  }

  lemma DottedGives(s: string, path: string, tree: bool, seg: string, dot: nat, end: nat, pkg: string, name: string, n: Name)
    requires seg == path[LastSegmentAt(path)..] && IndexOf(seg, '.') == Some(dot) && ParsePath(s, path, tree) == Ok(n)
    requires end == LastSegmentAt(path) + dot && end < |path| && pkg == path[..end] && name == path[end + 1..]
    ensures !tree && ParseSymbol(s, pkg, name) == Ok(n)
  {
    PathIsAt(s, path, tree, seg, dot);
    if tree {
      TreeHasNoSymbol(s, path, dot);
      assert false;
    }
    AtReads(s, path, end, dot, pkg, name);
  }

  lemma SymbolIsPath(s: string, path: string, base: nat, dot: nat, pkg: string, name: string, n: Name)
    requires base == LastSegmentAt(path) && base + dot < |path| && path[base..][dot] == '.' && '.' !in path[base..][..dot]
    requires pkg == path[..base + dot] && name == path[base + dot + 1..] && ParseSymbol(s, pkg, name) == Ok(n)
    ensures IsPath(s, path, false, n)
  {
    SymbolRead(s, pkg, name, n);
    CutIsPackage(path, base, dot, pkg, name);
    SymbolPath(s, path, pkg, name, n);
  }

  lemma FoundAt(path: string, base: nat, seg: string, dot: nat)
    requires base <= |path| && seg == path[base..] && IndexOf(seg, '.') == Some(dot)
    ensures base + dot < |path| && path[base..][dot] == '.' && '.' !in path[base..][..dot]
  {
  }

  lemma DottedIs(s: string, path: string, tree: bool, base: nat, seg: string, dot: nat, n: Name)
    requires base == LastSegmentAt(path) && seg == path[base..] && IndexOf(seg, '.') == Some(dot)
    requires ParsePath(s, path, tree) == Ok(n)
    ensures !tree && IsPath(s, path, false, n)
  {
    FoundAt(path, base, seg, dot);
    var end := base + dot;
    var pkg, name := path[..end], path[end + 1..];
    DottedGives(s, path, tree, seg, dot, end, pkg, name, n);
    SymbolIsPath(s, path, base, dot, pkg, name, n);
  }

  lemma PathsAre(s: string, path: string, tree: bool, base: nat, seg: string, n: Name)
    requires base == LastSegmentAt(path) && seg == path[base..] && ParsePath(s, path, tree) == Ok(n)
    ensures IsPath(s, path, tree, n)
  {
    if '.' !in seg {
      DotlessReads(s, path, tree, base, seg);
      DotlessPath(s, path, tree, n);
    } else {
      DottedIs(s, path, tree, base, seg, IndexOf(seg, '.').value, n);
    }
  }

  lemma NotEmpty(name: string)
    requires NoEmptyPart(name, '.')
    ensures name != ""
  {
    EmptyPartShows(name, '.');
  }

  lemma CutAtDot(path: string, base: nat, dot: nat)
    requires base + dot < |path| && path[base..][dot] == '.'
    ensures path == path[..base + dot] + "." + path[base + dot + 1..]
  {
  }

  lemma SymbolParses(s: string, path: string, n: Name, base: nat, seg: string, more: string)
    requires IsPath(s, path, false, n) && n.symbol != "" && more == "." + n.symbol && path == n.pkg + more
    requires base == LastSegmentAt(n.pkg) && seg == n.pkg[base..]
    ensures ParsePath(s, path, false) == Ok(n)
  {
    SegmentGrows(n.pkg, more);
    FirstIs(seg + more, '.', |seg|);
    PathIsAt(s, path, false, seg + more, |seg|);
    PartsBack(n.pkg, n.symbol, path);
    AtReads(s, path, |n.pkg|, |seg|, n.pkg, n.symbol);
    SymbolRead(s, n.pkg, n.symbol, n);
  }

  lemma PathParses(s: string, path: string, tree: bool, n: Name)
    requires IsPath(s, path, tree, n)
    ensures ParsePath(s, path, tree) == Ok(n)
  {
    if n.symbol == "" {
      MalformedIs(path);
      DotlessReads(s, path, tree, LastSegmentAt(path), path[LastSegmentAt(path)..]);
    } else {
      assert path == n.pkg + ("." + n.symbol);
      SymbolParses(s, path, n, LastSegmentAt(n.pkg), n.pkg[LastSegmentAt(n.pkg)..], "." + n.symbol);
    }
  }

  lemma PartsBack(pkg: string, symbol: string, path: string)
    requires path == pkg + ("." + symbol)
    ensures |path| > |pkg| && path[..|pkg|] == pkg && path[|pkg| + 1..] == symbol
  {
  }

  lemma SuffixEnds(s: string)
    ensures HasSuffix(s, "/...") ==> s != "" && s[|s| - 1] == '.' && s == s[..|s| - 4] + "/..."
  {
    if HasSuffix(s, "/...") {
      assert s[|s| - 4..][3] == s[|s| - 1];
    }
  }

  /** No package or symbol ends in a dot. */
  lemma PathHasNoSuffix(s: string, n: Name)
    requires IsPath(s, s, false, n)
    ensures !HasSuffix(s, "/...") && s != ""
  {
    SuffixEnds(s);
    if n.symbol == "" {
      EmptyPartShows(s, '/');
      var at := LastSegmentAt(s);
      assert at < |s| ==> s[|s| - 1] == s[at..][|s| - 1 - at];
      assert at < |s| ==> s[|s| - 1] in s[at..];
    } else {
      EmptyPartShows(n.symbol, '.');
      assert s[|s| - 1] == n.symbol[|n.symbol| - 1];
    }
  }

  lemma NamesAre(s: string, n: Name)
    requires ParseCover(s) == Ok(n)
    ensures IsName(s, n)
  {
    var tree := HasSuffix(s, "/...");
    SuffixEnds(s);
    var path := if tree then s[..|s| - 4] else s;
    PathsAre(s, path, tree, LastSegmentAt(path), path[LastSegmentAt(path)..], n);
  }

  lemma TreeParses(s: string, n: Name)
    requires IsName(s, n) && n.tree
    ensures ParseCover(s) == Ok(n)
  {
    assert s[|s| - 4..] == "/..." && s[..|s| - 4] == n.pkg;
    PathParses(s, n.pkg, true, n);
  }

  lemma OthersParse(s: string, n: Name)
    requires IsName(s, n) && !n.tree
    ensures ParseCover(s) == Ok(n)
  {
    PathHasNoSuffix(s, n);
    PathParses(s, s, false, n);
  }

  /** A text is read as a name exactly when it is one. */
  lemma ReadAsName(s: string, n: Name)
    ensures ParseCover(s) == Ok(n) <==> IsName(s, n)
  {
    if ParseCover(s) == Ok(n) {
      NamesAre(s, n);
    }
    if IsName(s, n) {
      if n.tree {
        TreeParses(s, n);
      } else {
        OthersParse(s, n);
      }
    }
  }
}
