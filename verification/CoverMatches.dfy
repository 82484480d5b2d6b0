/** Which breaks a cover names, said on its text alone. */
module CoverMatches {
  import opened Text
  import opened Notes
  import opened Tally
  import opened Verdict
  import opened CoverTexts

  /** The text is the package of the break, the break in it, the type that the
      break is a member of, or a directory with the tree suffix that the package
      is or lies below. */
  ghost predicate NamesText(s: string, pkg: string, name: string) {
    s == pkg || s == pkg + "." + name || (exists t :: s == pkg + "." + t && t + "." <= name) ||
    s == pkg + "/..." || exists up :: s == up + "/..." && up + "/" <= pkg
  }

  lemma {:induction false} SplitJoins(a: string, b: string, sep: char)
    ensures Split(a + [sep] + b, sep) == Split(a, sep) + Split(b, sep)
  {
    var s := a + [sep] + b;
    if a == "" {
      assert s[0] == sep && s[1..] == b;
    } else {
      assert s[0] == a[0] && s[1..] == a[1..] + [sep] + b;
      SplitJoins(a[1..], b, sep);
    }
  }

  /** A type that a symbol is a member of is a symbol. */
  lemma OwnerIsSymbol(t: string, name: string)
    requires IsSymbol(name) && t + "." <= name
    ensures IsSymbol(t)
  {
    var rest := name[|t| + 1..];
    assert name == t + ['.'] + rest;
    SplitJoins(t, rest, '.');
    assert forall x | x in Split(t, '.') :: x in Split(name, '.');
    assert forall c | c in t :: c in name;
  }

  lemma SymbolNamed(s: string, n: Name, pkg: string, symbol: string)
    requires ParseCover(s) == Ok(n) && IsPackage(pkg) && IsSymbol(symbol) && s == pkg + "." + symbol
    ensures n == Name(s, pkg, symbol, false)
  {
    ReadAsName(s, n);
    NotEmpty(symbol);
    ReadAsName(s, Name(s, pkg, symbol, false));
  }

  lemma PackageNamed(s: string, n: Name)
    requires ParseCover(s) == Ok(n) && IsPackage(s)
    ensures n == Name(s, s, "", false)
  {
    ReadAsName(s, n);
    ReadAsName(s, Name(s, s, "", false));
  }

  lemma TreeNamed(s: string, n: Name, up: string)
    requires ParseCover(s) == Ok(n) && s == up + "/..."
    ensures n == Name(s, up, "", true)
  {
    ReadAsName(s, n);
    assert s[|s| - 4..] == "/..." && s[..|s| - 4] == up;
    if n.tree {
      assert s[..|s| - 4] == n.pkg;
    } else {
      PathHasNoSuffix(s, n);
      assert false;
    }
  }

  lemma NamedMatches(s: string, n: Name, b: Breakage)
    requires ParseCover(s) == Ok(n) && IsPackage(b.pkg) && IsSymbol(b.name) && NamesText(s, b.pkg, b.name)
    ensures Matches(n, b)
  {
    if s == b.pkg {
      PackageNamed(s, n);
    } else if s == b.pkg + "." + b.name {
      SymbolNamed(s, n, b.pkg, b.name);
    } else if t :| s == b.pkg + "." + t && t + "." <= b.name {
      OwnerIsSymbol(t, b.name);
      SymbolNamed(s, n, b.pkg, t);
    } else if s == b.pkg + "/..." {
      TreeNamed(s, n, b.pkg);
    } else {
      var up :| s == up + "/..." && up + "/" <= b.pkg;
      TreeNamed(s, n, up);
    }
  }

  /** A cover matches exactly the breaks that its text names. */
  lemma MatchReads(s: string, n: Name, b: Breakage)
    requires ParseCover(s) == Ok(n) && IsPackage(b.pkg) && IsSymbol(b.name)
    ensures Matches(n, b) <==> NamesText(s, b.pkg, b.name)
  {
    ReadAsName(s, n);
    if NamesText(s, b.pkg, b.name) {
      NamedMatches(s, n, b);
    }
  }
}
