/** A run of `terva migrate`: runMigrate of packages/agent/migratecmd.go with
    RemoveOldUserDir, RenameProjectDir and FinalizeMigration of migrate.go. */
module MigrateRun {
  import opened Text
  import opened Migrate
  import opened MigrateSafety

  /** hasUser says there is an old data directory to copy, project that a
      project directory with the old name was found, and conflict that one with
      the new name is there too. */
  datatype Plan = Plan(hasUser: bool, dirs: Dirs, project: bool, conflict: bool, already: bool)

  predicate ProjectApplicable(p: Plan) {
    p.project && !p.conflict
  }

  predicate NothingToDo(p: Plan) {
    !p.hasUser && !p.project && p.already
  }

  datatype Options = Options(yes: bool, removeOld: bool, keepOld: bool, dryRun: bool)

  /** What the file system does in the steps after the copy. */
  datatype Env = Env(w: World, seen: bool, markerFails: bool, same: bool, removalFails: bool, renameFails: bool)

  /** The old directory: untouched, partly removed, or gone. */
  datatype OldTree = Untouched | PartlyRemoved | Gone

  datatype Problem = NoMarker | SameDir | NotRemoved | NotRenamed | ClashingFlags

  // Prompts

  function Lower(s: string): string {
    seq(|s|, i requires 0 <= i < |s| => if 'A' <= s[i] <= 'Z' then s[i] - 'A' + 'a' else s[i])
  }

  /** promptYesNo on the n-th line of input. No more input is a no. */
  predicate Agrees(inputs: seq<string>, n: nat, default: bool) {
    n < |inputs| &&
    var answer := Lower(TrimSpace(inputs[n]));
    if answer == "" then default else answer == "y" || answer == "yes"
  }

  predicate AssumesYes(opts: Options) {
    opts.yes || opts.removeOld
  }

  // What a run comes to

  /** CopyUserData on the old tree, which may not be there. */
  function CopyUserData(d: Dirs, env: Env, tree: Tree, root: Node): Copying {
    var s := Copying(tree, Report(0, 0, [], []));
    if env.seen then Walk(d, env.w, s, [], root) else Failed(s, [])
  }

  predicate Copies(p: Plan, opts: Options, inputs: seq<string>) {
    p.hasUser && !opts.dryRun && (AssumesYes(opts) || Agrees(inputs, 0, true))
  }

  /** The old directory is removed after a clean copy that was asked for, with
      the marker in place, and with consent. */
  predicate Removes(p: Plan, opts: Options, env: Env, inputs: seq<string>, rep: Report) {
    WantsRemoval(p, opts, inputs, rep) && (p.already || !env.markerFails) && !env.same
  }

  /** Whether the run comes to writing the marker. */
  predicate Finalizes(p: Plan, opts: Options, inputs: seq<string>, rep: Report) {
    !opts.dryRun && !p.already && (!p.hasUser || (Copies(p, opts, inputs) && Clean(rep)))
  }

  /** Whether the removal is asked for, and consented to. */
  predicate WantsRemoval(p: Plan, opts: Options, inputs: seq<string>, rep: Report) {
    Copies(p, opts, inputs) && Clean(rep) && !opts.keepOld &&
    (opts.removeOld || (!opts.yes && Agrees(inputs, 1, false)))
  }

  /** Whether the run ends with an error before the project directory. */
  predicate Stops(p: Plan, opts: Options, env: Env, inputs: seq<string>, rep: Report) {
    (Finalizes(p, opts, inputs, rep) && env.markerFails) ||
    (WantsRemoval(p, opts, inputs, rep) && (env.same || env.removalFails))
  }

  /** The project directory is renamed when nothing went wrong before and there
      is consent, asked for after the questions before it. */
  predicate Renames(p: Plan, opts: Options, env: Env, inputs: seq<string>, rep: Report) {
    var asked := (if p.hasUser then 1 else 0) + if Copies(p, opts, inputs) && Clean(rep) && !opts.keepOld then 1 else 0;
    ProjectApplicable(p) && !opts.dryRun && !Stops(p, opts, env, inputs, rep) && !env.renameFails &&
    (AssumesYes(opts) || Agrees(inputs, asked, true))
  }

  class Migration {
    const plan: Plan
    const root: Node
    var tree: Tree
    var oldTree: OldTree
    var marker: bool
    var renamed: bool

    constructor (plan: Plan, root: Node, tree: Tree)
      ensures this.plan == plan && this.root == root && this.tree == tree
      ensures oldTree.Untouched? && marker == plan.already && !renamed
    {
      this.plan, this.root, this.tree := plan, root, tree;
      oldTree, marker, renamed := Untouched, plan.already, false;
    }

    method RunMigrate(opts: Options, env: Env, inputs: seq<string>) returns (err: Option<Problem>)
      requires oldTree.Untouched? && !renamed && marker == plan.already
      modifies this
      ensures var t := CopyUserData(plan.dirs, env, old(tree), root);
        (tree == if Copies(plan, opts, inputs) then t.tree else old(tree)) &&
        (!oldTree.Untouched? <==> Removes(plan, opts, env, inputs, t.rep)) &&
        (oldTree.PartlyRemoved? <==> !oldTree.Untouched? && env.removalFails) &&
        (marker <==> plan.already || (Finalizes(plan, opts, inputs, t.rep) && !env.markerFails)) &&
        (renamed <==> Renames(plan, opts, env, inputs, t.rep))
    {
      err := None;
      if NothingToDo(plan) || opts.dryRun {
        return;
      }
      var copied, rep, asked := OfferCopy(opts, env, inputs);
      if (!plan.hasUser || (copied && Clean(rep))) && !plan.already {
        if env.markerFails {
          return Some(NoMarker);
        }
        marker := true;
      }
      if copied && Clean(rep) && !opts.keepOld {
        err := OfferRemoval(opts, env, inputs, asked, rep);
        if err.Some? {
          return;
        }
        asked := asked + 1;
      }
      err := OfferRename(opts, env, inputs, asked);
    }

    /** The question about the data directory, and its copy. */
    method OfferCopy(opts: Options, env: Env, inputs: seq<string>) returns (copied: bool, rep: Report, asked: nat)
      modifies this`tree
      ensures copied <==> plan.hasUser && (AssumesYes(opts) || Agrees(inputs, 0, true))
      ensures asked == if plan.hasUser && !AssumesYes(opts) then 1 else 0
      ensures if copied then Copying(tree, rep) == CopyUserData(plan.dirs, env, old(tree), root) else tree == old(tree)
    {
      copied, rep, asked := plan.hasUser && AssumesYes(opts), Report(0, 0, [], []), 0;
      if plan.hasUser && !copied {
        copied, asked := Agrees(inputs, 0, true), 1;
      }
      if copied {
        var t := CopyUserDir(env);
        tree, rep := t.tree, t.rep;
      }
    }

    /** The question about the old directory, and its removal. */
    method OfferRemoval(opts: Options, env: Env, inputs: seq<string>, asked: nat, rep: Report) returns (err: Option<Problem>)
      requires oldTree.Untouched? && plan.hasUser && Clean(rep)
      modifies this`oldTree
      ensures var wanted := opts.removeOld || (!opts.yes && Agrees(inputs, asked, false));
        (!oldTree.Untouched? <==> wanted && !env.same) &&
        (oldTree.PartlyRemoved? <==> wanted && !env.same && env.removalFails) &&
        (err.Some? <==> wanted && (env.same || env.removalFails))
    {
      var agreed := opts.removeOld;
      if !opts.removeOld && !opts.yes {
        agreed := Agrees(inputs, asked, false);
      }
      if !agreed {
        return None;
      }
      err := RemoveOldUserDir(env, rep);
    }

    /** The question about the project directory, and its renaming. */
    method OfferRename(opts: Options, env: Env, inputs: seq<string>, asked: nat) returns (err: Option<Problem>)
      requires !renamed
      modifies this`renamed
      ensures var wanted := ProjectApplicable(plan) && (AssumesYes(opts) || Agrees(inputs, asked, true));
        (renamed <==> wanted && !env.renameFails) && (err.Some? <==> wanted && env.renameFails)
    {
      if !ProjectApplicable(plan) {
        return None;
      }
      var agreed := AssumesYes(opts);
      if !agreed {
        agreed := Agrees(inputs, asked, true);
      }
      if !agreed {
        return None;
      }
      if env.renameFails {
        return Some(NotRenamed);
      }
      renamed := true;
      return None;
    }

    /** runMigrateCommand, past the reading of its flags. When the old directory
        is touched, nothing is lost with it exactly when the old tree fits. */
    method RunMigrateCommand(opts: Options, env: Env, inputs: seq<string>) returns (err: Option<Problem>)
      requires oldTree.Untouched? && !renamed && marker == plan.already
      modifies this
      ensures opts.removeOld && opts.keepOld ==> err == Some(ClashingFlags) && tree == old(tree) && oldTree.Untouched?
      ensures oldTree.Untouched? || Removes(plan, opts, env, inputs, CopyUserData(plan.dirs, env, old(tree), root).rep)
      ensures WellFormed(root) && !oldTree.Untouched? ==>
        (NothingLost(root, tree) <==> Fits(root, old(tree))) && Kept(old(tree), tree)
    {
      if opts.removeOld && opts.keepOld {
        return Some(ClashingFlags);
      }
      Removal(opts, env, inputs);
      err := RunMigrate(opts, env, inputs);
    }

    /** What RemovalIsSafe says of this run. */
    lemma Removal(opts: Options, env: Env, inputs: seq<string>)
      ensures var t := CopyUserData(plan.dirs, env, tree, root);
        WellFormed(root) && Removes(plan, opts, env, inputs, t.rep) ==>
          (NothingLost(root, t.tree) <==> Fits(root, tree)) && Kept(tree, t.tree)
    {
      if WellFormed(root) && Removes(plan, opts, env, inputs, CopyUserData(plan.dirs, env, tree, root).rep) {
        RemovalIsSafe(plan, opts, env, inputs, tree, root);
      }
    }

    method CopyUserDir(env: Env) returns (t: Copying)
      ensures t == CopyUserData(plan.dirs, env, tree, root)
    {
      var copier := new Copier(plan.dirs, env.w, tree);
      if env.seen {
        copier.Visit([], root);
        return copier.State();
      }
      return Failed(copier.State(), []);
    }

    /** It refuses after a copy with errors, and when the two are one. */
    method RemoveOldUserDir(env: Env, rep: Report) returns (err: Option<Problem>)
      modifies this`oldTree
      ensures !oldTree.Untouched? <==> !old(oldTree).Untouched? || (plan.hasUser && Clean(rep) && !env.same)
      ensures old(oldTree).Untouched? ==>
        (err.None? <==> oldTree.Gone?) && (oldTree.PartlyRemoved? <==> !oldTree.Untouched? && env.removalFails)
    {
      if !plan.hasUser || !Clean(rep) {
        return Some(NotRemoved);
      }
      if env.same {
        return Some(SameDir);
      }
      if env.removalFails {
        oldTree := PartlyRemoved;
        return Some(NotRemoved);
      }
      oldTree := Gone;
      return None;
    }
  }

  // The main results

  /** Everything the removal of the old tree would lose is in the new one: each
      file and link, the note aside, has an entry at its path. */
  ghost predicate NothingLost(root: Node, tree: Tree) {
    forall p | At(root, p).Some? && (At(root, p).value.File? || At(root, p).value.Link?) && p != MARKER :: p in tree
  }

  /** Each file and link of the old tree, the note aside, has an entry in the new
      tree already, or stands below the root with no link of the new tree above
      it. */
  ghost predicate Fits(root: Node, tree: Tree) {
    forall p | At(root, p).Some? && (At(root, p).value.File? || At(root, p).value.Link?) && p != MARKER ::
      p in tree || (p != [] && !LinkAbove(tree, p))
  }

  /** Whatever the answers and whatever fails, what was in the new tree is as it
      was, and what the run added mirrors the old tree: whole files after a
      clean copy, parts of files otherwise. */
  lemma NothingAltered(d: Dirs, env: Env, tree: Tree, root: Node)
    requires WellFormed(root)
    ensures var t := CopyUserData(d, env, tree, root);
      Kept(tree, t.tree) && Added(d, root, tree, t.tree, Clean(t.rep))
  {
    if env.seen && root.Dir? {
      WalkStep(d, env.w, root, Copying(tree, Report(0, 0, [], [])), [], root);
    }
  }

  /** A clean copy loses nothing, exactly when the old tree fits: when the old
      directory is no file or link itself, and every file and link in it that
      has no entry yet stands below no link of the new tree. */
  lemma CleanCopyLosesNothing(d: Dirs, env: Env, tree: Tree, root: Node)
    requires WellFormed(root) && Clean(CopyUserData(d, env, tree, root).rep)
    ensures NothingLost(root, CopyUserData(d, env, tree, root).tree) <==> Fits(root, tree)
  {
    var t := CopyUserData(d, env, tree, root);
    if root.Dir? {
      WalkStep(d, env.w, root, Copying(tree, Report(0, 0, [], [])), [], root);
      forall p | At(root, p).Some? && (At(root, p).value.File? || At(root, p).value.Link?) && p != MARKER
        ensures p in t.tree <==> p in tree || !LinkAbove(tree, p)
      {
        PlacedAt(tree, t.tree, root, p, At(root, p).value);
      }
      assert At(root, []) == Some(root);
    } else {
      assert t.tree == tree;
      forall p | p != [] ensures At(root, p).None? {
        NothingBelow(root, p);
      }
    }
  }

  lemma {:induction false} NothingBelow(root: Node, p: Path)
    requires !root.Dir? && p != []
    ensures At(root, p).None?
    decreases |p|
  {
    if |p| > 1 {
      NothingBelow(root, Parent(p));
    }
  }

  /** When a run removes the old directory, nothing was altered, what was added
      is whole, and nothing is lost with it, exactly when the old tree fits. */
  lemma RemovalIsSafe(p: Plan, opts: Options, env: Env, inputs: seq<string>, tree: Tree, root: Node)
    requires WellFormed(root)
    requires Removes(p, opts, env, inputs, CopyUserData(p.dirs, env, tree, root).rep)
    ensures var after := CopyUserData(p.dirs, env, tree, root).tree;
      (NothingLost(root, after) <==> Fits(root, tree)) && Kept(tree, after) && Added(p.dirs, root, tree, after, true)
  {
    CleanCopyLosesNothing(p.dirs, env, tree, root);
    NothingAltered(p.dirs, env, tree, root);
  }

  /** With a link in the new tree where the old one has a directory, a clean
      copy can leave a file of the old tree without an entry. */
  lemma LinkedDirectoryLoses() returns (d: Dirs, env: Env, tree: Tree, root: Node)
    ensures root.Dir? && WellFormed(root) && [] !in tree && !Fits(root, tree)
    ensures var t := CopyUserData(d, env, tree, root);
      Clean(t.rep) && !NothingLost(root, t.tree)
  {
    var no: Path -> bool := _ => false;
    var w := World(no, no, _ => Copied, no, no, no, _ => true, _ => true);
    d, env := Dirs(Absolute(["old"]), Absolute(["new"])), Env(w, true, false, false, false, false);
    var inner := Dir([Named("f", File("x"))]);
    root, tree := Dir([Named("d", inner)]), map[["d"] := LinkEntry(Absolute(["old", "d"]))];
    assert At(root, []) == Some(root);
    AtChild(root, [], root, 0);
    AtChild(root, ["d"], inner, 0);
    assert [] + ["d"] == ["d"] && ["d"] + ["f"] == ["d", "f"];
    assert Parent(["d", "f"]) == ["d"] && LinkAbove(tree, ["d", "f"]);
    var s := Copying(tree, Report(0, 0, [], []));
    assert PlaceOf(w, tree, ["d", "f"]).Behind?;
    var t := Skipped(s, ["d", "f"]);
    assert CopyFile(w, s, ["d", "f"], "x") == t;
    assert WalkAll(d, w, s, ["d"], inner, 1) == t;
    assert Walk(d, w, s, ["d"], inner) == t;
    assert WalkAll(d, w, s, [], root, 1) == t;
    assert Walk(d, w, s, [], root) == t;
  }
}
