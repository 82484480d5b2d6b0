/** The token file of the relay, cmd/terva-mcp-bridge/tokenstore.go: save as
    steps on a directory, taken by any number of processes at once, each of
    which may crash between any two of them. */
module TokenFile {
  import opened Text
  import opened Sorting

  const ATTEMPTS := 8

  // The retry of a rename

  /** What one rename reports: Refused is fs.ErrPermission. */
  datatype Answer = Renamed | Refused | Failed

  /** The attempt that ended the retry, when one did before they ran out. */
  ghost predicate EndsAt(answers: nat -> Answer, k: nat) {
    k < ATTEMPTS && !answers(k).Refused? && forall j | 0 <= j < k :: answers(j).Refused?
  }

  /** replaceFile, on the answers the attempts would meet. */
  method ReplaceFile(answers: nat -> Answer) returns (err: Answer, attempts: nat)
    ensures err.Renamed? <==> exists k :: EndsAt(answers, k) && answers(k).Renamed?
    ensures err.Failed? <==> exists k :: EndsAt(answers, k) && answers(k).Failed?
    ensures 1 <= attempts <= ATTEMPTS && err == answers(attempts - 1)
    ensures !err.Refused? ==> EndsAt(answers, attempts - 1)
    ensures err.Refused? ==> attempts == ATTEMPTS
  {
    var attempt := 0;
    err := Refused;
    while attempt < ATTEMPTS
      invariant attempt <= ATTEMPTS && err.Refused?
      invariant forall j | 0 <= j < attempt :: answers(j).Refused?
    {
      err := answers(attempt);
      if !err.Refused? {
        assert EndsAt(answers, attempt);
        return err, attempt + 1;
      }
      attempt := attempt + 1;
    }
    attempts := attempt;
  }

  // The steps of save

  /** Where a saver stands. Open has a temporary file open with so many bytes of
      the payload written, Renaming has closed it, and Leaving is about to run
      the deferred removal. */
  datatype Phase =
    | Idle
    | Open(tmp: string, inode: nat, written: nat)
    | Renaming(tmp: string, inode: nat, attempt: nat)
    | Leaving(tmp: string, ok: bool)
    | Done(ok: bool)
    | Crashed

  datatype Saver = Saver(payload: string, phase: Phase)

  /** dir names files and data holds them. order lists the savers whose rename
      went through. */
  datatype State = State(dir: map<string, nat>, data: map<nat, string>, savers: seq<Saver>, order: seq<nat>)

  datatype Disk = Disk(dir: map<string, nat>, data: map<nat, string>, order: seq<nat>)

  /** reuse says whether a temporary name may be one that another saver has
      renamed away and not yet removed. */
  datatype Config = Config(path: string, reuse: bool)

  predicate HasTemp(p: Phase) {
    p.Open? || p.Renaming? || p.Leaving?
  }

  ghost predicate Init(c: Config, s: State) {
    s.order == [] && Linked(s) &&
    forall i | 0 <= i < |s.savers| :: s.savers[i].phase.Idle?
  }

  /** os.CreateTemp: a name no file has. */
  ghost predicate CreateStep(c: Config, s: State, i: nat, p: Phase, t: Disk)
    requires i < |s.savers|
  {
    s.savers[i].phase.Idle? && p.Open? && p.written == 0 &&
    p.tmp != c.path && p.tmp !in s.dir && p.inode !in s.data &&
    (c.reuse || forall j | 0 <= j < |s.savers| && HasTemp(s.savers[j].phase) :: s.savers[j].phase.tmp != p.tmp) &&
    t == Disk(s.dir[p.tmp := p.inode], s.data[p.inode := ""], s.order)
  }

  /** Some of the payload reaches the open file. */
  predicate WriteStep(s: State, i: nat, p: Phase, t: Disk)
    requires i < |s.savers|
  {
    var saver := s.savers[i];
    saver.phase.Open? && p.Open? && saver.phase.written < p.written <= |saver.payload| &&
    p == saver.phase.(written := p.written) &&
    t == Disk(s.dir, s.data[p.inode := saver.payload[..p.written]], s.order)
  }

  predicate CloseStep(s: State, i: nat, p: Phase, t: Disk)
    requires i < |s.savers|
  {
    var saver := s.savers[i];
    saver.phase.Open? && saver.phase.written == |saver.payload| &&
    p == Renaming(saver.phase.tmp, saver.phase.inode, 0) && t == Disk(s.dir, s.data, s.order)
  }

  /** A step before the rename reports an error, and a file was made or not. */
  predicate FailStep(s: State, i: nat, p: Phase, t: Disk)
    requires i < |s.savers|
  {
    var phase := s.savers[i].phase;
    (phase.Idle? || phase.Open?) && t == Disk(s.dir, s.data, s.order) &&
    p == if phase.Idle? then Done(false) else Leaving(phase.tmp, false)
  }

  /** One attempt of replaceFile. */
  predicate RenameStep(c: Config, s: State, i: nat, p: Phase, t: Disk, answer: Answer)
    requires i < |s.savers|
  {
    var phase := s.savers[i].phase;
    phase.Renaming? &&
    match answer
    case Renamed =>
      phase.tmp in s.dir && p == Leaving(phase.tmp, true) &&
      t == Disk((s.dir - {phase.tmp})[c.path := s.dir[phase.tmp]], s.data, s.order + [i])
    case Refused =>
      t == Disk(s.dir, s.data, s.order) &&
      p == if phase.attempt + 1 < ATTEMPTS then phase.(attempt := phase.attempt + 1) else Leaving(phase.tmp, false)
    case Failed =>
      t == Disk(s.dir, s.data, s.order) && p == Leaving(phase.tmp, false)
  }

  /** The deferred os.Remove, whose error nobody looks at. */
  predicate RemoveStep(s: State, i: nat, p: Phase, t: Disk, removed: bool)
    requires i < |s.savers|
  {
    var phase := s.savers[i].phase;
    phase.Leaving? && p == Done(phase.ok) &&
    t == Disk(if removed then s.dir - {phase.tmp} else s.dir, s.data, s.order)
  }

  predicate CrashStep(s: State, i: nat, p: Phase, t: Disk)
    requires i < |s.savers|
  {
    !s.savers[i].phase.Done? && p.Crashed? && t == Disk(s.dir, s.data, s.order)
  }

  datatype Choice = Create | Write | Close | Fail | Rename(answer: Answer) | Remove(removed: bool) | Crash

  ghost predicate Act(c: Config, s: State, i: nat, p: Phase, t: Disk, choice: Choice)
    requires i < |s.savers|
  {
    match choice
    case Create => CreateStep(c, s, i, p, t)
    case Write => WriteStep(s, i, p, t)
    case Close => CloseStep(s, i, p, t)
    case Fail => FailStep(s, i, p, t)
    case Rename(answer) => RenameStep(c, s, i, p, t, answer)
    case Remove(removed) => RemoveStep(s, i, p, t, removed)
    case Crash => CrashStep(s, i, p, t)
  }

  ghost predicate SaverStep(c: Config, s: State, t: State, i: nat, choice: Choice) {
    i < |s.savers| == |t.savers| &&
    t.savers == s.savers[i := Saver(s.savers[i].payload, t.savers[i].phase)] &&
    Act(c, s, i, t.savers[i].phase, Disk(t.dir, t.data, t.order), choice)
  }

  ghost predicate Next(c: Config, s: State, t: State) {
    exists i, choice :: SaverStep(c, s, t, i, choice)
  }

  ghost predicate IsRun(c: Config, run: seq<State>) {
    run != [] && Init(c, run[0]) && forall k | 0 <= k < |run| - 1 :: Next(c, run[k], run[k + 1])
  }

  // What a reader of the file finds

  ghost predicate Linked(s: State) {
    forall name | name in s.dir :: s.dir[name] in s.data
  }

  ghost function ReadFile(s: State, name: string): Option<string>
    requires Linked(s)
  {
    if name in s.dir then Some(s.data[s.dir[name]]) else None
  }

  // What every step keeps, when names are not reused

  ghost predicate SaverOk(c: Config, s: State, i: nat)
    requires i < |s.savers|
  {
    var saver := s.savers[i];
    (HasTemp(saver.phase) ==> saver.phase.tmp != c.path) &&
    match saver.phase
    case Idle => i !in s.order
    case Open(tmp, inode, written) =>
      Owns(c, s, tmp, inode) && written <= |saver.payload| && s.data[inode] == saver.payload[..written] && i !in s.order
    case Renaming(tmp, inode, attempt) =>
      Owns(c, s, tmp, inode) && attempt < ATTEMPTS && s.data[inode] == saver.payload && i !in s.order
    case Leaving(_, ok) => i in s.order <==> ok
    case Done(ok) => i in s.order <==> ok
    case Crashed => true
  }

  /** The temporary name stands for the saver's own file, which is not the one
      in place. */
  ghost predicate Owns(c: Config, s: State, tmp: string, inode: nat) {
    tmp in s.dir && s.dir[tmp] == inode && inode in s.data && (c.path in s.dir ==> s.dir[c.path] != inode)
  }

  ghost predicate HasFile(p: Phase) {
    p.Open? || p.Renaming?
  }

  ghost predicate Apart(s: State, i: nat, j: nat)
    requires i < |s.savers| && j < |s.savers|
  {
    var p, q := s.savers[i].phase, s.savers[j].phase;
    (HasTemp(p) && HasTemp(q) ==> p.tmp != q.tmp) &&
    (HasFile(p) && HasFile(q) ==> p.inode != q.inode)
  }

  /** The file holds what it held at first, or what the last renamed saver saved. */
  ghost predicate InPlace(c: Config, first: Option<string>, s: State) {
    Linked(s) &&
    (forall k | 0 <= k < |s.order| :: s.order[k] < |s.savers|) &&
    ReadFile(s, c.path) ==
      if s.order == [] then first else Some(s.savers[s.order[|s.order| - 1]].payload)
  }

  ghost predicate Inv(c: Config, first: Option<string>, s: State) {
    InPlace(c, first, s) && NoDuplicates(s.order) &&
    (forall i: nat | i < |s.savers| :: SaverOk(c, s, i)) &&
    forall i: nat, j: nat | i < |s.savers| && j < |s.savers| && i != j :: Apart(s, i, j)
  }

  lemma FileKept(c: Config, first: Option<string>, s: State, t: State, i: nat, choice: Choice)
    requires InPlace(c, first, s) && i < |s.savers| && SaverOk(c, s, i) && SaverStep(c, s, t, i, choice)
    ensures InPlace(c, first, t)
  {
  }

  lemma OwnKept(c: Config, s: State, t: State, i: nat, choice: Choice)
    requires Linked(s) && NoDuplicates(s.order) && i < |s.savers| && SaverOk(c, s, i) && SaverStep(c, s, t, i, choice)
    ensures SaverOk(c, t, i) && NoDuplicates(t.order)
  {
  }

  lemma OtherKept(c: Config, first: Option<string>, s: State, t: State, i: nat, choice: Choice, j: nat)
    requires Inv(c, first, s) && !c.reuse && SaverStep(c, s, t, i, choice) && j < |s.savers| && j != i
    ensures SaverOk(c, t, j) && Apart(t, i, j) && Apart(t, j, i)
  {
    assert SaverOk(c, s, i) && SaverOk(c, s, j) && Apart(s, i, j) && Apart(s, j, i);
    assert t.savers[j] == s.savers[j];
  }

  lemma StepKeeps(c: Config, first: Option<string>, s: State, t: State)
    requires Inv(c, first, s) && !c.reuse && Next(c, s, t)
    ensures Inv(c, first, t)
    ensures |t.savers| == |s.savers| && forall i | 0 <= i < |s.savers| :: t.savers[i].payload == s.savers[i].payload
  {
    var i: nat, choice :| SaverStep(c, s, t, i, choice);
    assert SaverOk(c, s, i);
    FileKept(c, first, s, t, i, choice);
    OwnKept(c, s, t, i, choice);
    forall j: nat | j < |s.savers| && j != i ensures SaverOk(c, t, j) && Apart(t, i, j) && Apart(t, j, i) {
      OtherKept(c, first, s, t, i, choice, j);
    }
    forall j: nat, k: nat | j < |s.savers| && k < |s.savers| && j != k ensures Apart(t, j, k) {
      if j != i && k != i {
        assert Apart(s, j, k) && t.savers[j] == s.savers[j] && t.savers[k] == s.savers[k];
      }
    }
  }

  lemma {:induction false} RunKeeps(c: Config, run: seq<State>, k: nat)
    requires IsRun(c, run) && !c.reuse && k < |run|
    ensures Inv(c, ReadFile(run[0], c.path), run[k])
    ensures |run[k].savers| == |run[0].savers|
    ensures forall i | 0 <= i < |run[0].savers| :: run[k].savers[i].payload == run[0].savers[i].payload
  {
    if k > 0 {
      RunKeeps(c, run, k - 1);
      StepKeeps(c, ReadFile(run[0], c.path), run[k - 1], run[k]);
    }
  }

  /** With any number of savers and a crash at any step, a reader finds the
      first content or one whole payload: that of the last rename, which is one
      of a saver that reports success unless it crashed after. */
  lemma TokensNeverTorn(c: Config, run: seq<State>, k: nat)
    requires IsRun(c, run) && !c.reuse && k < |run|
    ensures Linked(run[k])
    ensures var got := ReadFile(run[k], c.path);
      if run[k].order == [] then got == ReadFile(run[0], c.path)
      else
        var last := run[k].order[|run[k].order| - 1];
        last < |run[0].savers| && got == Some(run[0].savers[last].payload)
    ensures forall i | 0 <= i < |run[k].savers| && run[k].savers[i].phase.Done? ::
      run[k].savers[i].phase.ok <==> i in run[k].order
  {
    RunKeeps(c, run, k);
    forall i: nat | i < |run[k].savers| && run[k].savers[i].phase.Done?
      ensures run[k].savers[i].phase.ok <==> i in run[k].order
    {
      assert SaverOk(c, run[k], i);
    }
  }

  // Why the names must be fresh

  lemma Extend(c: Config, run: seq<State>, i: nat, phase: Phase, d: Disk, choice: Choice) returns (longer: seq<State>)
    requires IsRun(c, run)
    requires i < |run[|run| - 1].savers| && Act(c, run[|run| - 1], i, phase, d, choice)
    ensures IsRun(c, longer) && longer[0] == run[0]
    ensures var s := run[|run| - 1];
      longer[|longer| - 1] == State(d.dir, d.data, s.savers[i := Saver(s.savers[i].payload, phase)], d.order)
  {
    var s := run[|run| - 1];
    var t := State(d.dir, d.data, s.savers[i := Saver(s.savers[i].payload, phase)], d.order);
    assert SaverStep(c, s, t, i, choice);
    longer := run + [t];
  }

  lemma Saves(c: Config, run: seq<State>, i: nat, tmp: string, inode: nat) returns (longer: seq<State>)
    requires IsRun(c, run) && c.reuse && tmp != c.path
    requires var s := run[|run| - 1];
      i < |s.savers| && s.savers[i].phase.Idle? && s.savers[i].payload != "" && tmp !in s.dir && inode !in s.data
    ensures IsRun(c, longer) && longer[0] == run[0]
    ensures var s := run[|run| - 1];
      longer[|longer| - 1] == State(s.dir[tmp := inode], s.data[inode := s.savers[i].payload],
        s.savers[i := Saver(s.savers[i].payload, Renaming(tmp, inode, 0))], s.order)
  {
    var s := run[|run| - 1];
    var payload := s.savers[i].payload;
    var made := Disk(s.dir[tmp := inode], s.data[inode := ""], s.order);
    var written := Disk(made.dir, s.data[inode := payload], s.order);
    assert payload[..|payload|] == payload;
    assert made.data[inode := payload] == written.data;
    longer := Extend(c, run, i, Open(tmp, inode, 0), made, Create);
    longer := Extend(c, longer, i, Open(tmp, inode, |payload|), written, Write);
    longer := Extend(c, longer, i, Renaming(tmp, inode, 0), written, Close);
    var t := longer[|longer| - 1];
    assert t.savers == s.savers[i := Saver(payload, Renaming(tmp, inode, 0))];
  }

  const FIRST_SAVERS: seq<Saver> := [Saver("a", Idle), Saver("b", Idle), Saver("cc", Idle)]

  /** One saver renames its file away and the next takes the same name. */
  lemma NameTaken(c: Config, tmp: string) returns (run: seq<State>)
    requires c.reuse && tmp != c.path
    ensures IsRun(c, run) && run[0] == State(map[], map[], FIRST_SAVERS, [])
    ensures run[|run| - 1] == State(map[c.path := 0, tmp := 1], map[0 := "a", 1 := "b"],
      [Saver("a", Leaving(tmp, true)), Saver("b", Renaming(tmp, 1, 0)), Saver("cc", Idle)], [0])
  {
    run := [State(map[], map[], FIRST_SAVERS, [])];
    run := Saves(c, run, 0, tmp, 0);
    run := Extend(c, run, 0, Leaving(tmp, true), Disk(map[c.path := 0], map[0 := "a"], [0]), Rename(Renamed));
    run := Saves(c, run, 1, tmp, 1);
  }

  /** A saver that takes a name another has renamed away loses the file to the
      other's deferred removal; a third can take the name again, and its half
      written file is put in place. */
  lemma ReuseTears(c: Config) returns (run: seq<State>)
    requires c.reuse
    ensures IsRun(c, run) && run[0] == State(map[], map[], FIRST_SAVERS, []) && Linked(run[|run| - 1])
    ensures ReadFile(run[|run| - 1], c.path) == Some("c")
  {
    var tmp := c.path + ".tmp";
    run := NameTaken(c, tmp);
    run := Extend(c, run, 0, Done(true), Disk(map[c.path := 0], map[0 := "a", 1 := "b"], [0]), Remove(true));
    var data := map[0 := "a", 1 := "b", 2 := ""];
    run := Extend(c, run, 2, Open(tmp, 2, 0), Disk(map[c.path := 0, tmp := 2], data, [0]), Create);
    assert "cc"[..1] == "c";
    run := Extend(c, run, 2, Open(tmp, 2, 1), Disk(map[c.path := 0, tmp := 2], data[2 := "c"], [0]), Write);
    run := Extend(c, run, 1, Leaving(tmp, true), Disk(map[c.path := 2], data[2 := "c"], [0, 1]), Rename(Renamed));
  }

  /** A reader finds what the file held at first, or one saver's whole payload. */
  ghost predicate FindsWhole(c: Config, first: State, s: State) {
    Linked(first) && Linked(s) &&
    (ReadFile(s, c.path) == ReadFile(first, c.path) ||
     exists i :: 0 <= i < |first.savers| && ReadFile(s, c.path) == Some(first.savers[i].payload))
  }

  ghost predicate AlwaysWhole(c: Config, run: seq<State>) {
    run != [] && forall k | 0 <= k < |run| :: FindsWhole(c, run[0], run[k])
  }

  /** Wherever the file is, every run keeps it whole if and only if no temporary
      name is taken while another saver that had it still runs. */
  lemma WholeExactlyWhenFresh(c: Config)
    ensures (forall run | IsRun(c, run) :: AlwaysWhole(c, run)) <==> !c.reuse
  {
    if c.reuse {
      var run := ReuseTears(c);
      assert ReadFile(run[0], c.path) == None;
      assert !FindsWhole(c, run[0], run[|run| - 1]);
      assert !AlwaysWhole(c, run);
    } else {
      forall run | IsRun(c, run) ensures AlwaysWhole(c, run) {
        forall k: nat | k < |run| ensures FindsWhole(c, run[0], run[k]) {
          TokensNeverTorn(c, run, k);
        }
      }
    }
  }
}
