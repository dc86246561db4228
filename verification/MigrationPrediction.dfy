/** The prediction theorem: step by step through the whole run, up to and including the pruning. */
module MigrationPrediction {
  import opened Prelude
  import opened FileTree
  import opened MigrationPlan
  import opened MigrationLayout
  import opened MigrationDryRun

  function Dry(pruneEmpty: bool): Options { Options(false, pruneEmpty) }

  function App(pruneEmpty: bool): Options { Options(true, pruneEmpty) }

  // ----- Directory trees -----

  ghost predicate VisitsDir(t: Tree, source: Path, v: Visit) {
    && IsDir(t, source + v.below)
    && (forall name :: name in v.files <==> source + v.below + [name] in t && !IsDir(t, source + v.below + [name]))
  }

  /** A top-down walk: it starts at the source, visits a directory only after its parent, leaves none
      out, and reports each directory's entries that are not directories. The order in which the
      operating system lists siblings is free. */
  ghost predicate IsWalk(t: Tree, source: Path, walk: seq<Visit>) {
    && TopDown(t, source, walk)
    && (forall p :: IsDir(t, source + p) ==> exists i :: 0 <= i < |walk| && walk[i].below == p)
  }

  ghost predicate ValidWalks(l: Layout, t: Tree, walks: Walks) {
    forall m :: IsTree(l, m) && IsDir(t, m.source) ==> IsWalk(t, m.source, WalkOf(walks, m.source))
  }

  lemma MirrorOf(t: Tree, m: Move, p: Path)
    requires IsDir(t, m.source + p)
    ensures MirrorsDir(t, m, m.target + p)
  {
    assert (m.target + p)[|m.target|..] == p;
  }

  lemma MirrorOfFile(t: Tree, m: Move, p: Path)
    requires IsFile(t, m.source + p) && p != []
    ensures MirrorsFile(t, m, m.target + p)
  {
    assert (m.target + p)[|m.target|..] == p;
  }

  lemma {:induction false} CopyFilesInStep(l: Layout, t: Tree, d: Plan, a: Plan, pruneEmpty: bool, m: Move, below: Path,
                                           names: seq<string>)
    requires WellLaidOut(l) && Rooted(t) && InStep(l, t, d, a)
    requires IsTree(l, m) && (!a.raised ==> m.target + below in a.files)
    ensures var d', a' := CopyFiles(d, Dry(pruneEmpty), Below(m, below), names),
                          CopyFiles(a, App(pruneEmpty), Below(m, below), names);
            && InStep(l, t, d', a')
            && (!a'.raised ==> a.files.Keys <= a'.files.Keys)
            && (forall name :: !a'.raised && name in names && IsFile(t, m.source + below + [name]) ==>
                  m.target + below + [name] in a'.files)
  {
    if |names| > 0 {
      var rest, name := names[..|names| - 1], names[|names| - 1];
      CopyFilesInStep(l, t, d, a, pruneEmpty, m, below, rest);
      var d1 := CopyFiles(d, Dry(pruneEmpty), Below(m, below), rest);
      var a1 := CopyFiles(a, App(pruneEmpty), Below(m, below), rest);
      CopyEntryInStep(l, t, d1, a1, pruneEmpty, m, below, name);
      assert forall n :: n in names ==> n in rest || n == name;
    }
  }

  lemma CopyKeeps(s: Plan, o: Options, m: Move)
    requires |m.target| > 0
    ensures !CopyFile(s, o, m).raised ==> s.files.Keys <= CopyFile(s, o, m).files.Keys
  {
  }

  lemma EntryPlaces(l: Layout, t: Tree, m: Move, below: Path, name: string)
    requires |l.dirs| > 0 && SourcesOutside(l) && IsTree(l, m)
    ensures var e := Entry(Below(m, below), name);
            && Outside(l, e.source)
            && (IsFile(t, e.source) ==> IsFileTarget(l, t, e.target))
            && Parent(e.target) == m.target + below
  {
    var e := Entry(Below(m, below), name);
    assert e.source == m.source + (below + [name]) && e.target == m.target + (below + [name]);
    OutsideBelow(l, m.source, e.source);
    if IsFile(t, e.source) {
      MirrorOfFile(t, m, below + [name]);
    }
  }

  lemma CopyEntryInStep(l: Layout, t: Tree, d: Plan, a: Plan, pruneEmpty: bool, m: Move, below: Path, name: string)
    requires WellLaidOut(l) && Rooted(t) && InStep(l, t, d, a)
    requires IsTree(l, m) && (!a.raised ==> m.target + below in a.files)
    ensures var e := Entry(Below(m, below), name);
            var d', a' := CopyFile(d, Dry(pruneEmpty), e), CopyFile(a, App(pruneEmpty), e);
            && InStep(l, t, d', a')
            && (!a'.raised ==> a.files.Keys <= a'.files.Keys)
            && (!a'.raised && IsFile(t, m.source + below + [name]) ==> m.target + below + [name] in a'.files)
  {
    EntryPlaces(l, t, m, below, name);
    CopyFileInStep(l, t, d, a, pruneEmpty, Entry(Below(m, below), name));
    CopyKeeps(a, App(pruneEmpty), Entry(Below(m, below), name));
  }

  lemma MakeKeeps(s: Plan, o: Options, p: Path)
    ensures !MakeDir(s, o, p).raised ==> s.files.Keys <= MakeDir(s, o, p).files.Keys
  {
  }

  /** What one visit must find before it: the target of the directory above, or its own target. */
  ghost predicate Reached(m: Move, below: Path, files: Tree) {
    m.target + below in files || (below != [] && m.target + Parent(below) in files)
  }

  ghost predicate Visited(t: Tree, m: Move, v: Visit, files: Tree) {
    && m.target + v.below in files
    && (forall name :: name in v.files && IsFile(t, m.source + v.below + [name]) ==>
          m.target + v.below + [name] in files)
  }

  lemma VisitPlaces(l: Layout, t: Tree, a: Plan, m: Move, below: Path)
    requires |l.dirs| > 0 && TargetsInside(l) && IsTree(l, m) && IsDir(t, m.source + below)
    requires a.raised || (Rooted(a.files) && Reached(m, below, a.files))
    ensures var p := m.target + below;
            IsDirTarget(l, t, p) && p != Base(l) && |p| > 0 && (!a.raised ==> Parent(p) in a.files)
  {
    MirrorOf(t, m, below);
    if below != [] { assert Parent(m.target + below) == m.target + Parent(below); }
  }

  lemma VisitInStep(l: Layout, t: Tree, d: Plan, a: Plan, pruneEmpty: bool, m: Move, v: Visit)
    requires WellLaidOut(l) && Rooted(t) && InStep(l, t, d, a)
    requires IsTree(l, m) && VisitsDir(t, m.source, v) && (!a.raised ==> Reached(m, v.below, a.files))
    ensures var d', a' := VisitDir(d, Dry(pruneEmpty), m, v), VisitDir(a, App(pruneEmpty), m, v);
            && InStep(l, t, d', a')
            && (!a'.raised ==> a.files.Keys <= a'.files.Keys && Visited(t, m, v, a'.files))
  {
    VisitPlaces(l, t, a, m, v.below);
    MakeDirInStep(l, t, d, a, pruneEmpty, m.target + v.below);
    MakeKeeps(a, App(pruneEmpty), m.target + v.below);
    CopyFilesInStep(l, t, MakeDir(d, Dry(pruneEmpty), m.target + v.below), MakeDir(a, App(pruneEmpty), m.target + v.below),
                    pruneEmpty, m, v.below, v.files);
  }

  ghost predicate TopDown(t: Tree, source: Path, walk: seq<Visit>) {
    && (forall i :: 0 <= i < |walk| ==> VisitsDir(t, source, walk[i]))
    && (forall i :: 0 <= i < |walk| && walk[i].below != [] ==>
          exists j :: 0 <= j < i && walk[j].below == Parent(walk[i].below))
  }

  ghost predicate AllVisited(t: Tree, m: Move, walk: seq<Visit>, files: Tree) {
    forall i :: 0 <= i < |walk| ==> Visited(t, m, walk[i], files)
  }

  lemma NextIsReached(t: Tree, m: Move, walk: seq<Visit>, files: Tree)
    requires |walk| > 0 && TopDown(t, m.source, walk) && m.target in files
    requires AllVisited(t, m, walk[..|walk| - 1], files)
    ensures Reached(m, walk[|walk| - 1].below, files)
  {
    var v := walk[|walk| - 1];
    if v.below == [] {
      assert m.target + [] == m.target;
    } else {
      var j :| 0 <= j < |walk| - 1 && walk[j].below == Parent(v.below);
      assert Visited(t, m, walk[..|walk| - 1][j], files);
    }
  }

  lemma VisitedExtends(t: Tree, m: Move, walk: seq<Visit>, files: Tree, later: Tree)
    requires |walk| > 0 && AllVisited(t, m, walk[..|walk| - 1], files) && files.Keys <= later.Keys
    requires Visited(t, m, walk[|walk| - 1], later)
    ensures AllVisited(t, m, walk, later)
  {
    forall i | 0 <= i < |walk| - 1
      ensures Visited(t, m, walk[i], later)
    {
      assert Visited(t, m, walk[..|walk| - 1][i], files);
    }
  }

  lemma TopDownPrefix(t: Tree, source: Path, walk: seq<Visit>)
    requires |walk| > 0 && TopDown(t, source, walk)
    ensures TopDown(t, source, walk[..|walk| - 1]) && VisitsDir(t, source, walk[|walk| - 1])
  {
  }

  lemma {:induction false} WalkInStep(l: Layout, t: Tree, d: Plan, a: Plan, pruneEmpty: bool, m: Move, walk: seq<Visit>)
    requires WellLaidOut(l) && Rooted(t) && InStep(l, t, d, a)
    requires IsTree(l, m) && TopDown(t, m.source, walk) && (!a.raised ==> m.target in a.files)
    ensures var d', a' := WalkTree(d, Dry(pruneEmpty), m, walk), WalkTree(a, App(pruneEmpty), m, walk);
            && InStep(l, t, d', a')
            && (!a'.raised ==> a.files.Keys <= a'.files.Keys && AllVisited(t, m, walk, a'.files))
  {
    if |walk| > 0 {
      var rest := walk[..|walk| - 1];
      TopDownPrefix(t, m.source, walk);
      WalkInStep(l, t, d, a, pruneEmpty, m, rest);
      var d1, a1 := WalkTree(d, Dry(pruneEmpty), m, rest), WalkTree(a, App(pruneEmpty), m, rest);
      if !a1.raised { NextIsReached(t, m, walk, a1.files); }
      VisitInStep(l, t, d1, a1, pruneEmpty, m, walk[|walk| - 1]);
      var a' := WalkTree(a, App(pruneEmpty), m, walk);
      if !a'.raised { VisitedExtends(t, m, walk, a1.files, a'.files); }
    }
  }

  /** Everything below the source has its counterpart below the target. */
  ghost predicate Mirrored(t: Tree, m: Move, files: Tree) {
    && (forall p :: IsDir(t, m.source + p) ==> m.target + p in files)
    && (forall p :: p != [] && IsFile(t, m.source + p) ==> m.target + p in files)
  }

  lemma JoinedPath(base: Path, p: Path)
    requires p != []
    ensures base + Parent(p) + [p[|p| - 1]] == base + p && Parent(base + p) == base + Parent(p)
  {
  }

  lemma FileMirrored(t: Tree, m: Move, walk: seq<Visit>, files: Tree, p: Path)
    requires Rooted(t) && IsWalk(t, m.source, walk) && AllVisited(t, m, walk, files)
    requires p != [] && IsFile(t, m.source + p)
    ensures m.target + p in files
  {
    JoinedPath(m.source, p);
    JoinedPath(m.target, p);
    var i :| 0 <= i < |walk| && walk[i].below == Parent(p);
    assert p[|p| - 1] in walk[i].files;
  }

  lemma WalkMirrors(t: Tree, m: Move, walk: seq<Visit>, files: Tree)
    requires Rooted(t) && IsWalk(t, m.source, walk) && AllVisited(t, m, walk, files)
    ensures Mirrored(t, m, files)
  {
    forall p | p != [] && IsFile(t, m.source + p)
      ensures m.target + p in files
    {
      FileMirrored(t, m, walk, files, p);
    }
  }

  lemma CopyTreeInStep(l: Layout, t: Tree, d: Plan, a: Plan, pruneEmpty: bool, m: Move, walks: Walks)
    requires WellLaidOut(l) && Rooted(t) && InStep(l, t, d, a) && IsTree(l, m) && ValidWalks(l, t, walks)
    requires !a.raised ==> Parent(m.target) in a.files
    ensures var d', a' := CopyTree(d, Dry(pruneEmpty), m, walks), CopyTree(a, App(pruneEmpty), m, walks);
            && InStep(l, t, d', a')
            && (!a'.raised ==> a.files.Keys <= a'.files.Keys && (IsDir(t, m.source) ==> Mirrored(t, m, a'.files)))
  {
    if a.raised {
      RaisedStaysInStep(l, t, Dry(pruneEmpty), d, a, CopyTree(d, Dry(pruneEmpty), m, walks),
                        CopyTree(a, App(pruneEmpty), m, walks));
    } else {
      SourceUnchanged(l, t, a, m.source);
      if m.source !in t {
        ReportInStep(l, t, d, a, Action(Missing, Some(m.source), Some(m.target), SourceDirAbsent));
      } else if !IsDir(t, m.source) {
        ReportInStep(l, t, d, a, Action(Skip, Some(m.source), Some(m.target), NotRegularDir));
      } else {
        CopyDirInStep(l, t, d, a, pruneEmpty, m, WalkOf(walks, m.source));
      }
    }
  }

  lemma TreeRootPlace(l: Layout, t: Tree, m: Move)
    requires |l.dirs| > 0 && TargetsInside(l) && IsTree(l, m) && IsDir(t, m.source)
    ensures IsDirTarget(l, t, m.target) && m.target != Base(l) && |m.target| > 0
  {
    assert m.source + [] == m.source && m.target + [] == m.target;
    MirrorOf(t, m, []);
  }

  lemma CopyDirInStep(l: Layout, t: Tree, d: Plan, a: Plan, pruneEmpty: bool, m: Move, walk: seq<Visit>)
    requires WellLaidOut(l) && Rooted(t) && InStep(l, t, d, a) && IsTree(l, m) && IsDir(t, m.source)
    requires IsWalk(t, m.source, walk) && !a.raised && Parent(m.target) in a.files
    ensures var d', a' := WalkTree(MakeDir(d, Dry(pruneEmpty), m.target), Dry(pruneEmpty), m, walk),
                          WalkTree(MakeDir(a, App(pruneEmpty), m.target), App(pruneEmpty), m, walk);
            && InStep(l, t, d', a')
            && (!a'.raised ==> a.files.Keys <= a'.files.Keys && Mirrored(t, m, a'.files))
  {
    TreeRootPlace(l, t, m);
    MakeDirInStep(l, t, d, a, pruneEmpty, m.target);
    MakeKeeps(a, App(pruneEmpty), m.target);
    WalkInStep(l, t, MakeDir(d, Dry(pruneEmpty), m.target), MakeDir(a, App(pruneEmpty), m.target), pruneEmpty, m, walk);
    var a' := WalkTree(MakeDir(a, App(pruneEmpty), m.target), App(pruneEmpty), m, walk);
    if !a'.raised { WalkMirrors(t, m, walk, a'.files); }
  }

  // ----- Fixed directories and the root config -----

  ghost predicate NoWritePlanned(actions: seq<Action>) {
    forall p :: !PlannedWrite(actions, p)
  }

  lemma MakeDirPlansNoWrite(s: Plan, o: Options, p: Path)
    requires NoWritePlanned(s.actions)
    ensures NoWritePlanned(MakeDir(s, o, p).actions)
  {
    Appended(s.actions, Action(EnsureDir, None, Some(p), CreateTarget));
  }

  lemma LaterDirInStep(l: Layout, t: Tree, d: Plan, a: Plan, pruneEmpty: bool, i: nat)
    requires WellLaidOut(l) && Rooted(t) && InStep(l, t, d, a) && 0 < i < |l.dirs|
    requires !a.raised ==> NoWritePlanned(a.actions) && forall p :: p in l.dirs[..i] ==> p in a.files
    ensures var d', a' := MakeDir(d, Dry(pruneEmpty), l.dirs[i]), MakeDir(a, App(pruneEmpty), l.dirs[i]);
            && InStep(l, t, d', a')
            && (!a'.raised ==> NoWritePlanned(a'.actions))
            && (!a'.raised ==> forall p :: p in l.dirs[..i + 1] ==> p in a'.files)
  {
    var p := l.dirs[i];
    LaterDirPlaces(l, t, i);
    hide InStep, WellLaidOut, Rooted, IsDirTarget, NoWritePlanned, MakeDir;
    MakeDirInStep(l, t, d, a, pruneEmpty, p);
    MakeKeeps(a, App(pruneEmpty), p);
    var a' := MakeDir(a, App(pruneEmpty), p);
    if !a'.raised {
      MakeDirPlansNoWrite(a, App(pruneEmpty), p);
      OneMoreThere(l.dirs, i, a.files, a'.files);
    }
  }

  lemma OneMoreThere(dirs: seq<Path>, i: nat, files: Tree, more: Tree)
    requires i < |dirs| && files.Keys <= more.Keys && dirs[i] in more
    requires forall p :: p in dirs[..i] ==> p in files
    ensures forall p :: p in dirs[..i + 1] ==> p in more
  {
    assert dirs[..i + 1] == dirs[..i] + [dirs[i]];
  }

  lemma {:induction false} MakeAllInStep(l: Layout, t: Tree, pruneEmpty: bool, k: nat)
    requires WellLaidOut(l) && Rooted(t) && 1 <= k <= |l.dirs|
    ensures var d', a' := MakeAll(Plan(t, [], false), Dry(pruneEmpty), l.dirs[..k]),
                          MakeAll(Plan(t, [], false), App(pruneEmpty), l.dirs[..k]);
            && InStep(l, t, d', a')
            && (!a'.raised ==> NoWritePlanned(a'.actions))
            && (!a'.raised ==> forall p :: p in l.dirs[..k] ==> p in a'.files)
  {
    var start := Plan(t, [], false);
    assert l.dirs[..k][..k - 1] == l.dirs[..k - 1];
    if k == 1 {
      assert l.dirs[..0] == [] && l.dirs[..1] == [Base(l)];
      BaseInStep(l, t, pruneEmpty);
      MakeDirPlansNoWrite(start, App(pruneEmpty), Base(l));
    } else {
      MakeAllInStep(l, t, pruneEmpty, k - 1);
      LaterDirInStep(l, t, MakeAll(start, Dry(pruneEmpty), l.dirs[..k - 1]),
                     MakeAll(start, App(pruneEmpty), l.dirs[..k - 1]), pruneEmpty, k - 1);
    }
  }

  lemma LaterDirPlaces(l: Layout, t: Tree, i: nat)
    requires WellLaidOut(l) && 0 < i < |l.dirs|
    ensures IsDirTarget(l, t, l.dirs[i]) && l.dirs[i] != Base(l) && |l.dirs[i]| > 0
    ensures Parent(l.dirs[i]) in l.dirs[..i]
  {
    assert ParentEarlier(l.dirs, i);
    var p := Parent(l.dirs[i]);
    assert p in l.dirs[..i] && p in l.dirs;
    assert IsFixedDir(l, p);
    assert |Base(l)| <= |p|;
  }

  lemma ExtractInStep(l: Layout, t: Tree, d: Plan, a: Plan, pruneEmpty: bool, target: Path, payload: Option<Content>,
                      done: Detail, taken: Detail)
    requires WellLaidOut(l) && Rooted(t) && InStep(l, t, d, a) && IsFixedFile(l, target) && |target| > 0
    requires !a.raised ==> Parent(target) in a.files
    ensures var d', a' := Extract(d, Dry(pruneEmpty), l.config, target, payload, done, taken),
                          Extract(a, App(pruneEmpty), l.config, target, payload, done, taken);
            && InStep(l, t, d', a')
            && (!a'.raised ==> a.files.Keys <= a'.files.Keys && (payload.Some? ==> target in a'.files))
    ensures !a.raised ==> Extracts(d, target, payload) == Extracts(a, target, payload)
  {
    hide InStep, Consistent, MakeDirs, PlannedWrite;
    if a.raised {
      RaisedStaysInStep(l, t, Dry(pruneEmpty), d, a, Extract(d, Dry(pruneEmpty), l.config, target, payload, done, taken),
                        Extract(a, App(pruneEmpty), l.config, target, payload, done, taken));
      return;
    }
    SameView(l, t, d, a);
    FileDecision(l, t, a, target);
    if payload.None? { return; }
    if Taken(a, target) {
      ReportInStep(l, t, d, a, Action(Skip, Some(l.config), Some(target), taken));
      return;
    }
    WriteInStep(l, t, d, a, target, payload.value, Action(Copy, Some(l.config), Some(target), done));
  }

  lemma ConfigRewritten(l: Layout, t: Tree, s: Plan, content: Content, x: Action)
    requires |l.dirs| > 0 && Consistent(l, t, s) && IsFile(t, l.config) && IsFile(s.files, l.config)
    requires x == Action(Update, Some(l.config), None, KeysRemoved)
    requires Rooted(s.files[l.config := File(content)])
    ensures Consistent(l, t, Plan(s.files[l.config := File(content)], s.actions + [x], false))
  {
    Appended(s.actions, x);
  }

  lemma CleanInStep(l: Layout, t: Tree, d: Plan, a: Plan, pruneEmpty: bool, fields: seq<Field>,
                    keysD: set<string>, keysA: set<string>)
    requires WellLaidOut(l) && Rooted(t) && InStep(l, t, d, a) && IsFile(t, l.config)
    requires !a.raised ==> keysD == keysA
    ensures var d', a' := CleanConfig(d, Dry(pruneEmpty), l.config, fields, keysD),
                          CleanConfig(a, App(pruneEmpty), l.config, fields, keysA);
            && InStep(l, t, d', a')
            && (!a'.raised ==> a.files.Keys <= a'.files.Keys)
  {
    var d', a' := CleanConfig(d, Dry(pruneEmpty), l.config, fields, keysD),
                  CleanConfig(a, App(pruneEmpty), l.config, fields, keysA);
    if a.raised {
      RaisedStaysInStep(l, t, Dry(pruneEmpty), d, a, d', a');
    } else if Cleaned(fields, keysA) != fields {
      var x := Action(Update, Some(l.config), None, KeysRemoved);
      var content := Encoded(JObject(Cleaned(fields, keysA)));
      WriteInto(a.files, l.config, content);
      ConfigRewritten(l, t, a, content, x);
      ClearAppended(t, d.actions, x);
    }
  }

  lemma ConfigUntouched(l: Layout, t: Tree, a: Plan)
    requires WellLaidOut(l) && Consistent(l, t, a) && NoWritePlanned(a.actions)
    ensures Lookup(a.files, l.config) == Lookup(t, l.config)
  {
    if IsDirTarget(l, t, l.config) { DirTargetsAreNoFileTargets(l, t, l.config); }
  }

  lemma SplitInStep(l: Layout, t: Tree, d: Plan, a: Plan, pruneEmpty: bool, fields: seq<Field>,
                    projects: Option<Content>, models: Option<Content>)
    requires WellLaidOut(l) && Rooted(t) && InStep(l, t, d, a) && !a.raised && IsFile(t, l.config)
    requires Parent(l.projects) in a.files && Parent(l.aliases) in a.files
    ensures var d', a' := SplitConfig(d, Dry(pruneEmpty), l, fields, projects, models),
                          SplitConfig(a, App(pruneEmpty), l, fields, projects, models);
            && InStep(l, t, d', a')
            && (!a'.raised ==> a.files.Keys <= a'.files.Keys)
            && (!a'.raised ==> (projects.Some? ==> l.projects in a'.files) && (models.Some? ==> l.aliases in a'.files))
  {
    hide InStep, CleanConfig, Extract, Extracts;
    ExtractInStep(l, t, d, a, pruneEmpty, l.projects, projects, ExtractProjects, ProjectsTaken);
    var d1 := Extract(d, Dry(pruneEmpty), l.config, l.projects, projects, ExtractProjects, ProjectsTaken);
    var a1 := Extract(a, App(pruneEmpty), l.config, l.projects, projects, ExtractProjects, ProjectsTaken);
    ExtractInStep(l, t, d1, a1, pruneEmpty, l.aliases, models, ExtractAliases, AliasesTaken);
    CleanInStep(l, t, Extract(d1, Dry(pruneEmpty), l.config, l.aliases, models, ExtractAliases, AliasesTaken),
                Extract(a1, App(pruneEmpty), l.config, l.aliases, models, ExtractAliases, AliasesTaken), pruneEmpty, fields,
                CleanupKeys(Extracts(d, l.projects, projects), Extracts(d1, l.aliases, models)),
                CleanupKeys(Extracts(a, l.projects, projects), Extracts(a1, l.aliases, models)));
  }

  lemma BothRaise(l: Layout, t: Tree, d: Plan, a: Plan)
    requires |l.dirs| > 0 && InStep(l, t, d, a)
    ensures InStep(l, t, d.(raised := true), a.(raised := true))
  {
  }

  /** What the config asks to be extracted stands in its own file. */
  ghost predicate ConfigDone(l: Layout, t: Tree, files: Tree) {
    match ReadObject(t, l.config)
    case Unreadable => true
    case Crash => false
    case Fields(fields) =>
      && (ProjectsPayload(fields).Some? ==> l.projects in files)
      && (ModelsPayload(fields).Some? ==> l.aliases in files)
  }

  lemma RootConfigInStep(l: Layout, t: Tree, d: Plan, a: Plan, pruneEmpty: bool)
    requires WellLaidOut(l) && Rooted(t) && InStep(l, t, d, a)
    requires !a.raised ==> NoWritePlanned(a.actions) && Parent(l.projects) in a.files && Parent(l.aliases) in a.files
    ensures var d', a' := RootConfig(d, Dry(pruneEmpty), l), RootConfig(a, App(pruneEmpty), l);
            && InStep(l, t, d', a')
            && (!a'.raised ==> a.files.Keys <= a'.files.Keys && ConfigDone(l, t, a'.files))
  {
    hide InStep, Consistent, SplitConfig, ProjectsPayload, ModelsPayload;
    if a.raised {
      RaisedStaysInStep(l, t, Dry(pruneEmpty), d, a, RootConfig(d, Dry(pruneEmpty), l), RootConfig(a, App(pruneEmpty), l));
      return;
    }
    SameView(l, t, d, a);
    ConfigUntouched(l, t, a);
    var reading := ReadObject(t, l.config);
    if reading.Crash? {
      BothRaise(l, t, d, a);
      return;
    }
    if reading.Unreadable? {
      ReportInStep(l, t, d, a, Action(Missing, Some(l.config), None, ConfigUnreadable));
      return;
    }
    SplitInStep(l, t, d, a, pruneEmpty, reading.fields, ProjectsPayload(reading.fields), ModelsPayload(reading.fields));
  }

  /** A usable legacy alias file has its counterpart. */
  ghost predicate AliasesDone(l: Layout, t: Tree, files: Tree) {
    IsFile(t, l.legacyAliases) && l.aliases !in files ==> ReadAliases(t, l.legacyAliases).Invalid?
  }

  lemma WriteAliasesInStep(l: Layout, t: Tree, d: Plan, a: Plan, pruneEmpty: bool)
    requires WellLaidOut(l) && Rooted(t) && InStep(l, t, d, a) && !a.raised
    requires Parent(l.aliases) in a.files && !Taken(a, l.aliases)
    ensures var d', a' := WriteAliases(d, Dry(pruneEmpty), l), WriteAliases(a, App(pruneEmpty), l);
            && InStep(l, t, d', a')
            && (!a'.raised ==> a.files.Keys <= a'.files.Keys && AliasesDone(l, t, a'.files))
  {
    hide InStep, Consistent, MakeDirs, PlannedWrite;
    var source, target := Some(l.legacyAliases), Some(l.aliases);
    SameView(l, t, d, a);
    SourceUnchanged(l, t, a, l.legacyAliases);
    match ReadAliases(t, l.legacyAliases)
    case Raises =>
      BothRaise(l, t, d, a);
    case Invalid =>
      ReportInStep(l, t, d, a, Action(Skip, source, target, AliasesInvalid));
    case Valid(content) =>
      WriteInStep(l, t, d, a, l.aliases, content, Action(Copy, source, target, NormalizeAliases));
  }

  lemma LegacyInStep(l: Layout, t: Tree, d: Plan, a: Plan, pruneEmpty: bool)
    requires WellLaidOut(l) && Rooted(t) && InStep(l, t, d, a)
    requires !a.raised ==> Parent(l.aliases) in a.files
    ensures var d', a' := LegacyAliases(d, Dry(pruneEmpty), l), LegacyAliases(a, App(pruneEmpty), l);
            && InStep(l, t, d', a')
            && (!a'.raised ==> a.files.Keys <= a'.files.Keys && AliasesDone(l, t, a'.files))
  {
    hide InStep, Consistent, WriteAliases, PlannedWrite;
    var source, target := Some(l.legacyAliases), Some(l.aliases);
    if a.raised {
      RaisedStaysInStep(l, t, Dry(pruneEmpty), d, a, LegacyAliases(d, Dry(pruneEmpty), l), LegacyAliases(a, App(pruneEmpty), l));
      return;
    }
    SameView(l, t, d, a);
    SourceUnchanged(l, t, a, l.legacyAliases);
    if l.legacyAliases !in t {
      ReportInStep(l, t, d, a, Action(Missing, source, target, SourceAbsent));
      return;
    }
    if !IsFile(t, l.legacyAliases) {
      ReportInStep(l, t, d, a, Action(Skip, source, target, NotRegularFile));
      return;
    }
    FileDecision(l, t, a, l.aliases);
    if Taken(a, l.aliases) {
      ReportInStep(l, t, d, a, Action(Skip, source, target, TargetTaken));
      return;
    }
    WriteAliasesInStep(l, t, d, a, pruneEmpty);
  }

  // ----- Swarm state -----

  lemma DaemonSeenAlike(l: Layout, t: Tree, a: Plan)
    requires WellLaidOut(l) && Consistent(l, t, a)
    ensures forall m :: m in l.runtime ==> (m.source in a.files <==> m.source in t)
    ensures DaemonActive(a.files, l.runtime) <==> DaemonActive(t, l.runtime)
  {
    forall m | m in l.runtime
      ensures Lookup(a.files, m.source) == Lookup(t, m.source)
    {
      SourceUnchanged(l, t, a, m.source);
    }
  }

  lemma {:induction false} RuntimeInStep(l: Layout, t: Tree, d: Plan, a: Plan, runtime: seq<Move>)
    requires |l.dirs| > 0 && InStep(l, t, d, a) && !a.raised
    requires forall m :: m in runtime ==> (m.source in a.files <==> m.source in t)
    ensures InStep(l, t, ReportRuntime(d, runtime), ReportRuntime(a, runtime))
  {
    hide InStep;
    if |runtime| > 0 {
      var rest, m := runtime[..|runtime| - 1], runtime[|runtime| - 1];
      RuntimeInStep(l, t, d, a, rest);
      SameView(l, t, d, a);
      if m.source in t {
        ReportInStep(l, t, ReportRuntime(d, rest), ReportRuntime(a, rest),
                     Action(RuntimeSkip, Some(m.source), Some(m.target), RuntimeArtifact));
      }
    }
  }

  lemma SwarmFilesInStep(l: Layout, t: Tree, d: Plan, a: Plan, pruneEmpty: bool, walks: Walks)
    requires WellLaidOut(l) && Rooted(t) && InStep(l, t, d, a) && ValidWalks(l, t, walks)
    requires !a.raised ==> l.daemon.target in a.files
    ensures InStep(l, t, SwarmFiles(d, Dry(pruneEmpty), l, walks), SwarmFiles(a, App(pruneEmpty), l, walks))
    ensures var a' := SwarmFiles(a, App(pruneEmpty), l, walks);
            !a'.raised ==> a.files.Keys <= a'.files.Keys && SwarmCopied(l, t, a'.files)
  {
    hide InStep, Mirrored, IsWalk;
    CopyFileInStep(l, t, d, a, pruneEmpty, l.database);
    CopyKeeps(a, App(pruneEmpty), l.database);
    CopyTreeInStep(l, t, CopyFile(d, Dry(pruneEmpty), l.database), CopyFile(a, App(pruneEmpty), l.database), pruneEmpty,
                   l.agents, walks);
  }

  ghost predicate SwarmCopied(l: Layout, t: Tree, files: Tree) {
    && (IsFile(t, l.database.source) ==> l.database.target in files)
    && (IsDir(t, l.agents.source) ==> Mirrored(t, l.agents, files))
  }

  /** The daemon's directory exists, and so does the copied state unless the daemon looks active. */
  ghost predicate SwarmDone(l: Layout, t: Tree, files: Tree) {
    l.daemon.target in files && (!DaemonActive(t, l.runtime) ==> SwarmCopied(l, t, files))
  }

  lemma SwarmDirPlace(l: Layout, t: Tree)
    requires WellLaidOut(l)
    ensures IsDirTarget(l, t, l.daemon.target) && l.daemon.target != Base(l) && |l.daemon.target| > 0
    ensures Parent(l.daemon.target) in l.dirs
  {
    assert IsFixedDir(l, Parent(l.daemon.target));
  }

  lemma SwarmInStep(l: Layout, t: Tree, d: Plan, a: Plan, pruneEmpty: bool, walks: Walks)
    requires WellLaidOut(l) && Rooted(t) && InStep(l, t, d, a) && ValidWalks(l, t, walks)
    requires !a.raised ==> Parent(l.daemon.target) in a.files
    ensures var d', a' := Swarm(d, Dry(pruneEmpty), l, walks), Swarm(a, App(pruneEmpty), l, walks);
            && InStep(l, t, d', a')
            && (!a'.raised ==> a.files.Keys <= a'.files.Keys && SwarmDone(l, t, a'.files))
  {
    SwarmDirPlace(l, t);
    MakeKeeps(a, App(pruneEmpty), l.daemon.target);
    var d1, a1 := MakeDir(d, Dry(pruneEmpty), l.daemon.target), MakeDir(a, App(pruneEmpty), l.daemon.target);
    MakeDirInStep(l, t, d, a, pruneEmpty, l.daemon.target);
    hide InStep, Consistent, CopyTree, MakeDir, DaemonActive, ValidWalks;
    if a1.raised {
      RaisedStaysInStep(l, t, Dry(pruneEmpty), d1, a1, Swarm(d, Dry(pruneEmpty), l, walks), a1);
      return;
    }
    SameView(l, t, d1, a1);
    DaemonSeenAlike(l, t, a1);
    if DaemonActive(t, l.runtime) {
      RuntimeInStep(l, t, d1, a1, l.runtime);
      ReportInStep(l, t, ReportRuntime(d1, l.runtime), ReportRuntime(a1, l.runtime),
                   Action(Skip, Some(l.daemon.source), Some(l.daemon.target), DaemonLooksActive));
      return;
    }
    SwarmFilesInStep(l, t, d1, a1, pruneEmpty, walks);
  }

  // ----- Everything before the pruning -----

  /** The trees copied before the daemon's state, in order. */
  function Stages(l: Layout): seq<Move> {
    [l.context, l.styles, l.prompts, l.sessionState, l.tasks]
  }

  ghost predicate DirsThere(l: Layout, s: Plan) {
    !s.raised ==> forall p :: p in l.dirs ==> p in s.files
  }

  ghost predicate TreesDone(l: Layout, t: Tree, s: Plan, k: nat)
    requires k <= 5
  {
    !s.raised ==> forall j :: 0 <= j < k && IsDir(t, Stages(l)[j].source) ==> Mirrored(t, Stages(l)[j], s.files)
  }

  /** The target directories exist and the first `k` trees are copied. */
  ghost predicate Progress(l: Layout, t: Tree, s: Plan, k: nat)
    requires k <= 5
  {
    DirsThere(l, s) && TreesDone(l, t, s, k)
  }

  ghost predicate Onward(s: Plan, s': Plan) {
    (s.raised ==> s'.raised) && (!s'.raised ==> s.files.Keys <= s'.files.Keys)
  }

  lemma MirroredGrows(t: Tree, m: Move, files: Tree, later: Tree)
    requires Mirrored(t, m, files) && files.Keys <= later.Keys
    ensures Mirrored(t, m, later)
  {
  }

  lemma TreesStayDone(l: Layout, t: Tree, s: Plan, s': Plan, k: nat)
    requires k <= 5 && TreesDone(l, t, s, k) && Onward(s, s')
    ensures TreesDone(l, t, s', k)
  {
    if !s'.raised {
      forall j | 0 <= j < k && IsDir(t, Stages(l)[j].source)
        ensures Mirrored(t, Stages(l)[j], s'.files)
      {
        MirroredGrows(t, Stages(l)[j], s.files, s'.files);
      }
    }
  }

  lemma ProgressStays(l: Layout, t: Tree, s: Plan, s': Plan, k: nat)
    requires k <= 5 && Progress(l, t, s, k) && Onward(s, s')
    ensures Progress(l, t, s', k)
  {
    TreesStayDone(l, t, s, s', k);
  }

  lemma OneMoreTree(l: Layout, t: Tree, s: Plan, k: nat, m: Move)
    requires k < 5 && TreesDone(l, t, s, k) && m == Stages(l)[k]
    requires !s.raised && IsDir(t, m.source) ==> Mirrored(t, m, s.files)
    ensures TreesDone(l, t, s, k + 1)
  {
  }

  lemma TreeTargetPlace(l: Layout, m: Move)
    requires WellLaidOut(l) && IsWorkTree(l, m)
    ensures |m.target| > 0 && Parent(m.target) in l.dirs
  {
    assert IsTree(l, m);
    var i :| 0 <= i < |l.dirs| && l.dirs[i] == m.target;
    assert ParentEarlier(l.dirs, i);
  }

  lemma TargetParentThere(l: Layout, t: Tree, a: Plan, k: nat, m: Move)
    requires WellLaidOut(l) && k < 5 && m == Stages(l)[k] && Progress(l, t, a, k)
    ensures IsWorkTree(l, m) && |m.target| > 0
    ensures !a.raised ==> Parent(m.target) in a.files
  {
    assert |Stages(l)| == 5 && IsWorkTree(l, m);
    hide WellLaidOut, TreesDone;
    TreeTargetPlace(l, m);
  }

  lemma ProgressNext(l: Layout, t: Tree, a: Plan, a': Plan, k: nat, m: Move)
    requires k < 5 && m == Stages(l)[k] && Progress(l, t, a, k) && Onward(a, a')
    requires !a'.raised && IsDir(t, m.source) ==> Mirrored(t, m, a'.files)
    ensures Progress(l, t, a', k + 1)
  {
    hide TreesDone;
    ProgressStays(l, t, a, a', k);
    OneMoreTree(l, t, a', k, m);
  }

  lemma TreePart(l: Layout, t: Tree, d: Plan, a: Plan, pruneEmpty: bool, k: nat, m: Move, walks: Walks)
    requires WellLaidOut(l) && Rooted(t) && InStep(l, t, d, a) && ValidWalks(l, t, walks)
    requires k < 5 && Progress(l, t, a, k) && m == Stages(l)[k]
    ensures var d', a' := CopyTree(d, Dry(pruneEmpty), m, walks), CopyTree(a, App(pruneEmpty), m, walks);
            InStep(l, t, d', a') && Progress(l, t, a', k + 1) && Onward(a, a')
  {
    assert |l.dirs| > 0;
    TargetParentThere(l, t, a, k, m);
    hide InStep, CopyTree, Mirrored, WellLaidOut, IsDir, Stages, IsWorkTree, ValidWalks, Rooted, Progress;
    CopyTreeInStep(l, t, d, a, pruneEmpty, m, walks);
    ProgressNext(l, t, a, CopyTree(a, App(pruneEmpty), m, walks), k, m);
  }

  lemma ConfigPart(l: Layout, t: Tree, pruneEmpty: bool)
    requires WellLaidOut(l) && Rooted(t)
    ensures var d, a := Begun(t, Dry(pruneEmpty), l), Begun(t, App(pruneEmpty), l);
            && InStep(l, t, d, a) && Progress(l, t, a, 0)
            && (!a.raised ==> ConfigDone(l, t, a.files))
  {
    MakeAllInStep(l, t, pruneEmpty, |l.dirs|);
    assert l.dirs[..|l.dirs|] == l.dirs;
    var d := MakeAll(Plan(t, [], false), Dry(pruneEmpty), l.dirs);
    var a := MakeAll(Plan(t, [], false), App(pruneEmpty), l.dirs);
    RootConfigInStep(l, t, d, a, pruneEmpty);
    hide InStep, RootConfig, MakeAll, WellLaidOut, ConfigDone;
    ProgressStays(l, t, a, RootConfig(a, App(pruneEmpty), l), 0);
  }

  /** How far an apply run has come, in terms that survive every later part of it. */
  ghost predicate Done(l: Layout, t: Tree, s: Plan, k: nat)
    requires k <= 5
  {
    && Progress(l, t, s, k)
    && (!s.raised ==> ConfigDone(l, t, s.files))
    && (!s.raised && k == 5 ==> AliasesDone(l, t, s.files))
  }

  lemma DoneStays(l: Layout, t: Tree, s: Plan, s': Plan, k: nat)
    requires k <= 5 && Done(l, t, s, k) && Onward(s, s')
    ensures Done(l, t, s', k)
  {
    hide TreesDone, AliasPayload, ProjectsPayload, ModelsPayload, IsFile;
    ProgressStays(l, t, s, s', k);
  }

  lemma TreeDone(l: Layout, t: Tree, s: Plan, s': Plan, k: nat)
    requires k < 4 && Done(l, t, s, k) && Progress(l, t, s', k + 1) && Onward(s, s')
    ensures Done(l, t, s', k + 1)
  {
    hide Progress, AliasPayload, ProjectsPayload, ModelsPayload, IsFile;
  }

  lemma LastTreeDone(l: Layout, t: Tree, s: Plan, s': Plan)
    requires Done(l, t, s, 4) && Progress(l, t, s', 5) && Onward(s, s')
    requires !s.raised ==> AliasesDone(l, t, s.files)
    ensures Done(l, t, s', 5)
  {
    hide Progress, AliasPayload, ProjectsPayload, ModelsPayload, IsFile;
  }

  lemma StagesAre(l: Layout)
    ensures |Stages(l)| == 5 && Stages(l)[0] == l.context && Stages(l)[1] == l.styles && Stages(l)[2] == l.prompts
    ensures Stages(l)[3] == l.sessionState && Stages(l)[4] == l.tasks
  {
  }

  /** One tree copied in both modes. */
  lemma TreeStep(l: Layout, t: Tree, d: Plan, a: Plan, pruneEmpty: bool, k: nat, m: Move, walks: Walks)
    requires WellLaidOut(l) && Rooted(t) && InStep(l, t, d, a) && ValidWalks(l, t, walks)
    requires k < 5 && Done(l, t, a, k) && m == Stages(l)[k]
    requires k == 4 && !a.raised ==> AliasesDone(l, t, a.files)
    ensures var d', a' := CopyTree(d, Dry(pruneEmpty), m, walks), CopyTree(a, App(pruneEmpty), m, walks);
            InStep(l, t, d', a') && Done(l, t, a', k + 1)
  {
    assert |l.dirs| > 0;
    hide InStep, CopyTree, WellLaidOut, Rooted, ValidWalks, Progress, ConfigDone, AliasesDone, Onward, Stages;
    TreePart(l, t, d, a, pruneEmpty, k, m, walks);
    var a' := CopyTree(a, App(pruneEmpty), m, walks);
    if k == 4 { LastTreeDone(l, t, a, a'); } else { TreeDone(l, t, a, a', k); }
  }

  lemma WorkspaceInStep(l: Layout, t: Tree, pruneEmpty: bool, walks: Walks)
    requires WellLaidOut(l) && Rooted(t) && ValidWalks(l, t, walks)
    ensures var d, a := WorkspaceMoved(t, Dry(pruneEmpty), l, walks), WorkspaceMoved(t, App(pruneEmpty), l, walks);
            InStep(l, t, d, a) && Done(l, t, a, 3)
  {
    ConfigPart(l, t, pruneEmpty);
    var d, a := Begun(t, Dry(pruneEmpty), l), Begun(t, App(pruneEmpty), l);
    assert |l.dirs| > 0 && Done(l, t, a, 0);
    StagesAre(l);
    hide InStep, CopyTree, Begun, Rooted, ValidWalks, Done, WellLaidOut, Stages, ConfigDone, AliasesDone;
    TreeStep(l, t, d, a, pruneEmpty, 0, l.context, walks);
    d, a := CopyTree(d, Dry(pruneEmpty), l.context, walks), CopyTree(a, App(pruneEmpty), l.context, walks);
    TreeStep(l, t, d, a, pruneEmpty, 1, l.styles, walks);
    d, a := CopyTree(d, Dry(pruneEmpty), l.styles, walks), CopyTree(a, App(pruneEmpty), l.styles, walks);
    TreeStep(l, t, d, a, pruneEmpty, 2, l.prompts, walks);
  }

  lemma AliasParent(l: Layout, t: Tree, s: Plan, k: nat)
    requires WellLaidOut(l) && k <= 5 && Done(l, t, s, k)
    ensures !s.raised ==> Parent(l.aliases) in s.files && Parent(l.daemon.target) in s.files
  {
    hide TreesDone, ConfigDone, AliasesDone;
    SwarmDirPlace(l, t);
  }

  lemma LegacyStep(l: Layout, t: Tree, d: Plan, a: Plan, pruneEmpty: bool)
    requires WellLaidOut(l) && Rooted(t) && InStep(l, t, d, a) && Done(l, t, a, 4)
    ensures var d', a' := LegacyAliases(d, Dry(pruneEmpty), l), LegacyAliases(a, App(pruneEmpty), l);
            InStep(l, t, d', a') && Done(l, t, a', 4) && (!a'.raised ==> AliasesDone(l, t, a'.files))
  {
    assert |l.dirs| > 0;
    hide InStep, LegacyAliases, WellLaidOut, Rooted, Done, ConfigDone, AliasesDone;
    AliasParent(l, t, a, 4);
    LegacyInStep(l, t, d, a, pruneEmpty);
    DoneStays(l, t, a, LegacyAliases(a, App(pruneEmpty), l), 4);
  }

  lemma TreesInStep(l: Layout, t: Tree, pruneEmpty: bool, walks: Walks)
    requires WellLaidOut(l) && Rooted(t) && ValidWalks(l, t, walks)
    ensures var d, a := TreesMoved(t, Dry(pruneEmpty), l, walks), TreesMoved(t, App(pruneEmpty), l, walks);
            InStep(l, t, d, a) && Done(l, t, a, 5)
  {
    WorkspaceInStep(l, t, pruneEmpty, walks);
    var dry, app := Dry(pruneEmpty), App(pruneEmpty);
    var d, a := WorkspaceMoved(t, dry, l, walks), WorkspaceMoved(t, app, l, walks);
    StagesAre(l);
    hide InStep, CopyTree, WorkspaceMoved, Rooted, ValidWalks, WellLaidOut, LegacyAliases, Done, AliasesDone, Stages;
    TreeStep(l, t, d, a, pruneEmpty, 3, l.sessionState, walks);
    d, a := CopyTree(d, dry, l.sessionState, walks), CopyTree(a, app, l.sessionState, walks);
    LegacyStep(l, t, d, a, pruneEmpty);
    TreeStep(l, t, LegacyAliases(d, dry, l), LegacyAliases(a, app, l), pruneEmpty, 4, l.tasks, walks);
  }

  lemma MovedInStep(l: Layout, t: Tree, pruneEmpty: bool, walks: Walks)
    requires WellLaidOut(l) && Rooted(t) && ValidWalks(l, t, walks)
    ensures var d, a := Moved(t, Dry(pruneEmpty), l, walks), Moved(t, App(pruneEmpty), l, walks);
            && InStep(l, t, d, a)
            && Done(l, t, a, 5)
            && (!a.raised ==> SwarmDone(l, t, a.files))
  {
    TreesInStep(l, t, pruneEmpty, walks);
    var d, a := TreesMoved(t, Dry(pruneEmpty), l, walks), TreesMoved(t, App(pruneEmpty), l, walks);
    hide InStep, TreesMoved, Rooted, ValidWalks, WellLaidOut, Swarm, Done, SwarmDone;
    AliasParent(l, t, a, 5);
    SwarmInStep(l, t, d, a, pruneEmpty, walks);
    DoneStays(l, t, a, Swarm(a, App(pruneEmpty), l, walks), 5);
  }
}
