/** What the legacy trees and the database become: a file that an apply run puts into a new tree has the content of
    the file at the same place of the old one. */
module MigrationTrees {
  import opened Prelude
  import opened FileTree
  import opened MigrationPlan
  import opened MigrationLayout
  import opened MigrationDryRun
  import opened MigrationPrediction
  import opened MigrationSafety
  import opened MigrationRepeat

  /** The file at `q` has the content of the file at the same place below the tree's source. */
  ghost predicate Fetched(m: Move, files: Tree, q: Path)
    requires q in files
  {
    m.target <= q && Lookup(files, m.source + q[|m.target|..]) == Some(files[q])
  }

  /** Files that are there now and were not before were fetched. */
  ghost predicate AllFetched(m: Move, before: Tree, files: Tree) {
    forall q :: q in files && q !in before && files[q].File? ==> Fetched(m, files, q)
  }

  ghost predicate NoNewFile(before: Tree, files: Tree) {
    forall q :: q in files && q !in before ==> !files[q].File?
  }

  lemma MakeDirMakesNoFile(s: Plan, o: Options, p: Path)
    ensures NoNewFile(s.files, MakeDir(s, o, p).files)
  {
  }

  lemma FetchedTwice(m: Move, a: Tree, b: Tree, c: Tree)
    requires AllFetched(m, a, b) && AllFetched(m, b, c) && Extends(b, c)
    ensures AllFetched(m, a, c)
  {
    forall q | q in c && q !in a && c[q].File?
      ensures Fetched(m, c, q)
    {
      if q in b { assert Fetched(m, b, q); }
    }
  }

  lemma EntryFetched(s: Plan, o: Options, m: Move, below: Path, name: string)
    requires o.apply
    ensures var r := CopyFile(s, o, Entry(Below(m, below), name));
            AllFetched(m, s.files, r.files) && Extends(s.files, r.files)
  {
    var e := Entry(Below(m, below), name);
    assert e.source == m.source + (below + [name]) && e.target == m.target + (below + [name]);
    assert e.target[|m.target|..] == below + [name];
    var r := CopyFile(s, o, e);
    if !s.raised && e.source in s.files && s.files[e.source].File? && !Taken(s, e.target) {
      WriteExtends(s.files, e.target, s.files[e.source].content);
    }
  }

  lemma {:induction false} FilesFetched(s: Plan, o: Options, m: Move, below: Path, names: seq<string>)
    requires o.apply
    ensures var r := CopyFiles(s, o, Below(m, below), names);
            AllFetched(m, s.files, r.files) && Extends(s.files, r.files)
  {
    if |names| > 0 {
      var rest := CopyFiles(s, o, Below(m, below), names[..|names| - 1]);
      FilesFetched(s, o, m, below, names[..|names| - 1]);
      EntryFetched(rest, o, m, below, names[|names| - 1]);
      hide AllFetched, CopyFile;
      FetchedTwice(m, s.files, rest.files, CopyFiles(s, o, Below(m, below), names).files);
    }
  }

  lemma MakeDirExtends(s: Plan, o: Options, p: Path)
    ensures Extends(s.files, MakeDir(s, o, p).files)
  {
  }

  lemma {:induction false} WalkFetched(s: Plan, o: Options, m: Move, walk: seq<Visit>)
    requires o.apply
    ensures var r := WalkTree(s, o, m, walk); AllFetched(m, s.files, r.files) && Extends(s.files, r.files)
  {
    if |walk| > 0 {
      var rest, v := WalkTree(s, o, m, walk[..|walk| - 1]), walk[|walk| - 1];
      WalkFetched(s, o, m, walk[..|walk| - 1]);
      MakeDirMakesNoFile(rest, o, m.target + v.below);
      MakeDirExtends(rest, o, m.target + v.below);
      var made := MakeDir(rest, o, m.target + v.below);
      FilesFetched(made, o, m, v.below, v.files);
      assert AllFetched(m, rest.files, made.files);
      hide AllFetched, CopyFiles, MakeDir, NoNewFile;
      FetchedTwice(m, s.files, rest.files, made.files);
      FetchedTwice(m, s.files, made.files, WalkTree(s, o, m, walk).files);
    }
  }

  lemma TreeFetched(s: Plan, o: Options, m: Move, walks: Walks)
    requires o.apply
    ensures var r := CopyTree(s, o, m, walks); AllFetched(m, s.files, r.files) && Extends(s.files, r.files)
  {
    var made := MakeDir(s, o, m.target);
    MakeDirMakesNoFile(s, o, m.target);
    MakeDirExtends(s, o, m.target);
    WalkFetched(made, o, m, WalkOf(walks, m.source));
    assert AllFetched(m, s.files, made.files);
    FetchedTwice(m, s.files, made.files, WalkTree(made, o, m, WalkOf(walks, m.source)).files);
    hide MakeDir, WalkTree, AllFetched;
    assert AllFetched(m, s.files, s.files) by { NothingFetched(m, s.files); }
  }

  lemma NothingFetched(m: Move, files: Tree)
    ensures AllFetched(m, files, files)
  {
  }

  // ----- Over a whole run -----

  predicate FixedComes(l: Layout, files: Tree, q: Path)
    requires q in files
  {
    || q == l.projects || q == l.aliases || q == l.config
    || (q == l.database.target && Lookup(files, l.database.source) == Some(files[q]))
  }

  /** Where the content of a new file comes from: the config, the legacy aliases, the database or a tree. */
  ghost predicate ComesFrom(l: Layout, files: Tree, q: Path)
    requires q in files
  {
    || FixedComes(l, files, q)
    || exists m {:trigger Fetched(m, files, q)} :: IsTree(l, m) && Fetched(m, files, q)
  }

  ghost predicate Traced(l: Layout, t: Tree, files: Tree) {
    forall q :: q in files && q !in t && files[q].File? ==> ComesFrom(l, files, q)
  }

  /** Everything but the config stays, and new files are accounted for. */
  ghost predicate Traces(l: Layout, before: Tree, files: Tree) {
    && Extends(before - {l.config}, files)
    && forall q :: q in files && q !in before && files[q].File? ==> ComesFrom(l, files, q)
  }

  lemma SourceIsNoConfig(l: Layout, m: Move, q: Path)
    requires WellLaidOut(l) && IsTree(l, m) && m.target <= q
    ensures m.source + q[|m.target|..] != l.config
  {
    assert Base(l) <= l.config && Outside(l, m.source);
    hide WellLaidOut, IsTree;
    OutsideBelow(l, m.source, m.source + q[|m.target|..]);
  }

  lemma FetchedStays(l: Layout, m: Move, before: Tree, files: Tree, q: Path)
    requires WellLaidOut(l) && IsTree(l, m) && Extends(before - {l.config}, files)
    requires q in before && q != l.config && Fetched(m, before, q)
    ensures q in files && Fetched(m, files, q)
  {
    hide WellLaidOut, IsTree;
    SourceIsNoConfig(l, m, q);
    assert q in before - {l.config};
    assert m.source + q[|m.target|..] in before - {l.config};
  }

  lemma StillComesFrom(l: Layout, before: Tree, files: Tree, q: Path)
    requires WellLaidOut(l) && Extends(before - {l.config}, files)
    requires q in before && q != l.config && ComesFrom(l, before, q)
    ensures q in files && ComesFrom(l, files, q)
  {
    DatabaseIsAway(l);
    hide WellLaidOut, IsTree;
    assert q in before - {l.config};
    if !FixedComes(l, before, q) {
      var m :| IsTree(l, m) && Fetched(m, before, q);
      FetchedStays(l, m, before, files, q);
    } else {
      hide Fetched;
      assert FixedComes(l, files, q) by {
        if q == l.database.target { assert l.database.source in before - {l.config} || l.database.source !in before; }
      }
    }
  }

  lemma TracedOn(l: Layout, t: Tree, before: Tree, files: Tree)
    requires WellLaidOut(l) && Traced(l, t, before) && Traces(l, before, files)
    ensures Traced(l, t, files)
  {
    hide WellLaidOut, ComesFrom;
    forall q | q in files && q !in t && files[q].File?
      ensures ComesFrom(l, files, q)
    {
      if q == l.config {
        ConfigComes(l, files);
      } else if q in before {
        assert before[q] == files[q];
        StillComesFrom(l, before, files, q);
      }
    }
  }

  lemma ConfigComes(l: Layout, files: Tree)
    requires l.config in files
    ensures ComesFrom(l, files, l.config)
  {
  }

  lemma TreeTraces(l: Layout, s: Plan, o: Options, m: Move, walks: Walks)
    requires o.apply && IsTree(l, m)
    ensures Traces(l, s.files, CopyTree(s, o, m, walks).files)
  {
    TreeFetched(s, o, m, walks);
    hide CopyTree, Fetched;
  }

  lemma MakeDirTraces(l: Layout, s: Plan, o: Options, p: Path)
    ensures Traces(l, s.files, MakeDir(s, o, p).files)
  {
    MakeDirMakesNoFile(s, o, p);
    MakeDirExtends(s, o, p);
    hide MakeDir;
  }

  lemma {:induction false} MakeAllTraces(l: Layout, t: Tree, s: Plan, o: Options, dirs: seq<Path>)
    requires WellLaidOut(l) && Traced(l, t, s.files)
    ensures Traced(l, t, MakeAll(s, o, dirs).files)
  {
    if |dirs| > 0 {
      var rest := MakeAll(s, o, dirs[..|dirs| - 1]);
      MakeAllTraces(l, t, s, o, dirs[..|dirs| - 1]);
      MakeDirTraces(l, rest, o, dirs[|dirs| - 1]);
      hide Traced, Traces, MakeDir, WellLaidOut;
      TracedOn(l, t, rest.files, MakeAll(s, o, dirs).files);
    }
  }

  lemma DatabaseTraces(l: Layout, s: Plan, o: Options)
    requires NonEmptyPaths(l) && o.apply && l.database.source != l.config
    ensures Traces(l, s.files, CopyFile(s, o, l.database).files)
  {
    var m := l.database;
    if !s.raised && m.source in s.files && s.files[m.source].File? && !Taken(s, m.target) {
      WriteExtends(s.files, m.target, s.files[m.source].content);
    }
  }

  lemma LegacyTraces(l: Layout, s: Plan, o: Options)
    requires NonEmptyPaths(l) && o.apply
    ensures Traces(l, s.files, LegacyAliases(s, o, l).files)
  {
    if ReadAliases(s.files, l.legacyAliases).Valid? && !Taken(s, l.aliases) {
      WriteExtends(s.files, l.aliases, ReadAliases(s.files, l.legacyAliases).content);
    }
    hide ReadAliases;
  }

  lemma ExtractTraces(l: Layout, s: Plan, o: Options, target: Path, payload: Option<Content>, done: Detail, taken: Detail)
    requires NonEmptyPaths(l) && o.apply && (target == l.projects || target == l.aliases)
    ensures Traces(l, s.files, Extract(s, o, l.config, target, payload, done, taken).files)
  {
    if payload.Some? && !Taken(s, target) { WrittenTraces(l, s.files, target, payload.value); }
    hide WriteFile, Taken, ComesFrom;
  }

  lemma WrittenTraces(l: Layout, files: Tree, target: Path, content: Content)
    requires |target| > 0 && (target == l.projects || target == l.aliases) && target !in files
    ensures var w := WriteFile(files, target, content); w.Some? ==> Traces(l, files, w.value)
  {
    WriteExtends(files, target, content);
  }

  lemma CleanTraces(l: Layout, s: Plan, o: Options, fields: seq<Field>, keys: set<string>)
    requires NonEmptyPaths(l) && o.apply
    ensures Traces(l, s.files, CleanConfig(s, o, l.config, fields, keys).files)
  {
    hide Cleaned;
  }

  lemma ConfigTraces(l: Layout, t: Tree, s: Plan, o: Options)
    requires WellLaidOut(l) && o.apply && Traced(l, t, s.files)
    ensures Traced(l, t, RootConfig(s, o, l).files)
  {
    if !s.raised && ReadObject(s.files, l.config).Fields? {
      var fields := ReadObject(s.files, l.config).fields;
      var projects, models := ProjectsPayload(fields), ModelsPayload(fields);
      var s1 := Extract(s, o, l.config, l.projects, projects, ExtractProjects, ProjectsTaken);
      var s2 := Extract(s1, o, l.config, l.aliases, models, ExtractAliases, AliasesTaken);
      var keys := CleanupKeys(Extracts(s, l.projects, projects), Extracts(s1, l.aliases, models));
      hide ProjectsPayload, ModelsPayload, Extract, Extracts, CleanConfig, CleanupKeys, Traced, Traces, ReadObject, Taken;
      ExtractTraces(l, s, o, l.projects, projects, ExtractProjects, ProjectsTaken);
      ExtractTraces(l, s1, o, l.aliases, models, ExtractAliases, AliasesTaken);
      CleanTraces(l, s2, o, fields, keys);
      TracedOn(l, t, s.files, s1.files);
      TracedOn(l, t, s1.files, s2.files);
      TracedOn(l, t, s2.files, CleanConfig(s2, o, l.config, fields, keys).files);
    }
  }

  lemma TreeTraced(l: Layout, t: Tree, s: Plan, o: Options, m: Move, walks: Walks)
    requires WellLaidOut(l) && o.apply && IsTree(l, m) && Traced(l, t, s.files)
    ensures Traced(l, t, CopyTree(s, o, m, walks).files)
  {
    hide WellLaidOut, Traced, Traces, CopyTree, IsTree;
    TreeTraces(l, s, o, m, walks);
    TracedOn(l, t, s.files, CopyTree(s, o, m, walks).files);
  }

  lemma SwarmTraced(l: Layout, t: Tree, s: Plan, o: Options, walks: Walks)
    requires WellLaidOut(l) && o.apply && Traced(l, t, s.files)
    ensures Traced(l, t, Swarm(s, o, l, walks).files)
  {
    DatabaseIsAway(l);
    hide WellLaidOut, Traced, Traces, CopyTree, CopyFile, MakeDir, DaemonActive, ReportRuntime;
    var s1 := MakeDir(s, o, l.daemon.target);
    MakeDirTraces(l, s, o, l.daemon.target);
    TracedOn(l, t, s.files, s1.files);
    DatabaseTraces(l, s1, o);
    TracedOn(l, t, s1.files, CopyFile(s1, o, l.database).files);
    TreeTraced(l, t, CopyFile(s1, o, l.database), o, l.agents, walks);
  }

  lemma MovedIsTraced(l: Layout, t: Tree, o: Options, walks: Walks)
    requires WellLaidOut(l) && o.apply
    ensures Traced(l, t, Moved(t, o, l, walks).files)
  {
    assert NonEmptyPaths(l);
    hide WellLaidOut, Traced, Traces, CopyTree, RootConfig, LegacyAliases, MakeAll, Swarm;
    var s := Plan(t, [], false);
    assert Traced(l, t, t) by { NothingTraced(l, t); }
    MakeAllTraces(l, t, s, o, l.dirs);
    ConfigTraces(l, t, MakeAll(s, o, l.dirs), o);
    s := Begun(t, o, l);
    TreeTraced(l, t, s, o, l.context, walks);
    s := CopyTree(s, o, l.context, walks);
    TreeTraced(l, t, s, o, l.styles, walks);
    s := CopyTree(s, o, l.styles, walks);
    TreeTraced(l, t, s, o, l.prompts, walks);
    s := CopyTree(s, o, l.prompts, walks);
    TreeTraced(l, t, s, o, l.sessionState, walks);
    s := CopyTree(s, o, l.sessionState, walks);
    LegacyTraces(l, s, o);
    TracedOn(l, t, s.files, LegacyAliases(s, o, l).files);
    TreeTraced(l, t, LegacyAliases(s, o, l), o, l.tasks, walks);
    SwarmTraced(l, t, TreesMoved(t, o, l, walks), o, walks);
  }

  lemma NothingTraced(l: Layout, t: Tree)
    ensures Traced(l, t, t)
  {
  }

  // ----- What is read in the new places -----

  /** A new file inside a tree's target comes from that tree. */
  lemma TreeFileComes(l: Layout, t: Tree, files: Tree, m: Move, p: Path)
    requires WellLaidOut(l) && IsTree(l, m) && Traced(l, t, files)
    requires m.target <= p && p in files && p !in t && files[p].File?
    ensures Fetched(m, files, p)
  {
    assert IsFixedFile(l, l.projects) && IsFixedFile(l, l.aliases) && IsFixedFile(l, l.database.target);
    var n :| IsTree(l, n) && Fetched(n, files, p);
    TargetsOnSameTree(l, m, n, p);
  }

  /** A tree that is copied: the daemon's agents only while the daemon is not active. */
  predicate IsCopied(l: Layout, t: Tree, m: Move) {
    IsWorkTree(l, m) || (m == l.agents && !DaemonActive(t, l.runtime))
  }

  lemma CopiedIsMirrored(l: Layout, t: Tree, pruneEmpty: bool, walks: Walks, m: Move)
    requires WellLaidOut(l) && Rooted(t) && ValidWalks(l, t, walks) && !Moved(t, App(pruneEmpty), l, walks).raised
    requires IsCopied(l, t, m) && IsDir(t, m.source)
    ensures Mirrored(t, m, Moved(t, App(pruneEmpty), l, walks).files) && Consistent(l, t, Moved(t, App(pruneEmpty), l, walks))
  {
    MovedInStep(l, t, pruneEmpty, walks);
    var a := Moved(t, App(pruneEmpty), l, walks);
    assert Consistent(l, t, a) && TreesDone(l, t, a, 5) && SwarmDone(l, t, a.files);
    StagesAre(l);
    if IsWorkTree(l, m) {
      var k := if m == l.context then 0 else if m == l.styles then 1 else if m == l.prompts then 2
               else if m == l.sessionState then 3 else 4;
      assert Stages(l)[k] == m;
    }
    hide Mirrored, Moved, WellLaidOut, DaemonActive, Stages, InStep, Consistent;
  }

  lemma NewFileOf(l: Layout, t: Tree, pruneEmpty: bool, walks: Walks, m: Move, below: Path)
    requires WellLaidOut(l) && Rooted(t) && ValidWalks(l, t, walks) && !Moved(t, App(pruneEmpty), l, walks).raised
    requires IsCopied(l, t, m) && IsDir(t, m.source) && below != [] && IsFile(t, m.source + below) && m.target + below !in t
    ensures Lookup(Moved(t, App(pruneEmpty), l, walks).files, m.target + below) == Some(t[m.source + below])
  {
    var a, p := Moved(t, App(pruneEmpty), l, walks), m.target + below;
    assert p[|m.target|..] == below && IsTree(l, m);
    CopiedIsMirrored(l, t, pruneEmpty, walks, m);
    MovedIsTraced(l, t, App(pruneEmpty), walks);
    hide Moved;
    MirrorOfFile(t, m, below);
    assert p in a.files && IsFileTarget(l, t, p);
    NewIsFile(l, t, a, p);
    TreeFileComes(l, t, a.files, m, p);
    OutsideBelow(l, m.source, m.source + below);
    SourceUnchanged(l, t, a, m.source + below);
  }

  lemma NewIsFile(l: Layout, t: Tree, s: Plan, p: Path)
    requires WellLaidOut(l) && Consistent(l, t, s) && IsFileTarget(l, t, p) && p in s.files && p !in t
    ensures s.files[p].File?
  {
    if IsDirTarget(l, t, p) { DirTargetsAreNoFileTargets(l, t, p); }
    FileDecision(l, t, s, p);
  }

  lemma SourceIsDir(t: Tree, source: Path, below: Path)
    requires Rooted(t) && source + below in t && below != []
    ensures IsDir(t, source)
  {
    DirsAbove(t, source + below);
    assert (source + below)[..|source|] == source;
  }

  /** After a finished apply run every file below a tree's old place is there below its new place, with the old
      content, unless something stood there before, which is then untouched. */
  lemma TreeOutcome(l: Layout, t: Tree, pruneEmpty: bool, walks: Walks, m: Move, below: Path)
    requires WellLaidOut(l) && Rooted(t) && ValidWalks(l, t, walks) && !Run(t, App(pruneEmpty), l, walks).raised
    requires IsCopied(l, t, m) && below != [] && IsFile(t, m.source + below)
    ensures var p := m.target + below;
            Lookup(Run(t, App(pruneEmpty), l, walks).files, p) == Some(if p in t then t[p] else t[m.source + below])
  {
    var o, p := App(pruneEmpty), m.target + below;
    var a := Moved(t, o, l, walks);
    assert !a.raised;
    TreePlace(l, t, m, below);
    SourceIsDir(t, m.source, below);
    hide Moved, WellLaidOut, Rooted, ValidWalks, IsCopied, Prune;
    MovedIsSafe(l, t, o, walks);
    if p !in t { NewFileOf(l, t, pruneEmpty, walks, m, below); }
    PruneIsPruned(l, a, o);
    InsideStays(l, o, a.files, Prune(a, o, l).files, p);
  }

  lemma TreePlace(l: Layout, t: Tree, m: Move, below: Path)
    requires WellLaidOut(l) && IsCopied(l, t, m)
    ensures Base(l) <= m.target + below && m.target + below != l.config
  {
    assert IsTree(l, m) && !(m.target <= l.config);
  }

  /** The daemon's database is taken over like a file of a tree while the daemon is not active. */
  lemma DatabaseOutcome(l: Layout, t: Tree, pruneEmpty: bool, walks: Walks)
    requires WellLaidOut(l) && Rooted(t) && ValidWalks(l, t, walks) && !Run(t, App(pruneEmpty), l, walks).raised
    requires !DaemonActive(t, l.runtime) && IsFile(t, l.database.source)
    requires l.database.target != l.projects && l.database.target != l.aliases
    ensures var p := l.database.target;
            Lookup(Run(t, App(pruneEmpty), l, walks).files, p) == Some(if p in t then t[p] else t[l.database.source])
  {
    var o, p := App(pruneEmpty), l.database.target;
    var a, r := Moved(t, o, l, walks), Run(t, o, l, walks);
    assert IsFixedFile(l, p) && Base(l) <= p && p != l.config && Outside(l, l.database.source);
    MovedIsSafe(l, t, o, walks);
    MovedInStep(l, t, pruneEmpty, walks);
    assert SwarmDone(l, t, a.files) && Consistent(l, t, a);
    MovedIsTraced(l, t, o, walks);
    PruneIsPruned(l, a, o);
    hide Moved, InStep;
    SourceUnchanged(l, t, a, l.database.source);
    if p !in t {
      NewIsFile(l, t, a, p);
      DatabaseComes(l, t, a.files);
    }
    InsideStays(l, o, a.files, r.files, p);
  }

  lemma DatabaseComes(l: Layout, t: Tree, files: Tree)
    requires WellLaidOut(l) && Traced(l, t, files) && l.database.target != l.projects && l.database.target != l.aliases
    requires l.database.target in files && l.database.target !in t && files[l.database.target].File?
    ensures Lookup(files, l.database.source) == Some(files[l.database.target])
  {
    assert IsFixedFile(l, l.database.target);
  }

  /** In the directories the script really uses the files that are written by themselves are three. */
  lemma StandardFilesApart(home: Path)
    ensures var l := Standard(home);
            l.projects != l.aliases && l.projects != l.database.target && l.aliases != l.database.target
  {
    var l, k := Standard(home), |home| + 2;
    NamesDistinct();
    assert l.projects[k] == NAMES.workspace && l.aliases[k] == NAMES.core && l.database.target[k] == NAMES.swarm;
  }
}
