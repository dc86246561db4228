/** Migrating twice: a finished apply run leaves a settled tree, and an apply run over a settled tree
    changes nothing and plans nothing. */
module MigrationRepeat {
  import opened Prelude
  import opened FileTree
  import opened MigrationPlan
  import opened MigrationLayout
  import opened MigrationDryRun
  import opened MigrationPrediction
  import opened MigrationRun
  import opened MigrationSafety

  // ----- A settled tree -----

  /** Nothing is left to extract from the config, and nothing to clean. */
  ghost predicate ConfigSettled(l: Layout, files: Tree) {
    && ConfigDone(l, files, files)
    && (var reading := ReadObject(files, l.config);
        reading.Fields? ==> Cleaned(reading.fields, STALE_KEYS) == reading.fields)
  }

  ghost predicate TreeSettled(m: Move, files: Tree) {
    IsDir(files, m.source) ==> Mirrored(files, m, files)
  }

  ghost predicate SwarmSettled(l: Layout, files: Tree) {
    !DaemonActive(files, l.runtime) ==>
      && TreeSettled(l.agents, files)
      && (IsFile(files, l.database.source) ==> l.database.target in files)
  }

  ghost predicate PruneSettled(dirs: seq<Path>, files: Tree) {
    forall p :: p in dirs && IsDir(files, p) ==> HasChild(files, p)
  }

  ghost predicate Settled(l: Layout, o: Options, files: Tree) {
    && (forall p :: IsFixedDir(l, p) ==> p in files)
    && ConfigSettled(l, files)
    && (forall m {:trigger IsWorkTree(l, m)} :: IsWorkTree(l, m) ==> TreeSettled(m, files))
    && AliasesDone(l, files, files)
    && SwarmSettled(l, files)
    && (o.pruneEmpty ==> PruneSettled(l.prunable, files))
  }

  // ----- A run over a settled tree only reports -----

  predicate Reports(x: Action) {
    x.kind == Missing || x.kind == Skip || x.kind == RuntimeSkip || x.kind == RetainNonEmpty
  }

  /** So far the run has only reported. */
  predicate Idle(files: Tree, s: Plan) {
    s.files == files && !s.raised && forall x :: x in s.actions ==> Reports(x)
  }

  lemma IdlePlansNothing(files: Tree, s: Plan)
    requires Idle(files, s)
    ensures forall p :: !PlannedWrite(s.actions, p)
  {
  }

  lemma IdleCopy(files: Tree, s: Plan, o: Options, m: Move)
    requires Idle(files, s) && |m.target| > 0 && (IsFile(files, m.source) ==> m.target in files)
    ensures Idle(files, CopyFile(s, o, m))
  {
  }

  lemma {:induction false} IdleCopies(files: Tree, s: Plan, o: Options, m: Move, below: Path, names: seq<string>)
    requires Idle(files, s) && Mirrored(files, m, files)
    ensures Idle(files, CopyFiles(s, o, Below(m, below), names))
  {
    if |names| > 0 {
      var rest, name := names[..|names| - 1], names[|names| - 1];
      IdleCopies(files, s, o, m, below, rest);
      assert m.source + below + [name] == m.source + (below + [name]);
      assert m.target + below + [name] == m.target + (below + [name]);
      IdleCopy(files, CopyFiles(s, o, Below(m, below), rest), o, Entry(Below(m, below), name));
    }
  }

  lemma {:induction false} IdleWalk(files: Tree, s: Plan, o: Options, m: Move, walk: seq<Visit>)
    requires Idle(files, s) && Mirrored(files, m, files) && TopDown(files, m.source, walk)
    ensures Idle(files, WalkTree(s, o, m, walk))
  {
    if |walk| > 0 {
      TopDownPrefix(files, m.source, walk);
      IdleWalk(files, s, o, m, walk[..|walk| - 1]);
      var rest, v := WalkTree(s, o, m, walk[..|walk| - 1]), walk[|walk| - 1];
      assert MakeDir(rest, o, m.target + v.below) == rest;
      IdleCopies(files, rest, o, m, v.below, v.files);
    }
  }

  lemma IdleTree(l: Layout, files: Tree, s: Plan, o: Options, m: Move, walks: Walks)
    requires Idle(files, s) && TreeSettled(m, files) && ValidWalks(l, files, walks) && IsTree(l, m)
    ensures Idle(files, CopyTree(s, o, m, walks))
  {
    if IsDir(files, m.source) {
      assert m.source + [] == m.source && m.target + [] == m.target;
      assert MakeDir(s, o, m.target) == s;
      IdleWalk(files, s, o, m, WalkOf(walks, m.source));
    }
  }

  lemma {:induction false} IdleDirs(files: Tree, s: Plan, o: Options, dirs: seq<Path>)
    requires Idle(files, s) && forall p :: p in dirs ==> p in files
    ensures MakeAll(s, o, dirs) == s
  {
    if |dirs| > 0 { IdleDirs(files, s, o, dirs[..|dirs| - 1]); }
  }

  lemma IdleExtract(files: Tree, s: Plan, o: Options, config: Path, target: Path, payload: Option<Content>,
                    done: Detail, taken: Detail)
    requires Idle(files, s) && |target| > 0 && (payload.Some? ==> target in files)
    ensures Idle(files, Extract(s, o, config, target, payload, done, taken)) && !Extracts(s, target, payload)
  {
  }

  lemma IdleConfig(l: Layout, files: Tree, s: Plan, o: Options)
    requires NonEmptyPaths(l) && Idle(files, s) && ConfigSettled(l, files)
    ensures Idle(files, RootConfig(s, o, l))
  {
    var reading := ReadObject(files, l.config);
    if reading.Fields? {
      var projects, models := ProjectsPayload(reading.fields), ModelsPayload(reading.fields);
      hide ProjectsPayload, ModelsPayload, Cleaned;
      var s1 := Extract(s, o, l.config, l.projects, projects, ExtractProjects, ProjectsTaken);
      IdleExtract(files, s, o, l.config, l.projects, projects, ExtractProjects, ProjectsTaken);
      IdleExtract(files, s1, o, l.config, l.aliases, models, ExtractAliases, AliasesTaken);
      assert CleanupKeys(false, false) == STALE_KEYS;
    }
  }

  lemma IdleAliases(l: Layout, files: Tree, s: Plan, o: Options)
    requires NonEmptyPaths(l) && Idle(files, s) && AliasesDone(l, files, files)
    ensures Idle(files, LegacyAliases(s, o, l))
  {
    hide AliasPayload;
    IdlePlansNothing(files, s);
  }

  lemma {:induction false} IdleRuntime(files: Tree, s: Plan, runtime: seq<Move>)
    requires Idle(files, s)
    ensures Idle(files, ReportRuntime(s, runtime))
  {
    if |runtime| > 0 { IdleRuntime(files, s, runtime[..|runtime| - 1]); }
  }

  lemma IdleSwarm(l: Layout, files: Tree, s: Plan, o: Options, walks: Walks)
    requires NonEmptyPaths(l) && Idle(files, s) && l.daemon.target in files && SwarmSettled(l, files)
    requires ValidWalks(l, files, walks)
    ensures Idle(files, Swarm(s, o, l, walks))
  {
    hide CopyTree, CopyFile, ReportRuntime, TreeSettled, ValidWalks, DaemonActive;
    assert MakeDir(s, o, l.daemon.target) == s;
    if DaemonActive(files, l.runtime) {
      IdleRuntime(files, s, l.runtime);
    } else {
      IdleCopy(files, s, o, l.database);
      IdleTree(l, files, CopyFile(s, o, l.database), o, l.agents, walks);
    }
  }

  lemma {:induction false} IdlePrune(files: Tree, s: Plan, o: Options, dirs: seq<Path>)
    requires Idle(files, s) && PruneSettled(dirs, files)
    ensures Idle(files, PruneAll(s, o, dirs))
  {
    if |dirs| > 0 {
      IdlePrune(files, s, o, dirs[..|dirs| - 1]);
      assert dirs[|dirs| - 1] in dirs;
    }
  }

  lemma IdleMoved(l: Layout, files: Tree, o: Options, walks: Walks)
    requires NonEmptyPaths(l) && Settled(l, o, files) && ValidWalks(l, files, walks)
    ensures Idle(files, Moved(files, o, l, walks))
  {
    var s := Plan(files, [], false);
    IdleDirs(files, s, o, l.dirs);
    assert IsFixedDir(l, l.daemon.target) && IsWorkTree(l, l.context) && IsWorkTree(l, l.styles) && IsWorkTree(l, l.prompts)
           && IsWorkTree(l, l.sessionState) && IsWorkTree(l, l.tasks);
    hide Idle, CopyTree, RootConfig, LegacyAliases, Swarm, ValidWalks, TreeSettled, ConfigSettled, AliasesDone, SwarmSettled;
    IdleConfig(l, files, s, o);
    s := RootConfig(s, o, l);
    IdleTree(l, files, s, o, l.context, walks);
    s := CopyTree(s, o, l.context, walks);
    IdleTree(l, files, s, o, l.styles, walks);
    s := CopyTree(s, o, l.styles, walks);
    IdleTree(l, files, s, o, l.prompts, walks);
    s := CopyTree(s, o, l.prompts, walks);
    IdleTree(l, files, s, o, l.sessionState, walks);
    s := CopyTree(s, o, l.sessionState, walks);
    IdleAliases(l, files, s, o);
    s := LegacyAliases(s, o, l);
    IdleTree(l, files, s, o, l.tasks, walks);
    IdleSwarm(l, files, CopyTree(s, o, l.tasks, walks), o, walks);
  }

  lemma SettledRunIsIdle(l: Layout, files: Tree, o: Options, walks: Walks)
    requires NonEmptyPaths(l) && Settled(l, o, files) && ValidWalks(l, files, walks)
    ensures Idle(files, Run(files, o, l, walks))
  {
    IdleMoved(l, files, o, walks);
    if o.pruneEmpty { IdlePrune(files, Moved(files, o, l, walks), o, l.prunable); }
  }

  // ----- A finished apply run settles the tree -----

  /** The disk after the pruning, seen against the disk before it. */
  ghost predicate Pruned(l: Layout, o: Options, files: Tree, later: Tree) {
    && OnlyEmptied(files, later, l.prunable)
    && (o.pruneEmpty ==> PruneSettled(l.prunable, later))
  }

  lemma {:induction false} PruneSettles(s: Plan, o: Options, dirs: seq<Path>, k: nat)
    requires k <= |dirs| && !s.raised && o.apply
    requires forall i, j :: 0 <= i < |dirs| && 0 <= j < |dirs| && i != j ==> !(dirs[i] <= dirs[j])
    ensures PruneSettled(dirs[..k], PruneAll(s, o, dirs[..k]).files) && !PruneAll(s, o, dirs[..k]).raised
  {
    if k > 0 {
      assert dirs[..k][..k - 1] == dirs[..k - 1];
      assert dirs[..k] == dirs[..k - 1] + [dirs[k - 1]];
      PruneSettles(s, o, dirs, k - 1);
      var rest := PruneAll(s, o, dirs[..k - 1]);
      NextPruneSettles(rest, o, dirs, k);
    }
  }

  lemma NextPruneSettles(rest: Plan, o: Options, dirs: seq<Path>, k: nat)
    requires 0 < k <= |dirs| && !rest.raised && o.apply
    requires forall i, j :: 0 <= i < |dirs| && 0 <= j < |dirs| && i != j ==> !(dirs[i] <= dirs[j])
    requires PruneSettled(dirs[..k - 1], rest.files)
    ensures PruneSettled(dirs[..k], PruneDir(rest, o, dirs[k - 1]).files)
  {
    var p, later := dirs[k - 1], PruneDir(rest, o, dirs[k - 1]).files;
    forall q | q in dirs[..k] && IsDir(later, q)
      ensures HasChild(later, q)
    {
      if q != p {
        var j :| 0 <= j < k - 1 && dirs[j] == q;
        assert q in dirs[..k - 1];
        var c :| c in rest.files && |c| == |q| + 1 && q < c;
        assert c != p;
        assert c in later;
      }
    }
  }

  lemma PruneIsPruned(l: Layout, s: Plan, o: Options)
    requires WellLaidOut(l) && !s.raised && o.apply
    ensures Pruned(l, o, s.files, Prune(s, o, l).files) && !Prune(s, o, l).raised
  {
    ConfigIsNotPrunable(l);
    if o.pruneEmpty {
      PruneOnlyEmpties(s, o, l.prunable, |l.prunable|);
      PruneSettles(s, o, l.prunable, |l.prunable|);
      assert l.prunable[..|l.prunable|] == l.prunable;
    }
  }

  /** What lies inside the new state directory outlives the pruning. */
  lemma InsideStays(l: Layout, o: Options, files: Tree, later: Tree, p: Path)
    requires WellLaidOut(l) && Pruned(l, o, files, later) && p in files && Base(l) <= p
    ensures p in later && later[p] == files[p]
  {
    assert p in l.prunable ==> Outside(l, p);
  }

  /** What a source still shows after the run was there before it. */
  lemma SourceWasThere(l: Layout, t: Tree, a: Plan, o: Options, later: Tree, p: Path)
    requires WellLaidOut(l) && Consistent(l, t, a) && Pruned(l, o, a.files, later) && Outside(l, p)
    ensures p in later ==> p in t && t[p] == later[p]
    ensures p in t && !IsDir(t, p) ==> p in later
    ensures p in t && p !in l.prunable ==> p in later
  {
    SourceUnchanged(l, t, a, p);
  }

  lemma MirroredStays(l: Layout, t: Tree, a: Plan, o: Options, later: Tree, m: Move)
    requires WellLaidOut(l) && Consistent(l, t, a) && Pruned(l, o, a.files, later) && IsTree(l, m)
    requires IsDir(t, m.source) ==> Mirrored(t, m, a.files)
    ensures TreeSettled(m, later)
  {
    assert Outside(l, m.source) && Base(l) < m.target;
    SourceWasThere(l, t, a, o, later, m.source);
    hide WellLaidOut, Consistent, Pruned, Outside;
    if IsDir(later, m.source) {
      forall p | m.source + p in later && (IsDir(later, m.source + p) || (p != [] && IsFile(later, m.source + p)))
        ensures m.target + p in later
      {
        OutsideBelow(l, m.source, m.source + p);
        SourceWasThere(l, t, a, o, later, m.source + p);
        InsideStays(l, o, a.files, later, m.target + p);
      }
    }
  }

  lemma SwarmStaysSettled(l: Layout, t: Tree, a: Plan, o: Options, later: Tree)
    requires WellLaidOut(l) && Consistent(l, t, a) && Pruned(l, o, a.files, later) && SwarmDone(l, t, a.files)
    ensures SwarmSettled(l, later)
  {
    forall m | m in l.runtime
      ensures m.source in t <==> m.source in later
    {
      SourceWasThere(l, t, a, o, later, m.source);
    }
    assert DaemonActive(t, l.runtime) <==> DaemonActive(later, l.runtime);
    SourceWasThere(l, t, a, o, later, l.database.source);
    assert IsFixedFile(l, l.database.target) && IsTree(l, l.agents);
    hide WellLaidOut, Consistent, Pruned, DaemonActive, Outside, Mirrored;
    if !DaemonActive(t, l.runtime) {
      MirroredStays(l, t, a, o, later, l.agents);
      if l.database.target in a.files { InsideStays(l, o, a.files, later, l.database.target); }
    }
  }

  lemma AliasesStaySettled(l: Layout, t: Tree, a: Plan, o: Options, later: Tree)
    requires WellLaidOut(l) && Consistent(l, t, a) && Pruned(l, o, a.files, later) && AliasesDone(l, t, a.files)
    ensures AliasesDone(l, later, later)
  {
    SourceWasThere(l, t, a, o, later, l.legacyAliases);
    assert IsFixedFile(l, l.aliases);
    if l.aliases in a.files { InsideStays(l, o, a.files, later, l.aliases); }
  }

  lemma DirsStaySettled(l: Layout, t: Tree, a: Plan, o: Options, later: Tree)
    requires WellLaidOut(l) && Pruned(l, o, a.files, later) && DirsThere(l, a) && !a.raised && l.daemon.target in a.files
    ensures forall p :: IsFixedDir(l, p) ==> p in later
  {
    forall p | IsFixedDir(l, p)
      ensures p in later
    {
      InsideStays(l, o, a.files, later, p);
    }
  }

  lemma TreesStaySettled(l: Layout, t: Tree, a: Plan, o: Options, later: Tree)
    requires WellLaidOut(l) && Consistent(l, t, a) && Pruned(l, o, a.files, later) && TreesDone(l, t, a, 5) && !a.raised
    ensures forall m {:trigger IsWorkTree(l, m)} :: IsWorkTree(l, m) ==> TreeSettled(m, later)
  {
    StagesAre(l);
    hide WellLaidOut, Consistent, Pruned, TreeSettled, Mirrored, Stages;
    forall m {:trigger IsWorkTree(l, m)} | IsWorkTree(l, m)
      ensures TreeSettled(m, later)
    {
      var k := if m == l.context then 0 else if m == l.styles then 1 else if m == l.prompts then 2
               else if m == l.sessionState then 3 else 4;
      assert Stages(l)[k] == m;
      assert IsTree(l, m);
      MirroredStays(l, t, a, o, later, m);
    }
  }

  // ----- The config after the run -----

  predicate CleanedUp(l: Layout, t: Tree, files: Tree, projects: bool, models: bool) {
    var reading := ReadObject(t, l.config);
    reading.Fields? ==> ReadObject(files, l.config) == Fields(Cleaned(reading.fields, CleanupKeys(projects, models)))
  }

  lemma RootConfigCleans(l: Layout, s: Plan, o: Options)
    requires NonEmptyPaths(l) && o.apply && !RootConfig(s, o, l).raised && l.projects != l.config && l.aliases != l.config
    ensures exists projects, models :: CleanedUp(l, s.files, RootConfig(s, o, l).files, projects, models)
  {
    var reading, r := ReadObject(s.files, l.config), RootConfig(s, o, l);
    if reading.Fields? {
      var fields := reading.fields;
      var projects, models := ProjectsPayload(fields), ModelsPayload(fields);
      hide ProjectsPayload, ModelsPayload, Cleaned, Extracts, CleanupKeys;
      var s1 := Extract(s, o, l.config, l.projects, projects, ExtractProjects, ProjectsTaken);
      var s2 := Extract(s1, o, l.config, l.aliases, models, ExtractAliases, AliasesTaken);
      ExtractsDeliver(s, o, l, projects, models);
      CleanWrites(s2, o, l.config, fields, CleanupKeys(Extracts(s, l.projects, projects), Extracts(s1, l.aliases, models)));
      assert CleanedUp(l, s.files, r.files, Extracts(s, l.projects, projects), Extracts(s1, l.aliases, models));
    } else {
      assert CleanedUp(l, s.files, r.files, false, false);
    }
  }

  lemma CleanWrites(s: Plan, o: Options, config: Path, fields: seq<Field>, keys: set<string>)
    requires o.apply && |config| > 0 && !CleanConfig(s, o, config, fields, keys).raised
    requires ReadObject(s.files, config) == Fields(fields)
    ensures ReadObject(CleanConfig(s, o, config, fields, keys).files, config) == Fields(Cleaned(fields, keys))
  {
    hide Cleaned;
  }

  lemma {:induction false} WithoutNothing(fields: seq<Field>, keys: set<string>)
    requires forall key :: key in keys ==> Get(fields, key).None?
    ensures Without(fields, keys) == fields
  {
    if |fields| > 0 {
      assert Get(fields, fields[0].key).Some?;
      forall key | key in keys
        ensures Get(fields[1..], key).None?
      {
        assert Get(fields, key).None?;
      }
      WithoutNothing(fields[1..], keys);
    }
  }

  /** Cleaning a cleaned config changes nothing. */
  lemma CleanedIsClean(fields: seq<Field>, keys: set<string>)
    requires STALE_KEYS <= keys && "version" !in keys && "install_dir" !in keys
    ensures Cleaned(Cleaned(fields, keys), STALE_KEYS) == Cleaned(fields, keys)
  {
    var once := Cleaned(fields, keys);
    forall key | key in STALE_KEYS
      ensures Get(once, key).None?
    {
      CleanedKeepsTheRest(fields, keys, key);
    }
    WithoutNothing(once, STALE_KEYS);
    CleanedKeepsTheRest(fields, keys, "version");
    CleanedKeepsTheRest(fields, keys, "install_dir");
  }

  lemma CleanupKeysAre(projects: bool, models: bool)
    ensures var keys := CleanupKeys(projects, models); STALE_KEYS <= keys && "version" !in keys && "install_dir" !in keys
    ensures "projects" != "version" && "models" != "version"
  {
  }

  lemma CleanedAsksNoMore(fields: seq<Field>, keys: set<string>)
    requires "version" !in keys && "install_dir" !in keys && "projects" != "version" && "models" != "version"
    ensures ProjectsPayload(Cleaned(fields, keys)).Some? ==> ProjectsPayload(fields).Some?
    ensures ModelsPayload(Cleaned(fields, keys)).Some? ==> ModelsPayload(fields).Some?
  {
    CleanedKeepsTheRest(fields, keys, "projects");
    CleanedKeepsTheRest(fields, keys, "models");
  }

  lemma ConfigStaysSettled(l: Layout, t: Tree, files: Tree, projects: bool, models: bool)
    requires CleanedUp(l, t, files, projects, models) && ConfigDone(l, t, files)
    requires !ReadObject(t, l.config).Fields? ==> ReadObject(files, l.config) == ReadObject(t, l.config)
    ensures ConfigSettled(l, files)
  {
    var reading := ReadObject(t, l.config);
    if reading.Fields? {
      CleanupKeysAre(projects, models);
      CleanedIsClean(reading.fields, CleanupKeys(projects, models));
      CleanedAsksNoMore(reading.fields, CleanupKeys(projects, models));
    }
  }

  lemma SameReading(before: Tree, after: Tree, p: Path)
    requires Lookup(before, p) == Lookup(after, p)
    ensures ReadObject(before, p) == ReadObject(after, p)
  {
  }

  /** The directories made first leave the config as it was. */
  lemma ConfigBeforeCleaning(l: Layout, t: Tree, pruneEmpty: bool)
    requires WellLaidOut(l) && Rooted(t) && !MakeAll(Plan(t, [], false), App(pruneEmpty), l.dirs).raised
    ensures Lookup(MakeAll(Plan(t, [], false), App(pruneEmpty), l.dirs).files, l.config) == Lookup(t, l.config)
  {
    MakeAllInStep(l, t, pruneEmpty, |l.dirs|);
    assert l.dirs[..|l.dirs|] == l.dirs;
    ConfigUntouched(l, t, MakeAll(Plan(t, [], false), App(pruneEmpty), l.dirs));
  }

  lemma ConfigNotCreated(l: Layout, t: Tree, a: Plan)
    requires WellLaidOut(l) && Consistent(l, t, a) && l.config !in t
    ensures l.config !in a.files
  {
    if IsDirTarget(l, t, l.config) { DirTargetsAreNoFileTargets(l, t, l.config); }
    if IsFileTarget(l, t, l.config) { ConfigIsNoFileTarget(l, t); }
  }

  lemma ConfigIsNoFileTarget(l: Layout, t: Tree)
    requires WellLaidOut(l)
    ensures !IsFileTarget(l, t, l.config)
  {
  }

  lemma ConfigCleanedByRun(l: Layout, t: Tree, pruneEmpty: bool, walks: Walks)
    requires WellLaidOut(l) && Rooted(t) && l.config in t && !Moved(t, App(pruneEmpty), l, walks).raised
    ensures var files := Moved(t, App(pruneEmpty), l, walks).files;
            && (exists projects, models :: CleanedUp(l, t, files, projects, models))
            && (!ReadObject(t, l.config).Fields? ==> ReadObject(files, l.config) == ReadObject(t, l.config))
  {
    var o := App(pruneEmpty);
    var made := MakeAll(Plan(t, [], false), o, l.dirs);
    AfterConfigIsCareful(l, t, o, walks);
    DatabaseIsAway(l);
    ConfigBeforeCleaning(l, t, pruneEmpty);
    RootConfigIsSafe(made, o, l);
    RootConfigCleans(l, made, o);
    CleanedStays(l, t, made.files, Begun(t, o, l).files, Moved(t, o, l, walks).files);
  }

  lemma CleanedStays(l: Layout, t: Tree, made: Tree, begun: Tree, files: Tree)
    requires l.config in t && Lookup(made, l.config) == Lookup(t, l.config)
    requires exists projects, models :: CleanedUp(l, made, begun, projects, models)
    requires Safe(l, made, begun) && Extends(begun, files)
    ensures exists projects, models :: CleanedUp(l, t, files, projects, models)
    ensures !ReadObject(t, l.config).Fields? ==> ReadObject(files, l.config) == ReadObject(t, l.config)
  {
    var projects, models :| CleanedUp(l, made, begun, projects, models);
    hide Cleaned, CleanupKeys, Delivered;
    SameReading(made, t, l.config);
    assert l.config in begun;
    SameReading(begun, files, l.config);
    assert CleanedUp(l, t, files, projects, models);
  }

  lemma ConfigEndsSettled(l: Layout, t: Tree, pruneEmpty: bool, walks: Walks)
    requires WellLaidOut(l) && Rooted(t) && ValidWalks(l, t, walks) && !Moved(t, App(pruneEmpty), l, walks).raised
    ensures ConfigSettled(l, Run(t, App(pruneEmpty), l, walks).files)
  {
    var o := App(pruneEmpty);
    var a, later := Moved(t, o, l, walks), Run(t, o, l, walks).files;
    MovedInStep(l, t, pruneEmpty, walks);
    PruneIsPruned(l, a, o);
    assert Consistent(l, t, a) && ConfigDone(l, t, a.files);
    DatabaseIsAway(l);
    ConfigIsNotPrunable(l);
    if l.config !in t {
      ConfigNotCreated(l, t, a);
      assert ReadObject(later, l.config).Unreadable?;
    } else {
      ConfigCleanedByRun(l, t, pruneEmpty, walks);
      var projects, models :| CleanedUp(l, t, a.files, projects, models);
      ConfigSurvivesPrune(l, t, o, a.files, later, projects, models);
    }
  }

  lemma ConfigSurvivesPrune(l: Layout, t: Tree, o: Options, files: Tree, later: Tree, projects: bool, models: bool)
    requires WellLaidOut(l) && Pruned(l, o, files, later) && l.config in files
    requires CleanedUp(l, t, files, projects, models) && ConfigDone(l, t, files)
    requires !ReadObject(t, l.config).Fields? ==> ReadObject(files, l.config) == ReadObject(t, l.config)
    ensures ConfigSettled(l, later)
  {
    assert IsFixedFile(l, l.projects) && IsFixedFile(l, l.aliases);
    InsideStays(l, o, files, later, l.config);
    if l.projects in files { InsideStays(l, o, files, later, l.projects); }
    if l.aliases in files { InsideStays(l, o, files, later, l.aliases); }
    hide WellLaidOut, Pruned, Cleaned, CleanupKeys, ProjectsPayload, ModelsPayload;
    SameReading(files, later, l.config);
    ConfigStaysSettled(l, t, later, projects, models);
  }

  lemma FinishedRunSettles(l: Layout, t: Tree, pruneEmpty: bool, walks: Walks)
    requires WellLaidOut(l) && Rooted(t) && ValidWalks(l, t, walks) && !Run(t, App(pruneEmpty), l, walks).raised
    ensures Settled(l, App(pruneEmpty), Run(t, App(pruneEmpty), l, walks).files)
  {
    var o := App(pruneEmpty);
    var a, later := Moved(t, o, l, walks), Run(t, o, l, walks).files;
    assert !a.raised;
    MovedInStep(l, t, pruneEmpty, walks);
    assert Consistent(l, t, a) && DirsThere(l, a) && TreesDone(l, t, a, 5) && AliasesDone(l, t, a.files);
    assert SwarmDone(l, t, a.files) && l.daemon.target in a.files;
    PruneIsPruned(l, a, o);
    ConfigEndsSettled(l, t, pruneEmpty, walks);
    hide InStep, Consistent, Moved, Prune, WellLaidOut, ConfigSettled, SwarmDone, TreesDone, DirsThere, Pruned, IsFixedDir,
         IsWorkTree, TreeSettled, AliasesDone, SwarmSettled, PruneSettled;
    SwarmStaysSettled(l, t, a, o, later);
    AliasesStaySettled(l, t, a, o, later);
    DirsStaySettled(l, t, a, o, later);
    TreesStaySettled(l, t, a, o, later);
  }

  /** Applying a second time, whatever order the operating system then lists directories in, changes
      no file, raises nothing and records no copy, directory, update or removal. */
  lemma SecondApplyIsIdle(l: Layout, t: Tree, pruneEmpty: bool, walks: Walks, again: Walks)
    requires WellLaidOut(l) && Rooted(t) && ValidWalks(l, t, walks)
    requires var first := Run(t, App(pruneEmpty), l, walks); !first.raised && ValidWalks(l, first.files, again)
    ensures var first := Run(t, App(pruneEmpty), l, walks);
            Idle(first.files, Run(first.files, App(pruneEmpty), l, again))
  {
    FinishedRunSettles(l, t, pruneEmpty, walks);
    SettledRunIsIdle(l, Run(t, App(pruneEmpty), l, walks).files, App(pruneEmpty), again);
  }
}
