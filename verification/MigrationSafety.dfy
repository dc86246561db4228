/** The migration is non-destructive: whatever the tree holds and wherever the run stops, existing
    files survive, the root config loses only keys that are stale or have just been delivered
    elsewhere, and what is reported as copied is there, byte for byte. */
module MigrationSafety {
  import opened Prelude
  import opened FileTree
  import opened MigrationPlan
  import opened MigrationLayout

  ghost predicate Extends(t: Tree, files: Tree) {
    forall p :: p in t ==> p in files && files[p] == t[p]
  }

  /** A whole-file copy that is on the disk. */
  predicate Copied(c: Path, files: Tree, x: Action) {
    && x.source.Some? && x.target.Some? && x.source.value != c && x.target.value != c
    && IsFile(files, x.source.value) && IsFile(files, x.target.value)
    && files[x.source.value] == files[x.target.value]
  }

  ghost predicate Faithful(c: Path, s: Plan) {
    !s.raised ==> forall x :: x in s.actions && x.detail == CopyWhole ==> Copied(c, s.files, x)
  }

  /** A part of an apply run that leaves everything in place and copies faithfully; `c` is the one
      file that other parts rewrite. */
  ghost predicate Careful(c: Path, s: Plan, r: Plan) {
    && Extends(s.files, r.files)
    && (s.raised ==> r.raised)
    && (Faithful(c, s) ==> Faithful(c, r))
  }

  lemma StaysCopied(c: Path, files: Tree, later: Tree, x: Action)
    requires Copied(c, files, x) && Extends(files, later)
    ensures Copied(c, later, x)
  {
  }

  /** One more action that is not a whole-file copy, and a disk that only grew. */
  lemma ReportIsCareful(c: Path, s: Plan, r: Plan, x: Action)
    requires r.actions == s.actions + [x] && x.detail != CopyWhole
    requires Extends(s.files, r.files) && (s.raised ==> r.raised)
    ensures Careful(c, s, r)
  {
    if Faithful(c, s) && !r.raised {
      forall y | y in r.actions && y.detail == CopyWhole
        ensures Copied(c, r.files, y)
      {
        StaysCopied(c, s.files, r.files, y);
      }
    }
  }

  lemma IdleIsCareful(c: Path, s: Plan, r: Plan)
    requires r == s || r == s.(raised := true)
    ensures Careful(c, s, r)
  {
  }

  lemma MakeDirIsCareful(c: Path, s: Plan, o: Options, p: Path)
    requires o.apply
    ensures Careful(c, s, MakeDir(s, o, p))
  {
    if s.raised || p in s.files || PlannedDir(s.actions, p) {
    } else {
      ReportIsCareful(c, s, MakeDir(s, o, p), Action(EnsureDir, None, Some(p), CreateTarget));
    }
  }

  /** Writing a file where none is, with its parent directories. */
  lemma WriteExtends(t: Tree, p: Path, content: Content)
    requires |p| > 0 && p !in t
    ensures var w := WriteFile(t, p, content);
            w.Some? ==> Extends(t, w.value) && p in w.value && w.value[p] == File(content)
  {
  }

  lemma FileCopied(c: Path, s: Plan, r: Plan, x: Action)
    requires r.actions == s.actions + [x] && (s.raised ==> r.raised) && Extends(s.files, r.files)
    requires !r.raised ==> Copied(c, r.files, x)
    ensures Careful(c, s, r)
  {
    if Faithful(c, s) && !r.raised {
      forall y | y in r.actions && y.detail == CopyWhole
        ensures Copied(c, r.files, y)
      {
        if y != x { StaysCopied(c, s.files, r.files, y); }
      }
    }
  }

  lemma CopyFileIsCareful(c: Path, s: Plan, o: Options, m: Move)
    requires o.apply && |m.target| > 0 && m.source != c && m.target != c
    ensures Careful(c, s, CopyFile(s, o, m))
  {
    var r := CopyFile(s, o, m);
    if s.raised {
    } else if m.source !in s.files || !s.files[m.source].File? || Taken(s, m.target) {
      ReportIsCareful(c, s, r, r.actions[|r.actions| - 1]);
    } else {
      WriteExtends(s.files, m.target, s.files[m.source].content);
      FileCopied(c, s, r, Action(Copy, Some(m.source), Some(m.target), CopyWhole));
    }
  }

  lemma CarefulTwice(c: Path, s: Plan, r: Plan, q: Plan)
    requires Careful(c, s, r) && Careful(c, r, q)
    ensures Careful(c, s, q)
  {
  }

  predicate Away(c: Path, m: Move) {
    !(m.source <= c) && !(m.target <= c)
  }

  lemma {:induction false} CopyFilesAreCareful(c: Path, s: Plan, o: Options, m: Move, names: seq<string>)
    requires o.apply && Away(c, m)
    ensures Careful(c, s, CopyFiles(s, o, m, names))
  {
    if |names| > 0 {
      var rest := CopyFiles(s, o, m, names[..|names| - 1]);
      var e := Entry(m, names[|names| - 1]);
      CopyFilesAreCareful(c, s, o, m, names[..|names| - 1]);
      assert m.source <= e.source && m.target <= e.target;
      CopyFileIsCareful(c, rest, o, e);
      CarefulTwice(c, s, rest, CopyFile(rest, o, e));
    }
  }

  lemma {:induction false} WalkIsCareful(c: Path, s: Plan, o: Options, m: Move, walk: seq<Visit>)
    requires o.apply && Away(c, m)
    ensures Careful(c, s, WalkTree(s, o, m, walk))
  {
    if |walk| > 0 {
      var rest := WalkTree(s, o, m, walk[..|walk| - 1]);
      var v := walk[|walk| - 1];
      WalkIsCareful(c, s, o, m, walk[..|walk| - 1]);
      MakeDirIsCareful(c, rest, o, m.target + v.below);
      var made := MakeDir(rest, o, m.target + v.below);
      assert Away(c, Below(m, v.below));
      CopyFilesAreCareful(c, made, o, Below(m, v.below), v.files);
      CarefulTwice(c, s, rest, made);
      CarefulTwice(c, s, made, VisitDir(rest, o, m, v));
    }
  }

  lemma CopyTreeIsCareful(c: Path, s: Plan, o: Options, m: Move, walks: Walks)
    requires o.apply && Away(c, m)
    ensures Careful(c, s, CopyTree(s, o, m, walks))
  {
    var r := CopyTree(s, o, m, walks);
    if s.raised {
    } else if !IsDir(s.files, m.source) {
      ReportIsCareful(c, s, r, r.actions[|r.actions| - 1]);
    } else {
      var made := MakeDir(s, o, m.target);
      MakeDirIsCareful(c, s, o, m.target);
      WalkIsCareful(c, made, o, m, WalkOf(walks, m.source));
      CarefulTwice(c, s, made, r);
    }
  }

  lemma {:induction false} MakeAllIsCareful(c: Path, s: Plan, o: Options, dirs: seq<Path>)
    requires o.apply
    ensures Careful(c, s, MakeAll(s, o, dirs))
  {
    if |dirs| > 0 {
      var rest := MakeAll(s, o, dirs[..|dirs| - 1]);
      MakeAllIsCareful(c, s, o, dirs[..|dirs| - 1]);
      MakeDirIsCareful(c, rest, o, dirs[|dirs| - 1]);
      CarefulTwice(c, s, rest, MakeDir(rest, o, dirs[|dirs| - 1]));
    }
  }

  lemma LegacyIsCareful(c: Path, s: Plan, o: Options, l: Layout)
    requires o.apply && NonEmptyPaths(l)
    ensures Careful(c, s, LegacyAliases(s, o, l))
  {
    var r := LegacyAliases(s, o, l);
    if s.raised || r == s.(raised := true) {
      IdleIsCareful(c, s, r);
    } else {
      if ReadAliases(s.files, l.legacyAliases).Valid? && !Taken(s, l.aliases) {
        WriteExtends(s.files, l.aliases, ReadAliases(s.files, l.legacyAliases).content);
      }
      ReportIsCareful(c, s, r, r.actions[|r.actions| - 1]);
    }
  }

  lemma {:induction false} RuntimeIsCareful(c: Path, s: Plan, runtime: seq<Move>)
    ensures Careful(c, s, ReportRuntime(s, runtime))
  {
    if |runtime| > 0 {
      var rest, m := ReportRuntime(s, runtime[..|runtime| - 1]), runtime[|runtime| - 1];
      RuntimeIsCareful(c, s, runtime[..|runtime| - 1]);
      if m.source in s.files {
        var x := Action(RuntimeSkip, Some(m.source), Some(m.target), RuntimeArtifact);
        ReportIsCareful(c, rest, rest.(actions := rest.actions + [x]), x);
        CarefulTwice(c, s, rest, rest.(actions := rest.actions + [x]));
      }
    }
  }

  lemma SwarmIsCareful(c: Path, s: Plan, o: Options, l: Layout, walks: Walks)
    requires o.apply && NonEmptyPaths(l) && Away(c, l.agents) && l.database.source != c && l.database.target != c
    ensures Careful(c, s, Swarm(s, o, l, walks))
  {
    hide Careful, CopyTree, CopyFile, MakeDir, DaemonActive, ReportRuntime;
    var s1, r := MakeDir(s, o, l.daemon.target), Swarm(s, o, l, walks);
    MakeDirIsCareful(c, s, o, l.daemon.target);
    if s1.raised { return; }
    if DaemonActive(s1.files, l.runtime) {
      var s2 := ReportRuntime(s1, l.runtime);
      RuntimeIsCareful(c, s1, l.runtime);
      ReportIsCareful(c, s2, r, Action(Skip, Some(l.daemon.source), Some(l.daemon.target), DaemonLooksActive));
      CarefulTwice(c, s, s1, s2);
      CarefulTwice(c, s, s2, r);
    } else {
      var s2 := CopyFile(s1, o, l.database);
      CopyFileIsCareful(c, s1, o, l.database);
      CopyTreeIsCareful(c, s2, o, l.agents, walks);
      CarefulTwice(c, s, s1, s2);
      CarefulTwice(c, s, s2, r);
    }
  }

  // ----- The root config -----

  predicate Delivered(files: Tree, target: Path, payload: Option<Content>) {
    payload.Some? && target in files && files[target] == File(payload.value)
  }

  /** The config lost the stale keys and those whose value now stands in its own file. */
  predicate ConfigMoved(l: Layout, t: Tree, files: Tree, projects: bool, models: bool) {
    var reading := ReadObject(t, l.config);
    && reading.Fields?
    && l.config in files
    && files[l.config] == File(Encoded(JObject(Cleaned(reading.fields, CleanupKeys(projects, models)))))
    && (projects ==> Delivered(files, l.projects, ProjectsPayload(reading.fields)))
    && (models ==> Delivered(files, l.aliases, ModelsPayload(reading.fields)))
  }

  ghost predicate ConfigSafe(l: Layout, t: Tree, files: Tree) {
    || Lookup(files, l.config) == Lookup(t, l.config)
    || (exists projects, models :: ConfigMoved(l, t, files, projects, models))
  }

  /** Everything but the config is in place, and the config is safe. */
  ghost predicate Safe(l: Layout, t: Tree, files: Tree) {
    Extends(t - {l.config}, files) && (l.config in t ==> ConfigSafe(l, t, files))
  }

  lemma ExtractIsCareful(c: Path, s: Plan, o: Options, config: Path, target: Path, payload: Option<Content>,
                         done: Detail, taken: Detail)
    requires o.apply && |target| > 0 && done != CopyWhole && taken != CopyWhole
    ensures var r := Extract(s, o, config, target, payload, done, taken);
            && Careful(c, s, r)
            && (!r.raised && Extracts(s, target, payload) ==> Delivered(r.files, target, payload))
  {
    var r := Extract(s, o, config, target, payload, done, taken);
    if s.raised || payload.None? { return; }
    if Extracts(s, target, payload) { WriteExtends(s.files, target, payload.value); }
    ReportIsCareful(c, s, r, r.actions[|r.actions| - 1]);
  }

  lemma CleanIsSafe(s: Plan, o: Options, config: Path, fields: seq<Field>, keys: set<string>)
    requires o.apply && |config| > 0 && config in s.files
    ensures var r := CleanConfig(s, o, config, fields, keys);
            && Extends(s.files - {config}, r.files)
            && (Faithful(config, s) ==> Faithful(config, r))
            && config in r.files
            && (r.files[config] == s.files[config] || r.files[config] == File(Encoded(JObject(Cleaned(fields, keys)))))
            && (r.files[config] != s.files[config] ==> !s.raised)
  {
    var r := CleanConfig(s, o, config, fields, keys);
    if s.raised || Cleaned(fields, keys) == fields {
    } else if Faithful(config, s) && !r.raised {
      forall y | y in r.actions && y.detail == CopyWhole
        ensures Copied(config, r.files, y)
      {
        assert y in s.actions;
      }
    }
  }

  lemma StaysDelivered(files: Tree, later: Tree, target: Path, payload: Option<Content>)
    requires Delivered(files, target, payload) && Extends(files, later)
    ensures Delivered(later, target, payload)
  {
  }

  lemma ExtractsDeliver(s: Plan, o: Options, l: Layout, projects: Option<Content>, models: Option<Content>)
    requires o.apply && NonEmptyPaths(l)
    ensures var s1 := Extract(s, o, l.config, l.projects, projects, ExtractProjects, ProjectsTaken);
            var s2 := Extract(s1, o, l.config, l.aliases, models, ExtractAliases, AliasesTaken);
            && Careful(l.config, s, s2)
            && (!s2.raised && Extracts(s, l.projects, projects) ==> Delivered(s2.files, l.projects, projects))
            && (!s2.raised && Extracts(s1, l.aliases, models) ==> Delivered(s2.files, l.aliases, models))
  {
    hide Extract, Extracts, Faithful, Extends, Delivered;
    var s1 := Extract(s, o, l.config, l.projects, projects, ExtractProjects, ProjectsTaken);
    var s2 := Extract(s1, o, l.config, l.aliases, models, ExtractAliases, AliasesTaken);
    ExtractIsCareful(l.config, s, o, l.config, l.projects, projects, ExtractProjects, ProjectsTaken);
    ExtractIsCareful(l.config, s1, o, l.config, l.aliases, models, ExtractAliases, AliasesTaken);
    CarefulTwice(l.config, s, s1, s2);
    if !s2.raised && Extracts(s, l.projects, projects) {
      StaysDelivered(s1.files, s2.files, l.projects, projects);
    }
  }

  lemma ConfigStandsAside(l: Layout, t: Tree, before: Tree, files: Tree)
    requires Extends(t, before) && Extends(before - {l.config}, files)
    ensures Extends(t - {l.config}, files)
  {
  }

  lemma SplitIsSafe(s: Plan, o: Options, l: Layout, fields: seq<Field>)
    requires o.apply && NonEmptyPaths(l) && l.projects != l.config && l.aliases != l.config && !s.raised
    requires ReadObject(s.files, l.config) == Fields(fields)
    ensures var r := SplitConfig(s, o, l, fields, ProjectsPayload(fields), ModelsPayload(fields));
            Safe(l, s.files, r.files) && (Faithful(l.config, s) ==> Faithful(l.config, r))
  {
    var projects, models := ProjectsPayload(fields), ModelsPayload(fields);
    hide Extract, Extracts, Faithful, CleanConfig, ProjectsPayload, ModelsPayload, Cleaned, CleanupKeys;
    var s1 := Extract(s, o, l.config, l.projects, projects, ExtractProjects, ProjectsTaken);
    var s2 := Extract(s1, o, l.config, l.aliases, models, ExtractAliases, AliasesTaken);
    var pj, md := Extracts(s, l.projects, projects), Extracts(s1, l.aliases, models);
    ExtractsDeliver(s, o, l, projects, models);
    CleanIsSafe(s2, o, l.config, fields, CleanupKeys(pj, md));
    var r := SplitConfig(s, o, l, fields, projects, models);
    ConfigStandsAside(l, s.files, s2.files, r.files);
    if r.files[l.config] != s.files[l.config] {
      assert ConfigMoved(l, s.files, r.files, pj, md);
    }
  }

  lemma RootConfigIsSafe(s: Plan, o: Options, l: Layout)
    requires o.apply && NonEmptyPaths(l) && l.projects != l.config && l.aliases != l.config
    ensures var r := RootConfig(s, o, l);
            Safe(l, s.files, r.files) && (Faithful(l.config, s) ==> Faithful(l.config, r)) && (s.raised ==> r.raised)
  {
    var r := RootConfig(s, o, l);
    hide SplitConfig, ProjectsPayload, ModelsPayload, ConfigMoved;
    if !s.raised && ReadObject(s.files, l.config).Fields? {
      SplitIsSafe(s, o, l, ReadObject(s.files, l.config).fields);
    } else if !s.raised && ReadObject(s.files, l.config).Unreadable? {
      ReportIsCareful(l.config, s, r, Action(Missing, Some(l.config), None, ConfigUnreadable));
    }
  }

  // ----- The whole run -----

  lemma ConfigSafeBetween(l: Layout, t: Tree, before: Tree, files: Tree, later: Tree)
    requires Extends(t, before) && l.config in t && ConfigSafe(l, before, files) && Extends(files, later)
    ensures ConfigSafe(l, t, later)
  {
    if Lookup(files, l.config) != Lookup(before, l.config) {
      var projects, models :| ConfigMoved(l, before, files, projects, models);
      hide ProjectsPayload, ModelsPayload, Cleaned, CleanupKeys;
      assert ConfigMoved(l, t, later, projects, models);
    }
  }

  lemma SafeBetween(l: Layout, t: Tree, before: Tree, files: Tree, later: Tree)
    requires Extends(t, before) && Safe(l, before, files) && Extends(files, later)
    ensures Safe(l, t, later)
  {
    if l.config in t { ConfigSafeBetween(l, t, before, files, later); }
  }

  lemma TreesAreAway(l: Layout, m: Move)
    requires WellLaidOut(l) && IsTree(l, m)
    ensures Away(l.config, m)
  {
    assert Outside(l, m.source) && Base(l) < l.config;
  }

  lemma DatabaseIsAway(l: Layout)
    requires WellLaidOut(l)
    ensures l.database.source != l.config && l.database.target != l.config
    ensures l.projects != l.config && l.aliases != l.config
  {
    assert IsFixedFile(l, l.database.target) && IsFixedFile(l, l.projects) && IsFixedFile(l, l.aliases);
  }

  lemma AfterConfigIsCareful(l: Layout, t: Tree, o: Options, walks: Walks)
    requires WellLaidOut(l) && o.apply
    ensures Careful(l.config, Begun(t, o, l), Moved(t, o, l, walks))
  {
    TreesAreAway(l, l.context);
    TreesAreAway(l, l.styles);
    TreesAreAway(l, l.prompts);
    TreesAreAway(l, l.sessionState);
    TreesAreAway(l, l.tasks);
    TreesAreAway(l, l.agents);
    DatabaseIsAway(l);
    hide WellLaidOut, Careful, Away, CopyTree, LegacyAliases, Swarm, Begun;
    var c, s := l.config, Begun(t, o, l);
    var s1 := CopyTree(s, o, l.context, walks);
    var s2 := CopyTree(s1, o, l.styles, walks);
    var s3 := CopyTree(s2, o, l.prompts, walks);
    var s4 := CopyTree(s3, o, l.sessionState, walks);
    var s5 := LegacyAliases(s4, o, l);
    var s6 := CopyTree(s5, o, l.tasks, walks);
    CopyTreeIsCareful(c, s, o, l.context, walks);
    CopyTreeIsCareful(c, s1, o, l.styles, walks);
    CopyTreeIsCareful(c, s2, o, l.prompts, walks);
    CopyTreeIsCareful(c, s3, o, l.sessionState, walks);
    LegacyIsCareful(c, s4, o, l);
    CopyTreeIsCareful(c, s5, o, l.tasks, walks);
    SwarmIsCareful(c, s6, o, l, walks);
    CarefulTwice(c, s, s1, s2);
    CarefulTwice(c, s, s2, s3);
    CarefulTwice(c, s, s3, s4);
    CarefulTwice(c, s, s4, s5);
    CarefulTwice(c, s, s5, s6);
    CarefulTwice(c, s, s6, Swarm(s6, o, l, walks));
  }

  lemma MovedIsSafe(l: Layout, t: Tree, o: Options, walks: Walks)
    requires WellLaidOut(l) && o.apply
    ensures Safe(l, t, Moved(t, o, l, walks).files) && Faithful(l.config, Moved(t, o, l, walks))
  {
    var start := Plan(t, [], false);
    var made := MakeAll(start, o, l.dirs);
    MakeAllIsCareful(l.config, start, o, l.dirs);
    DatabaseIsAway(l);
    RootConfigIsSafe(made, o, l);
    AfterConfigIsCareful(l, t, o, walks);
    SafeBetween(l, t, made.files, Begun(t, o, l).files, Moved(t, o, l, walks).files);
  }

  /** Pruning removes prunable directories without children, and nothing else. */
  ghost predicate OnlyEmptied(files: Tree, later: Tree, dirs: seq<Path>) {
    && (forall p :: p in later ==> p in files && later[p] == files[p])
    && (forall p :: p in files ==>
          || p in later
          || (p in dirs && IsDir(files, p) && !HasChild(files, p)))
  }

  lemma ChildStays(files: Tree, rest: Tree, dirs: seq<Path>, k: nat)
    requires k < |dirs| && forall p :: p in files && p !in dirs[..k] ==> p in rest
    requires forall i, j :: 0 <= i < |dirs| && 0 <= j < |dirs| && i != j ==> !(dirs[i] <= dirs[j])
    ensures HasChild(files, dirs[k]) ==> HasChild(rest, dirs[k])
  {
    if HasChild(files, dirs[k]) {
      var q :| q in files && |q| == |dirs[k]| + 1 && dirs[k] < q;
      assert forall j :: 0 <= j < k ==> dirs[j] != q;
    }
  }

  lemma OneMorePruned(files: Tree, rest: Plan, o: Options, dirs: seq<Path>, k: nat)
    requires k < |dirs| && OnlyEmptied(files, rest.files, dirs)
    requires HasChild(files, dirs[k]) ==> HasChild(rest.files, dirs[k])
    ensures OnlyEmptied(files, PruneDir(rest, o, dirs[k]).files, dirs)
    ensures forall p :: p in rest.files && p != dirs[k] ==> p in PruneDir(rest, o, dirs[k]).files
  {
    hide HasChild;
  }

  lemma {:induction false} PruneOnlyEmpties(s: Plan, o: Options, dirs: seq<Path>, k: nat)
    requires k <= |dirs|
    requires forall i, j :: 0 <= i < |dirs| && 0 <= j < |dirs| && i != j ==> !(dirs[i] <= dirs[j])
    ensures OnlyEmptied(s.files, PruneAll(s, o, dirs[..k]).files, dirs)
    ensures forall p :: p in s.files && p !in dirs[..k] ==> p in PruneAll(s, o, dirs[..k]).files
  {
    if k > 0 {
      assert dirs[..k][..k - 1] == dirs[..k - 1];
      assert dirs[..k] == dirs[..k - 1] + [dirs[k - 1]];
      PruneOnlyEmpties(s, o, dirs, k - 1);
      var rest := PruneAll(s, o, dirs[..k - 1]);
      ChildStays(s.files, rest.files, dirs, k - 1);
      OneMorePruned(s.files, rest, o, dirs, k - 1);
      hide OnlyEmptied, PruneDir, HasChild;
    }
  }

  lemma PruneKeepsCopies(s: Plan, o: Options, dirs: seq<Path>, c: Path)
    requires OnlyEmptied(s.files, PruneAll(s, o, dirs).files, dirs) && Faithful(c, s)
    ensures Faithful(c, PruneAll(s, o, dirs))
  {
    PrunesNoCopy(s, o, dirs);
  }

  lemma {:induction false} PrunesNoCopy(s: Plan, o: Options, dirs: seq<Path>)
    ensures forall x :: x in PruneAll(s, o, dirs).actions && x.detail == CopyWhole ==> x in s.actions
    ensures PruneAll(s, o, dirs).raised == s.raised
  {
    if |dirs| > 0 {
      PrunesNoCopy(s, o, dirs[..|dirs| - 1]);
    }
  }

  lemma ConfigSafeAfterPrune(l: Layout, t: Tree, files: Tree, later: Tree)
    requires l.config in t && ConfigSafe(l, t, files) && OnlyEmptied(files, later, l.prunable) && l.config !in l.prunable
    ensures ConfigSafe(l, t, later)
  {
    if Lookup(files, l.config) != Lookup(t, l.config) {
      var projects, models :| ConfigMoved(l, t, files, projects, models);
      hide ProjectsPayload, ModelsPayload, Cleaned, CleanupKeys;
      assert ConfigMoved(l, t, later, projects, models);
    }
  }

  /** What may have become of the entry at `p` of the tree `t`. */
  ghost predicate Survives(l: Layout, t: Tree, pruneEmpty: bool, files: Tree, p: Path)
    requires p in t
  {
    || (p in files && files[p] == t[p])
    || (p == l.config && ConfigSafe(l, t, files))
    || (pruneEmpty && p in l.prunable && IsDir(t, p) && !HasChild(t, p))
  }

  lemma EmptiedWasEmpty(l: Layout, t: Tree, files: Tree, p: Path)
    requires Safe(l, t, files) && p in t && p != l.config && IsDir(files, p) && !HasChild(files, p)
    ensures IsDir(t, p) && !HasChild(t, p)
  {
    assert forall q :: q in t ==> q in files;
  }

  lemma UnprunedSurvives(l: Layout, t: Tree, files: Tree)
    requires Safe(l, t, files)
    ensures forall p :: p in t ==> Survives(l, t, false, files, p)
  {
    hide ConfigSafe;
  }

  lemma PrunedSurvives(l: Layout, t: Tree, files: Tree, later: Tree)
    requires Safe(l, t, files) && OnlyEmptied(files, later, l.prunable) && l.config !in l.prunable
    ensures forall p :: p in t ==> Survives(l, t, true, later, p)
  {
    hide ConfigSafe, HasChild;
    forall p | p in t
      ensures Survives(l, t, true, later, p)
    {
      if p == l.config {
        ConfigSafeAfterPrune(l, t, files, later);
      } else if p in files && IsDir(files, p) && !HasChild(files, p) {
        EmptiedWasEmpty(l, t, files, p);
      }
    }
  }

  /** An apply run, finished or cut short by an exception, destroys nothing: every entry of the tree
      is still there unchanged, except that the config may have been cleaned and that empty legacy
      directories may have been removed. */
  lemma ApplyIsNonDestructive(l: Layout, t: Tree, pruneEmpty: bool, walks: Walks)
    requires WellLaidOut(l)
    ensures forall p :: p in t ==> Survives(l, t, pruneEmpty, Run(t, Options(true, pruneEmpty), l, walks).files, p)
  {
    var o := Options(true, pruneEmpty);
    var s, r := Moved(t, o, l, walks), Run(t, o, l, walks);
    MovedIsSafe(l, t, o, walks);
    ConfigIsNotPrunable(l);
    hide Moved, PruneAll, WellLaidOut, Faithful;
    if pruneEmpty {
      PruneOnlyEmpties(s, o, l.prunable, |l.prunable|);
      assert l.prunable[..|l.prunable|] == l.prunable;
      hide Safe, OnlyEmptied;
      PrunedSurvives(l, t, s.files, r.files);
    } else {
      UnprunedSurvives(l, t, r.files);
    }
  }

  lemma ConfigIsNotPrunable(l: Layout)
    requires WellLaidOut(l)
    ensures l.config !in l.prunable
    ensures forall i, j :: 0 <= i < |l.prunable| && 0 <= j < |l.prunable| && i != j ==> !(l.prunable[i] <= l.prunable[j])
  {
  }

  /** After a finished apply run, every file reported as copied stands at its target with the bytes
      of its source. */
  lemma CopiesAreFaithful(l: Layout, t: Tree, pruneEmpty: bool, walks: Walks)
    requires WellLaidOut(l)
    ensures var r := Run(t, Options(true, pruneEmpty), l, walks);
            !r.raised ==> forall x :: x in r.actions && x.detail == CopyWhole ==> Copied(l.config, r.files, x)
  {
    var o := Options(true, pruneEmpty);
    var s := Moved(t, o, l, walks);
    MovedIsSafe(l, t, o, walks);
    ConfigIsNotPrunable(l);
    hide WellLaidOut, Moved, PruneAll, Safe, Copied, OnlyEmptied;
    if pruneEmpty {
      PruneOnlyEmpties(s, o, l.prunable, |l.prunable|);
      assert l.prunable[..|l.prunable|] == l.prunable;
      PruneKeepsCopies(s, o, l.prunable, l.config);
    }
  }

  // ----- What cleaning the config means for a reader of it -----

  lemma {:induction false} WithoutGets(fields: seq<Field>, keys: set<string>, key: string)
    ensures Get(Without(fields, keys), key) == if key in keys then None else Get(fields, key)
  {
    if |fields| > 0 { WithoutGets(fields[1..], keys, key); }
  }

  lemma {:induction false} GetAppended(fields: seq<Field>, f: Field, key: string)
    ensures Get(fields + [f], key) ==
              if Get(fields, key).Some? then Get(fields, key) else if f.key == key then Some(f.value) else None
  {
    if |fields| > 0 {
      assert (fields + [f])[1..] == fields[1..] + [f];
      GetAppended(fields[1..], f, key);
    }
  }

  /** A reader of the cleaned config finds exactly the old values, none for a dropped key, and a
      version only where there was one or where the installer's key calls for one. */
  lemma CleanedKeepsTheRest(fields: seq<Field>, keys: set<string>, key: string)
    requires "version" !in keys && "install_dir" !in keys
    ensures Get(Cleaned(fields, keys), key) ==
              if key in keys then None
              else if key == "version" && Get(fields, key).None? && Get(fields, "install_dir").Some? then Some(JInt(1))
              else Get(fields, key)
  {
    WithoutGets(fields, keys, key);
    WithoutGets(fields, keys, "version");
    WithoutGets(fields, keys, "install_dir");
    GetAppended(Without(fields, keys), Field("version", JInt(1)), key);
  }
}
