/** The migration script as it runs: one action list and one disk, changed in place by loops over
    directories and files. Every method is proved to do what the plan functions say, so the results
    about those functions are results about these runs. `raised` stands for an exception on its way
    out: nothing happens after it. */
module MigrationScript {
  import opened Prelude
  import opened FileTree
  import opened MigrationPlan

  class Migrator {
    const options: Options
    const layout: Layout
    var files: Tree
    var actions: seq<Action>
    var raised: bool

    constructor (files: Tree, options: Options, layout: Layout)
      ensures View() == Plan(files, [], false) && this.options == options && this.layout == layout
    {
      this.files, this.actions, this.raised := files, [], false;
      this.options, this.layout := options, layout;
    }

    ghost function View(): Plan
      reads this
    {
      Plan(files, actions, raised)
    }

    method Record(kind: Kind, source: Option<Path>, target: Option<Path>, detail: Detail)
      modifies this`actions
      ensures actions == old(actions) + [Action(kind, source, target, detail)]
    {
      actions := actions + [Action(kind, source, target, detail)];
    }

    /** A write to the disk, which may raise. */
    method Commit(outcome: Option<Tree>)
      modifies this`files, this`raised
      ensures View() == old(View()).Wrote(outcome)
    {
      match outcome
      case None => raised := true;
      case Some(t) => files := t;
    }

    method HasPlannedDir(p: Path) returns (planned: bool)
      ensures planned == PlannedDir(actions, p)
    {
      planned := false;
      for i := 0 to |actions|
        invariant planned == PlannedDir(actions[..i], p)
      {
        assert actions[..i + 1] == actions[..i] + [actions[i]];
        if actions[i].kind.EnsureDir? && actions[i].target == Some(p) {
          planned := true;
          assert actions[i] in actions[..i + 1];
        }
      }
      assert actions[..|actions|] == actions;
    }

    method HasPlannedTargetWrite(p: Path) returns (planned: bool)
      ensures planned == PlannedWrite(actions, p)
    {
      planned := false;
      for i := 0 to |actions|
        invariant planned == PlannedWrite(actions[..i], p)
      {
        assert actions[..i + 1] == actions[..i] + [actions[i]];
        if WritesTo(actions[i], p) {
          planned := true;
          assert actions[i] in actions[..i + 1];
        }
      }
      assert actions[..|actions|] == actions;
    }

    method IsTaken(p: Path) returns (taken: bool)
      ensures taken == Taken(View(), p)
    {
      var planned := HasPlannedTargetWrite(p);
      return p in files || planned;
    }

    method EnsureDir(p: Path)
      modifies this
      ensures View() == MakeDir(old(View()), options, p)
    {
      if raised { return; }
      var planned := HasPlannedDir(p);
      if p in files || planned { return; }
      Record(Kind.EnsureDir, None, Some(p), CreateTarget);
      if options.apply { Commit(MakeDirs(files, p)); }
    }

    method CopyRegularFile(m: Move)
      requires |m.target| > 0
      modifies this
      ensures View() == CopyFile(old(View()), options, m)
    {
      if raised { return; }
      if m.source !in files {
        Record(Missing, Some(m.source), Some(m.target), SourceAbsent);
        return;
      }
      if !files[m.source].File? {
        Record(Skip, Some(m.source), Some(m.target), NotRegularFile);
        return;
      }
      var isTaken := IsTaken(m.target);
      if isTaken {
        Record(Skip, Some(m.source), Some(m.target), TargetTaken);
        return;
      }
      Record(Copy, Some(m.source), Some(m.target), CopyWhole);
      if options.apply { Commit(WriteFile(files, m.target, files[m.source].content)); }
    }

    method CopyVisit(m: Move, v: Visit)
      modifies this
      ensures View() == VisitDir(old(View()), options, m, v)
    {
      EnsureDir(m.target + v.below);
      ghost var made := View();
      for i := 0 to |v.files|
        invariant View() == CopyFiles(made, options, Below(m, v.below), v.files[..i])
      {
        assert v.files[..i + 1][..i] == v.files[..i];
        CopyRegularFile(Entry(Below(m, v.below), v.files[i]));
      }
      assert v.files[..|v.files|] == v.files;
    }

    method CopyDirectoryTree(m: Move, walks: Walks)
      modifies this
      ensures View() == CopyTree(old(View()), options, m, walks)
    {
      if raised { return; }
      if m.source !in files {
        Record(Missing, Some(m.source), Some(m.target), SourceDirAbsent);
        return;
      }
      if !files[m.source].Dir? {
        Record(Skip, Some(m.source), Some(m.target), NotRegularDir);
        return;
      }
      EnsureDir(m.target);
      ghost var made := View();
      var walk := WalkOf(walks, m.source);
      for i := 0 to |walk|
        invariant View() == WalkTree(made, options, m, walk[..i])
      {
        assert walk[..i + 1][..i] == walk[..i];
        CopyVisit(m, walk[i]);
      }
      assert walk[..|walk|] == walk;
    }

    method EnsureAll(dirs: seq<Path>)
      modifies this
      ensures View() == MakeAll(old(View()), options, dirs)
    {
      for i := 0 to |dirs|
        invariant View() == MakeAll(old(View()), options, dirs[..i])
      {
        assert dirs[..i + 1][..i] == dirs[..i];
        EnsureDir(dirs[i]);
      }
      assert dirs[..|dirs|] == dirs;
    }

    static method ReadStringMap(value: Option<Json>) returns (result: Option<seq<Field>>)
      ensures result == StringMap(value)
    {
      if value.None? || !value.value.JObject? { return None; }
      result := ReadStrings(value.value.fields);
    }

    static method ReadStrings(fields: seq<Field>) returns (result: Option<seq<Field>>)
      ensures result == StringFields(fields)
    {
      result := Some([]);
      for i := 0 to |fields|
        invariant result == StringFields(fields[..i])
      {
        assert fields[..i + 1][..i] == fields[..i];
        var f := fields[i];
        if result.Some? {
          if !f.value.JString? || Strip(f.key) == "" || Strip(f.value.s) == "" {
            result := None;
          } else {
            result := Some(Put(result.value, Strip(f.key), JString(Strip(f.value.s))));
          }
        }
      }
      assert fields[..|fields|] == fields;
    }

    method ExtractPart(target: Path, payload: Option<Content>, done: Detail, taken: Detail) returns (extracted: bool)
      requires |target| > 0
      modifies this
      ensures View() == Extract(old(View()), options, layout.config, target, payload, done, taken)
      ensures !old(raised) ==> extracted == Extracts(old(View()), target, payload)
    {
      extracted := false;
      if !raised && payload.Some? {
        var isTaken := IsTaken(target);
        if isTaken {
          Record(Skip, Some(layout.config), Some(target), taken);
        } else {
          extracted := true;
          WritePart(target, payload.value, done);
        }
      }
    }

    method WritePart(target: Path, content: Content, done: Detail)
      requires |target| > 0
      modifies this
      ensures View() == WriteExtract(old(View()), options, layout.config, target, content, done)
    {
      Record(Copy, Some(layout.config), Some(target), done);
      if options.apply { Commit(WriteFile(files, target, content)); }
    }

    method MigrateRootConfig()
      requires NonEmptyPaths(layout)
      modifies this
      ensures View() == RootConfig(old(View()), options, layout)
    {
      if raised { return; }
      var reading := ReadObject(files, layout.config);
      if reading.Crash? {
        raised := true;
        return;
      }
      if reading.Unreadable? {
        Record(Missing, Some(layout.config), None, ConfigUnreadable);
        return;
      }
      SplitRootConfig(reading.fields);
    }

    method SplitRootConfig(fields: seq<Field>)
      requires NonEmptyPaths(layout) && !raised
      modifies this
      ensures View() == SplitConfig(old(View()), options, layout, fields, ProjectsPayload(fields), ModelsPayload(fields))
    {
      hide Extract, Extracts, Cleaned;
      var keys := STALE_KEYS;
      var extracted := ExtractPart(layout.projects, ProjectsPayload(fields), ExtractProjects, ProjectsTaken);
      if raised {
        RaisedSplit(View(), options, layout, fields, ModelsPayload(fields));
        return;
      }
      if extracted { keys := keys + {"projects"}; }
      var models := ReadStringMap(Get(fields, "models"));
      var payload := if models.Some? then Some(Versioned("aliases", JObject(models.value))) else None;
      var alsoExtracted := ExtractPart(layout.aliases, payload, ExtractAliases, AliasesTaken);
      if alsoExtracted { keys := keys + {"models"}; }
      assert keys == CleanupKeys(extracted, alsoExtracted);
      CleanRootConfig(fields, keys);
    }

    method CleanRootConfig(fields: seq<Field>, keys: set<string>)
      requires NonEmptyPaths(layout)
      modifies this
      ensures View() == CleanConfig(old(View()), options, layout.config, fields, keys)
    {
      if raised { return; }
      var cleaned := Cleaned(fields, keys);
      if cleaned != fields {
        Record(Update, Some(layout.config), None, KeysRemoved);
        if options.apply { Commit(WriteFile(files, layout.config, Encoded(JObject(cleaned)))); }
      }
    }

    method MigrateModelAliases()
      requires NonEmptyPaths(layout)
      modifies this
      ensures View() == LegacyAliases(old(View()), options, layout)
    {
      if raised { return; }
      var source, target := layout.legacyAliases, layout.aliases;
      if source !in files {
        Record(Missing, Some(source), Some(target), SourceAbsent);
        return;
      }
      if !files[source].File? {
        Record(Skip, Some(source), Some(target), NotRegularFile);
        return;
      }
      var isTaken := IsTaken(target);
      if isTaken {
        Record(Skip, Some(source), Some(target), TargetTaken);
        return;
      }
      match ReadAliases(files, source)
      case Raises =>
        raised := true;
      case Invalid =>
        Record(Skip, Some(source), Some(target), AliasesInvalid);
      case Valid(content) =>
        Record(Copy, Some(source), Some(target), NormalizeAliases);
        if options.apply { Commit(WriteFile(files, target, content)); }
    }

    method ReportActiveRuntime() returns (active: bool)
      modifies this`actions
      ensures View() == ReportRuntime(old(View()), layout.runtime)
      ensures active == DaemonActive(files, layout.runtime)
      ensures !active ==> View() == old(View())
    {
      active := false;
      for i := 0 to |layout.runtime|
        invariant View() == ReportRuntime(old(View()), layout.runtime[..i])
        invariant active == DaemonActive(files, layout.runtime[..i])
        invariant !active ==> View() == old(View())
      {
        assert layout.runtime[..i + 1][..i] == layout.runtime[..i];
        assert layout.runtime[..i + 1] == layout.runtime[..i] + [layout.runtime[i]];
        var m := layout.runtime[i];
        if m.source in files {
          Record(RuntimeSkip, Some(m.source), Some(m.target), RuntimeArtifact);
          active := true;
          assert m in layout.runtime[..i + 1];
        }
      }
      assert layout.runtime[..|layout.runtime|] == layout.runtime;
    }

    method MigrateSwarm(walks: Walks)
      requires NonEmptyPaths(layout)
      modifies this
      ensures View() == Swarm(old(View()), options, layout, walks)
    {
      EnsureDir(layout.daemon.target);
      if raised { return; }
      var active := ReportActiveRuntime();
      if active {
        Record(Skip, Some(layout.daemon.source), Some(layout.daemon.target), DaemonLooksActive);
        return;
      }
      CopyRegularFile(layout.database);
      CopyDirectoryTree(layout.agents, walks);
    }

    method PruneEmptyLegacyDirs()
      modifies this
      ensures View() == Prune(old(View()), options, layout)
    {
      if !options.pruneEmpty { return; }
      for i := 0 to |layout.prunable|
        invariant View() == PruneAll(old(View()), options, layout.prunable[..i])
      {
        assert layout.prunable[..i + 1][..i] == layout.prunable[..i];
        var p := layout.prunable[i];
        if !raised && IsDir(files, p) {
          if HasChild(files, p) {
            Record(RetainNonEmpty, Some(p), None, DirNotEmpty);
          } else {
            Record(Kind.PruneEmpty, Some(p), None, RemoveEmpty);
            if options.apply { files := files - {p}; }
          }
        }
      }
      assert layout.prunable[..|layout.prunable|] == layout.prunable;
    }

    method Execute(walks: Walks)
      requires NonEmptyPaths(layout) && actions == [] && !raised
      modifies this
      ensures View() == Run(old(files), options, layout, walks)
    {
      EnsureAll(layout.dirs);
      MigrateRootConfig();
      CopyDirectoryTree(layout.context, walks);
      CopyDirectoryTree(layout.styles, walks);
      CopyDirectoryTree(layout.prompts, walks);
      CopyDirectoryTree(layout.sessionState, walks);
      MigrateModelAliases();
      CopyDirectoryTree(layout.tasks, walks);
      MigrateSwarm(walks);
      PruneEmptyLegacyDirs();
    }
  }

  lemma RaisedSplit(s: Plan, o: Options, l: Layout, fields: seq<Field>, models: Option<Content>)
    requires s.raised && NonEmptyPaths(l)
    ensures forall keys :: CleanConfig(Extract(s, o, l.config, l.aliases, models, ExtractAliases, AliasesTaken), o, l.config,
                                       fields, keys) == s
  {
  }
}
