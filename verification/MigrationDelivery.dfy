/** What a reader finds after an apply run: where every key of the old config has gone, what the extracted files
    hold when they are read back, and that the state of a daemon that looks active stays where it is. */
module MigrationDelivery {
  import opened Prelude
  import opened FileTree
  import opened MigrationPlan
  import opened MigrationLayout
  import opened MigrationDryRun
  import opened MigrationPrediction
  import opened MigrationSafety
  import opened MigrationRepeat

  // ----- Trimmed texts -----

  predicate Blank(s: string) {
    forall i :: 0 <= i < |s| ==> IsSpace(s[i])
  }

  /** `r` is `s` without the blanks around it. */
  ghost predicate TrimOf(s: string, r: string) {
    && (|r| > 0 ==> !IsSpace(r[0]) && !IsSpace(r[|r| - 1]))
    && exists a, b :: Blank(a) && Blank(b) && s == a + r + b
  }

  lemma TrimWidens(a: string, s: string, b: string, r: string)
    requires Blank(a) && Blank(b) && TrimOf(s, r)
    ensures TrimOf(a + s + b, r)
  {
    var c, d :| Blank(c) && Blank(d) && s == c + r + d;
    assert Blank(a + c) && Blank(d + b);
    assert a + s + b == (a + c) + r + (d + b);
  }

  lemma {:induction false} StripTrims(s: string)
    ensures TrimOf(s, Strip(s))
    decreases |s|
  {
    if |s| > 0 && IsSpace(s[0]) {
      StripTrims(s[1..]);
      hide TrimOf, IsSpace;
      TrimWidens([s[0]], s[1..], "", Strip(s));
      assert [s[0]] + s[1..] + "" == s;
    } else if |s| > 0 && IsSpace(s[|s| - 1]) {
      StripTrims(s[..|s| - 1]);
      hide TrimOf, IsSpace;
      TrimWidens("", s[..|s| - 1], [s[|s| - 1]], Strip(s));
      assert "" + s[..|s| - 1] + [s[|s| - 1]] == s;
    } else {
      assert Blank("") && s == "" + s + "";
    }
  }

  lemma TrimBounds(s: string, a: string, r: string, b: string)
    requires Blank(a) && Blank(b) && s == a + r + b && (|r| > 0 ==> !IsSpace(r[0]) && !IsSpace(r[|r| - 1]))
    ensures r == "" <==> Blank(s)
    ensures r != "" ==> !IsSpace(s[|a|]) && !IsSpace(s[|s| - |b| - 1]) && r == s[|a|..|s| - |b|]
    ensures forall i :: 0 <= i < |a| || |a| + |r| <= i < |s| ==> IsSpace(s[i])
  {
    hide IsSpace;
    if r != "" { assert s[|a|] == r[0] && s[|a| + |r| - 1] == r[|r| - 1]; }
  }

  /** A text has one trimmed form, which is empty exactly for a blank text. */
  lemma TrimIsUnique(s: string, r: string, q: string)
    requires TrimOf(s, r) && TrimOf(s, q)
    ensures r == q
    ensures r == "" <==> Blank(s)
  {
    var a, b :| Blank(a) && Blank(b) && s == a + r + b;
    var c, d :| Blank(c) && Blank(d) && s == c + q + d;
    TrimBounds(s, a, r, b);
    TrimBounds(s, c, q, d);
    hide IsSpace, Blank;
    if r != "" { assert |a| == |c| && |b| == |d|; }
  }

  // ----- Fields of an object -----

  lemma {:induction false} GetIsFirst(fields: seq<Field>, key: string, i: nat)
    requires i <= |fields| && forall j :: 0 <= j < i ==> fields[j].key != key
    ensures i < |fields| && fields[i].key == key ==> Get(fields, key) == Some(fields[i].value)
    ensures i == |fields| ==> Get(fields, key) == None
  {
    if i > 0 { GetIsFirst(fields[1..], key, i - 1); }
  }

  lemma {:induction false} GetPut(fields: seq<Field>, key: string, value: Json, k: string)
    ensures Get(Put(fields, key, value), k) == if k == key then Some(value) else Get(fields, k)
  {
    if |fields| > 0 { GetPut(fields[1..], key, value, k); }
  }

  /** A text entry with something in its key and its value. */
  predicate Usable(f: Field) {
    f.value.JString? && !Blank(f.key) && !Blank(f.value.s)
  }

  predicate AllUsable(fields: seq<Field>) {
    forall i :: 0 <= i < |fields| ==> Usable(fields[i])
  }

  /** Entry `i` is the last one whose key is `key` once trimmed. */
  ghost predicate LastUnder(fields: seq<Field>, key: string, i: nat) {
    && i < |fields| && TrimOf(fields[i].key, key)
    && forall j :: i < j < |fields| ==> !TrimOf(fields[j].key, key)
  }

  /** The object `r` has under a key the trimmed text of the last entry with that trimmed key, and nothing else. */
  ghost predicate TrimmedMap(fields: seq<Field>, r: seq<Field>) {
    && AllUsable(fields)
    && (forall key, i: nat :: LastUnder(fields, key, i) ==>
          Get(r, key).Some? && Get(r, key).value.JString? && TrimOf(fields[i].value.s, Get(r, key).value.s))
    && (forall key :: Get(r, key).Some? ==> exists i :: LastUnder(fields, key, i))
  }

  lemma UsableIs(f: Field)
    ensures Usable(f) <==> f.value.JString? && Strip(f.key) != "" && Strip(f.value.s) != ""
  {
    StripTrims(f.key);
    TrimIsUnique(f.key, Strip(f.key), Strip(f.key));
    if f.value.JString? {
      StripTrims(f.value.s);
      TrimIsUnique(f.value.s, Strip(f.value.s), Strip(f.value.s));
    }
  }

  lemma OneMoreUnder(fields: seq<Field>, f: Field)
    ensures forall key, i: nat ::
              LastUnder(fields + [f], key, i) <==> if TrimOf(f.key, key) then i == |fields| else LastUnder(fields, key, i)
  {
    var more := fields + [f];
    hide TrimOf;
    forall key, i: nat
      ensures LastUnder(more, key, i) <==> if TrimOf(f.key, key) then i == |fields| else LastUnder(fields, key, i)
    {
      assert more[|fields|] == f;
      assert forall j :: 0 <= j < |fields| ==> more[j] == fields[j];
    }
  }

  lemma PutTrimmed(f: Field, r: seq<Field>, k: string)
    ensures TrimOf(f.key, Strip(f.key))
    ensures TrimOf(f.key, k) <==> k == Strip(f.key)
    ensures f.value.JString? ==> TrimOf(f.value.s, Strip(f.value.s))
    ensures f.value.JString? ==>
              Get(Put(r, Strip(f.key), JString(Strip(f.value.s))), k)
              == if k == Strip(f.key) then Some(JString(Strip(f.value.s))) else Get(r, k)
  {
    StripTrims(f.key);
    if TrimOf(f.key, k) { TrimIsUnique(f.key, k, Strip(f.key)); }
    if f.value.JString? {
      StripTrims(f.value.s);
      GetPut(r, Strip(f.key), JString(Strip(f.value.s)), k);
    }
  }

  lemma OneMoreTrimmed(fields: seq<Field>, f: Field, r: seq<Field>)
    requires TrimmedMap(fields, r) && Usable(f)
    ensures TrimmedMap(fields + [f], Put(r, Strip(f.key), JString(Strip(f.value.s))))
  {
    var more, put := fields + [f], Put(r, Strip(f.key), JString(Strip(f.value.s)));
    OneMoreUnder(fields, f);
    hide TrimOf, LastUnder, Put, Usable, Get, Strip;
    forall k, i: nat | LastUnder(more, k, i)
      ensures Get(put, k).Some? && Get(put, k).value.JString? && TrimOf(more[i].value.s, Get(put, k).value.s)
    {
      PutTrimmed(f, r, k);
    }
    forall k | Get(put, k).Some?
      ensures exists i :: LastUnder(more, k, i)
    {
      PutTrimmed(f, r, k);
      if k == Strip(f.key) {
        assert LastUnder(more, k, |fields|);
      } else {
        var i :| LastUnder(fields, k, i);
        assert LastUnder(more, k, i);
      }
    }
  }

  /** A map of texts is accepted exactly if every entry is usable, and then its trimmed form is what is kept. */
  lemma {:induction false} StringFieldsIs(fields: seq<Field>)
    ensures StringFields(fields).Some? <==> AllUsable(fields)
    ensures StringFields(fields).Some? ==> TrimmedMap(fields, StringFields(fields).value)
  {
    if |fields| == 0 {
      assert forall key :: Get([], key).None?;
    } else {
      var init, f := fields[..|fields| - 1], fields[|fields| - 1];
      StringFieldsIs(init);
      UsableIs(f);
      hide Usable, TrimmedMap, Strip, Blank;
      assert fields == init + [f];
      assert AllUsable(fields) <==> AllUsable(init) && Usable(f);
      if AllUsable(fields) { OneMoreTrimmed(init, f, StringFields(init).value); }
    }
  }

  // ----- What the extracted files hold -----

  /** The object read from the file at `p`, with the version its readers ask for. */
  ghost predicate ReadsVersioned(files: Tree, p: Path, key: string, value: Json) {
    && ReadObject(files, p).Fields?
    && Get(ReadObject(files, p).fields, "version") == Some(JInt(1))
    && Get(ReadObject(files, p).fields, key) == Some(value)
  }

  ghost predicate ReadsTrimmed(files: Tree, p: Path, entries: seq<Field>) {
    exists r :: ReadsVersioned(files, p, "aliases", JObject(r)) && TrimmedMap(entries, r)
  }

  predicate IsObject(value: Option<Json>) {
    value.Some? && value.value.JObject?
  }

  predicate IsTextMap(value: Option<Json>) {
    IsObject(value) && AllUsable(value.value.fields)
  }

  lemma VersionedReads(files: Tree, p: Path, key: string, value: Json)
    requires p in files && files[p] == File(Versioned(key, value)) && key != "version"
    ensures ReadsVersioned(files, p, key, value)
  {
    var fields := ReadObject(files, p).fields;
    assert fields == [Field("version", JInt(1)), Field(key, value)];
    GetIsFirst(fields, "version", 0);
    GetIsFirst(fields, key, 1);
  }

  lemma ProjectsDelivered(files: Tree, p: Path, fields: seq<Field>)
    ensures ProjectsPayload(fields).Some? <==> IsObject(Get(fields, "projects"))
    ensures Delivered(files, p, ProjectsPayload(fields)) ==> ReadsVersioned(files, p, "projects", Get(fields, "projects").value)
  {
    assert "projects" != "version";
    if Delivered(files, p, ProjectsPayload(fields)) { VersionedReads(files, p, "projects", Get(fields, "projects").value); }
  }

  lemma ModelsDelivered(files: Tree, p: Path, fields: seq<Field>)
    ensures ModelsPayload(fields).Some? <==> IsTextMap(Get(fields, "models"))
    ensures Delivered(files, p, ModelsPayload(fields)) ==> ReadsTrimmed(files, p, Get(fields, "models").value.fields)
  {
    assert "aliases" != "version";
    var models := Get(fields, "models");
    if IsObject(models) {
      StringFieldsIs(models.value.fields);
      hide StringFields, TrimmedMap, AllUsable, Get;
      if Delivered(files, p, ModelsPayload(fields)) {
        VersionedReads(files, p, "aliases", JObject(StringMap(models).value));
      }
    }
  }

  // ----- Nothing is lost, whatever the run comes to -----

  /** The value of a key that is no longer in the config stands in a file of its own, or the key was stale. */
  ghost predicate Rehomed(l: Layout, was: seq<Field>, files: Tree, key: string) {
    || key == "worktree_branch_prefix" || key == "observer"
    || (key == "projects" && IsObject(Get(was, key)) && ReadsVersioned(files, l.projects, "projects", Get(was, key).value))
    || (key == "models" && IsTextMap(Get(was, key)) && ReadsTrimmed(files, l.aliases, Get(was, key).value.fields))
  }

  ghost predicate KeyKept(l: Layout, was: seq<Field>, files: Tree, now: seq<Field>, key: string) {
    || Get(now, key) == Get(was, key)
    || (Get(now, key).None? && Rehomed(l, was, files, key))
    || (key == "version" && Get(was, key).None? && Get(was, "install_dir").Some? && Get(now, key) == Some(JInt(1)))
  }

  lemma MovedKeepsKeys(l: Layout, t: Tree, files: Tree, projects: bool, models: bool, key: string)
    requires ConfigMoved(l, t, files, projects, models)
    ensures ReadObject(files, l.config).Fields?
    ensures KeyKept(l, ReadObject(t, l.config).fields, files, ReadObject(files, l.config).fields, key)
  {
    var was := ReadObject(t, l.config).fields;
    CleanupKeysAre(projects, models);
    CleanedKeepsTheRest(was, CleanupKeys(projects, models), key);
    ProjectsDelivered(files, l.projects, was);
    ModelsDelivered(files, l.aliases, was);
    hide Cleaned, Get, ReadsVersioned, ReadsTrimmed, ProjectsPayload, ModelsPayload, Delivered;
  }

  /** After any apply run, finished or cut short, whoever reads the config finds under every key the old value, or
      nothing because the key was stale or its value is now read from the file it was extracted to. */
  lemma NoKeyIsLost(l: Layout, t: Tree, pruneEmpty: bool, walks: Walks)
    requires WellLaidOut(l) && ReadObject(t, l.config).Fields?
    ensures var files := Run(t, Options(true, pruneEmpty), l, walks).files;
            && ReadObject(files, l.config).Fields?
            && forall key :: KeyKept(l, ReadObject(t, l.config).fields, files, ReadObject(files, l.config).fields, key)
  {
    var files := Run(t, Options(true, pruneEmpty), l, walks).files;
    ApplyIsNonDestructive(l, t, pruneEmpty, walks);
    ConfigIsNotPrunable(l);
    assert Survives(l, t, pruneEmpty, files, l.config);
    hide Run, WellLaidOut, ConfigMoved, Get, Rehomed;
    if Lookup(files, l.config) != Lookup(t, l.config) {
      var projects, models :| ConfigMoved(l, t, files, projects, models);
      forall key
        ensures ReadObject(files, l.config).Fields?
        ensures KeyKept(l, ReadObject(t, l.config).fields, files, ReadObject(files, l.config).fields, key)
      {
        MovedKeepsKeys(l, t, files, projects, models, key);
      }
    }
  }

  // ----- What a finished run has moved -----

  predicate TakesProjects(l: Layout, t: Tree, was: seq<Field>) {
    IsObject(Get(was, "projects")) && l.projects !in t
  }

  predicate TakesModels(l: Layout, t: Tree, was: seq<Field>) {
    IsTextMap(Get(was, "models")) && l.aliases !in t
  }

  lemma DirsMadeFirst(l: Layout, t: Tree, pruneEmpty: bool)
    requires WellLaidOut(l) && Rooted(t)
    ensures var d, a := MakeAll(Plan(t, [], false), Dry(pruneEmpty), l.dirs), MakeAll(Plan(t, [], false), App(pruneEmpty), l.dirs);
            && InStep(l, t, d, a)
            && (!a.raised ==> && Consistent(l, t, a) && NoWritePlanned(a.actions)
                              && Parent(l.projects) in a.files && Parent(l.aliases) in a.files
                              && Lookup(a.files, l.config) == Lookup(t, l.config))
  {
    MakeAllInStep(l, t, pruneEmpty, |l.dirs|);
    assert l.dirs[..|l.dirs|] == l.dirs;
    var a := MakeAll(Plan(t, [], false), App(pruneEmpty), l.dirs);
    assert Parent(l.projects) in l.dirs && Parent(l.aliases) in l.dirs;
    hide MakeAll;
    if !a.raised { ConfigUntouched(l, t, a); }
  }

  lemma ProjectsDecision(l: Layout, t: Tree, s: Plan, payload: Option<Content>)
    requires WellLaidOut(l) && Consistent(l, t, s) && NoWritePlanned(s.actions)
    ensures Extracts(s, l.projects, payload) <==> payload.Some? && l.projects !in t
  {
    assert IsFixedFile(l, l.projects);
    FileDecision(l, t, s, l.projects);
  }

  lemma ExtractPlans(s: Plan, o: Options, config: Path, target: Path, payload: Option<Content>, done: Detail, taken: Detail, p: Path)
    requires |target| > 0 && !s.raised
    ensures PlannedWrite(Extract(s, o, config, target, payload, done, taken).actions, p)
            <==> PlannedWrite(s.actions, p) || (p == target && Extracts(s, target, payload))
  {
    hide PlannedWrite, WriteFile;
    Appended(s.actions, Action(Skip, Some(config), Some(target), taken));
    Appended(s.actions, Action(Copy, Some(config), Some(target), done));
  }

  lemma ModelsDecision(l: Layout, t: Tree, s: Plan, r: Plan, o: Options, projects: Option<Content>, models: Option<Content>)
    requires WellLaidOut(l) && Consistent(l, t, r) && NoWritePlanned(s.actions) && !s.raised
    requires r == Extract(s, o, l.config, l.projects, projects, ExtractProjects, ProjectsTaken)
    ensures Extracts(r, l.aliases, models) <==> models.Some? && l.aliases !in t
  {
    assert IsFixedFile(l, l.aliases) && l.projects != l.aliases;
    hide WellLaidOut, Consistent, Extract, PlannedWrite;
    ExtractPlans(s, o, l.config, l.projects, projects, ExtractProjects, ProjectsTaken, l.aliases);
    FileDecision(l, t, r, l.aliases);
  }

  /** The config after it was taken apart: `projects` and `models` say what was extracted. */
  ghost predicate Split(l: Layout, was: seq<Field>, files: Tree, projects: bool, models: bool) {
    && ReadObject(files, l.config) == Fields(Cleaned(was, CleanupKeys(projects, models)))
    && (projects ==> Delivered(files, l.projects, ProjectsPayload(was)))
    && (models ==> Delivered(files, l.aliases, ModelsPayload(was)))
  }

  lemma SplitIs(s: Plan, o: Options, l: Layout, was: seq<Field>)
    requires o.apply && NonEmptyPaths(l) && l.projects != l.config && l.aliases != l.config
    requires ReadObject(s.files, l.config) == Fields(was)
    ensures var projects, models := ProjectsPayload(was), ModelsPayload(was);
            var s1 := Extract(s, o, l.config, l.projects, projects, ExtractProjects, ProjectsTaken);
            var r := SplitConfig(s, o, l, was, projects, models);
            !r.raised ==> Split(l, was, r.files, Extracts(s, l.projects, projects), Extracts(s1, l.aliases, models))
  {
    var projects, models := ProjectsPayload(was), ModelsPayload(was);
    hide ProjectsPayload, ModelsPayload, Extract, Extracts, CleanConfig, Cleaned, CleanupKeys;
    var s1 := Extract(s, o, l.config, l.projects, projects, ExtractProjects, ProjectsTaken);
    var s2 := Extract(s1, o, l.config, l.aliases, models, ExtractAliases, AliasesTaken);
    var keys := CleanupKeys(Extracts(s, l.projects, projects), Extracts(s1, l.aliases, models));
    ExtractsDeliver(s, o, l, projects, models);
    CleanIsSafe(s2, o, l.config, was, keys);
    var r := CleanConfig(s2, o, l.config, was, keys);
    if !r.raised { CleanWrites(s2, o, l.config, was, keys); }
  }

  lemma ConfigTaken(l: Layout, t: Tree, pruneEmpty: bool)
    requires WellLaidOut(l) && Rooted(t) && ReadObject(t, l.config).Fields?
    ensures var was, r := ReadObject(t, l.config).fields, Begun(t, App(pruneEmpty), l);
            !r.raised ==> Split(l, was, r.files, TakesProjects(l, t, was), TakesModels(l, t, was))
  {
    var was, o, r := ReadObject(t, l.config).fields, App(pruneEmpty), Begun(t, App(pruneEmpty), l);
    var d, a := MakeAll(Plan(t, [], false), Dry(pruneEmpty), l.dirs), MakeAll(Plan(t, [], false), o, l.dirs);
    DirsMadeFirst(l, t, pruneEmpty);
    DatabaseIsAway(l);
    if !r.raised {
      var projects, models := ProjectsPayload(was), ModelsPayload(was);
      ProjectsDelivered(t, l.projects, was);
      ModelsDelivered(t, l.aliases, was);
      SameReading(t, a.files, l.config);
      var s1 := Extract(a, o, l.config, l.projects, projects, ExtractProjects, ProjectsTaken);
      assert IsFixedFile(l, l.projects) && |l.projects| > 0;
      hide ProjectsPayload, ModelsPayload, Extract, Split, WellLaidOut, IsFixedFile, Consistent, Rooted, MakeAll;
      ExtractInStep(l, t, d, a, pruneEmpty, l.projects, projects, ExtractProjects, ProjectsTaken);
      SplitIs(a, o, l, was);
      ProjectsDecision(l, t, a, projects);
      ModelsDecision(l, t, a, s1, o, projects, models);
    }
  }

  lemma SplitStays(l: Layout, was: seq<Field>, before: Tree, files: Tree, projects: bool, models: bool)
    requires Split(l, was, before, projects, models)
    requires Lookup(files, l.config) == Lookup(before, l.config)
    requires l.projects in before ==> Lookup(files, l.projects) == Lookup(before, l.projects)
    requires l.aliases in before ==> Lookup(files, l.aliases) == Lookup(before, l.aliases)
    ensures Split(l, was, files, projects, models)
  {
    hide Cleaned, CleanupKeys, ProjectsPayload, ModelsPayload;
    SameReading(before, files, l.config);
  }

  /** What an earlier state of the run has inside the new state directory is there at the end. */
  lemma InsideLasts(l: Layout, t: Tree, pruneEmpty: bool, walks: Walks, s: Plan, p: Path)
    requires WellLaidOut(l) && !Moved(t, App(pruneEmpty), l, walks).raised
    requires Careful(l.config, s, Moved(t, App(pruneEmpty), l, walks)) && p in s.files && Base(l) <= p
    ensures Lookup(Run(t, App(pruneEmpty), l, walks).files, p) == Lookup(s.files, p)
  {
    var o := App(pruneEmpty);
    var a := Moved(t, o, l, walks);
    PruneIsPruned(l, a, o);
    hide Moved, Prune;
    InsideStays(l, o, a.files, Prune(a, o, l).files, p);
  }

  lemma SplitLasts(l: Layout, t: Tree, pruneEmpty: bool, walks: Walks, was: seq<Field>, projects: bool, models: bool)
    requires WellLaidOut(l) && !Run(t, App(pruneEmpty), l, walks).raised
    requires Split(l, was, Begun(t, App(pruneEmpty), l).files, projects, models)
    ensures Split(l, was, Run(t, App(pruneEmpty), l, walks).files, projects, models)
  {
    var o, s := App(pruneEmpty), Begun(t, App(pruneEmpty), l);
    AfterConfigIsCareful(l, t, o, walks);
    assert IsFixedFile(l, l.projects) && IsFixedFile(l, l.aliases) && Base(l) <= l.config;
    hide Begun, Moved, WellLaidOut;
    assert l.config in s.files;
    InsideLasts(l, t, pruneEmpty, walks, s, l.config);
    if l.projects in s.files { InsideLasts(l, t, pruneEmpty, walks, s, l.projects); }
    if l.aliases in s.files { InsideLasts(l, t, pruneEmpty, walks, s, l.aliases); }
    hide Run;
    SplitStays(l, was, s.files, Run(t, o, l, walks).files, projects, models);
  }

  /** The config has lost exactly what was taken out and the stale keys, and what was taken out is read from its own
      file. */
  ghost predicate ReadsSplit(l: Layout, was: seq<Field>, files: Tree, projects: bool, models: bool) {
    && ReadObject(files, l.config).Fields?
    && (projects ==> IsObject(Get(was, "projects")) && ReadsVersioned(files, l.projects, "projects", Get(was, "projects").value))
    && (models ==> IsTextMap(Get(was, "models")) && ReadsTrimmed(files, l.aliases, Get(was, "models").value.fields))
    && forall key ::
         Get(ReadObject(files, l.config).fields, key) ==
         if key == "worktree_branch_prefix" || key == "observer" then None
         else if key == "projects" && projects then None
         else if key == "models" && models then None
         else if key == "version" && Get(was, key).None? && Get(was, "install_dir").Some? then Some(JInt(1))
         else Get(was, key)
  }

  lemma SplitReads(l: Layout, was: seq<Field>, files: Tree, projects: bool, models: bool)
    requires Split(l, was, files, projects, models)
    ensures ReadsSplit(l, was, files, projects, models)
  {
    CleanupKeysAre(projects, models);
    ProjectsDelivered(files, l.projects, was);
    ModelsDelivered(files, l.aliases, was);
    hide Cleaned, Get, ReadsVersioned, ReadsTrimmed, ProjectsPayload, ModelsPayload, AllUsable;
    forall key {
      CleanedKeepsTheRest(was, CleanupKeys(projects, models), key);
    }
  }

  /** A finished apply run has taken the projects out of the config exactly if they were an object and no projects
      file was there, and the models if they were a map of texts and no alias file was there. */
  lemma ConfigOutcome(l: Layout, t: Tree, pruneEmpty: bool, walks: Walks)
    requires WellLaidOut(l) && Rooted(t) && ReadObject(t, l.config).Fields?
    requires !Run(t, App(pruneEmpty), l, walks).raised
    ensures var was := ReadObject(t, l.config).fields;
            ReadsSplit(l, was, Run(t, App(pruneEmpty), l, walks).files,
                       IsObject(Get(was, "projects")) && l.projects !in t, IsTextMap(Get(was, "models")) && l.aliases !in t)
  {
    var was := ReadObject(t, l.config).fields;
    ConfigTaken(l, t, pruneEmpty);
    SplitLasts(l, t, pruneEmpty, walks, was, TakesProjects(l, t, was), TakesModels(l, t, was));
    SplitReads(l, was, Run(t, App(pruneEmpty), l, walks).files, TakesProjects(l, t, was), TakesModels(l, t, was));
    hide Run, Get, ReadsSplit, WellLaidOut;
  }

  // ----- The legacy aliases -----

  /** The entries of the legacy file: those under its key "aliases", or all of them if it has none. */
  function LegacyEntries(fields: seq<Field>): Option<seq<Field>> {
    var aliases := Get(fields, "aliases");
    if aliases.None? then Some(fields) else if aliases.value.JObject? then Some(aliases.value.fields) else None
  }

  predicate LegacyUsable(t: Tree, p: Path) {
    var reading := ReadObject(t, p);
    reading.Fields? && LegacyEntries(reading.fields).Some? && AllUsable(LegacyEntries(reading.fields).value)
  }

  lemma AliasesRead(t: Tree, p: Path)
    ensures ReadAliases(t, p).Valid? <==> LegacyUsable(t, p)
    ensures ReadAliases(t, p).Raises? <==> ReadObject(t, p).Crash?
  {
    hide StringFields;
    if ReadObject(t, p).Fields? {
      var entries := LegacyEntries(ReadObject(t, p).fields);
      if entries.Some? { StringFieldsIs(entries.value); }
    }
  }

  lemma AliasesNormalised(t: Tree, p: Path, files: Tree, target: Path)
    requires LegacyUsable(t, p) && ReadAliases(t, p).Valid?
    requires target in files && files[target] == File(ReadAliases(t, p).content)
    ensures ReadsTrimmed(files, target, LegacyEntries(ReadObject(t, p).fields).value)
  {
    assert "aliases" != "version";
    var entries := LegacyEntries(ReadObject(t, p).fields).value;
    StringFieldsIs(entries);
    hide StringFields, TrimmedMap, AllUsable;
    VersionedReads(files, target, "aliases", JObject(StringFields(entries).value));
  }

  // ----- Parts that leave a place alone -----

  predicate LeavesOut(s: Plan, r: Plan, p: Path) {
    p in r.files ==> p in s.files
  }

  lemma DirLeavesOut(s: Plan, o: Options, q: Path, p: Path)
    requires !(p <= q)
    ensures LeavesOut(s, MakeDir(s, o, q), p)
  {
  }

  lemma FileLeavesOut(s: Plan, o: Options, m: Move, p: Path)
    requires |m.target| > 0 && !(p <= m.target)
    ensures LeavesOut(s, CopyFile(s, o, m), p)
  {
    assert p <= Parent(m.target) ==> p <= m.target;
  }

  lemma {:induction false} FilesLeaveOut(s: Plan, o: Options, m: Move, names: seq<string>, p: Path)
    requires !(p <= m.target) && !(m.target <= p)
    ensures LeavesOut(s, CopyFiles(s, o, m, names), p)
  {
    if |names| > 0 {
      FilesLeaveOut(s, o, m, names[..|names| - 1], p);
      var e := Entry(m, names[|names| - 1]);
      assert m.target <= e.target && !(p <= e.target);
      FileLeavesOut(CopyFiles(s, o, m, names[..|names| - 1]), o, e, p);
    }
  }

  lemma {:induction false} WalkLeavesOut(s: Plan, o: Options, m: Move, walk: seq<Visit>, p: Path)
    requires !(p <= m.target) && !(m.target <= p)
    ensures LeavesOut(s, WalkTree(s, o, m, walk), p)
  {
    if |walk| > 0 {
      var rest, v := WalkTree(s, o, m, walk[..|walk| - 1]), walk[|walk| - 1];
      var q := m.target + v.below;
      WalkLeavesOut(s, o, m, walk[..|walk| - 1], p);
      assert m.target <= q && !(p <= q) && !(q <= p);
      DirLeavesOut(rest, o, q, p);
      FilesLeaveOut(MakeDir(rest, o, q), o, Below(m, v.below), v.files, p);
    }
  }

  lemma TreeLeavesOut(s: Plan, o: Options, m: Move, walks: Walks, p: Path)
    requires !(p <= m.target) && !(m.target <= p)
    ensures LeavesOut(s, CopyTree(s, o, m, walks), p)
  {
    DirLeavesOut(s, o, m.target, p);
    WalkLeavesOut(MakeDir(s, o, m.target), o, m, WalkOf(walks, m.source), p);
  }

  /** Nothing that must be a file stands above a directory of the layout. */
  lemma {:induction false} FixedAbove(l: Layout, p: Path, q: Path)
    requires WellLaidOut(l) && IsFixedDir(l, p) && Base(l) <= q <= p
    ensures IsFixedDir(l, q)
    decreases |p|
  {
    if q != p {
      assert IsFixedDir(l, Base(l));
      FixedParent(l, p);
      assert q <= Parent(p);
      FixedAbove(l, Parent(p), q);
    }
  }

  lemma AliasesOffTrees(l: Layout, m: Move)
    requires WellLaidOut(l) && IsWorkTree(l, m)
    ensures !(l.aliases <= m.target) && !(m.target <= l.aliases)
  {
    assert IsTree(l, m) && IsFixedFile(l, l.aliases) && IsFixedDir(l, m.target);
    if l.aliases <= m.target { FixedAbove(l, m.target, l.aliases); }
  }

  // ----- The alias file of a finished run -----

  predicate TakenFromConfig(l: Layout, t: Tree) {
    ReadObject(t, l.config).Fields? && TakesModels(l, t, ReadObject(t, l.config).fields)
  }

  lemma SplitPlans(s: Plan, o: Options, l: Layout, was: seq<Field>, projects: Option<Content>, models: Option<Content>)
    requires NonEmptyPaths(l) && NoWritePlanned(s.actions) && l.projects != l.aliases && l.config != l.aliases
    requires !SplitConfig(s, o, l, was, projects, models).raised
    ensures var s1 := Extract(s, o, l.config, l.projects, projects, ExtractProjects, ProjectsTaken);
            PlannedWrite(SplitConfig(s, o, l, was, projects, models).actions, l.aliases) <==> Extracts(s1, l.aliases, models)
  {
    SplitRaises(s, o, l, was, projects, models);
    var s1 := Extract(s, o, l.config, l.projects, projects, ExtractProjects, ProjectsTaken);
    var s2 := Extract(s1, o, l.config, l.aliases, models, ExtractAliases, AliasesTaken);
    hide PlannedWrite, Cleaned, Extract, Extracts;
    ExtractPlans(s, o, l.config, l.projects, projects, ExtractProjects, ProjectsTaken, l.aliases);
    ExtractPlans(s1, o, l.config, l.aliases, models, ExtractAliases, AliasesTaken, l.aliases);
    Appended(s2.actions, Action(Update, Some(l.config), None, KeysRemoved));
  }

  lemma SplitRaises(s: Plan, o: Options, l: Layout, was: seq<Field>, projects: Option<Content>, models: Option<Content>)
    requires NonEmptyPaths(l) && !SplitConfig(s, o, l, was, projects, models).raised
    ensures !s.raised && !Extract(s, o, l.config, l.projects, projects, ExtractProjects, ProjectsTaken).raised
  {
  }

  lemma ReadableConfigPlans(l: Layout, t: Tree, pruneEmpty: bool, d: Plan, a: Plan, was: seq<Field>)
    requires WellLaidOut(l) && Rooted(t) && InStep(l, t, d, a) && !a.raised && NoWritePlanned(a.actions)
    requires Parent(l.projects) in a.files && ReadObject(t, l.config) == Fields(was)
    requires !SplitConfig(a, App(pruneEmpty), l, was, ProjectsPayload(was), ModelsPayload(was)).raised
    ensures PlannedWrite(SplitConfig(a, App(pruneEmpty), l, was, ProjectsPayload(was), ModelsPayload(was)).actions, l.aliases)
            <==> TakenFromConfig(l, t)
  {
    var o, projects, models := App(pruneEmpty), ProjectsPayload(was), ModelsPayload(was);
    assert IsFixedFile(l, l.projects) && IsFixedFile(l, l.aliases) && |l.projects| > 0 && l.projects != l.aliases;
    ModelsDelivered(t, l.aliases, was);
    var s1 := Extract(a, o, l.config, l.projects, projects, ExtractProjects, ProjectsTaken);
    hide ProjectsPayload, ModelsPayload, Extract, SplitConfig, Extracts, WellLaidOut, IsFixedFile, Consistent, Rooted, PlannedWrite,
         NoWritePlanned, Delivered, ReadsTrimmed;
    ExtractInStep(l, t, d, a, pruneEmpty, l.projects, projects, ExtractProjects, ProjectsTaken);
    SplitRaises(a, o, l, was, projects, models);
    ModelsDecision(l, t, a, s1, o, projects, models);
    SplitPlans(a, o, l, was, projects, models);
  }

  lemma UnreadableConfigPlans(l: Layout, s: Plan, o: Options)
    requires NonEmptyPaths(l) && NoWritePlanned(s.actions) && !RootConfig(s, o, l).raised
    requires !ReadObject(s.files, l.config).Fields?
    ensures !PlannedWrite(RootConfig(s, o, l).actions, l.aliases)
  {
    hide ReadObject, PlannedWrite;
    Appended(s.actions, Action(Missing, Some(l.config), None, ConfigUnreadable));
  }

  lemma ReadableConfigIs(l: Layout, s: Plan, o: Options, was: seq<Field>)
    requires NonEmptyPaths(l) && !RootConfig(s, o, l).raised && ReadObject(s.files, l.config) == Fields(was)
    ensures !s.raised && RootConfig(s, o, l) == SplitConfig(s, o, l, was, ProjectsPayload(was), ModelsPayload(was))
  {
    hide SplitConfig, ProjectsPayload, ModelsPayload, ReadObject;
  }

  lemma ConfigPlansAliases(l: Layout, t: Tree, pruneEmpty: bool)
    requires WellLaidOut(l) && Rooted(t) && !Begun(t, App(pruneEmpty), l).raised
    ensures PlannedWrite(Begun(t, App(pruneEmpty), l).actions, l.aliases) <==> TakenFromConfig(l, t)
  {
    var d, a := MakeAll(Plan(t, [], false), Dry(pruneEmpty), l.dirs), MakeAll(Plan(t, [], false), App(pruneEmpty), l.dirs);
    DirsMadeFirst(l, t, pruneEmpty);
    hide RootConfig, SplitConfig, WellLaidOut, Consistent, Rooted, MakeAll, PlannedWrite, NoWritePlanned, InStep, TakesModels,
         ProjectsPayload, ModelsPayload, ReadObject;
    SameReading(t, a.files, l.config);
    var reading := ReadObject(t, l.config);
    if reading.Fields? {
      ReadableConfigIs(l, a, App(pruneEmpty), reading.fields);
      ReadableConfigPlans(l, t, pruneEmpty, d, a, reading.fields);
    } else {
      UnreadableConfigPlans(l, a, App(pruneEmpty));
    }
  }

  /** In a run that goes as planned a file is there if it was there or is planned. */
  lemma ThereMeansPlanned(l: Layout, t: Tree, s: Plan, p: Path)
    requires WellLaidOut(l) && Consistent(l, t, s) && IsFixedFile(l, p)
    ensures p in s.files <==> p in t || PlannedWrite(s.actions, p)
    ensures p in s.files <==> Taken(s, p)
  {
    FileDecision(l, t, s, p);
  }

  /** The state in which the legacy aliases are looked at. */
  function BeforeAliases(t: Tree, o: Options, l: Layout, walks: Walks): Plan
    requires NonEmptyPaths(l)
  {
    CopyTree(WorkspaceMoved(t, o, l, walks), o, l.sessionState, walks)
  }

  lemma BeforeAliasesInStep(l: Layout, t: Tree, pruneEmpty: bool, walks: Walks)
    requires WellLaidOut(l) && Rooted(t) && ValidWalks(l, t, walks)
    ensures var a := BeforeAliases(t, App(pruneEmpty), l, walks); !a.raised ==> Consistent(l, t, a)
  {
    WorkspaceInStep(l, t, pruneEmpty, walks);
    var d, a := WorkspaceMoved(t, Dry(pruneEmpty), l, walks), WorkspaceMoved(t, App(pruneEmpty), l, walks);
    StagesAre(l);
    hide CopyTree, WorkspaceMoved, Rooted, ValidWalks, WellLaidOut, Done, AliasesDone, Stages, Consistent;
    TreeStep(l, t, d, a, pruneEmpty, 3, l.sessionState, walks);
  }

  lemma TreesLeaveAliases(l: Layout, t: Tree, o: Options, walks: Walks)
    requires WellLaidOut(l) && o.apply
    ensures LeavesOut(Begun(t, o, l), BeforeAliases(t, o, l, walks), l.aliases)
    ensures Careful(l.config, Begun(t, o, l), BeforeAliases(t, o, l, walks))
  {
    TreesAreAway(l, l.context);
    TreesAreAway(l, l.styles);
    TreesAreAway(l, l.prompts);
    TreesAreAway(l, l.sessionState);
    AliasesOffTrees(l, l.context);
    AliasesOffTrees(l, l.styles);
    AliasesOffTrees(l, l.prompts);
    AliasesOffTrees(l, l.sessionState);
    hide WellLaidOut, Careful, Away, CopyTree, Begun;
    var c, s := l.config, Begun(t, o, l);
    var s1 := CopyTree(s, o, l.context, walks);
    var s2 := CopyTree(s1, o, l.styles, walks);
    var s3 := CopyTree(s2, o, l.prompts, walks);
    var s4 := CopyTree(s3, o, l.sessionState, walks);
    TreeLeavesOut(s, o, l.context, walks, l.aliases);
    TreeLeavesOut(s1, o, l.styles, walks, l.aliases);
    TreeLeavesOut(s2, o, l.prompts, walks, l.aliases);
    TreeLeavesOut(s3, o, l.sessionState, walks, l.aliases);
    CopyTreeIsCareful(c, s, o, l.context, walks);
    CopyTreeIsCareful(c, s1, o, l.styles, walks);
    CopyTreeIsCareful(c, s2, o, l.prompts, walks);
    CopyTreeIsCareful(c, s3, o, l.sessionState, walks);
    CarefulTwice(c, s, s1, s2);
    CarefulTwice(c, s, s2, s3);
    CarefulTwice(c, s, s3, s4);
  }

  lemma AliasesSeen(l: Layout, t: Tree, pruneEmpty: bool, walks: Walks)
    requires WellLaidOut(l) && Rooted(t) && ValidWalks(l, t, walks)
    ensures var s := BeforeAliases(t, App(pruneEmpty), l, walks);
            !s.raised ==> && (Taken(s, l.aliases) <==> l.aliases in s.files)
                          && (l.aliases in s.files <==> l.aliases in t || TakenFromConfig(l, t))
                          && Lookup(s.files, l.legacyAliases) == Lookup(t, l.legacyAliases)
  {
    var o := App(pruneEmpty);
    var b, s := Begun(t, o, l), BeforeAliases(t, o, l, walks);
    assert IsFixedFile(l, l.aliases) && Outside(l, l.legacyAliases);
    TreesLeaveAliases(l, t, o, walks);
    BeforeAliasesInStep(l, t, pruneEmpty, walks);
    ConfigPart(l, t, pruneEmpty);
    hide Begun, BeforeAliases, WellLaidOut, Consistent, Rooted, ValidWalks, IsFixedFile, PlannedWrite, Taken, Progress, ConfigDone;
    if !s.raised {
      ConfigPlansAliases(l, t, pruneEmpty);
      ThereMeansPlanned(l, t, b, l.aliases);
      ThereMeansPlanned(l, t, s, l.aliases);
      SourceUnchanged(l, t, s, l.legacyAliases);
    }
  }

  predicate Normalises(l: Layout, t: Tree) {
    LegacyUsable(t, l.legacyAliases) && l.aliases !in t && !TakenFromConfig(l, t)
  }

  lemma LegacyWritten(l: Layout, t: Tree, s: Plan, o: Options)
    requires NonEmptyPaths(l) && o.apply && !LegacyAliases(s, o, l).raised
    requires Lookup(s.files, l.legacyAliases) == Lookup(t, l.legacyAliases)
    requires Taken(s, l.aliases) <==> l.aliases in s.files
    ensures var r := LegacyAliases(s, o, l);
            if LegacyUsable(t, l.legacyAliases) && l.aliases !in s.files
            then ReadsTrimmed(r.files, l.aliases, LegacyEntries(ReadObject(t, l.legacyAliases).fields).value)
            else l.aliases in r.files <==> l.aliases in s.files
  {
    var r := LegacyAliases(s, o, l);
    AliasesRead(t, l.legacyAliases);
    SameReading(s.files, t, l.legacyAliases);
    assert ReadAliases(s.files, l.legacyAliases) == ReadAliases(t, l.legacyAliases);
    hide AliasPayload, LegacyEntries, AllUsable, Taken, ReadsTrimmed, ReadAliases;
    if LegacyUsable(t, l.legacyAliases) && l.aliases !in s.files {
      WriteExtends(s.files, l.aliases, ReadAliases(t, l.legacyAliases).content);
      AliasesNormalised(t, l.legacyAliases, r.files, l.aliases);
    }
  }

  lemma NotAboveChild(p: Path, q: Path)
    requires |q| > 0 && p != q && !(p <= Parent(q))
    ensures !(p <= q)
  {
  }

  lemma AliasesOffSwarm(l: Layout)
    requires WellLaidOut(l) && l.aliases != l.database.target
    ensures !(l.aliases <= l.daemon.target) && !(l.aliases <= l.database.target)
    ensures !(l.aliases <= l.agents.target) && !(l.agents.target <= l.aliases)
  {
    var p := l.aliases;
    assert IsTree(l, l.agents) && IsFixedFile(l, p) && IsFixedDir(l, l.daemon.target) && IsFixedFile(l, l.database.target);
    if p <= l.daemon.target { FixedAbove(l, l.daemon.target, p); }
    NotAboveChild(p, l.database.target);
    NotAboveChild(p, l.agents.target);
  }

  /** What comes after the aliases leaves their file out, unless it is that of the database. */
  lemma RestLeavesAliases(l: Layout, s: Plan, o: Options, walks: Walks)
    requires WellLaidOut(l) && l.aliases != l.database.target
    ensures LeavesOut(s, Swarm(CopyTree(s, o, l.tasks, walks), o, l, walks), l.aliases)
  {
    AliasesOffTrees(l, l.tasks);
    AliasesOffSwarm(l);
    hide WellLaidOut, CopyTree, MakeDir, CopyFile, DaemonActive, ReportRuntime, Grows;
    var s1 := CopyTree(s, o, l.tasks, walks);
    var s2 := MakeDir(s1, o, l.daemon.target);
    TreeLeavesOut(s, o, l.tasks, walks, l.aliases);
    DirLeavesOut(s1, o, l.daemon.target, l.aliases);
    FileLeavesOut(s2, o, l.database, l.aliases);
    TreeLeavesOut(CopyFile(s2, o, l.database), o, l.agents, walks, l.aliases);
  }

  lemma RestIsCareful(l: Layout, s: Plan, o: Options, walks: Walks)
    requires WellLaidOut(l) && o.apply
    ensures Careful(l.config, s, Swarm(CopyTree(s, o, l.tasks, walks), o, l, walks))
  {
    TreesAreAway(l, l.tasks);
    TreesAreAway(l, l.agents);
    DatabaseIsAway(l);
    hide WellLaidOut, Careful, Away, CopyTree, Swarm;
    CopyTreeIsCareful(l.config, s, o, l.tasks, walks);
    SwarmIsCareful(l.config, CopyTree(s, o, l.tasks, walks), o, l, walks);
    CarefulTwice(l.config, s, CopyTree(s, o, l.tasks, walks), Swarm(CopyTree(s, o, l.tasks, walks), o, l, walks));
  }

  lemma TrimmedStays(before: Tree, files: Tree, p: Path, entries: seq<Field>)
    requires ReadsTrimmed(before, p, entries) && Lookup(files, p) == Lookup(before, p)
    ensures ReadsTrimmed(files, p, entries)
  {
    SameReading(before, files, p);
  }

  /** A finished apply run has rewritten the legacy aliases exactly if their file was a map of texts, or had one under
      its key "aliases", no alias file was there and none was taken from the config: then the new file reads as the
      trimmed map. Where there was nothing to take, no alias file appears. */
  lemma LegacyOutcome(l: Layout, t: Tree, pruneEmpty: bool, walks: Walks)
    requires WellLaidOut(l) && Rooted(t) && ValidWalks(l, t, walks) && !Run(t, App(pruneEmpty), l, walks).raised
    requires l.aliases != l.database.target
    ensures var files := Run(t, App(pruneEmpty), l, walks).files;
            && (l.aliases in files <==> l.aliases in t || TakenFromConfig(l, t) || LegacyUsable(t, l.legacyAliases))
            && (LegacyUsable(t, l.legacyAliases) && l.aliases !in t && !TakenFromConfig(l, t) ==>
                  ReadsTrimmed(files, l.aliases, LegacyEntries(ReadObject(t, l.legacyAliases).fields).value))
  {
    var o, files := App(pruneEmpty), Run(t, App(pruneEmpty), l, walks).files;
    var s := BeforeAliases(t, o, l, walks);
    var r := LegacyAliases(s, o, l);
    assert Moved(t, o, l, walks) == Swarm(CopyTree(r, o, l.tasks, walks), o, l, walks);
    RestIsCareful(l, r, o, walks);
    RestLeavesAliases(l, r, o, walks);
    LegacyOutcomeFrom(l, t, pruneEmpty, walks, s, r);
  }

  lemma LegacyOutcomeFrom(l: Layout, t: Tree, pruneEmpty: bool, walks: Walks, s: Plan, r: Plan)
    requires WellLaidOut(l) && Rooted(t) && ValidWalks(l, t, walks) && !Run(t, App(pruneEmpty), l, walks).raised
    requires s == BeforeAliases(t, App(pruneEmpty), l, walks) && r == LegacyAliases(s, App(pruneEmpty), l)
    requires Careful(l.config, r, Moved(t, App(pruneEmpty), l, walks)) && LeavesOut(r, Moved(t, App(pruneEmpty), l, walks), l.aliases)
    ensures var files := Run(t, App(pruneEmpty), l, walks).files;
            && (l.aliases in files <==> l.aliases in t || TakenFromConfig(l, t) || LegacyUsable(t, l.legacyAliases))
            && (LegacyUsable(t, l.legacyAliases) && l.aliases !in t && !TakenFromConfig(l, t) ==>
                  ReadsTrimmed(files, l.aliases, LegacyEntries(ReadObject(t, l.legacyAliases).fields).value))
  {
    var o, a, later := App(pruneEmpty), Moved(t, App(pruneEmpty), l, walks), Run(t, App(pruneEmpty), l, walks);
    assert !a.raised && !r.raised && !s.raised;
    assert IsFixedFile(l, l.aliases) && Base(l) <= l.aliases;
    PruneIsPruned(l, a, o);
    AliasesSeen(l, t, pruneEmpty, walks);
    hide Moved, Run, LegacyAliases, BeforeAliases, WellLaidOut, Taken, TakenFromConfig, LegacyUsable, LegacyEntries, ReadsTrimmed,
         ValidWalks, Rooted, IsFixedFile;
    LegacyWritten(l, t, s, o);
    if l.aliases in r.files {
      InsideLasts(l, t, pruneEmpty, walks, r, l.aliases);
      if LegacyUsable(t, l.legacyAliases) && l.aliases !in s.files {
        TrimmedStays(r.files, later.files, l.aliases, LegacyEntries(ReadObject(t, l.legacyAliases).fields).value);
      }
    } else {
      assert l.aliases !in a.files;
      assert l.aliases !in later.files by { PruneAddsNothing(l, a, o, l.aliases); }
    }
  }

  // ----- A daemon that looks active -----

  lemma {:induction false} RuntimeReported(s: Plan, runtime: seq<Move>, m: Move)
    requires m in runtime && m.source in s.files
    ensures Action(RuntimeSkip, Some(m.source), Some(m.target), RuntimeArtifact) in ReportRuntime(s, runtime).actions
  {
    if m in runtime[..|runtime| - 1] { RuntimeReported(s, runtime[..|runtime| - 1], m); }
  }

  /** Nothing of the layout but the daemon's own files goes into its directory. */
  ghost predicate DaemonApart(l: Layout) {
    && (forall m {:trigger IsWorkTree(l, m)} :: IsWorkTree(l, m) ==> Incomparable(m.target, l.daemon.target))
    && (forall p :: p in l.dirs ==> !(l.daemon.target <= p))
    && !(l.daemon.target <= l.projects) && !(l.daemon.target <= l.aliases) && !(l.daemon.target <= l.config)
  }

  lemma StandardDaemonApart(home: Path)
    ensures DaemonApart(Standard(home))
  {
    var l, k := Standard(home), |home| + 2;
    NamesDistinct();
    Part(l.context.target, l.daemon.target, k);
    Part(l.styles.target, l.daemon.target, k);
    Part(l.prompts.target, l.daemon.target, k);
    Part(l.sessionState.target, l.daemon.target, k);
    Part(l.tasks.target, l.daemon.target, k);
    Part(l.projects, l.daemon.target, k);
    Part(l.aliases, l.daemon.target, k);
    Part(l.config, l.daemon.target, k);
    forall p | p in l.dirs
      ensures !(l.daemon.target <= p)
    {
      if |p| > k { Part(p, l.daemon.target, k); }
    }
  }

  lemma {:induction false} DirsLeaveOut(s: Plan, o: Options, dirs: seq<Path>, p: Path)
    requires forall q {:trigger q in dirs} :: q in dirs ==> !(p <= q)
    ensures LeavesOut(s, MakeAll(s, o, dirs), p)
  {
    if |dirs| > 0 {
      assert forall i :: 0 <= i < |dirs| ==> dirs[i] in dirs;
      assert forall q :: q in dirs[..|dirs| - 1] ==> q in dirs;
      DirsLeaveOut(s, o, dirs[..|dirs| - 1], p);
      DirLeavesOut(MakeAll(s, o, dirs[..|dirs| - 1]), o, dirs[|dirs| - 1], p);
    }
  }

  lemma WriteLeavesOut(t: Tree, target: Path, content: Content, p: Path)
    requires |target| > 0 && !(p <= target)
    ensures var w := WriteFile(t, target, content); w.Some? && p in w.value ==> p in t
  {
    assert p <= Parent(target) ==> p <= target;
  }

  lemma ExtractLeavesOut(s: Plan, o: Options, config: Path, target: Path, payload: Option<Content>, done: Detail, taken: Detail,
                         p: Path)
    requires |target| > 0 && !(p <= target)
    ensures LeavesOut(s, Extract(s, o, config, target, payload, done, taken), p)
  {
    if payload.Some? { WriteLeavesOut(s.files, target, payload.value, p); }
    hide WriteFile;
  }

  lemma CleanLeavesOut(s: Plan, o: Options, config: Path, fields: seq<Field>, keys: set<string>, p: Path)
    requires |config| > 0 && !(p <= config)
    ensures LeavesOut(s, CleanConfig(s, o, config, fields, keys), p)
  {
    WriteLeavesOut(s.files, config, Encoded(JObject(Cleaned(fields, keys))), p);
    hide WriteFile, Cleaned;
  }

  lemma ConfigLeavesOut(s: Plan, o: Options, l: Layout, p: Path)
    requires NonEmptyPaths(l) && !(p <= l.projects) && !(p <= l.aliases) && !(p <= l.config)
    ensures LeavesOut(s, RootConfig(s, o, l), p)
  {
    if ReadObject(s.files, l.config).Fields? {
      var fields := ReadObject(s.files, l.config).fields;
      var projects, models := ProjectsPayload(fields), ModelsPayload(fields);
      hide ProjectsPayload, ModelsPayload, Cleaned, CleanupKeys, Extract, CleanConfig, Extracts;
      var s1 := Extract(s, o, l.config, l.projects, projects, ExtractProjects, ProjectsTaken);
      var s2 := Extract(s1, o, l.config, l.aliases, models, ExtractAliases, AliasesTaken);
      ExtractLeavesOut(s, o, l.config, l.projects, projects, ExtractProjects, ProjectsTaken, p);
      ExtractLeavesOut(s1, o, l.config, l.aliases, models, ExtractAliases, AliasesTaken, p);
      CleanLeavesOut(s2, o, l.config, fields,
                     CleanupKeys(Extracts(s, l.projects, projects), Extracts(s1, l.aliases, models)), p);
    }
  }

  lemma LegacyLeavesOut(s: Plan, o: Options, l: Layout, p: Path)
    requires NonEmptyPaths(l) && !(p <= l.aliases)
    ensures LeavesOut(s, LegacyAliases(s, o, l), p)
  {
    var reading := ReadAliases(s.files, l.legacyAliases);
    if reading.Valid? { WriteLeavesOut(s.files, l.aliases, reading.content, p); }
    hide WriteFile, ReadAliases, Taken;
  }

  lemma BothAbove(a: Path, b: Path, p: Path)
    requires b <= p
    ensures a <= p ==> a <= b || b <= a
  {
  }

  lemma InsideDaemon(l: Layout, p: Path)
    requires DaemonApart(l) && l.daemon.target < p
    ensures forall m {:trigger IsWorkTree(l, m)} :: IsWorkTree(l, m) ==> !(p <= m.target) && !(m.target <= p)
    ensures forall q :: q in l.dirs ==> !(p <= q)
    ensures !(p <= l.projects) && !(p <= l.aliases) && !(p <= l.config)
  {
    forall m {:trigger IsWorkTree(l, m)} | IsWorkTree(l, m)
      ensures !(p <= m.target) && !(m.target <= p)
    {
      assert Incomparable(m.target, l.daemon.target);
      BothAbove(m.target, l.daemon.target, p);
    }
  }

  lemma TreesLeaveDaemon(l: Layout, t: Tree, o: Options, walks: Walks, p: Path)
    requires NonEmptyPaths(l) && DaemonApart(l) && l.daemon.target < p
    ensures LeavesOut(Plan(t, [], false), TreesMoved(t, o, l, walks), p)
  {
    InsideDaemon(l, p);
    assert IsWorkTree(l, l.context) && IsWorkTree(l, l.styles) && IsWorkTree(l, l.prompts) && IsWorkTree(l, l.sessionState)
           && IsWorkTree(l, l.tasks);
    hide CopyTree, RootConfig, LegacyAliases, MakeAll, DaemonApart;
    var start := Plan(t, [], false);
    DirsLeaveOut(start, o, l.dirs, p);
    ConfigLeavesOut(MakeAll(start, o, l.dirs), o, l, p);
    var s := Begun(t, o, l);
    TreeLeavesOut(s, o, l.context, walks, p);
    s := CopyTree(s, o, l.context, walks);
    TreeLeavesOut(s, o, l.styles, walks, p);
    s := CopyTree(s, o, l.styles, walks);
    TreeLeavesOut(s, o, l.prompts, walks, p);
    s := CopyTree(s, o, l.prompts, walks);
    TreeLeavesOut(s, o, l.sessionState, walks, p);
    s := CopyTree(s, o, l.sessionState, walks);
    LegacyLeavesOut(s, o, l, p);
    TreeLeavesOut(LegacyAliases(s, o, l), o, l.tasks, walks, p);
  }

  lemma TreesKeep(l: Layout, t: Tree, o: Options, walks: Walks, p: Path)
    requires WellLaidOut(l) && o.apply && p in t && p != l.config
    ensures p in TreesMoved(t, o, l, walks).files
  {
    var c, start := l.config, Plan(t, [], false);
    TreesAreAway(l, l.tasks);
    DatabaseIsAway(l);
    TreesLeaveAliases(l, t, o, walks);
    hide WellLaidOut, Away, CopyTree, LegacyAliases, MakeAll, RootConfig;
    MakeAllIsCareful(c, start, o, l.dirs);
    var made := MakeAll(start, o, l.dirs);
    RootConfigIsSafe(made, o, l);
    hide ConfigSafe, Faithful;
    var s := BeforeAliases(t, o, l, walks);
    LegacyIsCareful(c, s, o, l);
    CopyTreeIsCareful(c, LegacyAliases(s, o, l), o, l.tasks, walks);
    assert p in Begun(t, o, l).files;
    assert p in s.files;
  }

  /** A finished apply run that finds any runtime file of the daemon reports each of them and puts nothing into the
      daemon's new directory. */
  lemma ActiveDaemonStays(l: Layout, t: Tree, pruneEmpty: bool, walks: Walks, m: Move, p: Path)
    requires WellLaidOut(l) && DaemonApart(l) && !Run(t, App(pruneEmpty), l, walks).raised
    requires m in l.runtime && m.source in t && l.daemon.target < p
    ensures var r := Run(t, App(pruneEmpty), l, walks);
            && Action(RuntimeSkip, Some(m.source), Some(m.target), RuntimeArtifact) in r.actions
            && (p in r.files <==> p in t)
  {
    var o := App(pruneEmpty);
    var a, r := Moved(t, o, l, walks), Run(t, o, l, walks);
    ActiveDaemonMoved(l, t, o, walks, m, p);
    DaemonInside(l);
    MovedIsSafe(l, t, o, walks);
    assert !(p <= l.config) && Base(l) <= p;
    assert p in t ==> p in a.files;
    assert !a.raised && r == Prune(a, o, l);
    hide *;
    PruneIsPruned(l, a, o);
    PruneRecords(a, o, l, Action(RuntimeSkip, Some(m.source), Some(m.target), RuntimeArtifact));
    if p in t { InsideStays(l, o, a.files, r.files, p); }
    PruneAddsNothing(l, a, o, p);
  }

  lemma PruneAddsNothing(l: Layout, s: Plan, o: Options, p: Path)
    requires WellLaidOut(l) && !s.raised && o.apply
    ensures p in Prune(s, o, l).files ==> p in s.files
  {
    PruneIsPruned(l, s, o);
  }

  lemma PruneRecords(s: Plan, o: Options, l: Layout, x: Action)
    requires x in s.actions
    ensures x in Prune(s, o, l).actions
  {
  }

  lemma DaemonInside(l: Layout)
    requires WellLaidOut(l)
    ensures Base(l) <= l.daemon.target
  {
    assert IsFixedDir(l, l.daemon.target);
  }

  lemma ActiveDaemonMoved(l: Layout, t: Tree, o: Options, walks: Walks, m: Move, p: Path)
    requires WellLaidOut(l) && DaemonApart(l) && o.apply && !Moved(t, o, l, walks).raised
    requires m in l.runtime && m.source in t && l.daemon.target < p
    ensures var a := Moved(t, o, l, walks);
            && Action(RuntimeSkip, Some(m.source), Some(m.target), RuntimeArtifact) in a.actions
            && (p in a.files ==> p in t)
  {
    var trees := TreesMoved(t, o, l, walks);
    var s := MakeDir(trees, o, l.daemon.target);
    assert Outside(l, m.source) && m.source != l.config;
    TreesKeep(l, t, o, walks, m.source);
    MakeDirIsCareful(l.config, trees, o, l.daemon.target);
    TreesLeaveDaemon(l, t, o, walks, p);
    hide TreesMoved, WellLaidOut, DaemonApart;
    DirLeavesOut(trees, o, l.daemon.target, p);
    hide MakeDir, SwarmFiles, ReportRuntime;
    assert m.source in s.files;
    RuntimeReported(s, l.runtime, m);
  }

  /** The same for the directories the script really uses. */
  lemma ActiveDaemonStaysInHome(home: Path, t: Tree, pruneEmpty: bool, walks: Walks, m: Move, p: Path)
    requires m in Standard(home).runtime && m.source in t && Standard(home).daemon.target < p
    requires NonEmptyPaths(Standard(home)) && !Run(t, App(pruneEmpty), Standard(home), walks).raised
    ensures var r := Run(t, App(pruneEmpty), Standard(home), walks);
            && Action(RuntimeSkip, Some(m.source), Some(m.target), RuntimeArtifact) in r.actions
            && (p in r.files <==> p in t)
  {
    StandardIsWellLaidOut(home);
    StandardDaemonApart(home);
    hide Standard;
    ActiveDaemonStays(Standard(home), t, pruneEmpty, walks, m, p);
  }
}
