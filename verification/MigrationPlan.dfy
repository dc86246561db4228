/** What one run of the local-state migration does, as functions of the file tree and the actions
    recorded so far. The same functions serve both modes: with `apply` false nothing is written and
    earlier decisions are read back from the action list instead of from the disk. */
module MigrationPlan {
  import opened Prelude
  import opened FileTree

  datatype Kind = Copy | EnsureDir | Missing | PruneEmpty | RetainNonEmpty | RuntimeSkip | Skip | Update

  datatype Detail =
    | CreateTarget | SourceAbsent | SourceDirAbsent | NotRegularFile | NotRegularDir | TargetTaken | CopyWhole
    | ConfigUnreadable | ExtractProjects | ProjectsTaken | ExtractAliases | AliasesTaken | KeysRemoved
    | AliasesInvalid | NormalizeAliases | RuntimeArtifact | DaemonLooksActive | DirNotEmpty | RemoveEmpty

  datatype Action = Action(kind: Kind, source: Option<Path>, target: Option<Path>, detail: Detail)

  datatype Move = Move(source: Path, target: Path)

  /** One directory an `os.walk` visits: its path below the walk's root and its sorted file names. */
  datatype Visit = Visit(below: Path, files: seq<string>)

  type Walks = map<Path, seq<Visit>>

  datatype Layout = Layout(
    dirs: seq<Path>,
    config: Path,
    projects: Path,
    aliases: Path,
    context: Move,
    styles: Move,
    prompts: Move,
    sessionState: Move,
    legacyAliases: Path,
    tasks: Move,
    daemon: Move,
    runtime: seq<Move>,
    database: Move,
    agents: Move,
    prunable: seq<Path>)

  datatype Options = Options(apply: bool, pruneEmpty: bool)

  /** The state of a run: the disk, the actions recorded, and whether an exception ended it. */
  datatype Plan = Plan(files: Tree, actions: seq<Action>, raised: bool) {
    function Record(kind: Kind, source: Option<Path>, target: Option<Path>, detail: Detail): Plan {
      this.(actions := actions + [Action(kind, source, target, detail)])
    }

    /** The disk after a write that may have raised. */
    function Wrote(outcome: Option<Tree>): Plan {
      match outcome
      case None => this.(raised := true)
      case Some(t) => this.(files := t)
    }
  }

  predicate PlannedDir(actions: seq<Action>, p: Path) {
    exists a :: a in actions && a.kind == EnsureDir && a.target == Some(p)
  }

  predicate PlannedWrite(actions: seq<Action>, p: Path) {
    exists a :: a in actions && WritesTo(a, p)
  }

  predicate WritesTo(a: Action, p: Path) {
    (a.kind == Copy && a.target == Some(p)) || (a.kind == Update && (a.target == Some(p) || a.source == Some(p)))
  }

  predicate Taken(s: Plan, p: Path) {
    p in s.files || PlannedWrite(s.actions, p)
  }

  /** What every part of a run obeys: actions only accumulate, an exception is final, and without
      `apply` the disk is only read. */
  predicate Grows(s: Plan, o: Options, r: Plan) {
    s.actions <= r.actions && (s.raised ==> r.raised) && (!o.apply ==> r.files == s.files)
  }

  function MakeDir(s: Plan, o: Options, p: Path): (r: Plan)
    ensures Grows(s, o, r)
  {
    if s.raised || p in s.files || PlannedDir(s.actions, p) then s
    else
      var next := s.Record(EnsureDir, None, Some(p), CreateTarget);
      if o.apply then next.Wrote(MakeDirs(next.files, p)) else next
  }

  function CopyFile(s: Plan, o: Options, m: Move): (r: Plan)
    requires |m.target| > 0
    ensures Grows(s, o, r)
  {
    if s.raised then s
    else if m.source !in s.files then s.Record(Missing, Some(m.source), Some(m.target), SourceAbsent)
    else if !s.files[m.source].File? then s.Record(Skip, Some(m.source), Some(m.target), NotRegularFile)
    else if Taken(s, m.target) then s.Record(Skip, Some(m.source), Some(m.target), TargetTaken)
    else
      var next := s.Record(Copy, Some(m.source), Some(m.target), CopyWhole);
      if o.apply then next.Wrote(WriteFile(next.files, m.target, next.files[m.source].content)) else next
  }

  function Entry(m: Move, name: string): (r: Move)
    ensures |r.target| > 0
  {
    Move(m.source + [name], m.target + [name])
  }

  function Below(m: Move, p: Path): Move {
    Move(m.source + p, m.target + p)
  }

  function CopyFiles(s: Plan, o: Options, m: Move, names: seq<string>): (r: Plan)
    ensures Grows(s, o, r)
  {
    if |names| == 0 then s
    else CopyFile(CopyFiles(s, o, m, names[..|names| - 1]), o, Entry(m, names[|names| - 1]))
  }

  function VisitDir(s: Plan, o: Options, m: Move, v: Visit): (r: Plan)
    ensures Grows(s, o, r)
  {
    CopyFiles(MakeDir(s, o, m.target + v.below), o, Below(m, v.below), v.files)
  }

  function WalkTree(s: Plan, o: Options, m: Move, walk: seq<Visit>): (r: Plan)
    ensures Grows(s, o, r)
  {
    if |walk| == 0 then s
    else VisitDir(WalkTree(s, o, m, walk[..|walk| - 1]), o, m, walk[|walk| - 1])
  }

  function WalkOf(walks: Walks, source: Path): seq<Visit> {
    if source in walks then walks[source] else []
  }

  function CopyTree(s: Plan, o: Options, m: Move, walks: Walks): (r: Plan)
    ensures Grows(s, o, r)
  {
    if s.raised then s
    else if m.source !in s.files then s.Record(Missing, Some(m.source), Some(m.target), SourceDirAbsent)
    else if !IsDir(s.files, m.source) then s.Record(Skip, Some(m.source), Some(m.target), NotRegularDir)
    else WalkTree(MakeDir(s, o, m.target), o, m, WalkOf(walks, m.source))
  }

  function MakeAll(s: Plan, o: Options, dirs: seq<Path>): (r: Plan)
    ensures Grows(s, o, r)
  {
    if |dirs| == 0 then s else MakeDir(MakeAll(s, o, dirs[..|dirs| - 1]), o, dirs[|dirs| - 1])
  }

  // ----- The root config -----

  datatype Reading = Unreadable | Crash | Fields(fields: seq<Field>)

  /** Reading a JSON object: text that is not UTF-8 raises, every other misfit reads as absent. */
  function ReadObject(t: Tree, p: Path): Reading {
    if !IsFile(t, p) then Unreadable
    else match t[p].content
      case NotJson(_) => Unreadable
      case NotUtf8(_) => Crash
      case Encoded(json) => if json.JObject? then Fields(json.fields) else Unreadable
  }

  function Get(fields: seq<Field>, key: string): Option<Json> {
    if |fields| == 0 then None
    else if fields[0].key == key then Some(fields[0].value)
    else Get(fields[1..], key)
  }

  predicate IsSpace(c: char) {
    var n := c as int;
    9 <= n <= 13 || 28 <= n <= 32 || n == 0x85 || n == 0xA0 || n == 0x1680 || 0x2000 <= n <= 0x200A
    || n == 0x2028 || n == 0x2029 || n == 0x202F || n == 0x205F || n == 0x3000
  }

  function Strip(s: string): string {
    if |s| == 0 then s
    else if IsSpace(s[0]) then Strip(s[1..])
    else if IsSpace(s[|s| - 1]) then Strip(s[..|s| - 1])
    else s
  }

  /** Setting a dictionary key: an existing key keeps its place. */
  function Put(fields: seq<Field>, key: string, value: Json): seq<Field> {
    if |fields| == 0 then [Field(key, value)]
    else if fields[0].key == key then [Field(key, value)] + fields[1..]
    else [fields[0]] + Put(fields[1..], key, value)
  }

  /** The stripped string map of the first entries, or None once one of them is unusable. */
  function StringFields(fields: seq<Field>): Option<seq<Field>> {
    if |fields| == 0 then Some([])
    else
      var earlier := StringFields(fields[..|fields| - 1]);
      var f := fields[|fields| - 1];
      if earlier.None? || !f.value.JString? || Strip(f.key) == "" || Strip(f.value.s) == "" then None
      else Some(Put(earlier.value, Strip(f.key), JString(Strip(f.value.s))))
  }

  function StringMap(value: Option<Json>): Option<seq<Field>> {
    if value.None? || !value.value.JObject? then None else StringFields(value.value.fields)
  }

  function Versioned(key: string, value: Json): Content {
    Encoded(JObject([Field("version", JInt(1)), Field(key, value)]))
  }

  function ProjectsPayload(fields: seq<Field>): Option<Content> {
    var projects := Get(fields, "projects");
    if projects.Some? && projects.value.JObject? then Some(Versioned("projects", projects.value)) else None
  }

  function ModelsPayload(fields: seq<Field>): Option<Content> {
    var models := StringMap(Get(fields, "models"));
    if models.Some? then Some(Versioned("aliases", JObject(models.value))) else None
  }

  function WriteExtract(s: Plan, o: Options, config: Path, target: Path, content: Content, done: Detail): (r: Plan)
    requires |target| > 0
    ensures Grows(s, o, r)
  {
    var next := s.Record(Copy, Some(config), Some(target), done);
    if o.apply then next.Wrote(WriteFile(next.files, target, content)) else next
  }

  /** Extracting one part of the config into its own file, unless that file is there or planned. */
  function Extract(s: Plan, o: Options, config: Path, target: Path, payload: Option<Content>,
                   done: Detail, taken: Detail): (r: Plan)
    requires |target| > 0
    ensures Grows(s, o, r)
  {
    if s.raised || payload.None? then s
    else if Taken(s, target) then s.Record(Skip, Some(config), Some(target), taken)
    else WriteExtract(s, o, config, target, payload.value, done)
  }

  function Without(fields: seq<Field>, keys: set<string>): seq<Field> {
    if |fields| == 0 then []
    else if fields[0].key in keys then Without(fields[1..], keys)
    else [fields[0]] + Without(fields[1..], keys)
  }

  const STALE_KEYS := {"worktree_branch_prefix", "observer"}

  function Cleaned(fields: seq<Field>, keys: set<string>): seq<Field> {
    var kept := Without(fields, keys);
    if Get(kept, "install_dir").Some? && Get(kept, "version").None? then kept + [Field("version", JInt(1))] else kept
  }

  function CleanConfig(s: Plan, o: Options, config: Path, fields: seq<Field>, keys: set<string>): (r: Plan)
    requires |config| > 0
    ensures Grows(s, o, r)
  {
    if s.raised || Cleaned(fields, keys) == fields then s
    else
      var next := s.Record(Update, Some(config), None, KeysRemoved);
      if o.apply then next.Wrote(WriteFile(next.files, config, Encoded(JObject(Cleaned(fields, keys))))) else next
  }

  predicate Extracts(s: Plan, target: Path, payload: Option<Content>) {
    payload.Some? && !Taken(s, target)
  }

  /** The keys to drop: the stale ones and those whose value was just extracted. */
  function CleanupKeys(projects: bool, models: bool): set<string> {
    STALE_KEYS + (if projects then {"projects"} else {}) + (if models then {"models"} else {})
  }

  predicate NonEmptyPaths(l: Layout) {
    && |l.config| > 0 && |l.projects| > 0 && |l.aliases| > 0 && |l.database.target| > 0
  }

  function SplitConfig(s: Plan, o: Options, l: Layout, fields: seq<Field>,
                       projects: Option<Content>, models: Option<Content>): (r: Plan)
    requires NonEmptyPaths(l)
    ensures Grows(s, o, r)
  {
    var s1 := Extract(s, o, l.config, l.projects, projects, ExtractProjects, ProjectsTaken);
    var s2 := Extract(s1, o, l.config, l.aliases, models, ExtractAliases, AliasesTaken);
    CleanConfig(s2, o, l.config, fields, CleanupKeys(Extracts(s, l.projects, projects), Extracts(s1, l.aliases, models)))
  }

  function RootConfig(s: Plan, o: Options, l: Layout): (r: Plan)
    requires NonEmptyPaths(l)
    ensures Grows(s, o, r)
  {
    if s.raised then s
    else match ReadObject(s.files, l.config)
      case Crash => s.(raised := true)
      case Unreadable => s.Record(Missing, Some(l.config), None, ConfigUnreadable)
      case Fields(fields) => SplitConfig(s, o, l, fields, ProjectsPayload(fields), ModelsPayload(fields))
  }

  // ----- The remaining sources -----

  datatype AliasFile = Raises | Invalid | Valid(content: Content)

  function AliasPayload(fields: seq<Field>): AliasFile {
    var aliases := if Get(fields, "aliases").Some? then StringMap(Get(fields, "aliases")) else StringFields(fields);
    if aliases.Some? then Valid(Versioned("aliases", JObject(aliases.value))) else Invalid
  }

  function ReadAliases(t: Tree, p: Path): AliasFile {
    match ReadObject(t, p)
    case Crash => Raises
    case Unreadable => Invalid
    case Fields(fields) => AliasPayload(fields)
  }

  function WriteAliases(s: Plan, o: Options, l: Layout): (r: Plan)
    requires NonEmptyPaths(l)
    ensures Grows(s, o, r)
  {
    var source, target := Some(l.legacyAliases), Some(l.aliases);
    match ReadAliases(s.files, l.legacyAliases)
    case Raises => s.(raised := true)
    case Invalid => s.Record(Skip, source, target, AliasesInvalid)
    case Valid(content) =>
      var next := s.Record(Copy, source, target, NormalizeAliases);
      if o.apply then next.Wrote(WriteFile(next.files, l.aliases, content)) else next
  }

  function LegacyAliases(s: Plan, o: Options, l: Layout): (r: Plan)
    requires NonEmptyPaths(l)
    ensures Grows(s, o, r)
  {
    var source, target := Some(l.legacyAliases), Some(l.aliases);
    if s.raised then s
    else if l.legacyAliases !in s.files then s.Record(Missing, source, target, SourceAbsent)
    else if !IsFile(s.files, l.legacyAliases) then s.Record(Skip, source, target, NotRegularFile)
    else if Taken(s, l.aliases) then s.Record(Skip, source, target, TargetTaken)
    else WriteAliases(s, o, l)
  }

  predicate DaemonActive(t: Tree, runtime: seq<Move>) {
    exists m :: m in runtime && m.source in t
  }

  function ReportRuntime(s: Plan, runtime: seq<Move>): (r: Plan)
    ensures s.actions <= r.actions && r.raised == s.raised && r.files == s.files
  {
    if |runtime| == 0 then s
    else
      var earlier := ReportRuntime(s, runtime[..|runtime| - 1]);
      var m := runtime[|runtime| - 1];
      if m.source in s.files then earlier.Record(RuntimeSkip, Some(m.source), Some(m.target), RuntimeArtifact)
      else earlier
  }

  function SwarmFiles(s: Plan, o: Options, l: Layout, walks: Walks): (r: Plan)
    requires NonEmptyPaths(l)
    ensures Grows(s, o, r)
  {
    CopyTree(CopyFile(s, o, l.database), o, l.agents, walks)
  }

  function Swarm(s: Plan, o: Options, l: Layout, walks: Walks): (r: Plan)
    requires NonEmptyPaths(l)
    ensures Grows(s, o, r)
  {
    var s1 := MakeDir(s, o, l.daemon.target);
    if s1.raised then s1
    else if DaemonActive(s1.files, l.runtime) then
      ReportRuntime(s1, l.runtime).Record(Skip, Some(l.daemon.source), Some(l.daemon.target), DaemonLooksActive)
    else SwarmFiles(s1, o, l, walks)
  }

  function PruneDir(s: Plan, o: Options, p: Path): (r: Plan)
    ensures Grows(s, o, r)
  {
    if s.raised || !IsDir(s.files, p) then s
    else if HasChild(s.files, p) then s.Record(RetainNonEmpty, Some(p), None, DirNotEmpty)
    else
      var next := s.Record(PruneEmpty, Some(p), None, RemoveEmpty);
      if o.apply then next.(files := next.files - {p}) else next
  }

  function PruneAll(s: Plan, o: Options, dirs: seq<Path>): (r: Plan)
    ensures Grows(s, o, r)
  {
    if |dirs| == 0 then s else PruneDir(PruneAll(s, o, dirs[..|dirs| - 1]), o, dirs[|dirs| - 1])
  }

  function Prune(s: Plan, o: Options, l: Layout): (r: Plan)
    ensures Grows(s, o, r)
  {
    if o.pruneEmpty then PruneAll(s, o, l.prunable) else s
  }

  function Begun(files: Tree, o: Options, l: Layout): (r: Plan)
    requires NonEmptyPaths(l)
    ensures Grows(Plan(files, [], false), o, r)
  {
    RootConfig(MakeAll(Plan(files, [], false), o, l.dirs), o, l)
  }

  function WorkspaceMoved(files: Tree, o: Options, l: Layout, walks: Walks): (r: Plan)
    requires NonEmptyPaths(l)
    ensures Grows(Plan(files, [], false), o, r)
  {
    CopyTree(CopyTree(CopyTree(Begun(files, o, l), o, l.context, walks), o, l.styles, walks), o, l.prompts, walks)
  }

  function TreesMoved(files: Tree, o: Options, l: Layout, walks: Walks): (r: Plan)
    requires NonEmptyPaths(l)
    ensures Grows(Plan(files, [], false), o, r)
  {
    var s := CopyTree(WorkspaceMoved(files, o, l, walks), o, l.sessionState, walks);
    CopyTree(LegacyAliases(s, o, l), o, l.tasks, walks)
  }

  /** Everything up to the pruning of legacy directories. */
  function Moved(files: Tree, o: Options, l: Layout, walks: Walks): (r: Plan)
    requires NonEmptyPaths(l)
    ensures Grows(Plan(files, [], false), o, r)
  {
    Swarm(TreesMoved(files, o, l, walks), o, l, walks)
  }

  function Run(files: Tree, o: Options, l: Layout, walks: Walks): (r: Plan)
    requires NonEmptyPaths(l)
    ensures Grows(Plan(files, [], false), o, r)
  {
    Prune(Moved(files, o, l, walks), o, l)
  }
}
