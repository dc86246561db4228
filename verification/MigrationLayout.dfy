/** Where the migration reads from and writes to, and what makes those places independent. */
module MigrationLayout {
  import opened Prelude
  import opened FileTree
  import opened MigrationPlan

  /** The path components the layout is made of. */
  datatype Names = Names(
    pi: string, basecamp: string, workspace: string, core: string, swarm: string, agent: string, agents: string,
    context: string, styles: string, prompts: string, sessionState: string, tasks: string, modelAliases: string,
    configFile: string, projectsFile: string, aliasesFile: string, database: string,
    socket: string, pid: string, lock: string)

  const NAMES := Names(
    ".pi", "basecamp", "workspace", "core", "swarm", "agent", "agents",
    "context", "styles", "prompts", "session-state", "tasks", "model-aliases",
    "config.json", "projects.json", "model-aliases.json", "daemon.db",
    "daemon.sock", "daemon.pid", "daemon.spawn.lock")

  /** The layout of a home directory, prunable directories deepest first. */
  function LayoutOf(home: Path, n: Names): Layout {
    var pi := home + [n.pi];
    var base := home + [n.pi, n.basecamp];
    var legacy := home + [n.pi, n.agent, n.basecamp];
    Layout(
      [base,
       base + [n.workspace],
       base + [n.workspace, n.context],
       base + [n.workspace, n.styles],
       base + [n.workspace, n.prompts],
       base + [n.core],
       base + [n.core, n.sessionState],
       base + [n.tasks]],
      base + [n.configFile],
      base + [n.workspace, n.projectsFile],
      base + [n.core, n.aliasesFile],
      Move(pi + [n.context], base + [n.workspace, n.context]),
      Move(pi + [n.styles], base + [n.workspace, n.styles]),
      Move(pi + [n.prompts], base + [n.workspace, n.prompts]),
      Move(pi + [n.sessionState], base + [n.core, n.sessionState]),
      pi + [n.modelAliases, n.configFile],
      Move(pi + [n.tasks], base + [n.tasks]),
      Move(legacy, base + [n.swarm]),
      [Move(legacy + [n.socket], base + [n.swarm, n.socket]),
       Move(legacy + [n.pid], base + [n.swarm, n.pid]),
       Move(legacy + [n.lock], base + [n.swarm, n.lock])],
      Move(legacy + [n.database], base + [n.swarm, n.database]),
      Move(legacy + [n.agents], base + [n.swarm, n.agents]),
      [legacy, pi + [n.context], pi + [n.styles], pi + [n.prompts], pi + [n.sessionState],
       pi + [n.modelAliases], pi + [n.tasks]])
  }

  function Standard(home: Path): Layout {
    LayoutOf(home, NAMES)
  }

  predicate Distinct(n: Names) {
    && n.basecamp != n.agent && n.basecamp != n.context && n.basecamp != n.styles && n.basecamp != n.prompts
    && n.basecamp != n.sessionState && n.basecamp != n.modelAliases && n.basecamp != n.tasks
    && n.workspace != n.core && n.workspace != n.tasks && n.workspace != n.swarm && n.workspace != n.configFile
    && n.core != n.tasks && n.core != n.swarm && n.core != n.configFile
    && n.tasks != n.swarm && n.tasks != n.configFile && n.swarm != n.configFile
    && n.context != n.styles && n.context != n.prompts && n.styles != n.prompts
    && n.projectsFile != n.context && n.projectsFile != n.styles && n.projectsFile != n.prompts
    && n.aliasesFile != n.sessionState && n.database != n.agents
    && n.agent != n.context && n.agent != n.styles && n.agent != n.prompts && n.agent != n.sessionState
    && n.agent != n.modelAliases && n.agent != n.tasks
    && n.context != n.sessionState && n.context != n.modelAliases && n.context != n.tasks
    && n.styles != n.sessionState && n.styles != n.modelAliases && n.styles != n.tasks
    && n.prompts != n.sessionState && n.prompts != n.modelAliases && n.prompts != n.tasks
    && n.sessionState != n.modelAliases && n.sessionState != n.tasks && n.modelAliases != n.tasks
  }

  /** The trees whose targets the run creates before it looks at any source. */
  predicate IsWorkTree(l: Layout, m: Move) {
    m == l.context || m == l.styles || m == l.prompts || m == l.sessionState || m == l.tasks
  }

  predicate IsTree(l: Layout, m: Move) {
    IsWorkTree(l, m) || m == l.agents
  }

  predicate IsFixedDir(l: Layout, p: Path) {
    p in l.dirs || p == l.daemon.target
  }

  predicate IsFixedFile(l: Layout, p: Path) {
    p == l.projects || p == l.aliases || p == l.database.target
  }

  function Base(l: Layout): Path
    requires |l.dirs| > 0
  {
    l.dirs[0]
  }

  /** Neither inside the new state directory nor above it. */
  ghost predicate Outside(l: Layout, p: Path)
    requires |l.dirs| > 0
  {
    !(Base(l) <= p) && !(p <= Base(l))
  }

  ghost predicate SourcesOutside(l: Layout)
    requires |l.dirs| > 0
  {
    && (forall m {:trigger IsTree(l, m)} :: IsTree(l, m) ==> Outside(l, m.source))
    && Outside(l, l.legacyAliases)
    && Outside(l, l.database.source)
    && (forall m :: m in l.runtime ==> Outside(l, m.source))
    && (forall p :: p in l.prunable ==> Outside(l, p))
  }

  ghost predicate TargetsInside(l: Layout)
    requires |l.dirs| > 0
  {
    && |Base(l)| > 0
    && (forall p :: IsFixedDir(l, p) ==> Base(l) <= p)
    && (forall p :: IsFixedFile(l, p) ==> Base(l) < p)
    && (forall m {:trigger IsTree(l, m)} :: IsTree(l, m) ==> Base(l) < m.target)
    && Base(l) < l.config
  }

  ghost predicate TargetsApart(l: Layout) {
    && (forall m, n {:trigger IsTree(l, m), IsTree(l, n)} :: IsTree(l, m) && IsTree(l, n) && m.target <= n.target ==> m == n)
    && (forall m, p {:trigger IsTree(l, m), IsFixedDir(l, p)} :: IsTree(l, m) && IsFixedDir(l, p) ==> !(m.target < p))
    && (forall m, p {:trigger IsTree(l, m), IsFixedFile(l, p)} :: IsTree(l, m) && IsFixedFile(l, p) ==> !(m.target <= p))
    && (forall p :: IsFixedFile(l, p) ==> !IsFixedDir(l, p) && p != l.config)
    && !IsFixedDir(l, l.config)
    && (forall m {:trigger IsTree(l, m)} :: IsTree(l, m) ==> !(m.target <= l.config))
    && l.projects != l.aliases
  }

  predicate ParentEarlier(dirs: seq<Path>, i: int)
    requires 0 < i < |dirs|
  {
    |dirs[i]| > 0 && Parent(dirs[i]) in dirs[..i]
  }

  ghost predicate ParentsFirst(l: Layout)
    requires |l.dirs| > 0
  {
    && (forall i :: 0 < i < |l.dirs| ==> ParentEarlier(l.dirs, i))
    && |l.daemon.target| > 0 && Parent(l.daemon.target) in l.dirs
    && (forall p :: IsFixedFile(l, p) ==> |p| > 0 && IsFixedDir(l, Parent(p)))
    && Parent(l.projects) in l.dirs && Parent(l.aliases) in l.dirs
    && Parent(l.database.target) == l.daemon.target
    && (forall m {:trigger IsWorkTree(l, m)} :: IsWorkTree(l, m) ==> m.target in l.dirs)
    && |l.agents.target| > 0 && Parent(l.agents.target) == l.daemon.target
  }

  ghost predicate PrunableApart(l: Layout) {
    && (forall i, j :: 0 <= i < |l.prunable| && 0 <= j < |l.prunable| && i != j ==> !(l.prunable[i] <= l.prunable[j]))
    && (forall m :: m in l.runtime ==> m.source !in l.prunable)
    && l.legacyAliases !in l.prunable && l.database.source !in l.prunable
  }

  ghost predicate WellLaidOut(l: Layout) {
    && NonEmptyPaths(l)
    && |l.dirs| > 0
    && SourcesOutside(l)
    && TargetsInside(l)
    && TargetsApart(l)
    && ParentsFirst(l)
    && PrunableApart(l)
  }

  lemma NamesDistinct()
    ensures Distinct(NAMES)
  {
  }

  /** Paths that differ at one component are incomparable. */
  lemma Part(a: Path, b: Path, i: nat)
    requires i < |a| && i < |b| && a[i] != b[i]
    ensures !(a <= b) && !(b <= a)
  {
  }

  lemma OutsideAt(l: Layout, p: Path, i: nat)
    requires |l.dirs| > 0 && i < |p| && i < |Base(l)| && p[i] != Base(l)[i]
    ensures Outside(l, p)
  {
    Part(p, Base(l), i);
  }

  lemma TreeSourcesOutside(home: Path, n: Names)
    requires Distinct(n)
    ensures var l := LayoutOf(home, n); forall m {:trigger IsTree(l, m)} :: IsTree(l, m) ==> Outside(l, m.source)
  {
    var l := LayoutOf(home, n);
    var k := |home| + 1;
    OutsideAt(l, l.context.source, k);
    OutsideAt(l, l.styles.source, k);
    OutsideAt(l, l.prompts.source, k);
    OutsideAt(l, l.sessionState.source, k);
    OutsideAt(l, l.tasks.source, k);
    OutsideAt(l, l.agents.source, k);
    hide Outside, LayoutOf;
  }

  lemma RuntimeSourcesOutside(home: Path, n: Names)
    requires Distinct(n)
    ensures var l := LayoutOf(home, n); Outside(l, l.daemon.source) && forall m :: m in l.runtime ==> Outside(l, m.source)
  {
    var l := LayoutOf(home, n);
    var k := |home| + 1;
    OutsideAt(l, l.daemon.source, k);
    OutsideAt(l, l.runtime[0].source, k);
    OutsideAt(l, l.runtime[1].source, k);
    OutsideAt(l, l.runtime[2].source, k);
    assert forall m :: m in l.runtime ==> m == l.runtime[0] || m == l.runtime[1] || m == l.runtime[2];
    hide Outside, LayoutOf;
  }

  lemma SourcesAreOutside(home: Path, n: Names)
    requires Distinct(n)
    ensures SourcesOutside(LayoutOf(home, n))
  {
    var l := LayoutOf(home, n);
    var k := |home| + 1;
    TreeSourcesOutside(home, n);
    RuntimeSourcesOutside(home, n);
    OutsideAt(l, l.legacyAliases, k);
    OutsideAt(l, l.database.source, k);
    forall p | p in l.prunable
      ensures Outside(l, p)
    {
      var i :| 0 <= i < |l.prunable| && l.prunable[i] == p;
      PrunableAt(home, n, i);
      OutsideAt(l, p, k);
    }
    hide Outside, LayoutOf;
  }

  lemma TargetsAreInside(home: Path, n: Names)
    ensures TargetsInside(LayoutOf(home, n))
  {
  }

  /** The trees of the workspace, told apart by their last component. */
  lemma WorkspaceTreesApart(home: Path, n: Names)
    requires Distinct(n)
    ensures var l := LayoutOf(home, n);
            && Incomparable(l.context.target, l.styles.target)
            && Incomparable(l.context.target, l.prompts.target)
            && Incomparable(l.styles.target, l.prompts.target)
  {
    var l := LayoutOf(home, n);
    Part(l.context.target, l.styles.target, |home| + 3);
    Part(l.context.target, l.prompts.target, |home| + 3);
    Part(l.styles.target, l.prompts.target, |home| + 3);
  }

  predicate Incomparable(a: Path, b: Path) {
    !(a <= b) && !(b <= a)
  }

  /** The remaining trees, told apart by the component below the state directory. */
  lemma OtherTreesApart(home: Path, n: Names, x: Move, y: Move)
    requires Distinct(n)
    requires var l := LayoutOf(home, n);
             && IsTree(l, x)
             && (y == l.sessionState || y == l.tasks || y == l.agents)
             && x.target[|home| + 2] != y.target[|home| + 2]
    ensures Incomparable(x.target, y.target)
  {
    Part(x.target, y.target, |home| + 2);
  }

  lemma TreesAreApart(home: Path, n: Names)
    requires Distinct(n)
    ensures var l := LayoutOf(home, n);
            forall x, y :: IsTree(l, x) && IsTree(l, y) && x.target <= y.target ==> x == y
  {
    var l := LayoutOf(home, n);
    WorkspaceTreesApart(home, n);
    forall x, y | IsTree(l, x) && IsTree(l, y) && x != y
      ensures Incomparable(x.target, y.target)
    {
      if y == l.sessionState || y == l.tasks || y == l.agents {
        OtherTreesApart(home, n, x, y);
      } else if x == l.sessionState || x == l.tasks || x == l.agents {
        OtherTreesApart(home, n, y, x);
      }
    }
  }

  lemma DirsAreAboveTrees(home: Path, n: Names, m: Move, p: Path)
    requires Distinct(n) && IsTree(LayoutOf(home, n), m) && IsFixedDir(LayoutOf(home, n), p)
    ensures !(m.target < p)
  {
    var l := LayoutOf(home, n);
    if m == l.tasks && |p| > |m.target| {
      assert p[|home| + 2] == n.workspace || p[|home| + 2] == n.core;
      Part(m.target, p, |home| + 2);
    } else {
      assert |p| <= |home| + 4;
    }
  }

  lemma FilesAreOffTrees(home: Path, n: Names, m: Move)
    requires Distinct(n) && IsTree(LayoutOf(home, n), m)
    ensures var l := LayoutOf(home, n);
            && !(m.target <= l.projects) && !(m.target <= l.aliases) && !(m.target <= l.database.target)
            && !(m.target <= l.config)
  {
    var l := LayoutOf(home, n);
    var k := |home| + 2;
    if m == l.context || m == l.styles || m == l.prompts {
      Part(m.target, l.projects, k + 1);
      Part(m.target, l.aliases, k);
      Part(m.target, l.database.target, k);
    } else if m == l.sessionState {
      Part(m.target, l.projects, k);
      Part(m.target, l.aliases, k + 1);
      Part(m.target, l.database.target, k);
    } else if m == l.tasks {
      Part(m.target, l.projects, k);
      Part(m.target, l.aliases, k);
      Part(m.target, l.database.target, k);
    } else {
      Part(m.target, l.projects, k);
      Part(m.target, l.aliases, k);
      Part(m.target, l.database.target, k + 1);
    }
    Part(m.target, l.config, k);
  }

  lemma FilesAreNoDirs(home: Path, n: Names, p: Path)
    requires Distinct(n) && IsFixedDir(LayoutOf(home, n), p)
    ensures var l := LayoutOf(home, n); p != l.projects && p != l.aliases && p != l.database.target && p != l.config
  {
    var l := LayoutOf(home, n);
    var k := |home| + 2;
    assert l.projects[k] == n.workspace && l.projects[k + 1] == n.projectsFile;
    assert l.aliases[k] == n.core && l.aliases[k + 1] == n.aliasesFile;
    assert l.database.target[k] == n.swarm;
    assert |p| == k + 2 ==>
        || (p[k] == n.workspace && (p[k + 1] == n.context || p[k + 1] == n.styles || p[k + 1] == n.prompts))
        || (p[k] == n.core && p[k + 1] == n.sessionState);
    assert |p| == k + 1 ==> p[k] == n.workspace || p[k] == n.core || p[k] == n.tasks || p[k] == n.swarm;
    assert l.config[k] == n.configFile;
  }

  lemma ConfigIsApart(home: Path, n: Names)
    requires Distinct(n)
    ensures var l := LayoutOf(home, n);
            l.projects != l.aliases && l.config != l.projects && l.config != l.aliases && l.config != l.database.target
  {
    var l := LayoutOf(home, n);
    assert l.projects[|home| + 2] != l.aliases[|home| + 2];
    assert |l.config| == |home| + 3 && |l.projects| == |l.aliases| == |l.database.target| == |home| + 4;
  }

  lemma DirsAreOffTrees(home: Path, n: Names)
    requires Distinct(n)
    ensures var l := LayoutOf(home, n);
            forall m, p {:trigger IsTree(l, m), IsFixedDir(l, p)} :: IsTree(l, m) && IsFixedDir(l, p) ==> !(m.target < p)
  {
    var l := LayoutOf(home, n);
    hide LayoutOf, IsTree, IsFixedDir;
    forall m, p | IsTree(l, m) && IsFixedDir(l, p)
      ensures !(m.target < p)
    {
      DirsAreAboveTrees(home, n, m, p);
    }
  }

  lemma AllFilesAreOffTrees(home: Path, n: Names)
    requires Distinct(n)
    ensures var l := LayoutOf(home, n);
            && (forall m {:trigger IsTree(l, m)} :: IsTree(l, m) ==> !(m.target <= l.config))
            && (forall m, p {:trigger IsTree(l, m), IsFixedFile(l, p)} :: IsTree(l, m) && IsFixedFile(l, p) ==> !(m.target <= p))
  {
    var l := LayoutOf(home, n);
    hide LayoutOf, IsTree;
    forall m | IsTree(l, m)
      ensures !(m.target <= l.config) && forall p :: IsFixedFile(l, p) ==> !(m.target <= p)
    {
      FilesAreOffTrees(home, n, m);
    }
  }

  lemma NoFileIsADir(home: Path, n: Names)
    requires Distinct(n)
    ensures var l := LayoutOf(home, n); forall p :: IsFixedDir(l, p) ==> !IsFixedFile(l, p) && p != l.config
  {
    var l := LayoutOf(home, n);
    hide LayoutOf, IsFixedDir;
    forall p | IsFixedDir(l, p)
      ensures !IsFixedFile(l, p) && p != l.config
    {
      FilesAreNoDirs(home, n, p);
    }
  }

  lemma TargetsAreApart(home: Path, n: Names)
    requires Distinct(n)
    ensures TargetsApart(LayoutOf(home, n))
  {
    TreesAreApart(home, n);
    ConfigIsApart(home, n);
    DirsAreOffTrees(home, n);
    AllFilesAreOffTrees(home, n);
    NoFileIsADir(home, n);
    hide LayoutOf, IsTree, IsFixedDir;
  }

  lemma ParentOf(base: Path, name: string)
    ensures Parent(base + [name]) == base
  {
  }

  lemma ParentOfTwo(base: Path, x: string, y: string)
    ensures Parent(base + [x, y]) == base + [x]
  {
  }

  lemma DirParentsAreFirst(home: Path, n: Names, i: int)
    requires 0 < i < |LayoutOf(home, n).dirs|
    ensures ParentEarlier(LayoutOf(home, n).dirs, i)
  {
    var l := LayoutOf(home, n);
    var base := l.dirs[0];
    var parent := if i == 1 || i == 5 || i == 7 then 0 else if i == 6 then 5 else 1;
    if parent == 0 {
      ParentOf(base, if i == 1 then n.workspace else if i == 5 then n.core else n.tasks);
    } else if parent == 5 {
      ParentOfTwo(base, n.core, n.sessionState);
    } else {
      ParentOfTwo(base, n.workspace, if i == 2 then n.context else if i == 3 then n.styles else n.prompts);
    }
    assert l.dirs[..i][parent] == l.dirs[parent];
  }

  lemma FileParents(home: Path, n: Names)
    ensures var l := LayoutOf(home, n);
            && |l.daemon.target| > 0 && Parent(l.daemon.target) == l.dirs[0]
            && |l.projects| > 0 && Parent(l.projects) == l.dirs[1]
            && |l.aliases| > 0 && Parent(l.aliases) == l.dirs[5]
            && |l.database.target| > 0 && Parent(l.database.target) == l.daemon.target
            && |l.agents.target| > 0 && Parent(l.agents.target) == l.daemon.target
  {
    var base := home + [n.pi, n.basecamp];
    ParentOf(base, n.swarm);
    ParentOfTwo(base, n.workspace, n.projectsFile);
    ParentOfTwo(base, n.core, n.aliasesFile);
    ParentOfTwo(base, n.swarm, n.database);
    ParentOfTwo(base, n.swarm, n.agents);
  }

  lemma TreeTargetsAreDirs(home: Path, n: Names, m: Move)
    requires IsWorkTree(LayoutOf(home, n), m)
    ensures m.target in LayoutOf(home, n).dirs
  {
    var l := LayoutOf(home, n);
    var i := if m == l.context then 2 else if m == l.styles then 3 else if m == l.prompts then 4
             else if m == l.sessionState then 6 else 7;
    assert l.dirs[i] == m.target;
  }

  lemma AssembleParents(l: Layout)
    requires |l.dirs| > 5
    requires forall i :: 0 < i < |l.dirs| ==> ParentEarlier(l.dirs, i)
    requires forall m :: IsWorkTree(l, m) ==> m.target in l.dirs
    requires |l.daemon.target| > 0 && Parent(l.daemon.target) == l.dirs[0]
    requires |l.projects| > 0 && Parent(l.projects) == l.dirs[1]
    requires |l.aliases| > 0 && Parent(l.aliases) == l.dirs[5]
    requires |l.database.target| > 0 && Parent(l.database.target) == l.daemon.target
    requires |l.agents.target| > 0 && Parent(l.agents.target) == l.daemon.target
    ensures ParentsFirst(l)
  {
  }

  lemma ParentsAreFirst(home: Path, n: Names)
    ensures ParentsFirst(LayoutOf(home, n))
  {
    var l := LayoutOf(home, n);
    forall i | 0 < i < |l.dirs|
      ensures ParentEarlier(l.dirs, i)
    {
      DirParentsAreFirst(home, n, i);
    }
    forall m | IsWorkTree(l, m)
      ensures m.target in l.dirs
    {
      TreeTargetsAreDirs(home, n, m);
    }
    FileParents(home, n);
    AssembleParents(l);
  }

  function PrunableName(n: Names, i: nat): string {
    match i
    case 0 => n.agent
    case 1 => n.context
    case 2 => n.styles
    case 3 => n.prompts
    case 4 => n.sessionState
    case 5 => n.modelAliases
    case _ => n.tasks
  }

  lemma PrunableAt(home: Path, n: Names, i: nat)
    requires i < |LayoutOf(home, n).prunable|
    ensures var p := LayoutOf(home, n).prunable[i];
            |home| + 1 < |p| <= |home| + 3 && p[|home| + 1] == PrunableName(n, i) && (|p| == |home| + 3 ==> i == 0)
  {
  }

  /** What is known of the prunable directory at one index: where it differs from the others, and its depth. */
  predicate PrunableFits(n: Names, k: nat, i: nat, p: Path) {
    k < |p| <= k + 2 && p[k] == PrunableName(n, i) && (|p| == k + 2 ==> i == 0)
  }

  lemma PrunableIsShort(n: Names, k: nat, i: nat, p: Path)
    requires PrunableFits(n, k, i, p)
    ensures |p| <= k + 2 && (|p| == k + 2 ==> p[k] == n.agent)
  {
  }

  lemma TwoPrunables(n: Names, k: nat, i: nat, j: nat, p: Path, q: Path)
    requires Distinct(n) && i < 7 && j < 7 && i != j && PrunableFits(n, k, i, p) && PrunableFits(n, k, j, q)
    ensures !(p <= q)
  {
    assert PrunableName(n, i) != PrunableName(n, j);
    hide PrunableName;
    Part(p, q, k);
  }

  lemma FilesAreDeep(home: Path, n: Names)
    requires Distinct(n)
    ensures var l := LayoutOf(home, n);
            var k := |home| + 1;
            && (forall m :: m in l.runtime ==> |m.source| == k + 3)
            && |l.legacyAliases| == k + 2 && l.legacyAliases[k] == n.modelAliases && n.modelAliases != n.agent
            && |l.database.source| == k + 3
  {
  }

  lemma PrunablesAreApart(home: Path, n: Names)
    requires Distinct(n)
    ensures PrunableApart(LayoutOf(home, n))
  {
    var l := LayoutOf(home, n);
    var k := |home| + 1;
    forall i | 0 <= i < |l.prunable|
      ensures PrunableFits(n, k, i, l.prunable[i])
    {
      PrunableAt(home, n, i);
    }
    FilesAreDeep(home, n);
    assert |l.prunable| == 7;
    hide LayoutOf, PrunableFits, PrunableName;
    forall i, j | 0 <= i < |l.prunable| && 0 <= j < |l.prunable| && i != j
      ensures !(l.prunable[i] <= l.prunable[j])
    {
      TwoPrunables(n, k, i, j, l.prunable[i], l.prunable[j]);
    }
    forall p | p in l.prunable
      ensures |p| <= k + 2 && (|p| == k + 2 ==> p[k] == n.agent)
    {
      var i :| 0 <= i < |l.prunable| && l.prunable[i] == p;
      PrunableIsShort(n, k, i, p);
    }
  }

  lemma StandardIsWellLaidOut(home: Path)
    ensures WellLaidOut(Standard(home))
  {
    NamesDistinct();
    SourcesAreOutside(home, NAMES);
    TargetsAreInside(home, NAMES);
    TargetsAreApart(home, NAMES);
    ParentsAreFirst(home, NAMES);
    PrunablesAreApart(home, NAMES);
  }
}
