/** The dry run predicts the apply run: both modes take the same decisions, because everything an
    apply run created is something its own action list already plans. */
module MigrationDryRun {
  import opened Prelude
  import opened FileTree
  import opened MigrationPlan
  import opened MigrationLayout

  // ----- What the plan may create -----

  ghost predicate IsDirTarget(l: Layout, t: Tree, p: Path) {
    IsFixedDir(l, p) || exists m {:trigger MirrorsDir(t, m, p)} :: IsTree(l, m) && MirrorsDir(t, m, p)
  }

  ghost predicate MirrorsDir(t: Tree, m: Move, p: Path) {
    m.target <= p && IsDir(t, m.source + p[|m.target|..])
  }

  ghost predicate IsFileTarget(l: Layout, t: Tree, p: Path) {
    IsFixedFile(l, p) || exists m {:trigger MirrorsFile(t, m, p)} :: IsTree(l, m) && MirrorsFile(t, m, p)
  }

  ghost predicate MirrorsFile(t: Tree, m: Move, p: Path) {
    m.target < p && IsFile(t, m.source + p[|m.target|..])
  }

  lemma TargetsOnSameTree(l: Layout, m: Move, n: Move, p: Path)
    requires WellLaidOut(l) && IsTree(l, m) && IsTree(l, n) && m.target <= p && n.target <= p
    ensures m == n
  {
    assert m.target <= n.target || n.target <= m.target;
  }

  lemma DirTargetsAreNoFileTargets(l: Layout, t: Tree, p: Path)
    requires WellLaidOut(l) && IsDirTarget(l, t, p)
    ensures !IsFileTarget(l, t, p) && p != l.config && Base(l) <= p
  {
    if IsFixedDir(l, p) {
    } else {
      var m :| IsTree(l, m) && MirrorsDir(t, m, p);
      forall n | IsTree(l, n) && MirrorsFile(t, n, p)
        ensures false
      {
        TargetsOnSameTree(l, m, n, p);
      }
    }
  }

  lemma MirroredParent(t: Tree, m: Move, p: Path)
    requires Rooted(t) && MirrorsDir(t, m, p) && p != m.target
    ensures |p| > 0 && MirrorsDir(t, m, Parent(p))
  {
    var q := Parent(p);
    assert m.source + q[|m.target|..] == Parent(m.source + p[|m.target|..]);
    assert m.target <= q;
  }

  lemma FixedParent(l: Layout, p: Path)
    requires |l.dirs| > 0 && ParentsFirst(l) && IsFixedDir(l, p) && p != Base(l)
    ensures |p| > 0 && IsFixedDir(l, Parent(p))
  {
    if p in l.dirs {
      var i :| 0 <= i < |l.dirs| && l.dirs[i] == p;
      assert ParentEarlier(l.dirs, i);
    }
  }

  lemma DirTargetsHaveDirParents(l: Layout, t: Tree, p: Path)
    requires |l.dirs| > 0 && ParentsFirst(l) && Rooted(t) && IsDirTarget(l, t, p) && p != Base(l)
    ensures |p| > 0 && IsDirTarget(l, t, Parent(p))
  {
    if IsFixedDir(l, p) {
      FixedParent(l, p);
    } else {
      var m :| IsTree(l, m) && MirrorsDir(t, m, p);
      if p == m.target {
        assert !IsWorkTree(l, m);
      } else {
        MirroredParent(t, m, p);
      }
    }
  }

  // ----- The disk of an apply run, seen against the disk it started from -----

  ghost predicate Kept(l: Layout, t: Tree, s: Plan) {
    forall p :: p in t ==>
      && p in s.files
      && (s.files[p] == t[p] || (p == l.config && PlannedWrite(s.actions, p) && t[p].File? && s.files[p].File?))
  }

  ghost predicate Fresh(l: Layout, t: Tree, s: Plan)
    requires |l.dirs| > 0
  {
    forall p :: p in s.files && p !in t ==>
      || (s.files[p].Dir? && (PlannedDir(s.actions, p) || p < Base(l)))
      || (s.files[p].File? && PlannedWrite(s.actions, p))
  }

  ghost predicate DirsMade(l: Layout, t: Tree, s: Plan) {
    forall p {:trigger PlannedDir(s.actions, p)} :: PlannedDir(s.actions, p) ==> IsDirTarget(l, t, p) && IsDir(s.files, p)
  }

  ghost predicate FilesWritten(l: Layout, t: Tree, s: Plan) {
    forall p {:trigger PlannedWrite(s.actions, p)} :: PlannedWrite(s.actions, p) ==>
      IsFile(s.files, p) && (IsFileTarget(l, t, p) || (p == l.config && p in t))
  }

  ghost predicate Consistent(l: Layout, t: Tree, s: Plan)
    requires |l.dirs| > 0
  {
    Rooted(s.files) && Kept(l, t, s) && Fresh(l, t, s) && DirsMade(l, t, s) && FilesWritten(l, t, s)
  }

  lemma DirDecision(l: Layout, t: Tree, s: Plan, p: Path)
    requires WellLaidOut(l) && Consistent(l, t, s) && IsDirTarget(l, t, p)
    ensures p in s.files || PlannedDir(s.actions, p) <==> p in t || PlannedDir(s.actions, p)
    ensures p in s.files && p !in t ==> IsDir(s.files, p)
  {
    DirTargetsAreNoFileTargets(l, t, p);
  }

  lemma FileDecision(l: Layout, t: Tree, s: Plan, p: Path)
    requires WellLaidOut(l) && Consistent(l, t, s) && IsFileTarget(l, t, p)
    ensures Taken(s, p) <==> p in t || PlannedWrite(s.actions, p)
    ensures Taken(s, p) ==> p in s.files
    ensures Base(l) < p
  {
    if IsDirTarget(l, t, p) { DirTargetsAreNoFileTargets(l, t, p); }
    assert Base(l) < p;
  }

  /** Whether a directory the plan needs is usable on the apply run's disk can be read off the disk
      the run started from. */
  lemma ObstructionPredicted(l: Layout, t: Tree, s: Plan, p: Path)
    requires |l.dirs| > 0 && Rooted(s.files) && Kept(l, t, s)
    requires p in s.files && (p !in t ==> IsDir(s.files, p))
    ensures Obstructed(t, p) <==> !IsDir(s.files, p)
  {
    DirsAbove(s.files, p);
  }

  /** No directory or file the plan creates has anything but directories above it. */
  predicate Clear(t: Tree, actions: seq<Action>) {
    forall a :: a in actions && (a.kind == EnsureDir || a.kind == Copy) && a.target.Some? ==>
      |a.target.value| > 0 && !Obstructed(t, Parent(a.target.value))
  }

  /** Dry run `d` and apply run `a`, started on the disk `t`, are in step: apply has recorded what the dry
      run did, as far as it came, and it has raised only if the dry run did too or has planned something
      below a file. */
  ghost predicate InStep(l: Layout, t: Tree, d: Plan, a: Plan)
    requires |l.dirs| > 0
  {
    && d.files == t && a.actions <= d.actions
    && (a.raised ==> d.raised || !Clear(t, d.actions))
    && (!a.raised ==> !d.raised && d.actions == a.actions && Consistent(l, t, a) && Clear(t, d.actions))
  }

  lemma SameView(l: Layout, t: Tree, d: Plan, a: Plan)
    requires |l.dirs| > 0 && InStep(l, t, d, a) && !a.raised
    ensures d.files == t && !d.raised && d.actions == a.actions && Consistent(l, t, a)
  {
  }

  lemma ClearShrinks(t: Tree, earlier: seq<Action>, later: seq<Action>)
    requires earlier <= later && Clear(t, later)
    ensures Clear(t, earlier)
  {
    assert forall a :: a in earlier ==> a in later;
  }

  /** Once apply has raised, whatever the dry run still plans keeps them in step. */
  lemma RaisedStaysInStep(l: Layout, t: Tree, o: Options, d: Plan, a: Plan, d': Plan, a': Plan)
    requires |l.dirs| > 0 && InStep(l, t, d, a) && a.raised && !o.apply && Grows(d, o, d') && a' == a
    ensures InStep(l, t, d', a')
  {
    if !d'.raised && Clear(t, d'.actions) {
      ClearShrinks(t, d.actions, d'.actions);
    }
  }

  lemma Appended(actions: seq<Action>, x: Action)
    ensures forall p :: PlannedDir(actions + [x], p) <==> PlannedDir(actions, p) || (x.kind == EnsureDir && x.target == Some(p))
    ensures forall p :: PlannedWrite(actions + [x], p) <==> PlannedWrite(actions, p) || WritesTo(x, p)
  {
    var more := actions + [x];
    assert forall a :: a in more <==> a in actions || a == x;
    forall p
      ensures PlannedDir(more, p) <==> PlannedDir(actions, p) || (x.kind == EnsureDir && x.target == Some(p))
    {
      if PlannedDir(actions, p) { var a :| a in actions && a.kind == EnsureDir && a.target == Some(p); assert a in more; }
      if x.kind == EnsureDir && x.target == Some(p) { assert x in more; }
    }
    forall p
      ensures PlannedWrite(more, p) <==> PlannedWrite(actions, p) || WritesTo(x, p)
    {
      if PlannedWrite(actions, p) { var a :| a in actions && WritesTo(a, p); assert a in more; }
      if WritesTo(x, p) { assert x in more; }
    }
  }

  lemma ClearAppended(t: Tree, actions: seq<Action>, x: Action)
    ensures Clear(t, actions + [x]) <==>
              && Clear(t, actions)
              && ((x.kind == EnsureDir || x.kind == Copy) && x.target.Some? ==>
                    |x.target.value| > 0 && !Obstructed(t, Parent(x.target.value)))
  {
    var more := actions + [x];
    assert forall a :: a in more <==> a in actions || a == x;
    assert x in more;
    assert forall a :: a in actions ==> a in more;
  }

  /** Reporting without planning a write. */
  lemma ReportInStep(l: Layout, t: Tree, d: Plan, a: Plan, x: Action)
    requires |l.dirs| > 0 && InStep(l, t, d, a) && !a.raised
    requires x.kind != EnsureDir && x.kind != Copy && x.kind != Update
    ensures InStep(l, t, d.(actions := d.actions + [x]), a.(actions := a.actions + [x]))
  {
    Appended(a.actions, x);
    ClearAppended(t, d.actions, x);
  }

  lemma DirMade(l: Layout, t: Tree, s: Plan, p: Path, x: Action)
    requires |l.dirs| > 0 && Consistent(l, t, s) && IsDirTarget(l, t, p)
    requires |p| > 0 && p !in s.files && IsDir(s.files, Parent(p))
    requires x == Action(EnsureDir, None, Some(p), CreateTarget)
    ensures Consistent(l, t, Plan(s.files[p := Dir], s.actions + [x], false))
  {
    Appended(s.actions, x);
    MakeChild(s.files, p);
  }

  lemma MakeDirInStep(l: Layout, t: Tree, d: Plan, a: Plan, pruneEmpty: bool, p: Path)
    requires WellLaidOut(l) && Rooted(t) && InStep(l, t, d, a)
    requires IsDirTarget(l, t, p) && p != Base(l) && |p| > 0
    requires !a.raised ==> Parent(p) in a.files
    ensures InStep(l, t, MakeDir(d, Options(false, pruneEmpty), p), MakeDir(a, Options(true, pruneEmpty), p))
    ensures var a' := MakeDir(a, Options(true, pruneEmpty), p); !a'.raised ==> p in a'.files
  {
    var dry := Options(false, pruneEmpty);
    var d', a' := MakeDir(d, dry, p), MakeDir(a, Options(true, pruneEmpty), p);
    if a.raised {
      RaisedStaysInStep(l, t, dry, d, a, d', a');
    } else {
      DirDecision(l, t, a, p);
      if p in a.files || PlannedDir(a.actions, p) {
      } else {
        var x := Action(EnsureDir, None, Some(p), CreateTarget);
        ClearAppended(t, d.actions, x);
        DirTargetsHaveDirParents(l, t, p);
        DirDecision(l, t, a, Parent(p));
        ObstructionPredicted(l, t, a, Parent(p));
        ObstructedBelow(a.files, p);
        ObstructedAtNode(a.files, Parent(p));
        if IsDir(a.files, Parent(p)) {
          DirMade(l, t, a, p, x);
          MakeChild(a.files, p);
        }
      }
    }
  }

  // ----- The first directory, which may bring its ancestors along -----

  lemma StartInStep(l: Layout, t: Tree)
    requires |l.dirs| > 0 && Rooted(t)
    ensures InStep(l, t, Plan(t, [], false), Plan(t, [], false))
  {
  }

  lemma MissingDirsRooted(t: Tree, p: Path)
    requires Rooted(t) && !Obstructed(t, p)
    ensures Rooted(t + MissingDirs(t, p))
    ensures forall q :: q in MissingDirs(t, p) ==> q <= p && q !in t
    ensures p in t + MissingDirs(t, p)
  {
    var made := t + MissingDirs(t, p);
    assert p[..|p|] == p;
    forall q | q in made && |q| > 0
      ensures Parent(q) in made && made[Parent(q)] == Dir
    {
      if q in MissingDirs(t, p) {
        var i :| 0 <= i <= |p| && p[..i] !in t && q == p[..i];
        assert Parent(q) == p[..i - 1];
      }
    }
  }

  lemma BasePlanned(l: Layout, actions: seq<Action>, x: Action)
    requires |l.dirs| > 0 && x == Action(EnsureDir, None, Some(Base(l)), CreateTarget) && actions == [x]
    ensures forall p :: PlannedDir(actions, p) <==> p == Base(l)
    ensures forall p :: !PlannedWrite(actions, p)
  {
    assert x in actions;
    assert forall a :: a in actions ==> a == x;
  }

  lemma BaseMade(l: Layout, t: Tree, x: Action)
    requires |l.dirs| > 0 && Rooted(t) && Base(l) !in t && !Obstructed(t, Base(l))
    requires x == Action(EnsureDir, None, Some(Base(l)), CreateTarget)
    ensures Consistent(l, t, Plan(t + MissingDirs(t, Base(l)), [x], false))
  {
    var s := Plan(t + MissingDirs(t, Base(l)), [x], false);
    MissingDirsRooted(t, Base(l));
    BasePlanned(l, s.actions, x);
    assert Kept(l, t, s);
    assert IsFixedDir(l, Base(l));
    forall p | p in s.files && p !in t
      ensures s.files[p].Dir? && (p == Base(l) || p < Base(l))
    {
      assert p in MissingDirs(t, Base(l));
    }
  }

  lemma BaseInStep(l: Layout, t: Tree, pruneEmpty: bool)
    requires |l.dirs| > 0 && |Base(l)| > 0 && Rooted(t)
    ensures var d := MakeDir(Plan(t, [], false), Options(false, pruneEmpty), Base(l));
            var a := MakeDir(Plan(t, [], false), Options(true, pruneEmpty), Base(l));
            InStep(l, t, d, a) && (!a.raised ==> Base(l) in a.files)
  {
    StartInStep(l, t);
    assert !PlannedDir([], Base(l));
    if Base(l) !in t {
      var x := Action(EnsureDir, None, Some(Base(l)), CreateTarget);
      assert [] + [x] == [x];
      ObstructedBelow(t, Base(l));
      if Obstructed(t, Base(l)) {
        assert x in [x];
      } else {
        BaseMade(l, t, x);
        MissingDirsRooted(t, Base(l));
      }
    }
  }

  // ----- Writing files -----

  lemma FileTargetsHaveDirParents(l: Layout, t: Tree, p: Path)
    requires |l.dirs| > 0 && ParentsFirst(l) && Rooted(t) && IsFileTarget(l, t, p)
    ensures |p| > 0 && IsDirTarget(l, t, Parent(p))
  {
    if IsFixedFile(l, p) {
    } else {
      var m :| IsTree(l, m) && MirrorsFile(t, m, p);
      var q := Parent(p);
      assert m.source + q[|m.target|..] == Parent(m.source + p[|m.target|..]);
      assert MirrorsDir(t, m, q);
    }
  }

  lemma FileKept(l: Layout, t: Tree, s: Plan, p: Path, content: Content, x: Action)
    requires |l.dirs| > 0 && Kept(l, t, s) && Fresh(l, t, s) && p !in s.files
    requires x.kind == Copy && x.target == Some(p)
    ensures Kept(l, t, Plan(s.files[p := File(content)], s.actions + [x], false))
    ensures Fresh(l, t, Plan(s.files[p := File(content)], s.actions + [x], false))
  {
    Appended(s.actions, x);
  }

  lemma FilePlanned(l: Layout, t: Tree, s: Plan, p: Path, content: Content, x: Action)
    requires |l.dirs| > 0 && DirsMade(l, t, s) && FilesWritten(l, t, s) && p !in s.files && IsFileTarget(l, t, p)
    requires x.kind == Copy && x.target == Some(p)
    ensures DirsMade(l, t, Plan(s.files[p := File(content)], s.actions + [x], false))
    ensures FilesWritten(l, t, Plan(s.files[p := File(content)], s.actions + [x], false))
  {
    Appended(s.actions, x);
  }

  /** Recording a copy and, in apply mode, writing its target. */
  lemma WriteInStep(l: Layout, t: Tree, d: Plan, a: Plan, p: Path, content: Content, x: Action)
    requires WellLaidOut(l) && Rooted(t) && InStep(l, t, d, a) && !a.raised
    requires |p| > 0 && IsFileTarget(l, t, p) && !Taken(a, p) && Parent(p) in a.files
    requires x.kind == Copy && x.target == Some(p)
    ensures var a' := a.(actions := a.actions + [x]).Wrote(WriteFile(a.files, p, content));
            && InStep(l, t, d.(actions := d.actions + [x]), a')
            && (!a'.raised ==> p in a'.files && a.files.Keys <= a'.files.Keys)
  {
    var q := Parent(p);
    ClearAppended(t, d.actions, x);
    FileTargetsHaveDirParents(l, t, p);
    DirDecision(l, t, a, q);
    ObstructionPredicted(l, t, a, q);
    ObstructedAtNode(a.files, q);
    if IsDir(a.files, q) {
      WriteInto(a.files, p, content);
      FileKept(l, t, a, p, content, x);
      FilePlanned(l, t, a, p, content, x);
    }
  }

  lemma OutsideBelow(l: Layout, source: Path, p: Path)
    requires |l.dirs| > 0 && Outside(l, source) && source <= p
    ensures Outside(l, p)
  {
  }

  /** Nothing the plan writes lies where it reads from. */
  lemma SourceUnchanged(l: Layout, t: Tree, s: Plan, p: Path)
    requires WellLaidOut(l) && Consistent(l, t, s) && Outside(l, p)
    ensures Lookup(s.files, p) == Lookup(t, p)
  {
    if p in s.files && p !in t {
      if s.files[p].Dir? && PlannedDir(s.actions, p) { DirTargetsAreNoFileTargets(l, t, p); }
      if s.files[p].File? && IsFileTarget(l, t, p) { FileDecision(l, t, s, p); }
    }
  }

  lemma CopyFileInStep(l: Layout, t: Tree, d: Plan, a: Plan, pruneEmpty: bool, m: Move)
    requires WellLaidOut(l) && Rooted(t) && InStep(l, t, d, a)
    requires Outside(l, m.source) && |m.target| > 0
    requires IsFile(t, m.source) ==> IsFileTarget(l, t, m.target) && (!a.raised ==> Parent(m.target) in a.files)
    ensures InStep(l, t, CopyFile(d, Options(false, pruneEmpty), m), CopyFile(a, Options(true, pruneEmpty), m))
    ensures var a' := CopyFile(a, Options(true, pruneEmpty), m);
            !a'.raised && IsFile(t, m.source) ==> m.target in a'.files
  {
    var dry := Options(false, pruneEmpty);
    if a.raised {
      RaisedStaysInStep(l, t, dry, d, a, CopyFile(d, dry, m), CopyFile(a, Options(true, pruneEmpty), m));
    } else {
      SourceUnchanged(l, t, a, m.source);
      if m.source !in t {
        ReportInStep(l, t, d, a, Action(Missing, Some(m.source), Some(m.target), SourceAbsent));
      } else if !t[m.source].File? {
        ReportInStep(l, t, d, a, Action(Skip, Some(m.source), Some(m.target), NotRegularFile));
      } else {
        FileDecision(l, t, a, m.target);
        if Taken(a, m.target) {
          ReportInStep(l, t, d, a, Action(Skip, Some(m.source), Some(m.target), TargetTaken));
        } else {
          WriteInStep(l, t, d, a, m.target, t[m.source].content, Action(Copy, Some(m.source), Some(m.target), CopyWhole));
        }
      }
    }
  }
}
