/** The prediction theorem: what a dry run says about the apply run on the same disk. */
module MigrationRun {
  import opened Prelude
  import opened FileTree
  import opened MigrationPlan
  import opened MigrationLayout
  import opened MigrationDryRun
  import opened MigrationPrediction

  // ----- Pruning -----

  /** Two disks show the same node and the same emptiness at `p`. */
  ghost predicate SameAt(t: Tree, files: Tree, p: Path) {
    && Lookup(files, p) == Lookup(t, p)
    && (HasChild(files, p) <==> HasChild(t, p))
  }

  lemma SameBelow(t: Tree, files: Tree, p: Path)
    requires Lookup(files, p) == Lookup(t, p)
    requires forall q :: p < q ==> Lookup(files, q) == Lookup(t, q)
    ensures SameAt(t, files, p)
  {
    forall q | p < q
      ensures q in files <==> q in t
    {
      assert Lookup(files, q) == Lookup(t, q);
    }
  }

  lemma OutsideLooksTheSame(l: Layout, t: Tree, a: Plan, p: Path)
    requires WellLaidOut(l) && Consistent(l, t, a) && Outside(l, p)
    ensures SameAt(t, a.files, p)
  {
    assert |l.dirs| > 0;
    hide WellLaidOut, Consistent, Outside, SameAt, Lookup;
    SourceUnchanged(l, t, a, p);
    forall q | p < q
      ensures Lookup(a.files, q) == Lookup(t, q)
    {
      OutsideBelow(l, p, q);
      SourceUnchanged(l, t, a, q);
    }
    SameBelow(t, a.files, p);
  }

  lemma RemovalElsewhere(t: Tree, files: Tree, p: Path, q: Path)
    requires SameAt(t, files, p) && !(p <= q)
    ensures SameAt(t, files - {q}, p)
  {
    if HasChild(files, p) {
      var c :| c in files && |c| == |p| + 1 && p < c;
      assert c in files - {q};
    }
  }

  ghost predicate PruneInStep(l: Layout, t: Tree, d: Plan, a: Plan, k: nat)
    requires k <= |l.prunable|
  {
    && d.files == t && !d.raised && !a.raised && d.actions == a.actions
    && (forall j :: k <= j < |l.prunable| ==> SameAt(t, a.files, l.prunable[j]))
  }

  lemma PruneDirInStep(l: Layout, t: Tree, d: Plan, a: Plan, pruneEmpty: bool, k: nat)
    requires PrunableApart(l) && k < |l.prunable| && PruneInStep(l, t, d, a, k)
    ensures PruneInStep(l, t, PruneDir(d, Dry(pruneEmpty), l.prunable[k]), PruneDir(a, App(pruneEmpty), l.prunable[k]), k + 1)
  {
    var p := l.prunable[k];
    var a' := PruneDir(a, App(pruneEmpty), p);
    forall j | k + 1 <= j < |l.prunable|
      ensures SameAt(t, a'.files, l.prunable[j])
    {
      RemovalElsewhere(t, a.files, l.prunable[j], p);
    }
  }

  lemma {:induction false} PruneAllInStep(l: Layout, t: Tree, d: Plan, a: Plan, pruneEmpty: bool, k: nat)
    requires PrunableApart(l) && k <= |l.prunable| && PruneInStep(l, t, d, a, 0)
    ensures PruneInStep(l, t, PruneAll(d, Dry(pruneEmpty), l.prunable[..k]), PruneAll(a, App(pruneEmpty), l.prunable[..k]), k)
  {
    if k > 0 {
      assert l.prunable[..k][..k - 1] == l.prunable[..k - 1];
      PruneAllInStep(l, t, d, a, pruneEmpty, k - 1);
      PruneDirInStep(l, t, PruneAll(d, Dry(pruneEmpty), l.prunable[..k - 1]),
                     PruneAll(a, App(pruneEmpty), l.prunable[..k - 1]), pruneEmpty, k - 1);
    }
  }

  lemma PruneStays(l: Layout, t: Tree, d: Plan, a: Plan, pruneEmpty: bool)
    requires WellLaidOut(l) && Rooted(t) && InStep(l, t, d, a) && !a.raised
    ensures var d', a' := Prune(d, Dry(pruneEmpty), l), Prune(a, App(pruneEmpty), l);
            !d'.raised && !a'.raised && d'.actions == a'.actions
  {
    SameView(l, t, d, a);
    forall j | 0 <= j < |l.prunable|
      ensures SameAt(t, a.files, l.prunable[j])
    {
      OutsideLooksTheSame(l, t, a, l.prunable[j]);
    }
    PruneAllInStep(l, t, d, a, pruneEmpty, |l.prunable|);
    assert l.prunable[..|l.prunable|] == l.prunable;
  }

  lemma {:induction false} PruningPlansNothing(s: Plan, o: Options, dirs: seq<Path>, t: Tree)
    ensures PruneAll(s, o, dirs).raised == s.raised
    ensures Clear(t, PruneAll(s, o, dirs).actions) <==> Clear(t, s.actions)
  {
    if |dirs| > 0 {
      var earlier := PruneAll(s, o, dirs[..|dirs| - 1]);
      PruningPlansNothing(s, o, dirs[..|dirs| - 1], t);
      ClearAppended(t, earlier.actions, Action(RetainNonEmpty, Some(dirs[|dirs| - 1]), None, DirNotEmpty));
      ClearAppended(t, earlier.actions, Action(PruneEmpty, Some(dirs[|dirs| - 1]), None, RemoveEmpty));
    }
  }

  // ----- The whole run -----

  /** A dry run writes nothing, and it predicts the apply run: apply raises exactly when the dry run
      raised or its plan puts something below a non-directory, and otherwise both record the same
      actions in the same order. */
  lemma DryRunPredictsApply(l: Layout, t: Tree, pruneEmpty: bool, walks: Walks)
    requires WellLaidOut(l) && Rooted(t) && ValidWalks(l, t, walks)
    ensures var d, a := Run(t, Dry(pruneEmpty), l, walks), Run(t, App(pruneEmpty), l, walks);
            && d.files == t
            && (a.raised <==> d.raised || !Clear(t, d.actions))
            && a.actions <= d.actions && (!a.raised ==> a.actions == d.actions)
  {
    var d, a := Moved(t, Dry(pruneEmpty), l, walks), Moved(t, App(pruneEmpty), l, walks);
    MovedInStep(l, t, pruneEmpty, walks);
    PruningPlansNothing(d, Dry(pruneEmpty), l.prunable, t);
    PruningPlansNothing(a, App(pruneEmpty), l.prunable, t);
    hide Moved, Clear, Consistent, WellLaidOut, PruneAll;
    if a.raised { RaisedPrunesNothing(l, d, a, pruneEmpty); } else { PruneStays(l, t, d, a, pruneEmpty); }
  }

  /** A run that has raised records nothing more, while the dry run goes on. */
  lemma RaisedPrunesNothing(l: Layout, d: Plan, a: Plan, pruneEmpty: bool)
    requires a.raised && a.actions <= d.actions
    ensures Prune(a, App(pruneEmpty), l) == a && Prune(a, App(pruneEmpty), l).actions <= Prune(d, Dry(pruneEmpty), l).actions
  {
    RaisedStays(a, App(pruneEmpty), l.prunable);
    hide PruneAll;
  }

  lemma {:induction false} RaisedStays(s: Plan, o: Options, dirs: seq<Path>)
    requires s.raised
    ensures PruneAll(s, o, dirs) == s
  {
    if |dirs| > 0 { RaisedStays(s, o, dirs[..|dirs| - 1]); }
  }

  /** The same for the directories the script really uses. */
  lemma DryRunPredictsApplyInHome(home: Path, t: Tree, pruneEmpty: bool, walks: Walks)
    requires Rooted(t) && ValidWalks(Standard(home), t, walks)
    ensures NonEmptyPaths(Standard(home))
    ensures var d, a := Run(t, Dry(pruneEmpty), Standard(home), walks), Run(t, App(pruneEmpty), Standard(home), walks);
            && d.files == t
            && (a.raised <==> d.raised || !Clear(t, d.actions))
            && a.actions <= d.actions && (!a.raised ==> a.actions == d.actions)
  {
    StandardIsWellLaidOut(home);
    DryRunPredictsApply(Standard(home), t, pruneEmpty, walks);
  }
}
