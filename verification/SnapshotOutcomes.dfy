/** What becomes of every untracked path: its changes are in the snapshot, or a warning names it. */
module SnapshotOutcomes {
  import opened Prelude
  import opened PatchParser
  import opened PatchPrinter
  import opened SectionFilter
  import opened SnapshotPatch
  import opened PatchRelabel
  import V = DiffValidation

  predicate IsRead(e: Untracked) {
    e.reading.Patch?
  }

  /** Warnings name exactly the paths that could not be read as a file, in the order they were listed in. */
  lemma {:induction false} WarnedExactly(entries: seq<Untracked>)
    ensures var places := V.Positions(entries, IsRead, false);
            |Warned(entries)| == |places| && forall k :: 0 <= k < |places| ==> Warned(entries)[k] == entries[places[k]].path
  {
    if |entries| > 0 { WarnedExactly(entries[..|entries| - 1]); }
  }

  lemma {:induction false} ListedExactly(entries: seq<Untracked>, e: Untracked)
    ensures e in Listed(entries) <==> e in entries && e.reading.Patch? && e.reading.text != ""
  {
    if |entries| > 0 {
      ListedExactly(entries[..|entries| - 1], e);
      assert entries == entries[..|entries| - 1] + [entries[|entries| - 1]];
    }
  }

  lemma {:induction false} FilesOfOne(listed: seq<Untracked>, e: Untracked)
    requires AllPatches(listed) && (forall x :: x in listed ==> OwnPatch(x)) && DistinctPaths(listed) && e in listed
    ensures CountAt(FilesOf(listed), e.path) == |ParseDiff(e.reading.text)|
    ensures forall f :: f in ParseDiff(e.reading.text) ==> f in FilesOf(listed)
    ensures forall f :: f in FilesOf(listed) && f.path == e.path ==> f in ParseDiff(e.reading.text)
  {
    var init, last := listed[..|listed| - 1], listed[|listed| - 1];
    assert OwnPatch(last) && OwnPatch(e);
    hide ParseDiff, CountAt;
    CountConcat(FilesOf(init), ParseDiff(last.reading.text), e.path);
    CountSmall(ParseDiff(last.reading.text), e.path);
    if e == last {
      OthersElsewhere(init, e.path);
      CountOne(ParseDiff(e.reading.text), e.path);
    } else {
      assert e in init;
      FilesOfOne(init, e);
    }
  }

  lemma {:induction false} OthersElsewhere(listed: seq<Untracked>, path: string)
    requires AllPatches(listed) && (forall x :: x in listed ==> OwnPatch(x) && x.path != path)
    ensures CountAt(FilesOf(listed), path) == 0
    ensures forall f :: f in FilesOf(listed) ==> f.path != path
  {
    if |listed| > 0 {
      var init, last := listed[..|listed| - 1], listed[|listed| - 1];
      assert OwnPatch(last) && last.path != path;
      hide ParseDiff, CountAt;
      OthersElsewhere(init, path);
      CountConcat(FilesOf(init), ParseDiff(last.reading.text), path);
      CountSmall(ParseDiff(last.reading.text), path);
    } else {
      CountSmall([], path);
    }
  }

  lemma CountOne(files: seq<DiffFile>, path: string)
    requires |files| <= 1 && forall f :: f in files ==> f.path == path
    ensures CountAt(files, path) == |files|
  {
    if |files| == 1 {
      assert files[0] in files;
      assert files[..0] == [];
    }
  }

  lemma {:induction false} OutsideIs(files: seq<DiffFile>, omitted: set<string>, f: DiffFile)
    ensures f in FilesOutside(files, omitted) <==> f in files && f.path !in omitted
  {
    if |files| > 0 { OutsideIs(files[1..], omitted, f); }
  }

  lemma UntrackedIn(base: string, entries: seq<Untracked>, e: Untracked)
    requires Filterable(base) && DistinctPaths(entries) && e in entries && e.reading.Patch? && e.reading.text != ""
    requires forall x :: x in entries && x.reading.Patch? && x.reading.text != "" ==> Printed(x)
    ensures var files := ParseDiff(Assembled(base, entries));
            && CountAt(files, e.path) == |ParseDiff(e.reading.text)|
            && (forall f :: f in files && f.path == e.path ==> f in ParseDiff(e.reading.text))
  {
    SnapshotListsUntrackedOnce(base, entries);
    ListedExactly(entries, e);
    ListedDistinct(entries);
    AllOwn(entries);
    hide Assembled, ParseDiff, OwnPatch, CountAt, Printed, Filterable, FilesOutside, Listed, FilesOf, DistinctPaths, PathsOf;
    InSnapshot(ParseDiff(base), Listed(entries), e);
  }

  lemma InSnapshot(tracked: seq<DiffFile>, listed: seq<Untracked>, e: Untracked)
    requires AllPatches(listed) && (forall x :: x in listed ==> OwnPatch(x)) && DistinctPaths(listed) && e in listed
    ensures var files := FilesOutside(tracked, PathsOf(listed)) + FilesOf(listed);
            && CountAt(files, e.path) == |ParseDiff(e.reading.text)|
            && (forall f :: f in files && f.path == e.path ==> f in ParseDiff(e.reading.text))
  {
    var kept := FilesOutside(tracked, PathsOf(listed));
    assert e.path in PathsOf(listed);
    FilesOfOne(listed, e);
    CountConcat(kept, FilesOf(listed), e.path);
    NoneOutside(tracked, PathsOf(listed), e.path);
    hide ParseDiff, OwnPatch, CountAt, FilesOutside, FilesOf, DistinctPaths, PathsOf;
    forall f | f in kept
      ensures f.path != e.path
    {
      OutsideIs(tracked, PathsOf(listed), f);
    }
  }

  lemma RelabelledReads(e: Untracked, s: Section)
    requires OwnSection(s) && e.reading == Patch(Relabel(ShowPatch([s]), e.path))
    ensures e.reading.text != "" && |ParseDiff(e.reading.text)| == (if s.change.Some? then 1 else 0)
    ensures forall f :: f in ParseDiff(e.reading.text) ==> s.change.Some? && HasHunks(f, s.change.value.hunks)
  {
    RelabelledIsRead(s, e.path);
    RelabelledOpens(s, e.path);
    hide *;
  }

  lemma RelabelledOpens(s: Section, path: string)
    requires OwnSection(s)
    ensures Relabel(ShowPatch([s]), path) != ""
  {
    RelabelledIsOwn(s, path);
    hide Relabel, ShowPatch, ParseDiff;
    assert |DIFF_GIT| > 0;
  }

  lemma AllOwn(entries: seq<Untracked>)
    requires forall x :: x in entries && x.reading.Patch? && x.reading.text != "" ==> Printed(x)
    ensures AllPatches(Listed(entries)) && forall x :: x in Listed(entries) ==> OwnPatch(x)
  {
    ListedArePatches(entries);
    hide OwnPatch, Relabel, Listed;
    forall x | x in Listed(entries)
      ensures OwnPatch(x)
    {
      assert Printed(x);
      var s :| OwnSection(s) && x.reading.text == Relabel(ShowPatch([s]), x.path);
      RelabelledIsOwn(s, x.path);
    }
  }

  /** An untracked file whose patch was read is in the snapshot exactly once, under its own path and with the ranges
      and lines of its patch, or not at all if the patch changes no lines; and a tracked change is in it exactly if
      no untracked path with a patch has its name. */
  lemma SnapshotShowsUntracked(base: string, entries: seq<Untracked>, e: Untracked, s: Section)
    requires Filterable(base) && DistinctPaths(entries) && e in entries && OwnSection(s)
    requires e.reading == Patch(Relabel(ShowPatch([s]), e.path))
    requires forall x :: x in entries && x.reading.Patch? && x.reading.text != "" ==> Printed(x)
    ensures var files := ParseDiff(Assembled(base, entries));
            && CountAt(files, e.path) == (if s.change.Some? then 1 else 0)
            && (forall f :: f in files && f.path == e.path ==> s.change.Some? && HasHunks(f, s.change.value.hunks))
  {
    hide *;
    RelabelledReads(e, s);
    UntrackedIn(base, entries, e);
  }

  /** Tracked changes stay exactly unless an untracked path with a patch has their name. */
  lemma SnapshotShowsTracked(base: string, entries: seq<Untracked>, f: DiffFile)
    requires Filterable(base) && DistinctPaths(entries)
    requires forall x :: x in entries && x.reading.Patch? && x.reading.text != "" ==> Printed(x)
    requires forall x :: x in entries && x.reading.Patch? && x.reading.text != "" ==> x.path != f.path
    ensures f in ParseDiff(Assembled(base, entries)) <==> f in ParseDiff(base)
  {
    var listed := Listed(entries);
    SnapshotListsUntrackedOnce(base, entries);
    AllOwn(entries);
    hide Assembled, ParseDiff, OwnPatch, Printed, Filterable, FilesOutside, Listed, FilesOf;
    forall x {:trigger x in listed}
      ensures x in listed ==> x in entries && x.path != f.path
    {
      ListedExactly(entries, x);
    }
    OutsideIs(ParseDiff(base), PathsOf(listed), f);
    OthersElsewhere(listed, f.path);
  }
}
