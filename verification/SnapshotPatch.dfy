/** Assembling the frozen snapshot from the tracked diff and the patches of the untracked files. */
module SnapshotPatch {
  import opened Prelude
  import opened Text
  import opened PatchParser
  import opened PatchPrinter
  import opened PatchSections
  import opened SectionFilter

  // ----- Appending -----

  function AppendPatch(target: string, addition: string): string {
    if addition == "" then target
    else if target == "" || EndsLine(target) then target + addition
    else target + "\n" + addition
  }

  /** What reading one untracked path came to. */
  datatype Reading = Unreadable | NoFile | Patch(text: string)

  datatype Untracked = Untracked(path: string, reading: Reading)

  function Listed(entries: seq<Untracked>): seq<Untracked> {
    if |entries| == 0 then []
    else
      var e := entries[|entries| - 1];
      Listed(entries[..|entries| - 1]) + (if e.reading.Patch? && e.reading.text != "" then [e] else [])
  }

  /** The paths a warning is given for, in order. */
  function Warned(entries: seq<Untracked>): seq<string> {
    if |entries| == 0 then []
    else
      var e := entries[|entries| - 1];
      Warned(entries[..|entries| - 1]) + (if e.reading.Patch? then [] else [e.path])
  }

  ghost predicate AllPatches(listed: seq<Untracked>) {
    forall e :: e in listed ==> e.reading.Patch?
  }

  function PathsOf(listed: seq<Untracked>): set<string> {
    set e | e in listed :: e.path
  }

  function AppendAll(patch: string, listed: seq<Untracked>): string
    requires AllPatches(listed)
  {
    if |listed| == 0 then patch
    else AppendPatch(AppendAll(patch, listed[..|listed| - 1]), listed[|listed| - 1].reading.text)
  }

  lemma {:induction false} ListedArePatches(entries: seq<Untracked>)
    ensures AllPatches(Listed(entries))
    ensures forall e :: e in Listed(entries) ==> e in entries && e.reading.text != ""
  {
    if |entries| > 0 { ListedArePatches(entries[..|entries| - 1]); }
  }

  function Assembled(base: string, entries: seq<Untracked>): string {
    ListedArePatches(entries);
    AppendAll(OmitPaths(base, PathsOf(Listed(entries))), Listed(entries))
  }

  /** The two loops that collect the untracked patches and put the snapshot together. */
  method AssemblePatch(base: string, entries: seq<Untracked>) returns (patch: string, warnings: seq<string>)
    ensures patch == Assembled(base, entries) && warnings == Warned(entries)
  {
    hide OmitPaths, AppendPatch;
    var listed: seq<Untracked> := [];
    warnings := [];
    for i := 0 to |entries|
      invariant listed == Listed(entries[..i]) && warnings == Warned(entries[..i])
    {
      assert entries[..i + 1][..i] == entries[..i];
      var e := entries[i];
      match e.reading
      case Unreadable => warnings := warnings + [e.path];
      case NoFile => warnings := warnings + [e.path];
      case Patch(text) => if text != "" { listed := listed + [e]; }
    }
    assert entries[..|entries|] == entries;
    ListedArePatches(entries);
    patch := OmitPaths(base, PathsOf(listed));
    ghost var kept := patch;
    for i := 0 to |listed|
      invariant patch == AppendAll(kept, listed[..i])
    {
      assert listed[..i + 1][..i] == listed[..i];
      patch := AppendPatch(patch, listed[i].reading.text);
    }
    assert listed[..|listed|] == listed;
  }

  /** The patch of one untracked file: a section of its own that changes that file, or nothing. */
  ghost predicate OwnPatch(e: Untracked) {
    && e.reading.Patch?
    && DIFF_GIT <= e.reading.text
    && |ParseDiff(e.reading.text)| <= 1
    && (forall f :: f in ParseDiff(e.reading.text) ==> f.path == e.path)
  }

  lemma AppendParses(target: string, addition: string)
    requires DIFF_GIT <= addition
    ensures ParseDiff(AppendPatch(target, addition)) == ParseDiff(target) + ParseDiff(addition)
  {
    if target == "" || EndsLine(target) {
      ParseDistributes(target, addition);
    } else {
      var a := target + "\n";
      hide ParseDiff;
      ParseDistributes(a, addition);
      LineFeedAdded(target);
    }
  }

  lemma LineFeedAdded(target: string)
    ensures ParseDiff(target + "\n") == ParseDiff(target)
  {
    var a := target + "\n";
    FinalLineFeed(a);
    assert a[..|a| - 1] == target;
  }

  function FilesOf(listed: seq<Untracked>): seq<DiffFile>
    requires AllPatches(listed)
  {
    if |listed| == 0 then []
    else FilesOf(listed[..|listed| - 1]) + ParseDiff(listed[|listed| - 1].reading.text)
  }

  lemma {:induction false} AppendAllParses(patch: string, listed: seq<Untracked>)
    requires AllPatches(listed) && forall e :: e in listed ==> OwnPatch(e)
    ensures ParseDiff(AppendAll(patch, listed)) == ParseDiff(patch) + FilesOf(listed)
  {
    hide ParseDiff, AppendPatch;
    if |listed| == 0 {
      assert ParseDiff(patch) + [] == ParseDiff(patch);
    } else {
      assert OwnPatch(listed[|listed| - 1]);
      AppendAllParses(patch, listed[..|listed| - 1]);
      AppendParses(AppendAll(patch, listed[..|listed| - 1]), listed[|listed| - 1].reading.text);
    }
  }

  function CountAt(files: seq<DiffFile>, path: string): nat {
    if |files| == 0 then 0 else CountAt(files[..|files| - 1], path) + if files[|files| - 1].path == path then 1 else 0
  }

  lemma {:induction false} CountConcat(a: seq<DiffFile>, b: seq<DiffFile>, path: string)
    ensures CountAt(a + b, path) == CountAt(a, path) + CountAt(b, path)
  {
    if |b| == 0 {
      assert a + b == a;
    } else {
      assert (a + b)[..|a + b| - 1] == a + b[..|b| - 1];
      CountConcat(a, b[..|b| - 1], path);
    }
  }

  lemma {:induction false} NoneOutside(files: seq<DiffFile>, omitted: set<string>, path: string)
    requires path in omitted
    ensures CountAt(FilesOutside(files, omitted), path) == 0
  {
    if |files| > 0 {
      NoneOutside(files[1..], omitted, path);
      assert [] + FilesOutside(files[1..], omitted) == FilesOutside(files[1..], omitted);
      if files[0].path !in omitted {
        assert [files[0]][..0] == [];
        CountConcat([files[0]], FilesOutside(files[1..], omitted), path);
      }
    }
  }

  ghost predicate DistinctPaths(entries: seq<Untracked>) {
    forall i, j :: 0 <= i < j < |entries| ==> entries[i].path != entries[j].path
  }

  lemma {:induction false} ListedDistinct(entries: seq<Untracked>)
    requires DistinctPaths(entries)
    ensures DistinctPaths(Listed(entries))
    ensures forall e :: e in Listed(entries) ==> e in entries
  {
    if |entries| > 0 {
      var init := entries[..|entries| - 1];
      ListedDistinct(init);
      var e := entries[|entries| - 1];
      forall x | x in Listed(init)
        ensures x.path != e.path
      {
        var i :| 0 <= i < |init| && init[i] == x;
        assert entries[i] == x;
      }
    }
  }

  lemma CountSmall(files: seq<DiffFile>, path: string)
    requires |files| <= 1
    ensures CountAt(files, path) <= |files|
    ensures (forall f :: f in files ==> f.path != path) ==> CountAt(files, path) == 0
  {
    if |files| == 1 {
      assert files[0] in files;
      assert files[..0] == [];
    }
  }

  lemma {:induction false} ListedOnce(listed: seq<Untracked>, path: string)
    requires AllPatches(listed) && (forall e :: e in listed ==> OwnPatch(e)) && DistinctPaths(listed)
    ensures CountAt(FilesOf(listed), path) <= 1
    ensures (forall e :: e in listed ==> e.path != path) ==> CountAt(FilesOf(listed), path) == 0
  {
    if |listed| > 0 {
      var init, e := listed[..|listed| - 1], listed[|listed| - 1];
      assert OwnPatch(e);
      hide ParseDiff, CountAt;
      ListedOnce(init, path);
      CountConcat(FilesOf(init), ParseDiff(e.reading.text), path);
      CountSmall(ParseDiff(e.reading.text), path);
    } else {
      CountSmall([], path);
    }
  }

  /** The frozen snapshot lists the tracked changes outside the untracked paths, unchanged and in
      order, then what the untracked patches contain; no untracked path is listed twice. */
  lemma SnapshotOfOwnPatches(base: string, entries: seq<Untracked>)
    requires Filterable(base) && DistinctPaths(entries)
    requires forall e :: e in entries && e.reading.Patch? && e.reading.text != "" ==> OwnPatch(e)
    ensures AllPatches(Listed(entries))
    ensures ParseDiff(Assembled(base, entries))
            == FilesOutside(ParseDiff(base), PathsOf(Listed(entries))) + FilesOf(Listed(entries))
    ensures forall e :: e in Listed(entries) ==> CountAt(ParseDiff(Assembled(base, entries)), e.path) <= 1
  {
    var listed := Listed(entries);
    ListedArePatches(entries);
    ListedDistinct(entries);
    hide ParseDiff, CountAt;
    OmitRemovesExactly(base, PathsOf(listed));
    AppendAllParses(OmitPaths(base, PathsOf(listed)), listed);
    forall e | e in listed
      ensures CountAt(ParseDiff(Assembled(base, entries)), e.path) <= 1
    {
      var kept := FilesOutside(ParseDiff(base), PathsOf(listed));
      CountConcat(kept, FilesOf(listed), e.path);
      NoneOutside(ParseDiff(base), PathsOf(listed), e.path);
      ListedOnce(listed, e.path);
    }
  }
}
