/** Which targets are accepted and which annotations are current, told from the printed patch alone: from the names
    in its marker lines and the new sides of its hunks. */
module ValidationOutcomes {
  import opened Prelude
  import opened PatchParser
  import opened PatchPrinter
  import opened Annotations
  import opened DiffValidation

  /** The snapshot that freezes this printed patch. */
  ghost predicate Freezes(s: Snapshot, sections: seq<Section>) {
    AllGood(sections) && s.files == ParseDiff(ShowPatch(sections))
  }

  ghost predicate AllNames(changes: seq<FileDiff>) {
    forall f :: f in changes ==> GoodNames(f)
  }

  /** The change at `i` is the first one read under this path. */
  ghost predicate FirstNamed(changes: seq<FileDiff>, path: string, i: nat)
    requires AllNames(changes)
  {
    && i < |changes| && PathRead(changes[i]) == path
    && forall j :: 0 <= j < i ==> PathRead(changes[j]) != path
  }

  /** The new side of one hunk has all lines of the range. */
  predicate InHunk(f: FileDiff, r: Span) {
    exists h :: h in f.hunks && h.after.count > 0 && h.after.start <= r.start && r.end <= h.after.start + h.after.count - 1
  }

  predicate PrintedAt(f: FileDiff, n: int, line: string) {
    exists h :: h in f.hunks && 0 <= n - h.after.start < |NewTexts(h.lines)| && line == StripReturn(NewTexts(h.lines)[n - h.after.start])
  }

  /** These are the new-side lines of the range, as printed but for a carriage return at their ends. */
  ghost predicate PrintedLines(f: FileDiff, r: Span, lines: seq<string>) {
    |lines| == r.end - r.start + 1 && forall k :: 0 <= k < |lines| ==> PrintedAt(f, r.start + k, lines[k])
  }

  // ----- Finding a file and a hunk -----

  lemma {:induction false} FoundIs(files: seq<DiffFile>, path: string, i: nat)
    requires i < |files| && files[i].path == path && forall j :: 0 <= j < i ==> files[j].path != path
    ensures FindFile(files, path) == Some(files[i])
  {
    if i > 0 { FoundIs(files[1..], path, i - 1); }
  }

  lemma FirstOne(changes: seq<FileDiff>, path: string) returns (i: nat)
    requires AllNames(changes)
    ensures FirstNamed(changes, path, i) || (i == |changes| && forall f :: f in changes ==> PathRead(f) != path)
  {
    hide GoodNames, PathRead;
    i := 0;
    while i < |changes| && PathRead(changes[i]) != path
      invariant i <= |changes| && forall j :: 0 <= j < i ==> PathRead(changes[j]) != path
    {
      i := i + 1;
    }
  }

  lemma {:induction false} RangesAre(hunks: seq<Hunk>, c: Range)
    ensures c in RangesOf(hunks) <==>
              exists h :: h in hunks && h.after.count > 0 && c == Range(h.after.start, h.after.start + h.after.count - 1)
  {
    if |hunks| > 0 {
      RangesAre(hunks[..|hunks| - 1], c);
      assert hunks == hunks[..|hunks| - 1] + [hunks[|hunks| - 1]];
    }
  }

  lemma ContainsIs(f: FileDiff, found: DiffFile, r: Span)
    requires HasHunks(found, f.hunks)
    ensures Contains(found.newRanges, r) <==> InHunk(f, r)
  {
    hide HasHunks, RangesOf;
    assert found.newRanges == RangesOf(f.hunks) by { HunkRanges(f, found); }
    if Contains(found.newRanges, r) {
      var c :| c in found.newRanges && c.start <= r.start && r.end <= c.end;
      RangesAre(f.hunks, c);
    }
    if InHunk(f, r) {
      var h :| h in f.hunks && h.after.count > 0 && h.after.start <= r.start && r.end <= h.after.start + h.after.count - 1;
      var c := Range(h.after.start, h.after.start + h.after.count - 1);
      RangesAre(f.hunks, c);
      assert c in found.newRanges;
    }
  }

  lemma HunkRanges(f: FileDiff, found: DiffFile)
    requires HasHunks(found, f.hunks)
    ensures found.newRanges == RangesOf(f.hunks)
  {
  }

  /** What the snapshot of a printed patch has under a path. */
  lemma SnapshotShows(s: Snapshot, sections: seq<Section>, path: string) returns (i: nat)
    requires Freezes(s, sections)
    ensures var changes := Changes(sections);
            if FindFile(s.files, path).None? then forall f :: f in changes ==> PathRead(f) != path
            else FirstNamed(changes, path, i) && GoodFile(changes[i]) && HasHunks(FindFile(s.files, path).value, changes[i].hunks)
  {
    var changes := Changes(sections);
    ParsePrinted(sections);
    ChangesAreGood(sections);
    hide AllGood, GoodFile, HasHunks, PathRead, ParseDiff, ShowPatch, Changes;
    i := FirstOne(changes, path);
    PathsRead(changes);
    if i < |changes| {
      FoundIs(s.files, path, i);
      FileIsReadBack(changes[i]);
    } else {
      NotFound(s.files, path);
    }
  }

  lemma PathsRead(changes: seq<FileDiff>)
    requires forall f :: f in changes ==> GoodFile(f)
    ensures AllNames(changes)
    ensures forall i :: 0 <= i < |changes| ==> FilesRead(changes)[i].path == PathRead(changes[i])
  {
    hide NewTexts, RangesOf, PathRead, GoodHunk, AddHunks, GoodNames;
    assert AllNames(changes) by {
      forall f | f in changes
        ensures GoodNames(f)
      {
        assert GoodFile(f);
      }
    }
    forall i | 0 <= i < |changes|
      ensures FilesRead(changes)[i].path == PathRead(changes[i])
    {
      assert GoodFile(changes[i]);
      HunksAre(PathRead(changes[i]), changes[i].hunks);
    }
  }

  lemma {:induction false} NotFound(files: seq<DiffFile>, path: string)
    requires forall i :: 0 <= i < |files| ==> files[i].path != path
    ensures FindFile(files, path).None?
  {
    if |files| > 0 { NotFound(files[1..], path); }
  }

  // ----- The anchored lines -----

  lemma PrintedIsRead(f: FileDiff, found: DiffFile, n: int, line: string)
    requires HasHunks(found, f.hunks) && PrintedAt(f, n, line)
    ensures HasLine(found, n) && found.newLines[n] == line
  {
    var h :| h in f.hunks && 0 <= n - h.after.start < |NewTexts(h.lines)| && line == StripReturn(NewTexts(h.lines)[n - h.after.start]);
    hide NewTexts, StripReturn;
    assert HasText(found, h, n - h.after.start);
  }

  lemma ReadIsPrinted(f: FileDiff, found: DiffFile, n: int)
    requires GoodFile(f) && HasHunks(found, f.hunks) && HasLine(found, n)
    ensures PrintedAt(f, n, found.newLines[n])
  {
    var h :| h in f.hunks && Covers(h, n);
    assert GoodHunk(h);
    hide NewTexts, StripReturn;
    assert HasText(found, h, n - h.after.start);
  }

  /** A range inside a hunk is anchored to the lines printed there. */
  lemma AnchorIs(f: FileDiff, found: DiffFile, path: string, r: Span, anchor: Digest)
    requires GoodFile(f) && HasHunks(found, f.hunks)
    ensures SnapshotAnchor(found, path, r) == Some(anchor)
            <==> exists lines :: PrintedLines(f, r, lines) && AnchorForLines(path, r, lines) == Some(anchor)
  {
    hide HasHunks, GoodFile, PrintedAt, AnchorForLines;
    if SnapshotAnchor(found, path, r) == Some(anchor) {
      var lines := LinesOf(found, r.start, r.end);
      LinesArePrinted(f, found, path, r, anchor);
    }
    if lines :| PrintedLines(f, r, lines) && AnchorForLines(path, r, lines) == Some(anchor) {
      PrintedAreLines(f, found, r, lines);
    }
  }

  lemma LinesArePrinted(f: FileDiff, found: DiffFile, path: string, r: Span, anchor: Digest)
    requires GoodFile(f) && HasHunks(found, f.hunks) && SnapshotAnchor(found, path, r) == Some(anchor)
    ensures Addressed(found, r.start, r.end) && PrintedLines(f, r, LinesOf(found, r.start, r.end))
    ensures AnchorForLines(path, r, LinesOf(found, r.start, r.end)) == Some(anchor)
  {
    hide HasHunks, GoodFile, PrintedAt;
    var lines := LinesOf(found, r.start, r.end);
    forall k | 0 <= k < |lines|
      ensures PrintedAt(f, r.start + k, lines[k])
    {
      ReadIsPrinted(f, found, r.start + k);
    }
  }

  lemma PrintedAreLines(f: FileDiff, found: DiffFile, r: Span, lines: seq<string>)
    requires HasHunks(found, f.hunks) && PrintedLines(f, r, lines)
    ensures Addressed(found, r.start, r.end) && LinesOf(found, r.start, r.end) == lines
  {
    hide HasHunks, PrintedAt;
    forall n | r.start <= n <= r.end
      ensures HasLine(found, n) && found.newLines[n] == lines[n - r.start]
    {
      PrintedIsRead(f, found, n, lines[n - r.start]);
    }
  }

  // ----- Revalidation -----

  /** The annotation's range lies in a hunk of the first change under its path, and its anchor is that of the lines
      printed there. */
  ghost predicate AnchoredIn(changes: seq<FileDiff>, path: string, r: Span, anchor: Digest)
    requires AllNames(changes)
  {
    exists i: nat, lines ::
      && FirstNamed(changes, path, i) && InHunk(changes[i], r)
      && PrintedLines(changes[i], r, lines) && AnchorForLines(path, r, lines) == Some(anchor)
  }

  lemma FirstIsOne(changes: seq<FileDiff>, path: string, i: nat, j: nat)
    requires AllNames(changes) && FirstNamed(changes, path, i) && FirstNamed(changes, path, j)
    ensures i == j
  {
    hide GoodNames, PathRead;
  }

  /** Against the snapshot of a printed patch an annotation is current exactly if it belongs to the repository and
      is anchored to the lines that one hunk of the first change under its path prints in its range. */
  lemma CurrentExactly(s: Snapshot, sections: seq<Section>, a: Annotation)
    requires Freezes(s, sections)
    ensures IsCurrent(s, a) <==> a.repository == s.repository && AnchoredIn(Changes(sections), a.path, a.newRange, a.anchor)
  {
    var changes := Changes(sections);
    var i := SnapshotShows(s, sections, a.path);
    var file := FindFile(s.files, a.path);
    hide Freezes, HasHunks, GoodFile, InHunk, Contains, SnapshotAnchor, PrintedLines, AnchorForLines, FindFile, PathRead, Changes, GoodNames;
    if file.Some? {
      ContainsIs(changes[i], file.value, a.newRange);
      AnchorIs(changes[i], file.value, a.path, a.newRange, a.anchor);
      forall j: nat | FirstNamed(changes, a.path, j)
        ensures j == i
      {
        FirstIsOne(changes, a.path, i, j);
      }
      hide FirstNamed;
    }
  }

  // ----- Validation -----

  /** The target names a described file, and its range lies in one hunk of the first change of that name. */
  ghost predicate Fits(changes: seq<FileDiff>, rules: PathRules, t: Target)
    requires AllNames(changes)
  {
    && rules(t.path).Some? && 1 <= t.range.start <= t.range.end
    && exists i: nat :: FirstNamed(changes, rules(t.path).value, i) && InHunk(changes[i], t.range)
  }

  ghost predicate AcceptedAs(changes: seq<FileDiff>, rules: PathRules, t: Target, v: Valid)
    requires AllNames(changes)
  {
    && rules(t.path) == Some(v.path) && v.newRange == t.range && v.summary == t.summary && v.rationale == t.rationale
    && AnchoredIn(changes, v.path, v.newRange, v.anchor)
  }

  /** Why a target does not fit. */
  ghost predicate RefusedAs(changes: seq<FileDiff>, rules: PathRules, t: Target, issue: Issue)
    requires AllNames(changes)
  {
    var path, sound := rules(t.path), 1 <= t.range.start <= t.range.end;
    && issue.range == t.range && issue.path == (if path.Some? then path.value else t.path)
    && match issue.reason
       case OutsideRepository => path.None?
       case BadRange => path.Some? && !sound
       case NotInDiff => path.Some? && sound && forall f :: f in changes ==> PathRead(f) != path.value
       case OutsideHunks =>
         path.Some? && sound && exists i: nat :: FirstNamed(changes, path.value, i) && !InHunk(changes[i], t.range)
       case NotAddressed => false
  }

  /** One target is accepted if it fits, and refused for its reason if it does not. */
  ghost predicate Checked(s: Snapshot, changes: seq<FileDiff>, rules: PathRules, t: Target)
    requires AllNames(changes)
  {
    var check := FirstCheck(s, rules, t);
    && (check.Ok? <==> Fits(changes, rules, t))
    && (check.Ok? ==> SecondCheck(check.value).Ok? && AcceptedAs(changes, rules, t, SecondCheck(check.value).value))
    && (check.Err? ==> RefusedAs(changes, rules, t, check.error))
  }

  lemma OneTarget(s: Snapshot, sections: seq<Section>, rules: PathRules, t: Target)
    requires Freezes(s, sections)
    ensures AllNames(Changes(sections)) && Checked(s, Changes(sections), rules, t)
  {
    var changes := Changes(sections);
    if rules(t.path).Some? {
      var path := rules(t.path).value;
      var i := SnapshotShows(s, sections, path);
      var file := FindFile(s.files, path);
      assert AllNames(changes);
      hide *;
      if file.None? {
        NotNamed(s, changes, rules, t);
      } else {
        NamedTarget(s, changes, rules, t, i);
      }
    } else {
      hide *;
      OutsideTarget(s, changes, rules, t);
    }
  }

  lemma OutsideTarget(s: Snapshot, changes: seq<FileDiff>, rules: PathRules, t: Target)
    requires AllNames(changes) && rules(t.path).None?
    ensures Checked(s, changes, rules, t)
  {
  }

  lemma NotNamed(s: Snapshot, changes: seq<FileDiff>, rules: PathRules, t: Target)
    requires AllNames(changes) && rules(t.path).Some? && FindFile(s.files, rules(t.path).value).None?
    requires forall f :: f in changes ==> PathRead(f) != rules(t.path).value
    ensures Checked(s, changes, rules, t)
  {
    hide FindFile, PathRead, GoodNames, InHunk;
    assert forall j: nat :: !FirstNamed(changes, rules(t.path).value, j);
  }

  lemma NamedTarget(s: Snapshot, changes: seq<FileDiff>, rules: PathRules, t: Target, i: nat)
    requires AllNames(changes) && rules(t.path).Some? && FirstNamed(changes, rules(t.path).value, i) && GoodFile(changes[i])
    requires var file := FindFile(s.files, rules(t.path).value); file.Some? && HasHunks(file.value, changes[i].hunks)
    ensures Checked(s, changes, rules, t)
  {
    var path, file := rules(t.path).value, FindFile(s.files, rules(t.path).value).value;
    assert i < |changes|;
    hide *;
    ContainsIs(changes[i], file, t.range);
    OnlyFits(changes, rules, t, i);
    NamedRefused(changes, rules, t, i);
    if ValidSpan(t.range) && InHunk(changes[i], t.range) { InsideIsAnchored(changes, i, file, path, t.range); }
    NamedChecked(s, changes, rules, t, i, file);
  }

  lemma NamedChecked(s: Snapshot, changes: seq<FileDiff>, rules: PathRules, t: Target, i: nat, file: DiffFile)
    requires AllNames(changes) && i < |changes| && rules(t.path).Some?
    requires FindFile(s.files, rules(t.path).value) == Some(file)
    requires Contains(file.newRanges, t.range) <==> InHunk(changes[i], t.range)
    requires Fits(changes, rules, t) <==> ValidSpan(t.range) && InHunk(changes[i], t.range)
    requires var path, anchor := rules(t.path).value, SnapshotAnchor(file, rules(t.path).value, t.range);
             && (Fits(changes, rules, t) ==> anchor.Some? && AnchoredIn(changes, path, t.range, anchor.value))
             && (!ValidSpan(t.range) ==> RefusedAs(changes, rules, t, Issue(path, t.range, BadRange)))
             && (ValidSpan(t.range) && !InHunk(changes[i], t.range) ==> RefusedAs(changes, rules, t, Issue(path, t.range, OutsideHunks)))
    ensures Checked(s, changes, rules, t)
  {
    NamedCheck(s, rules, t, file);
    hide Contains, SnapshotAnchor, FindFile, AnchoredIn, Fits, FirstCheck, SecondCheck, RefusedAs, AllNames, InHunk;
  }

  lemma NamedRefused(changes: seq<FileDiff>, rules: PathRules, t: Target, i: nat)
    requires AllNames(changes) && rules(t.path).Some? && FirstNamed(changes, rules(t.path).value, i) && i < |changes|
    ensures !ValidSpan(t.range) ==> RefusedAs(changes, rules, t, Issue(rules(t.path).value, t.range, BadRange))
    ensures ValidSpan(t.range) && !InHunk(changes[i], t.range)
            ==> RefusedAs(changes, rules, t, Issue(rules(t.path).value, t.range, OutsideHunks))
  {
    hide InHunk, FirstNamed, GoodNames, PathRead;
  }

  lemma NamedCheck(s: Snapshot, rules: PathRules, t: Target, file: DiffFile)
    requires rules(t.path).Some? && FindFile(s.files, rules(t.path).value) == Some(file)
    ensures var path, anchor := rules(t.path).value, SnapshotAnchor(file, rules(t.path).value, t.range);
            if !ValidSpan(t.range) then FirstCheck(s, rules, t) == Err(Issue(path, t.range, BadRange))
            else if !Contains(file.newRanges, t.range) then FirstCheck(s, rules, t) == Err(Issue(path, t.range, OutsideHunks))
            else
              && FirstCheck(s, rules, t) == Ok(Candidate(t, path, file))
              && (anchor.Some? ==> SecondCheck(Candidate(t, path, file))
                                   == Ok(Valid(path, t.range, anchor.value, t.summary, t.rationale)))
  {
    hide Contains, SnapshotAnchor, FindFile;
  }

  lemma OnlyFits(changes: seq<FileDiff>, rules: PathRules, t: Target, i: nat)
    requires AllNames(changes) && rules(t.path).Some? && FirstNamed(changes, rules(t.path).value, i) && i < |changes|
    ensures Fits(changes, rules, t) <==> ValidSpan(t.range) && InHunk(changes[i], t.range)
  {
    hide InHunk, PathRead, GoodNames;
  }

  lemma InsideIsAnchored(changes: seq<FileDiff>, i: nat, found: DiffFile, path: string, r: Span)
    requires AllNames(changes) && FirstNamed(changes, path, i) && GoodFile(changes[i]) && HasHunks(found, changes[i].hunks)
    requires ValidSpan(r) && InHunk(changes[i], r)
    ensures SnapshotAnchor(found, path, r).Some? && AnchoredIn(changes, path, r, SnapshotAnchor(found, path, r).value)
  {
    assert i < |changes|;
    hide GoodFile, InHunk, Contains, SnapshotAnchor, PathRead, GoodNames, PrintedLines, AnchorForLines, HasHunks, FirstNamed;
    ContainsIs(changes[i], found, r);
    ContainmentIsEnough(changes[i].hunks, found, path, r);
    AnchorIs(changes[i], found, path, r, SnapshotAnchor(found, path, r).value);
  }

  /** The accepted targets are the fitting ones in their order, each anchored to the printed lines of its range. */
  ghost predicate AcceptedInOrder(changes: seq<FileDiff>, rules: PathRules, targets: seq<Target>, valid: seq<Valid>)
    requires AllNames(changes)
  {
    var places := Positions(targets, t => Fits(changes, rules, t), true);
    |valid| == |places| && forall k :: 0 <= k < |places| ==> AcceptedAs(changes, rules, targets[places[k]], valid[k])
  }

  /** The issues are those of the other targets, in their order. */
  ghost predicate RefusedInOrder(changes: seq<FileDiff>, rules: PathRules, targets: seq<Target>, issues: seq<Issue>)
    requires AllNames(changes)
  {
    var places := Positions(targets, t => Fits(changes, rules, t), false);
    |issues| == |places| && forall k :: 0 <= k < |places| ==> RefusedAs(changes, rules, targets[places[k]], issues[k])
  }

  lemma OneMoreAccepted(changes: seq<FileDiff>, rules: PathRules, targets: seq<Target>, valid: seq<Valid>, more: seq<Valid>)
    requires AllNames(changes) && |targets| > 0
    requires AcceptedInOrder(changes, rules, targets[..|targets| - 1], valid)
    requires var t := targets[|targets| - 1];
             if Fits(changes, rules, t) then |more| == 1 && AcceptedAs(changes, rules, t, more[0]) else more == []
    ensures AcceptedInOrder(changes, rules, targets, valid + more)
  {
    hide Fits, AcceptedAs;
  }

  lemma OneMoreRefused(changes: seq<FileDiff>, rules: PathRules, targets: seq<Target>, issues: seq<Issue>, more: seq<Issue>)
    requires AllNames(changes) && |targets| > 0
    requires RefusedInOrder(changes, rules, targets[..|targets| - 1], issues)
    requires var t := targets[|targets| - 1];
             if Fits(changes, rules, t) then more == [] else |more| == 1 && RefusedAs(changes, rules, t, more[0])
    ensures RefusedInOrder(changes, rules, targets, issues + more)
  {
    hide Fits, RefusedAs;
  }

  lemma NoChangeUnnamed(sections: seq<Section>)
    requires AllGood(sections)
    ensures AllNames(Changes(sections))
  {
  }

  /** Validation against the snapshot of a printed patch accepts exactly the targets that fit and gives every other
      one its reason. */
  lemma {:induction false} ValidationIs(s: Snapshot, sections: seq<Section>, rules: PathRules, targets: seq<Target>)
    requires Freezes(s, sections)
    ensures var changes, candidates := Changes(sections), Candidates(s, rules, targets);
            && AcceptedInOrder(changes, rules, targets, Accepted(candidates))
            && RefusedInOrder(changes, rules, targets, FirstIssues(s, rules, targets) + SecondIssues(candidates))
  {
    SecondCheckRejectsNothing(s, rules, targets, sections);
    var issues := FirstIssues(s, rules, targets);
    assert issues + [] == issues;
    NoChangeUnnamed(sections);
    InOrder(s, sections, rules, targets);
  }

  lemma {:induction false} InOrder(s: Snapshot, sections: seq<Section>, rules: PathRules, targets: seq<Target>)
    requires Freezes(s, sections) && AllNames(Changes(sections))
    ensures AcceptedInOrder(Changes(sections), rules, targets, Accepted(Candidates(s, rules, targets)))
    ensures RefusedInOrder(Changes(sections), rules, targets, FirstIssues(s, rules, targets))
  {
    if |targets| > 0 {
      var init, t := targets[..|targets| - 1], targets[|targets| - 1];
      var changes, check := Changes(sections), FirstCheck(s, rules, t);
      InOrder(s, sections, rules, init);
      OneTarget(s, sections, rules, t);
      hide Freezes, AllNames, Changes, AcceptedInOrder, RefusedInOrder, FirstCheck, SecondCheck, Fits, AcceptedAs, RefusedAs;
      var before := Candidates(s, rules, init);
      if check.Ok? {
        var all := before + [check.value];
        assert all[..|all| - 1] == before;
        OneMoreAccepted(changes, rules, targets, Accepted(before), [SecondCheck(check.value).value]);
        OneMoreRefused(changes, rules, targets, FirstIssues(s, rules, init), []);
      } else {
        assert before + [] == before;
        assert Accepted(before) + [] == Accepted(before);
        OneMoreAccepted(changes, rules, targets, Accepted(before), []);
        OneMoreRefused(changes, rules, targets, FirstIssues(s, rules, init), [check.error]);
      }
    }
  }
}
