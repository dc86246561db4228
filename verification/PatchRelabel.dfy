/** Relabelling the absolute paths of a no-index patch with a repository-relative one. */
module PatchRelabel {
  import opened Prelude
  import opened Text
  import opened GitPaths
  import opened PatchParser
  import opened PatchPrinter
  import opened SectionFilter
  import opened SnapshotPatch

  const HUNK_PREFIX := "@@ "

  predicate BeginsHunk(line: string) {
    HUNK_PREFIX <= line
  }

  function BothNames(path: string): string {
    QuotePatchPath('a', path) + " " + QuotePatchPath('b', path)
  }

  function SectionLine(path: string): string {
    DIFF_GIT + BothNames(path)
  }

  function MarkerLine(path: string): string {
    NEW_MARKER + QuotePatchPath('b', path)
  }

  /** A header line as it reads after relabelling. */
  function Relabelled(line: string, path: string): string {
    if OpensSection(line) then SectionLine(path)
    else if NamesNewFile(line) then MarkerLine(path)
    else line
  }

  /** Lines from some place on; the first hunk ends the relabelling. */
  function RelabelLines(lines: seq<string>, path: string): (r: seq<string>)
    ensures |r| == |lines|
  {
    if |lines| == 0 then []
    else if BeginsHunk(lines[0]) then lines
    else [Relabelled(lines[0], path)] + RelabelLines(lines[1..], path)
  }

  function Relabel(patch: string, path: string): string {
    Join(RelabelLines(Split(patch, '\n'), path), '\n')
  }

  lemma RelabelFirst(line: string, rest: seq<string>, path: string)
    requires !BeginsHunk(line)
    ensures RelabelLines([line] + rest, path) == [Relabelled(line, path)] + RelabelLines(rest, path)
  {
    hide Relabelled, BeginsHunk;
    assert ([line] + rest)[1..] == rest;
  }

  /** What remains to be done at line `i`. */
  function Remaining(lines: seq<string>, i: nat, path: string, inHunk: bool): seq<string>
    requires i <= |lines|
  {
    if inHunk then lines[i..] else RelabelLines(lines[i..], path)
  }

  lemma RemainingNext(lines: seq<string>, i: nat, path: string, inHunk: bool)
    requires i < |lines|
    ensures var inside := inHunk || BeginsHunk(lines[i]);
            Remaining(lines, i, path, inHunk)
            == [if inside then lines[i] else Relabelled(lines[i], path)] + Remaining(lines, i + 1, path, inside)
  {
    hide Relabelled, BeginsHunk;
    assert lines[i..] == [lines[i]] + lines[i + 1..];
    if !inHunk && !BeginsHunk(lines[i]) { RelabelFirst(lines[i], lines[i + 1..], path); }
  }

  method RelabelNoIndexPatch(patch: string, path: string) returns (relabelled: string)
    ensures relabelled == Relabel(patch, path)
  {
    var lines := Split(patch, '\n');
    var done: seq<string> := [];
    var inHunk := false;
    assert lines[0..] == lines;
    hide Split, Relabelled, BeginsHunk, RelabelLines;
    for i := 0 to |lines|
      invariant |done| == i
      invariant RelabelLines(lines, path) == done + Remaining(lines, i, path, inHunk)
    {
      hide Remaining;
      var line := lines[i];
      RemainingNext(lines, i, path, inHunk);
      if BeginsHunk(line) { inHunk := true; }
      var written := if inHunk then line else Relabelled(line, path);
      Regroup(done, [written], Remaining(lines, i + 1, path, inHunk));
      done := done + [written];
    }
    NothingRemains(lines, path, inHunk, done);
    relabelled := Join(done, '\n');
  }

  lemma NothingRemains(lines: seq<string>, path: string, inHunk: bool, done: seq<string>)
    ensures done + Remaining(lines, |lines|, path, inHunk) == done
  {
  }

  // ----- What relabelling does to the patch of one file -----

  lemma {:induction false} HeadersUntouched(headers: seq<string>, rest: seq<string>, path: string)
    requires forall header :: header in headers ==> Inert(header) && !BeginsHunk(header)
    ensures RelabelLines(headers + rest, path) == headers + RelabelLines(rest, path)
  {
    if |headers| == 0 {
      assert [] + rest == rest;
      assert [] + RelabelLines(rest, path) == RelabelLines(rest, path);
    } else {
      hide Inert, BeginsHunk, RelabelLines;
      var header, others := headers[0], headers[1..];
      assert Inert(header);
      HeadersUntouched(others, rest, path);
      InertUntouched(header, path);
      RelabelFirst(header, others + rest, path);
      Regroup([header], others, rest);
      Regroup([header], others, RelabelLines(rest, path));
      assert [header] + others == headers;
    }
  }

  lemma InertUntouched(header: string, path: string)
    requires Inert(header)
    ensures Relabelled(header, path) == header
  {
    hide HunkHeader;
  }

  lemma NotAHunk(line: string)
    requires |line| > 0 && line[0] != '@'
    ensures !BeginsHunk(line)
  {
    assert HUNK_PREFIX[0] == '@';
  }

  lemma {:induction false} HunksUntouched(hunks: seq<Hunk>, path: string)
    ensures RelabelLines(ShowHunks(hunks), path) == ShowHunks(hunks)
  {
    hide ShowSide;
    if |hunks| > 0 {
      FirstHunkLine(hunks);
    }
  }

  lemma {:induction false} FirstHunkLine(hunks: seq<Hunk>)
    requires |hunks| > 0
    ensures |ShowHunks(hunks)| > 0 && BeginsHunk(ShowHunks(hunks)[0])
  {
    if |hunks| == 1 {
      assert ShowHunks(hunks[..0]) == [];
      HeaderBegins(hunks[0]);
    } else {
      FirstHunkLine(hunks[..|hunks| - 1]);
    }
  }

  lemma HeaderBegins(h: Hunk)
    ensures BeginsHunk(ShowHeader(h))
  {
    hide ShowSide;
    var rest := "-" + ShowSide(h.before) + " +" + ShowSide(h.after) + " @@" + h.heading;
    assert ShowHeader(h) == HUNK_PREFIX + rest;
  }

  lemma OldMarkerUntouched(raw: string, path: string)
    ensures Relabelled(OLD_MARKER + raw, path) == OLD_MARKER + raw && !BeginsHunk(OLD_MARKER + raw)
  {
    var line := OLD_MARKER + raw;
    assert line[0] == '-';
    FirstCharacter(line);
    NotAHunk(line);
    hide HunkHeader;
  }

  lemma NewMarkerRelabelled(raw: string, path: string)
    ensures Relabelled(NEW_MARKER + raw, path) == MarkerLine(path) && !BeginsHunk(NEW_MARKER + raw)
  {
    var line := NEW_MARKER + raw;
    assert line[0] == '+';
    FirstCharacter(line);
    NotAHunk(line);
    MarkerLines(line, raw);
    hide HunkHeader, MarkerLine;
  }

  lemma RelabelTwo(first: string, second: string, rest: seq<string>, path: string)
    requires !BeginsHunk(first) && !BeginsHunk(second)
    ensures RelabelLines([first, second] + rest, path)
            == [Relabelled(first, path), Relabelled(second, path)] + RelabelLines(rest, path)
  {
    hide Relabelled, BeginsHunk;
    var lines := [first, second] + rest;
    assert lines[1..] == [second] + rest && lines[1..][1..] == rest;
  }

  /** The file of a no-index patch under its new name. */
  function Renamed(f: FileDiff, path: string): FileDiff {
    f.(newName := Some(WrittenLabel('b', path)))
  }

  function RenamedChange(change: Option<FileDiff>, path: string): Option<FileDiff> {
    if change.Some? then Some(Renamed(change.value, path)) else None
  }

  function RenamedSection(s: Section, path: string): Section {
    Section(BothNames(path), s.headers, RenamedChange(s.change, path))
  }

  lemma RenamedIsNamed(f: FileDiff, path: string)
    requires GoodNames(f)
    ensures GoodNames(Renamed(f, path)) && PathOf(Renamed(f, path)) == path && FaithfulName(Renamed(f, path))
    ensures NewMarker(Renamed(f, path)) == QuotePatchPath('b', path)
    ensures OldMarker(Renamed(f, path)) == OldMarker(f)
  {
    WrittenIsFaithful('b', path);
    hide WrittenLabel, GoodLabel, LabelPath, ShowMarker, Faithful, QuotePatchPath;
  }

  lemma FileRelabelled(f: FileDiff, path: string)
    requires GoodNames(f)
    ensures GoodNames(Renamed(f, path)) && RelabelLines(ShowFile(f), path) == ShowFile(Renamed(f, path))
  {
    RenamedIsNamed(f, path);
    OldMarkerUntouched(OldMarker(f), path);
    NewMarkerRelabelled(NewMarker(f), path);
    HunksUntouched(f.hunks, path);
    hide Relabelled, BeginsHunk, ShowHunks, QuotePatchPath, OldMarker, NewMarker, GoodNames;
    RelabelTwo(OLD_MARKER + OldMarker(f), NEW_MARKER + NewMarker(f), ShowHunks(f.hunks), path);
  }

  lemma OpeningRelabelled(names: string, path: string)
    ensures Relabelled(DIFF_GIT + names, path) == SectionLine(path) && !BeginsHunk(DIFF_GIT + names)
  {
    assert (DIFF_GIT + names)[0] == 'd';
    NotAHunk(DIFF_GIT + names);
    hide SectionLine;
  }

  lemma FinalEmptyLine(lines: seq<string>, path: string)
    ensures RelabelLines(lines + [""], path) == RelabelLines(lines, path) + [""]
    decreases |lines|
  {
    if |lines| == 0 {
      assert |HUNK_PREFIX| > 0 && |DIFF_GIT| > 0 && |NEW_MARKER| > 0;
      assert [] + [""] == [""];
      assert RelabelLines([""], path) == [""] + RelabelLines([""][1..], path) || RelabelLines([""], path) == [""];
    } else {
      hide Relabelled, BeginsHunk;
      FinalEmptyLine(lines[1..], path);
      assert (lines + [""])[1..] == lines[1..] + [""];
    }
  }

  lemma SectionRelabelled(s: Section, path: string)
    requires (s.change.Some? ==> GoodNames(s.change.value))
    requires forall header :: header in s.headers ==> Inert(header) && !BeginsHunk(header)
    ensures s.change.Some? ==> GoodNames(Renamed(s.change.value, path))
    ensures RelabelLines(ShowSection(s), path) == ShowSection(RenamedSection(s, path))
  {
    var first, file := DIFF_GIT + s.names, if s.change.Some? then ShowFile(s.change.value) else [];
    OpeningRelabelled(s.names, path);
    if s.change.Some? { FileRelabelled(s.change.value, path); }
    HeadersUntouched(s.headers, file, path);
    assert RelabelLines([], path) == [];
    hide Relabelled, BeginsHunk, ShowFile, BothNames, Inert, RelabelLines, GoodNames, Renamed;
    RelabelFirst(first, s.headers + file, path);
    Regroup([first], s.headers, file);
    Regroup([SectionLine(path)], s.headers, RelabelLines(file, path));
  }

  lemma RenamedFileIsGood(f: FileDiff, path: string)
    requires GoodFile(f)
    ensures GoodFile(Renamed(f, path))
  {
    RenamedIsNamed(f, path);
    WrittenNameIsPrintable('b', path);
    hide QuotePatchPath, GoodHunk, Disjoint, OldMarker, NewMarker, GoodNames;
  }

  lemma RenamedIsGood(s: Section, path: string)
    requires GoodSection(s)
    ensures GoodSection(RenamedSection(s, path))
  {
    WrittenNameIsPrintable('a', path);
    WrittenNameIsPrintable('b', path);
    if s.change.Some? { RenamedFileIsGood(s.change.value, path); }
    hide QuotePatchPath, GoodFile, Inert, Renamed;
  }

  /** A section as the no-index diff of one file prints it. */
  ghost predicate OwnSection(s: Section) {
    GoodSection(s) && forall header :: header in s.headers ==> !BeginsHunk(header)
  }

  /** Relabelling the patch of one section relabels its section and marker lines and nothing else. */
  lemma RelabelledPatch(s: Section, path: string)
    requires OwnSection(s)
    ensures GoodSection(RenamedSection(s, path))
    ensures Relabel(ShowPatch([s]), path) == ShowPatch([RenamedSection(s, path)])
  {
    var renamed := RenamedSection(s, path);
    RenamedIsGood(s, path);
    OneSection(s);
    OneSection(renamed);
    SectionRelabelled(s, path);
    SectionsAreFree([s]);
    hide ShowSection, GoodSection, RelabelLines, RenamedSection;
    FreeConcat(ShowSection(s), [""], '\n');
    SplitJoin(ShowSection(s) + [""], '\n');
    FinalEmptyLine(ShowSection(s), path);
  }

  /** The patch of one untracked file, relabelled, is read as exactly that file: the repository-relative
      path, whatever characters it contains, with the ranges and lines of the original patch. A section
      without markers, such as that of an empty file, is read as no file. */
  lemma RelabelledIsRead(s: Section, path: string)
    requires OwnSection(s)
    ensures var files := ParseDiff(Relabel(ShowPatch([s]), path));
            if s.change.Some? then |files| == 1 && files[0].path == path && HasHunks(files[0], s.change.value.hunks)
            else files == []
  {
    var renamed := RenamedSection(s, path);
    RelabelledPatch(s, path);
    assert [renamed][..0] == [];
    PatchRoundTrip([renamed]);
    if s.change.Some? { RenamedIsNamed(s.change.value, path); }
    hide GoodSection, HasHunks, ParseDiff, Relabel, ShowPatch, Renamed, GoodNames, PathOf, FaithfulName;
    assert Changes([renamed]) == [] + (if s.change.Some? then [Renamed(s.change.value, path)] else []);
  }

  lemma OneSection(s: Section)
    requires GoodSection(s)
    ensures ShowSections([s]) == ShowSection(s)
  {
    hide ShowSection;
    assert [s][..0] == [];
    assert [] + ShowSection(s) == ShowSection(s);
  }

  // ----- The snapshot of printed patches -----

  /** The patch of an untracked file as the loader gets it: one section of a no-index diff, relabelled. */
  ghost predicate Printed(e: Untracked) {
    e.reading.Patch? && exists s :: OwnSection(s) && e.reading.text == Relabel(ShowPatch([s]), e.path)
  }

  lemma OwnOf(text: string, path: string)
    requires DIFF_GIT <= text && |ParseDiff(text)| <= 1
    requires |ParseDiff(text)| == 1 ==> ParseDiff(text)[0].path == path
    ensures OwnPatch(Untracked(path, Patch(text)))
  {
    hide ParseDiff;
  }

  lemma RelabelledIsOwn(s: Section, path: string)
    requires OwnSection(s)
    ensures OwnPatch(Untracked(path, Patch(Relabel(ShowPatch([s]), path))))
  {
    var text := Relabel(ShowPatch([s]), path);
    RelabelledIsRead(s, path);
    RelabelledPatch(s, path);
    hide ParseDiff, Relabel, ShowPatch, HasHunks, GoodSection, RenamedSection, OwnSection, OwnPatch;
    PatchOpens(RenamedSection(s, path));
    OwnOf(text, path);
  }

  lemma PatchOpens(s: Section)
    requires GoodSection(s)
    ensures DIFF_GIT <= ShowPatch([s])
  {
    OneSection(s);
    var lines := ShowSection(s) + [""];
    assert lines[0] == DIFF_GIT + s.names;
    hide ShowSection;
    assert |lines| > 1;
    assert Join(lines, '\n') == lines[0] + ['\n'] + Join(lines[1..], '\n');
  }

  /** The frozen snapshot lists the tracked changes outside the untracked paths, unchanged and in order, then
      the untracked files, each at its repository-relative path; no untracked path is listed twice. */
  lemma SnapshotListsUntrackedOnce(base: string, entries: seq<Untracked>)
    requires Filterable(base) && DistinctPaths(entries)
    requires forall e :: e in entries && e.reading.Patch? && e.reading.text != "" ==> Printed(e)
    ensures AllPatches(Listed(entries))
    ensures ParseDiff(Assembled(base, entries))
            == FilesOutside(ParseDiff(base), PathsOf(Listed(entries))) + FilesOf(Listed(entries))
    ensures forall e :: e in Listed(entries) ==> CountAt(ParseDiff(Assembled(base, entries)), e.path) <= 1
  {
    forall e | e in entries && e.reading.Patch? && e.reading.text != ""
      ensures OwnPatch(e)
    {
      assert Printed(e);
      var s :| OwnSection(s) && e.reading.text == Relabel(ShowPatch([s]), e.path);
      hide OwnPatch, OwnSection, Relabel, ShowPatch;
      RelabelledIsOwn(s, e.path);
    }
    hide OwnPatch, Printed, ParseDiff, Assembled, Filterable, CountAt;
    SnapshotOfOwnPatches(base, entries);
  }
}
