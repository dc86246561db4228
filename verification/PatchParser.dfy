/** Reading a unified patch into files, with the new-side ranges and lines of each. */
module PatchParser {
  import opened Prelude
  import opened Text
  import opened GitPaths

  /** An inclusive range of new-side line numbers. */
  datatype Range = Range(start: nat, end: int)

  datatype DiffFile = DiffFile(path: string, newRanges: seq<Range>, newLines: map<nat, string>)

  const DIFF_GIT := "diff --git "
  const OLD_MARKER := "--- "
  const NEW_MARKER := "+++ "

  predicate OpensSection(line: string) {
    DIFF_GIT <= line
  }

  predicate NamesOldFile(line: string): (b: bool)
    ensures b ==> |line| >= 4
  {
    OLD_MARKER <= line
  }

  predicate NamesNewFile(line: string): (b: bool)
    ensures b ==> |line| >= 4
  {
    NEW_MARKER <= line
  }

  // ----- Hunk headers -----

  datatype HunkStart = HunkStart(start: nat, count: nat)

  /** What follows `prefix` in `s`, if `s` starts with it. */
  function After(s: Option<string>, prefix: string): Option<string> {
    if s.Some? && prefix <= s.value then Some(s.value[|prefix|..]) else None
  }

  /** A decimal number and the text behind it. */
  function Number(s: Option<string>): Option<(nat, string)> {
    if s.Some? && Digits(s.value) > 0 then Some((NumberOf(s.value[..Digits(s.value)]), s.value[Digits(s.value)..]))
    else None
  }

  /** A start line with an optional count, 1 by default, and the text behind them. */
  function StartAndCount(s: Option<string>): Option<(HunkStart, string)> {
    var start := Number(s);
    if start.None? then None
    else
      var count := Number(After(Some(start.value.1), ","));
      if count.Some? then Some((HunkStart(start.value.0, count.value.0), count.value.1))
      else Some((HunkStart(start.value.0, 1), start.value.1))
  }

  /** The new side announced by a hunk header; None for any other line. */
  function HunkHeader(line: string): Option<HunkStart> {
    var before := StartAndCount(After(Some(line), "@@ -"));
    if before.None? then None
    else
      var after := StartAndCount(After(Some(before.value.1), " +"));
      if after.Some? && After(Some(after.value.1), " @@").Some? then Some(after.value.0) else None
  }

  // ----- The parser's state -----

  /** `open` says that the last file still takes ranges and lines. */
  datatype State = State(
    files: seq<DiffFile>,
    open: bool,
    oldPath: Option<string>,
    newLine: Option<nat>,
    scanning: bool)

  const START := State([], false, None, None, false)

  predicate Sound(s: State) {
    s.open ==> |s.files| > 0
  }

  function StripReturn(line: string): string {
    if |line| > 0 && line[|line| - 1] == '\r' then line[..|line| - 1] else line
  }

  function SetLast(files: seq<DiffFile>, f: DiffFile): seq<DiffFile>
    requires |files| > 0
  {
    files[|files| - 1 := f]
  }

  function Last(files: seq<DiffFile>): DiffFile
    requires |files| > 0
  {
    files[|files| - 1]
  }

  function AddRange(f: DiffFile, h: HunkStart): DiffFile {
    if h.count > 0 then f.(newRanges := f.newRanges + [Range(h.start, h.start + h.count - 1)]) else f
  }

  function AddLine(f: DiffFile, number: nat, content: string): DiffFile {
    f.(newLines := f.newLines[number := StripReturn(content)])
  }

  function NewFilePath(s: State, raw: string): Option<string> {
    var marked := ParseMarkerPath(raw, "b/");
    if marked.Some? then marked else s.oldPath
  }

  function BeginFile(s: State, path: Option<string>): (r: State)
    ensures Sound(r)
  {
    if path.Some? then s.(files := s.files + [DiffFile(path.value, [], map[])], open := true) else s.(open := false)
  }

  function BeginHunk(s: State, h: HunkStart): (r: State)
    requires Sound(s)
    ensures Sound(r)
  {
    s.(scanning := false,
       newLine := Some(h.start),
       files := if s.open then SetLast(s.files, AddRange(Last(s.files), h)) else s.files)
  }

  /** A line inside or after a hunk. */
  function BodyLine(s: State, line: string): (r: State)
    requires Sound(s)
    ensures Sound(r)
  {
    if !s.open || s.newLine.None? then s
    else if |line| > 0 && (line[0] == '+' || line[0] == ' ') then
      s.(files := SetLast(s.files, AddLine(Last(s.files), s.newLine.value, line[1..])),
         newLine := Some(s.newLine.value + 1))
    else if |line| > 0 && (line[0] == '-' || line[0] == '\\') then s
    else s.(newLine := None)
  }

  function Step(s: State, line: string): (r: State)
    requires Sound(s)
    ensures Sound(r)
  {
    if OpensSection(line) then State(s.files, false, None, None, true)
    else if s.scanning && NamesOldFile(line) then s.(oldPath := ParseMarkerPath(line[4..], "a/"))
    else if s.scanning && NamesNewFile(line) then BeginFile(s, NewFilePath(s, line[4..]))
    else if HunkHeader(line).Some? then BeginHunk(s, HunkHeader(line).value)
    else BodyLine(s, line)
  }

  function Steps(s: State, lines: seq<string>): (r: State)
    requires Sound(s)
    ensures Sound(r)
  {
    if |lines| == 0 then s else Step(Steps(s, lines[..|lines| - 1]), lines[|lines| - 1])
  }

  function ParseLines(lines: seq<string>): seq<DiffFile> {
    Steps(START, lines).files
  }

  function ParseDiff(patch: string): seq<DiffFile> {
    ParseLines(Split(patch, '\n'))
  }

  // ----- The parser as it runs -----

  /** A file while it is being read; the parser keeps writing to the last one. */
  class ParsedFile {
    const path: string
    var newRanges: seq<Range>
    var newLines: map<nat, string>

    constructor (path: string)
      ensures this.path == path && View() == DiffFile(path, [], map[])
    {
      this.path, newRanges, newLines := path, [], map[];
    }

    ghost function View(): DiffFile
      reads this
    {
      DiffFile(path, newRanges, newLines)
    }

    method PushRange(h: HunkStart)
      modifies this
      ensures View() == AddRange(old(View()), h)
    {
      if h.count > 0 { newRanges := newRanges + [Range(h.start, h.start + h.count - 1)]; }
    }

    method SetLine(number: nat, content: string)
      modifies this
      ensures View() == AddLine(old(View()), number, content)
    {
      newLines := newLines[number := StripReturn(content)];
    }
  }

  ghost function Views(files: seq<ParsedFile>): (views: seq<DiffFile>)
    reads files
    ensures |views| == |files| && forall i :: 0 <= i < |files| ==> views[i] == files[i].View()
  {
    if |files| == 0 then [] else Views(files[..|files| - 1]) + [files[|files| - 1].View()]
  }

  ghost predicate AllDistinct(files: seq<ParsedFile>) {
    forall i, j :: 0 <= i < j < |files| ==> files[i] != files[j]
  }

  lemma StepsNext(s: State, lines: seq<string>, i: nat)
    requires Sound(s) && i < |lines|
    ensures Steps(s, lines[..i + 1]) == Step(Steps(s, lines[..i]), lines[i])
  {
    assert lines[..i + 1][..i] == lines[..i];
  }

  /** The variables of the parsing loop; `current` is an alias of the last file while it is open. */
  class Reader {
    var files: seq<ParsedFile>
    var current: ParsedFile?
    var oldPath: Option<string>
    var newLine: Option<nat>
    var scanning: bool

    constructor ()
      ensures Valid() && files == [] && View() == START
    {
      files, current, oldPath, newLine, scanning := [], null, None, None, false;
    }

    ghost predicate Valid()
      reads this
    {
      AllDistinct(files) && (current != null ==> |files| > 0 && current == files[|files| - 1])
    }

    ghost function View(): (s: State)
      requires Valid()
      reads this, files
      ensures Sound(s)
    {
      State(Views(files), current != null, oldPath, newLine, scanning)
    }

    method BeginNewFile(path: Option<string>)
      requires Valid()
      modifies this
      ensures Valid() && fresh(set f | f in files && f !in old(files))
      ensures View() == BeginFile(old(View()), path)
    {
      hide Views;
      ghost var was := Views(files);
      current := null;
      if path.Some? {
        current := new ParsedFile(path.value);
        files := files + [current];
        assert Views(files) == was + [DiffFile(path.value, [], map[])];
      }
    }

    method BeginNewHunk(h: HunkStart)
      requires Valid()
      modifies this, current
      ensures Valid() && files == old(files)
      ensures View() == BeginHunk(old(View()), h)
    {
      hide Views;
      ghost var was := Views(files);
      scanning, newLine := false, Some(h.start);
      if current != null {
        current.PushRange(h);
        assert Views(files) == SetLast(was, current.View());
      }
    }

    method ReadBodyLine(line: string)
      requires Valid()
      modifies this, current
      ensures Valid() && files == old(files)
      ensures View() == BodyLine(old(View()), line)
    {
      hide StripReturn, AddLine, Views;
      ghost var was := Views(files);
      if current == null || newLine.None? { return; }
      if |line| > 0 && (line[0] == '+' || line[0] == ' ') {
        current.SetLine(newLine.value, line[1..]);
        newLine := Some(newLine.value + 1);
        assert Views(files) == SetLast(was, current.View());
      } else if |line| == 0 || (line[0] != '-' && line[0] != '\\') {
        newLine := None;
      }
    }

    method ReadLine(line: string)
      requires Valid()
      modifies this, current
      ensures Valid() && fresh(set f | f in files && f !in old(files))
      ensures View() == Step(old(View()), line)
    {
      hide HunkHeader, ParseMarkerPath, OpensSection, NamesOldFile, NamesNewFile, BeginFile, BeginHunk, BodyLine;
      if OpensSection(line) {
        current, oldPath, newLine, scanning := null, None, None, true;
      } else if scanning && NamesOldFile(line) {
        oldPath := ParseMarkerPath(line[4..], "a/");
      } else if scanning && NamesNewFile(line) {
        var marked := ParseMarkerPath(line[4..], "b/");
        BeginNewFile(if marked.Some? then marked else oldPath);
      } else {
        var hunk := HunkHeader(line);
        if hunk.Some? { BeginNewHunk(hunk.value); } else { ReadBodyLine(line); }
      }
    }
  }

  method ParseDiffFiles(patch: string) returns (files: seq<ParsedFile>)
    ensures Views(files) == ParseDiff(patch)
  {
    hide Split, Step, Views;
    var lines := Split(patch, '\n');
    var reader := new Reader();
    assert Steps(START, lines[..0]) == START;
    for i := 0 to |lines|
      invariant reader.Valid() && fresh(reader) && fresh(reader.files)
      invariant reader.View() == Steps(START, lines[..i])
    {
      hide Steps;
      StepsNext(START, lines, i);
      reader.ReadLine(lines[i]);
    }
    assert lines[..|lines|] == lines;
    files := reader.files;
  }
}
